/** How a vector is stored (src/proxy/embedding_cache.py, _pack and _unpack): the bytes of its float32
    numbers, in base64 (section 4 of RFC 4648). */
module VectorCodec {
  import opened Options

  type Byte = b: nat | b < 256
  /** The 32 bits of a number, lowest byte first. */
  datatype Float32 = Float32(b0: Byte, b1: Byte, b2: Byte, b3: Byte)
  type Vector = seq<Float32>

  // ------------------------------------------------------------------ base64

  function Digit(i: nat): char
    requires i < 64
  {
    if i < 26 then 'A' + i as char
    else if i < 52 then 'a' + (i - 26) as char
    else if i < 62 then '0' + (i - 52) as char
    else if i == 62 then '+' else '/'
  }

  function Value(c: char): (v: nat)
    requires IsDigit(c)
    ensures v < 64
  {
    if 'A' <= c <= 'Z' then (c - 'A') as nat
    else if 'a' <= c <= 'z' then (c - 'a') as nat + 26
    else if '0' <= c <= '9' then (c - '0') as nat + 52
    else if c == '+' then 62 else 63
  }

  predicate IsDigit(c: char) {
    'A' <= c <= 'Z' || 'a' <= c <= 'z' || '0' <= c <= '9' || c == '+' || c == '/'
  }

  lemma DigitValue(i: nat)
    requires i < 64
    ensures IsDigit(Digit(i)) && Value(Digit(i)) == i && Digit(i) != '='
  {
  }

  // The four six-bit digits of three bytes; bytes that are not there count as 0.

  function Digit0(x: Byte): (i: nat)
    ensures i < 64
  {
    x / 4
  }

  function Digit1(x: Byte, y: Byte): (i: nat)
    ensures i < 64
  {
    x % 4 * 16 + y / 16
  }

  function Digit2(y: Byte, z: Byte): (i: nat)
    ensures i < 64
  {
    y % 16 * 4 + z / 64
  }

  function Digit3(z: Byte): (i: nat)
    ensures i < 64
  {
    z % 64
  }

  function Base64(bytes: seq<Byte>): string {
    if bytes == [] then []
    else if |bytes| == 1 then [Digit(Digit0(bytes[0])), Digit(Digit1(bytes[0], 0)), '=', '=']
    else if |bytes| == 2 then
      [Digit(Digit0(bytes[0])), Digit(Digit1(bytes[0], bytes[1])), Digit(Digit2(bytes[1], 0)), '=']
    else
      [Digit(Digit0(bytes[0])), Digit(Digit1(bytes[0], bytes[1])), Digit(Digit2(bytes[1], bytes[2])),
       Digit(Digit3(bytes[2]))] + Base64(bytes[3..])
  }

  function First(a: nat, b: nat): Byte
    requires a < 64 && b < 64
  {
    a * 4 + b / 16
  }

  function Second(b: nat, c: nat): Byte
    requires b < 64 && c < 64
  {
    b % 16 * 16 + c / 4
  }

  function Third(c: nat, d: nat): Byte
    requires c < 64 && d < 64
  {
    c % 4 * 64 + d
  }

  /** None for text that is not groups of four digits, the last one padded. */
  function Unbase64(s: string): Option<seq<Byte>> {
    if s == [] then Some([])
    else if |s| < 4 || !IsDigit(s[0]) || !IsDigit(s[1]) then None
    else
      var a, b := Value(s[0]), Value(s[1]);
      if s[2..] == "==" then Some([First(a, b)])
      else if !IsDigit(s[2]) then None
      else
        var c := Value(s[2]);
        if s[3..] == "=" then Some([First(a, b), Second(b, c)])
        else if !IsDigit(s[3]) then None
        else
          var more := Unbase64(s[4..]);
          if more.None? then None
          else Some([First(a, b), Second(b, c), Third(c, Value(s[3]))] + more.value)
  }

  lemma Regrouped(x: Byte, y: Byte, z: Byte)
    ensures First(Digit0(x), Digit1(x, y)) == x
    ensures Second(Digit1(x, y), Digit2(y, z)) == y
    ensures Third(Digit2(y, z), Digit3(z)) == z
  {
  }

  /** The digits of three bytes are read back as the bytes. */
  lemma DigitsRead(x: Byte, y: Byte, z: Byte)
    ensures var a, b, c, d := Digit(Digit0(x)), Digit(Digit1(x, y)), Digit(Digit2(y, z)), Digit(Digit3(z));
            && IsDigit(a) && IsDigit(b) && IsDigit(c) && IsDigit(d) && c != '=' && d != '='
            && First(Value(a), Value(b)) == x && Second(Value(b), Value(c)) == y && Third(Value(c), Value(d)) == z
  {
    DigitValue(Digit0(x));
    DigitValue(Digit1(x, y));
    DigitValue(Digit2(y, z));
    DigitValue(Digit3(z));
    hide *;
    Regrouped(x, y, z);
  }

  lemma {:induction false} Base64RoundTrip(bytes: seq<Byte>)
    ensures Unbase64(Base64(bytes)) == Some(bytes)
  {
    hide Unbase64;
    hide First;
    hide Second;
    hide Third;
    hide Value;
    hide Digit;
    hide Digit0;
    hide Digit1;
    hide Digit2;
    hide Digit3;
    if |bytes| >= 3 {
      var x, y, z := bytes[0], bytes[1], bytes[2];
      DigitsRead(x, y, z);
      Base64RoundTrip(bytes[3..]);
      GroupRead(Digit(Digit0(x)), Digit(Digit1(x, y)), Digit(Digit2(y, z)), Digit(Digit3(z)), Base64(bytes[3..]));
      assert bytes == [x, y, z] + bytes[3..];
    } else if |bytes| == 2 {
      var x, y := bytes[0], bytes[1];
      DigitsRead(x, y, 0);
      TailRead(Digit(Digit0(x)), Digit(Digit1(x, y)), Digit(Digit2(y, 0)));
      assert bytes == [x, y];
    } else if |bytes| == 1 {
      var x := bytes[0];
      DigitsRead(x, 0, 0);
      TailRead(Digit(Digit0(x)), Digit(Digit1(x, 0)), Digit(Digit2(0, 0)));
      assert bytes == [x];
    } else {
      NothingRead();
    }
  }

  /** The ends of the alphabet's ranges, and the test vectors of section 10 of RFC 4648. */
  lemma KnownTexts()
    ensures Digit(0) == 'A' && Digit(25) == 'Z' && Digit(26) == 'a' && Digit(51) == 'z'
    ensures Digit(52) == '0' && Digit(61) == '9' && Digit(62) == '+' && Digit(63) == '/'
    ensures Base64([]) == "" && Base64([0x66]) == "Zg==" && Base64([0x66, 0x6f]) == "Zm8="
    ensures Base64([0x66, 0x6f, 0x6f]) == "Zm9v" && Base64([0x66, 0x6f, 0x6f, 0x62]) == "Zm9vYg=="
    ensures Base64([0x66, 0x6f, 0x6f, 0x62, 0x61]) == "Zm9vYmE="
    ensures Base64([0x66, 0x6f, 0x6f, 0x62, 0x61, 0x72]) == "Zm9vYmFy"
  {
    KnownGroups();
    hide Digit0;
    hide Digit1;
    hide Digit2;
    hide Digit3;
    var foobar: seq<Byte> := [0x66, 0x6f, 0x6f, 0x62, 0x61, 0x72];
    assert foobar[3..] == [0x62, 0x61, 0x72];
    assert foobar[..5][3..] == [0x62, 0x61] && foobar[..5] == [0x66, 0x6f, 0x6f, 0x62, 0x61];
    assert foobar[..4][3..] == [0x62] && foobar[..4] == [0x66, 0x6f, 0x6f, 0x62];
    assert foobar[..3][3..] == [] && foobar[..3] == [0x66, 0x6f, 0x6f];
    assert foobar[3..][3..] == [];
    assert Base64(foobar[3..]) == "YmFy" + Base64([]) == "YmFy";
    assert Base64(foobar[..3]) == "Zm9v" + Base64([]) == "Zm9v";
  }

  lemma KnownGroups()
    ensures Digit0(0x66) == 25 && Digit1(0x66, 0) == 32 && Digit1(0x66, 0x6f) == 38
    ensures Digit2(0x6f, 0) == 60 && Digit2(0x6f, 0x6f) == 61 && Digit3(0x6f) == 47
    ensures Digit0(0x62) == 24 && Digit1(0x62, 0) == 32 && Digit1(0x62, 0x61) == 38
    ensures Digit2(0x61, 0) == 4 && Digit2(0x61, 0x72) == 5 && Digit3(0x72) == 50
  {
  }

  lemma NothingRead()
    ensures Unbase64([]) == Some([])
  {
  }

  lemma TailRead(a: char, b: char, c: char)
    requires IsDigit(a) && IsDigit(b) && IsDigit(c)
    ensures Unbase64([a, b, '=', '=']) == Some([First(Value(a), Value(b))])
    ensures Unbase64([a, b, c, '=']) == Some([First(Value(a), Value(b)), Second(Value(b), Value(c))])
  {
    hide First;
    hide Second;
    hide Value;
    var s, t := [a, b, '=', '='], [a, b, c, '='];
    assert s[2..] == "==" && t[2..][0] == c && t[3..] == "=";
  }

  /** A full group of digits is read as three bytes. */
  lemma GroupRead(a: char, b: char, c: char, d: char, more: string)
    requires IsDigit(a) && IsDigit(b) && IsDigit(c) && IsDigit(d) && Unbase64(more).Some?
    requires c != '=' && d != '='
    ensures Unbase64([a, b, c, d] + more)
         == Some([First(Value(a), Value(b)), Second(Value(b), Value(c)), Third(Value(c), Value(d))] + Unbase64(more).value)
  {
    hide First;
    hide Second;
    hide Third;
    hide Value;
    var s := [a, b, c, d] + more;
    assert s[2..][0] == c && s[3..][0] == d && s[4..] == more;
  }

  // ------------------------------------------------------------------ numbers as bytes

  function Bytes(v: Vector): (r: seq<Byte>)
    ensures |r| == 4 * |v|
  {
    if v == [] then [] else [v[0].b0, v[0].b1, v[0].b2, v[0].b3] + Bytes(v[1..])
  }

  /** Number i takes the four bytes from 4 * i, lowest first. */
  lemma {:induction false} BytesAt(v: Vector, i: nat)
    requires i < |v|
    ensures var r := Bytes(v);
            r[4 * i] == v[i].b0 && r[4 * i + 1] == v[i].b1 && r[4 * i + 2] == v[i].b2 && r[4 * i + 3] == v[i].b3
  {
    if i == 0 {
    } else {
      BytesAt(v[1..], i - 1);
    }
  }

  function Numbers(raw: seq<Byte>): Vector
    requires |raw| % 4 == 0
  {
    if raw == [] then [] else [Float32(raw[0], raw[1], raw[2], raw[3])] + Numbers(raw[4..])
  }

  lemma {:induction false} NumbersRoundTrip(v: Vector)
    ensures Numbers(Bytes(v)) == v
  {
    if v == [] {
    } else {
      NumbersRoundTrip(v[1..]);
      assert Bytes(v)[4..] == Bytes(v[1..]);
    }
  }

  // ------------------------------------------------------------------ a stored vector

  function Pack(v: Vector): string {
    Base64(Bytes(v))
  }

  /** None where the source raises: not base64, or not whole numbers. */
  function Unpack(blob: string): Option<Vector> {
    var raw := Unbase64(blob);
    if raw.None? || |raw.value| % 4 != 0 then None else Some(Numbers(raw.value))
  }

  /** Storing loses nothing. */
  lemma PackRoundTrip(v: Vector)
    ensures Unpack(Pack(v)) == Some(v)
  {
    hide Base64;
    hide Unbase64;
    hide Numbers;
    hide Bytes;
    Base64RoundTrip(Bytes(v));
    NumbersRoundTrip(v);
  }
}
