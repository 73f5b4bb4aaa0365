/** What a request leaves in the books (src/proxy/main.py): its usage row, and the tenant's quota
    and trial counters, at every exit of _serve_core and at the end of a stream. */
module Accounting {
  import opened Options
  import opened Seqs

  datatype Tenant = Tenant(id: string)

  /** quotaUp and trialUp say whether the counter can be reached when this request bumps it. */
  datatype Request = Request(id: string, tenant: Tenant, impersonated: bool, trialActive: bool, quotaUp: bool, trialUp: bool)

  datatype Row = Row(id: string, tenant: Tenant, status: nat, billable: bool)
  datatype Config = Config(meterWired: bool, persistAll: bool)
  datatype Books = Books(rows: seq<Row>, quota: map<Tenant, nat>, trial: map<Tenant, nat>)

  const EMPTY := Books([], map[], map[])

  function At(m: map<Tenant, nat>, t: Tenant): nat {
    if t in m then m[t] else 0
  }

  function Bumped(m: map<Tenant, nat>, t: Tenant, bump: bool): map<Tenant, nat> {
    if bump then m[t := At(m, t) + 1] else m
  }

  // ------------------------------------------------------------------ what the pipeline and the provider do

  /** The request stages. Crashed is any exception but the rate limiter's. */
  datatype Admission = Passed | Limited(trialExpired: bool) | Crashed

  datatype KeyLookup = Undecryptable | NoKeyAllowed | Resolved(hasKey: bool)

  datatype LastError = NoneTried | WasRateLimit | WasOther
  datatype Call = Answered | AuthError | RateLimit | AllTargetsFailed(last: LastError) | OtherError

  /** A chunk the provider sends; held back from the client if it is the usage chunk the client did
      not ask for, or if the tool policy strips it. */
  datatype Chunk = Chunk(text: string, heldBack: bool)
  datatype Ending = Finished | Failed(rateLimited: bool) | ClientLeft

  /** The chunks that are not held back, in order. */
  function Relayed(chunks: seq<Chunk>): seq<Chunk> {
    if chunks == [] then []
    else
      var n := |chunks| - 1;
      if chunks[n].heldBack then Relayed(chunks[..n]) else Relayed(chunks[..n]) + [chunks[n]]
  }

  /** A stream whose response is never iterated is not driven. */
  datatype Stream = Stream(driven: bool, chunks: seq<Chunk>, ending: Ending)

  datatype Scenario = Scenario(
    admission: Admission,
    blocked: bool, bypassed: bool, cacheHit: bool, deferred: bool,
    cascadeReady: bool, cascadePlanned: bool, cascadeRuns: bool, agentAnswered: bool,
    key: KeyLookup, needsKey: bool,
    streaming: bool, stream: Stream,
    call: Call,
    stagesRun: bool)         // the response stages do not fail

  /** What the client gets. Opened is a stream's response, whatever comes of the stream. */
  datatype Reply = Json(status: nat) | Opened | Unhandled

  // ------------------------------------------------------------------ the books after an outcome

  predicate Succeeds(status: nat) {
    status == 200 || status == 202
  }

  predicate Bills(r: Request, status: nat) {
    Succeeds(status) && !r.impersonated
  }

  function RowFor(r: Request, status: nat): Row {
    Row(r.id, r.tenant, status, Bills(r, status))
  }

  predicate KeepsRow(cfg: Config, status: nat) {
    cfg.meterWired && (Succeeds(status) || cfg.persistAll)
  }

  /** One outcome with this status has been booked. */
  function Booked(cfg: Config, b: Books, r: Request, status: nat): Books {
    Books(b.rows + (if KeepsRow(cfg, status) then [RowFor(r, status)] else []),
          Bumped(b.quota, r.tenant, Bills(r, status) && r.quotaUp),
          Bumped(b.trial, r.tenant, Bills(r, status) && r.trialActive && r.trialUp))
  }

  function StreamStatus(s: Stream): nat {
    if s.chunks != [] then 200 else if s.ending == Failed(true) then 429 else 502
  }

  /** What the client is answered. */
  function Answer(s: Scenario): Reply {
    if s.admission.Crashed? then Unhandled
    else if s.admission.Limited? then Json(if s.admission.trialExpired then 402 else 429)
    else if s.blocked || s.bypassed || s.cacheHit then Json(200)
    else if s.deferred then Json(202)
    else if s.cascadeReady || (s.cascadePlanned && s.cascadeRuns) || s.agentAnswered then Json(if s.stagesRun then 200 else 500)
    else match s.key
      case Undecryptable => Json(502)
      case NoKeyAllowed => Json(402)
      case Resolved(hasKey) =>
        if !hasKey && s.needsKey then Json(503)
        else if s.streaming then Opened
        else match s.call
          case Answered => Json(if s.stagesRun then 200 else 500)
          case AuthError => Json(401)
          case RateLimit => Json(429)
          case AllTargetsFailed(last) => Json(if last.WasRateLimit? then 429 else if last.NoneTried? then 503 else 502)
          case OtherError => Json(502)
  }

  /** The status booked for the request: the one the client is answered with; for a stream, what
      came of it; none for a request that crashed or a stream never driven. */
  function Outcome(s: Scenario): Option<nat> {
    match Answer(s)
    case Json(status) => Some(status)
    case Opened => if s.stream.driven then Some(StreamStatus(s.stream)) else None
    case Unhandled => None
  }

  function After(cfg: Config, b: Books, r: Request, s: Scenario): Books {
    var o := Outcome(s);
    if o.Some? then Booked(cfg, b, r, o.value) else b
  }

  // ------------------------------------------------------------------ the proxy

  class Proxy {
    const cfg: Config
    var rows: seq<Row>
    var quota: map<Tenant, nat>
    var trial: map<Tenant, nat>

    constructor (cfg: Config)
      ensures this.cfg == cfg && Kept() == EMPTY
    {
      this.cfg := cfg;
      rows, quota, trial := [], map[], map[];
    }

    function Kept(): Books
      reads this
    {
      Books(rows, quota, trial)
    }

    method ScheduleBilling(r: Request, status: nat, billable: bool)
      modifies this`rows
      ensures rows == old(rows) + if cfg.meterWired then [Row(r.id, r.tenant, status, billable)] else []
    {
      if !cfg.meterWired {
        return;
      }
      rows := rows + [Row(r.id, r.tenant, status, billable)];
    }

    method BumpQuotaCounter(r: Request)
      modifies this`quota
      ensures quota == Bumped(old(quota), r.tenant, r.quotaUp)
    {
      if r.quotaUp {
        quota := quota[r.tenant := At(quota, r.tenant) + 1];
      }
    }

    method BumpTrialCounter(r: Request)
      modifies this`trial
      ensures trial == Bumped(old(trial), r.tenant, r.trialActive && r.trialUp)
    {
      if !r.trialActive {
        return;
      }
      if r.trialUp {
        trial := trial[r.tenant := At(trial, r.tenant) + 1];
      }
    }

    /** _record_outcome: books every outcome but a deferral, which leaves no second row. */
    method RecordOutcome(r: Request, status: nat)
      modifies this
      ensures Kept() == if status == 202 then old(Kept()) else Booked(cfg, old(Kept()), r, status)
    {
      var served := status == 200;
      if served && !r.impersonated {
        ScheduleBilling(r, status, true);
        BumpQuotaCounter(r);
        BumpTrialCounter(r);
      } else if served || (status != 202 && cfg.persistAll) {
        ScheduleBilling(r, status, false);
      }
    }

    /** _bill_batch_deferred. */
    method BillBatchDeferred(r: Request)
      modifies this
      ensures Kept() == Booked(cfg, old(Kept()), r, 202)
    {
      var billable := !r.impersonated;
      ScheduleBilling(r, 202, billable);
      if billable {
        BumpQuotaCounter(r);
        BumpTrialCounter(r);
      }
    }

    /** _process_and_serve and _served_response. */
    method ProcessAndServe(r: Request, stagesRun: bool) returns (reply: Reply)
      modifies this
      ensures reply == Json(if stagesRun then 200 else 500)
      ensures Kept() == Booked(cfg, old(Kept()), r, reply.status)
    {
      if !stagesRun {
        RecordOutcome(r, 500);
        return Json(500);
      }
      RecordOutcome(r, 200);
      return Json(200);
    }

    /** event_gen, driven to its end: what reaches the client, and the one outcome its finally
        clause books. */
    method RelayStream(r: Request, s: Stream) returns (relayed: seq<Chunk>)
      modifies this
      ensures Kept() == Booked(cfg, old(Kept()), r, StreamStatus(s))
      ensures relayed == Relayed(s.chunks)
    {
      var served := false;
      var failStatus := 502;
      relayed := [];
      for i := 0 to |s.chunks|
        invariant served <==> i > 0
        invariant relayed == Relayed(s.chunks[..i])
        invariant Kept() == old(Kept())
      {
        assert s.chunks[..i + 1][..i] == s.chunks[..i];
        served := true;
        if !s.chunks[i].heldBack {
          relayed := relayed + [s.chunks[i]];
        }
      }
      assert s.chunks[..|s.chunks|] == s.chunks;
      if s.ending.Failed? {
        failStatus := if s.ending.rateLimited then 429 else 502;
      }
      RecordOutcome(r, if served then 200 else failStatus);
    }

    /** _serve_core, with the stream it may return driven or not. */
    method ServeCore(r: Request, s: Scenario) returns (reply: Reply)
      modifies this
      ensures reply == Answer(s)
      ensures Kept() == After(cfg, old(Kept()), r, s)
      ensures reply.Json? ==> Kept() == Booked(cfg, old(Kept()), r, reply.status)
      ensures reply == Opened && s.stream.driven ==> Kept() == Booked(cfg, old(Kept()), r, StreamStatus(s.stream))
      ensures reply == Unhandled || (reply == Opened && !s.stream.driven) ==> Kept() == old(Kept())
    {
      hide Booked;
      match s.admission {
        case Crashed => return Unhandled;
        case Limited(trialExpired) =>
          if trialExpired {
            RecordOutcome(r, 402);
            return Json(402);
          }
          RecordOutcome(r, 429);
          return Json(429);
        case Passed =>
      }
      if s.blocked {
        RecordOutcome(r, 200);
        return Json(200);
      }
      if s.bypassed || s.cacheHit {
        RecordOutcome(r, 200);
        return Json(200);
      }
      if s.deferred {
        BillBatchDeferred(r);
        RecordOutcome(r, 202);
        return Json(202);
      }
      var cascadeAnswer := s.cascadeReady;
      if s.cascadePlanned && !cascadeAnswer {
        cascadeAnswer := s.cascadeRuns;
      }
      if cascadeAnswer {
        reply := ProcessAndServe(r, s.stagesRun);
        return;
      }
      if s.agentAnswered {
        reply := ProcessAndServe(r, s.stagesRun);
        return;
      }
      reply := CallProvider(r, s);
    }

    /** The rest of _serve_core, from resolving the provider's key. */
    method CallProvider(r: Request, s: Scenario) returns (reply: Reply)
      requires s.admission.Passed? && !s.blocked && !s.bypassed && !s.cacheHit && !s.deferred
      requires !s.cascadeReady && !(s.cascadePlanned && s.cascadeRuns) && !s.agentAnswered
      modifies this
      ensures reply == Answer(s)
      ensures Kept() == After(cfg, old(Kept()), r, s)
    {
      hide Booked;
      match s.key {
        case Undecryptable =>
          RecordOutcome(r, 502);
          return Json(502);
        case NoKeyAllowed =>
          RecordOutcome(r, 402);
          return Json(402);
        case Resolved(hasKey) =>
          if !hasKey && s.needsKey {
            RecordOutcome(r, 503);
            return Json(503);
          }
      }
      if s.streaming {
        if s.stream.driven {
          var _ := RelayStream(r, s.stream);
        }
        return Opened;
      }
      match s.call {
        case Answered =>
          reply := ProcessAndServe(r, s.stagesRun);
        case AuthError =>
          RecordOutcome(r, 401);
          reply := Json(401);
        case RateLimit =>
          RecordOutcome(r, 429);
          reply := Json(429);
        case AllTargetsFailed(last) =>
          if last.WasRateLimit? {
            RecordOutcome(r, 429);
            return Json(429);
          }
          if last.NoneTried? {
            RecordOutcome(r, 503);
            return Json(503);
          }
          RecordOutcome(r, 502);
          reply := Json(502);
        case OtherError =>
          RecordOutcome(r, 502);
          reply := Json(502);
      }
    }
  }

  // ------------------------------------------------------------------ who gets which status

  /** Answered without a provider. */
  predicate AtOnce(s: Scenario) {
    s.admission.Passed? && (s.blocked || s.bypassed || s.cacheHit)
  }

  predicate Deferred(s: Scenario) {
    s.admission.Passed? && !AtOnce(s) && s.deferred
  }

  /** A cascade or an agent has the answer. */
  predicate Preempted(s: Scenario) {
    && s.admission.Passed? && !AtOnce(s) && !s.deferred
    && (s.cascadeReady || (s.cascadePlanned && s.cascadeRuns) || s.agentAnswered)
  }

  predicate LooksUpKey(s: Scenario) {
    s.admission.Passed? && !AtOnce(s) && !s.deferred && !Preempted(s)
  }

  predicate HasKey(s: Scenario) {
    LooksUpKey(s) && s.key.Resolved? && (s.key.hasKey || !s.needsKey)
  }

  /** The provider was called, and this came of it. */
  predicate Came(s: Scenario, call: Call) {
    HasKey(s) && !s.streaming && s.call == call
  }

  /** The request got an answer, or its answer was promised. */
  predicate GotAnswer(s: Scenario) {
    || AtOnce(s) || Deferred(s)
    || ((Preempted(s) || Came(s, Answered)) && s.stagesRun)
    || (HasKey(s) && s.streaming && s.stream.driven && s.stream.chunks != [])
  }

  /** A request is billed exactly when it got an answer, and was not sent by an admin acting as the
      tenant. */
  lemma BilledIffAnswered(r: Request, s: Scenario)
    ensures Outcome(s).Some? && Bills(r, Outcome(s).value) <==> GotAnswer(s) && !r.impersonated
  {
  }

  /** Which requests are answered with which status. */
  lemma StatusIff(s: Scenario)
    ensures Answer(s) == Json(200) <==> AtOnce(s) || ((Preempted(s) || Came(s, Answered)) && s.stagesRun)
    ensures Answer(s) == Json(202) <==> Deferred(s)
    ensures Answer(s) == Json(401) <==> Came(s, AuthError)
    ensures Answer(s) == Json(402) <==> s.admission == Limited(true) || (LooksUpKey(s) && s.key.NoKeyAllowed?)
    ensures Answer(s) == Json(429) <==>
              s.admission == Limited(false) || Came(s, RateLimit) || Came(s, AllTargetsFailed(WasRateLimit))
    ensures Answer(s) == Json(500) <==> (Preempted(s) || Came(s, Answered)) && !s.stagesRun
    ensures Answer(s) == Json(502) <==>
              || (LooksUpKey(s) && s.key.Undecryptable?) || Came(s, AllTargetsFailed(WasOther)) || Came(s, OtherError)
    ensures Answer(s) == Json(503) <==>
              || (LooksUpKey(s) && s.key == Resolved(false) && s.needsKey) || Came(s, AllTargetsFailed(NoneTried))
    ensures Answer(s) == Opened <==> HasKey(s) && s.streaming
    ensures Answer(s) == Unhandled <==> s.admission.Crashed?
  {
  }

  lemma OneMoreChunk(cs: seq<Chunk>, c: Chunk)
    ensures Relayed(cs + [c]) == Relayed(cs) + if c.heldBack then [] else [c]
  {
    assert (cs + [c])[..|cs|] == cs;
  }

  /** What is relayed of one chunk is that chunk or, if it is held back, nothing ... */
  lemma RelayedOne(c: Chunk)
    ensures Relayed([c]) == if c.heldBack then [] else [c]
  {
    OneMoreChunk([], c);
    assert [] + [c] == [c];
  }

  /** ... and of a stream what is relayed of its parts, in order. */
  lemma {:induction false} RelayedParts(a: seq<Chunk>, b: seq<Chunk>)
    ensures Relayed(a + b) == Relayed(a) + Relayed(b)
    decreases |b|
  {
    if b == [] {
      assert a + b == a;
      assert Relayed(b) == [];
    } else {
      var n := |b| - 1;
      var last := if b[n].heldBack then [] else [b[n]];
      RelayedParts(a, b[..n]);
      OneMoreChunk(a + b[..n], b[n]);
      OneMoreChunk(b[..n], b[n]);
      hide *;
      assert b == b[..n] + [b[n]] && a + b == a + b[..n] + [b[n]];
      Regroup(Relayed(a), Relayed(b[..n]), last);
    }
  }

  /** What a driven stream is booked as. */
  lemma StreamStatusIff(s: Stream)
    ensures StreamStatus(s) == 200 <==> s.chunks != []
    ensures StreamStatus(s) == 429 <==> s.chunks == [] && s.ending.Failed? && s.ending.rateLimited
    ensures StreamStatus(s) == 502 <==> s.chunks == [] && (s.ending.Failed? ==> !s.ending.rateLimited)
  {
  }

  // ------------------------------------------------------------------ one request

  /** With the meter wired and error rows kept, every request that ends leaves exactly one row. It
      carries the status the client got, and is billable exactly when the request was served or
      deferred, and not by an admin acting as the tenant. */
  lemma OneRowEach(cfg: Config, b: Books, r: Request, s: Scenario)
    requires cfg.meterWired && cfg.persistAll && Outcome(s).Some?
    ensures exists row :: After(cfg, b, r, s).rows == b.rows + [row] && row.id == r.id && row.tenant == r.tenant
              && (Answer(s).Json? ==> row.status == Answer(s).status)
              && (row.billable <==> !r.impersonated && (row.status == 200 || row.status == 202))
  {
    assert After(cfg, b, r, s).rows == b.rows + [RowFor(r, Outcome(s).value)];
  }

  /** A stream is billed once the provider has produced a chunk, even if every chunk was held back
      and nothing reached the client; a stream that produced none is not, even if it ended well. */
  lemma StreamBilledIff(cfg: Config, b: Books, r: Request, s: Scenario)
    requires cfg.meterWired && Answer(s) == Opened && s.stream.driven && !r.impersonated
    ensures BillableRows(After(cfg, b, r, s).rows, r.tenant) == BillableRows(b.rows, r.tenant) + 1 <==> s.stream.chunks != []
  {
    var status := StreamStatus(s.stream);
    if KeepsRow(cfg, status) {
      BillableMore(b.rows, RowFor(r, status), r.tenant);
    } else {
      assert b.rows + [] == b.rows;
    }
  }

  /** A stream of which the client is sent nothing: its one chunk is held back. */
  const WITHHELD := Stream(true, [Chunk("", true)], Finished)

  const STREAMED := Scenario(Passed, false, false, false, false, false, false, false, false,
                             Resolved(true), true, true, WITHHELD, Answered, true)

  /** It is billed all the same. */
  lemma WithheldStreamIsBilled(cfg: Config, b: Books, r: Request)
    requires cfg.meterWired && !r.impersonated
    ensures Answer(STREAMED) == Opened && Relayed(STREAMED.stream.chunks) == []
    ensures BillableRows(After(cfg, b, r, STREAMED).rows, r.tenant) == BillableRows(b.rows, r.tenant) + 1
  {
    StreamBilledIff(cfg, b, r, STREAMED);
    assert WITHHELD.chunks[..0] == [];
  }

  // ------------------------------------------------------------------ any sequence of requests

  /** TrialReset is the admin console starting, converting or cancelling a trial. */
  datatype Event = Served(r: Request, s: Scenario) | TrialReset(t: Tenant)

  function Step(cfg: Config, b: Books, e: Event): Books {
    match e
    case Served(r, s) => After(cfg, b, r, s)
    case TrialReset(t) => b.(trial := b.trial - {t})
  }

  function Run(cfg: Config, es: seq<Event>): Books {
    if es == [] then EMPTY else Step(cfg, Run(cfg, es[..|es| - 1]), es[|es| - 1])
  }

  function BillableRows(rows: seq<Row>, t: Tenant): nat {
    if rows == [] then 0
    else
      var n := |rows| - 1;
      BillableRows(rows[..n], t) + if rows[n].billable && rows[n].tenant == t then 1 else 0
  }

  /** The event is billed to t. */
  predicate BilledTo(e: Event, t: Tenant) {
    e.Served? && e.r.tenant == t && Outcome(e.s).Some? && Bills(e.r, Outcome(e.s).value)
  }

  function Billed(es: seq<Event>, t: Tenant): nat {
    if es == [] then 0 else Billed(es[..|es| - 1], t) + if BilledTo(es[|es| - 1], t) then 1 else 0
  }

  /** Billed events whose bump of the quota counter did not get through. */
  function LostBumps(es: seq<Event>, t: Tenant): nat {
    if es == [] then 0
    else
      var e := es[|es| - 1];
      LostBumps(es[..|es| - 1], t) + if BilledTo(e, t) && !e.r.quotaUp then 1 else 0
  }

  lemma BillableMore(rows: seq<Row>, row: Row, t: Tenant)
    ensures BillableRows(rows + [row], t) == BillableRows(rows, t) + if row.billable && row.tenant == t then 1 else 0
  {
    assert (rows + [row])[..|rows|] == rows;
  }

  lemma StepBooks(cfg: Config, b: Books, e: Event, t: Tenant)
    ensures BillableRows(Step(cfg, b, e).rows, t) == BillableRows(b.rows, t) + if cfg.meterWired && BilledTo(e, t) then 1 else 0
    ensures At(Step(cfg, b, e).quota, t) == At(b.quota, t) + if BilledTo(e, t) && e.r.quotaUp then 1 else 0
    ensures At(Step(cfg, b, e).trial, t) <= At(b.trial, t) + if BilledTo(e, t) then 1 else 0
  {
    if e.Served? && Outcome(e.s).Some? {
      var status := Outcome(e.s).value;
      if KeepsRow(cfg, status) {
        BillableMore(b.rows, RowFor(e.r, status), t);
      } else {
        assert b.rows + [] == b.rows;
      }
    }
  }

  /** Whether or not rows are written, over any sequence of requests a tenant's quota counter is the
      number of its billed requests less the bumps that were lost. */
  lemma {:induction false} QuotaCountsBilled(cfg: Config, es: seq<Event>, t: Tenant)
    ensures At(Run(cfg, es).quota, t) + LostBumps(es, t) == Billed(es, t)
    ensures BillableRows(Run(cfg, es).rows, t) == if cfg.meterWired then Billed(es, t) else 0
  {
    if es == [] {
    } else {
      var n := |es| - 1;
      QuotaCountsBilled(cfg, es[..n], t);
      hide Step;
      hide BilledTo;
      StepBooks(cfg, Run(cfg, es[..n]), es[n], t);
    }
  }

  /** The quota counter mirrors the invoice: it equals the tenant's billable rows exactly when no
      bump was lost. */
  lemma QuotaIsInvoice(cfg: Config, es: seq<Event>, t: Tenant)
    requires cfg.meterWired
    ensures At(Run(cfg, es).quota, t) == BillableRows(Run(cfg, es).rows, t) <==> LostBumps(es, t) == 0
  {
    QuotaCountsBilled(cfg, es, t);
  }

  /** The trial counter never passes the number of billed requests, whenever it is reset; so with no
      bump lost it never passes the quota counter. */
  lemma {:induction false} TrialWithinBilled(cfg: Config, es: seq<Event>, t: Tenant)
    ensures At(Run(cfg, es).trial, t) <= Billed(es, t)
    ensures LostBumps(es, t) == 0 ==> At(Run(cfg, es).trial, t) <= At(Run(cfg, es).quota, t)
  {
    QuotaCountsBilled(cfg, es, t);
    if es == [] {
    } else {
      var n := |es| - 1;
      TrialWithinBilled(cfg, es[..n], t);
      hide Step;
      hide BilledTo;
      StepBooks(cfg, Run(cfg, es[..n]), es[n], t);
    }
  }

  /** The tenant's billed requests of its current trial whose bump got through. */
  function TrialUses(es: seq<Event>, t: Tenant): nat {
    if es == [] then 0
    else
      var e := es[|es| - 1];
      if e == TrialReset(t) then 0
      else TrialUses(es[..|es| - 1], t) + if BilledTo(e, t) && e.r.trialActive && e.r.trialUp then 1 else 0
  }

  /** The trial counter counts exactly those, since the trial was last reset. */
  lemma {:induction false} TrialCountsSinceReset(cfg: Config, es: seq<Event>, t: Tenant)
    ensures At(Run(cfg, es).trial, t) == TrialUses(es, t)
  {
    if es == [] {
    } else {
      TrialCountsSinceReset(cfg, es[..|es| - 1], t);
      hide Outcome;
    }
  }

  function Successes(rows: seq<Row>): seq<Row> {
    if rows == [] then []
    else
      var n := |rows| - 1;
      if Succeeds(rows[n].status) then Successes(rows[..n]) + [rows[n]] else Successes(rows[..n])
  }

  /** Which rows are kept: all that are kept at all with error rows on, of those only the successes
      with error rows off, and none without the meter. */
  lemma {:induction false} RowsKept(cfg: Config, es: seq<Event>)
    ensures var all := Run(Config(true, true), es).rows;
            Run(cfg, es).rows == if !cfg.meterWired then [] else if cfg.persistAll then all else Successes(all)
  {
    if es == [] {
    } else {
      var n := |es| - 1;
      var e, b := es[n], Run(Config(true, true), es[..n]);
      RowsKept(cfg, es[..n]);
      hide Outcome;
      if e.Served? && Outcome(e.s).Some? {
        var row := RowFor(e.r, Outcome(e.s).value);
        assert (b.rows + [row])[..|b.rows|] == b.rows;
      }
    }
  }

  function RecordedIds(es: seq<Event>): seq<string> {
    if es == [] then []
    else
      var e := es[|es| - 1];
      RecordedIds(es[..|es| - 1]) + if e.Served? && Outcome(e.s).Some? then [e.r.id] else []
  }

  function Ids(rows: seq<Row>): (ids: seq<string>)
    ensures |ids| == |rows| && forall i | 0 <= i < |ids| :: ids[i] == rows[i].id
  {
    seq(|rows|, i requires 0 <= i < |rows| => rows[i].id)
  }

  /** With error rows kept, the rows are the recorded requests, each once and in order. */
  lemma {:induction false} RowsAreRequests(cfg: Config, es: seq<Event>)
    requires cfg.meterWired && cfg.persistAll
    ensures Ids(Run(cfg, es).rows) == RecordedIds(es)
  {
    if es == [] {
    } else {
      var n := |es| - 1;
      var e, b := es[n], Run(cfg, es[..n]);
      RowsAreRequests(cfg, es[..n]);
      if e.Served? && Outcome(e.s).Some? {
        var row := RowFor(e.r, Outcome(e.s).value);
        assert Run(cfg, es).rows == b.rows + [row];
        assert Ids(b.rows + [row]) == Ids(b.rows) + [row.id];
      }
    }
  }

  /** Switching error rows off changes no bill and no counter. */
  lemma {:induction false} ErrorRowsAreFree(cfg: Config, es: seq<Event>, t: Tenant)
    ensures var on, off := cfg.(persistAll := true), cfg.(persistAll := false);
            && BillableRows(Run(on, es).rows, t) == BillableRows(Run(off, es).rows, t)
            && At(Run(on, es).quota, t) == At(Run(off, es).quota, t)
            && Run(on, es).trial == Run(off, es).trial
  {
    QuotaCountsBilled(cfg.(persistAll := true), es, t);
    QuotaCountsBilled(cfg.(persistAll := false), es, t);
    TrialSame(cfg.(persistAll := true), cfg.(persistAll := false), es);
  }

  lemma {:induction false} TrialSame(c: Config, d: Config, es: seq<Event>)
    ensures Run(c, es).trial == Run(d, es).trial
  {
    if es == [] {
    } else {
      TrialSame(c, d, es[..|es| - 1]);
    }
  }

  /** An admin acting as a tenant costs it nothing. */
  lemma ImpersonationIsFree(cfg: Config, b: Books, r: Request, s: Scenario, t: Tenant)
    requires r.impersonated
    ensures var after := After(cfg, b, r, s);
            BillableRows(after.rows, t) == BillableRows(b.rows, t) && after.quota == b.quota && after.trial == b.trial
  {
    StepBooks(cfg, b, Served(r, s), t);
  }
}
