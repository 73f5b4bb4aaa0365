# Proxy model and proofs

A Dafny 4.11 model of the parts of the token-optimisation proxy whose correctness is hardest to see
from the code: the proxy-key store shared by several instances, the benchmark's facts gate, budgeted
text cutting, glob compilation, request accounting, the embedding cache, the sidecar's client cache,
the A/B aggregator and the Go template's prefix substitution. `dafny verify dfyconfig.toml` checks it.

## How it is organised

| file | what it models |
|---|---|
| `KeyEntry.dfy`, `KeyTable.dfy` | a key's metadata and its row; the Postgres table, its tombstones and its four writers |
| `Lifecycle.dfy` | create, suspend, contract, allowlist, delete and rotate, on the store dict |
| `Refresher.dfy` | several instances over one table, kept in step by `CacheRefresher` |
| `BlobCache.dfy` | the validate cache over a versioned blob store, and its reload throttle |
| `Text.dfy`, `MinWindow.dfy`, `FactsGate.dfy` | the deterministic facts gate |
| `BudgetCut.dfy` | cutting an oversized chunk to a token budget |
| `Regexes.dfy`, `DockerGlob.dfy` | `.dockerignore` patterns compiled to regexes, and the rule loop |
| `Accounting.dfy` | what each request leaves in the usage rows and the counters |
| `VectorCodec.dfy`, `EmbeddingCache.dfy` | packing a vector; the two-level embedding cache |
| `ClientLru.dfy` | the sidecar's LRU of per-key clients |
| `Aggregation.dfy` | the A/B aggregator and the console's recount |
| `ToonPrefix.dfy` | prefix substitution and its inverse |
| `Options.dfy`, `Seqs.dfy` | an optional value; facts about sequences that several modules need |

Code that changes state step by step is a class or a method with a loop, proved against a function
or a relation; the theorems about whole runs are lemmas about those. Each transaction, and each
single-statement insert, is one atomic step. Reads of Redis, the blob store, the database and the
model are parameters that may fail or answer late.

## What the proofs turned up

The code is modelled as it is. Where a promise does not hold of it, the condition under which it
does is part of the theorem, and a lemma gives the run or the input on which it fails.

- **Refresher.** A read that is applied can undo a change, in two ways. A local write commits, and
  only later assigns the cache the store its transaction returned: if the refresher re-reads another
  tenant in between, the late assignment puts the older keys back (`StaleWriteKeepsRevokedKey`). And
  on an instance that is not told of its own changes, a read made before its own write and applied
  after it puts the deleted keys back; this needs no other instance (`StaleReadKeepsRevokedKey`). In
  both runs a revoked key validates until the next full reload, and nothing is pending. Applying a
  read does harm exactly when the store that waits to be assigned, or else the cache that a local
  write assigned since the read, says something else of a tenant than the read does
  (`ApplyLosesIff`). An instance that commits nothing is never affected (`ReaderIsGuarded`).
- **Blob cache.** The same gap exists between the write lock and the load lock
  (`LateAssignmentDisagrees`): the cache disagrees with the version recorded exactly when the load
  read the current version, installed it before the late assignment, and the local write wrote
  something else (`LateAssignmentIff`).
- **Blank tier.** `create_key` stores a tier of only spaces as `""`; the row is read back as
  `"free"`, so the store a transaction returns is then not the table (`BlankTierDrifts`). On an
  instance that is not told of its own changes the difference stays in its cache (`BlankLoses`).
- **Rotation and contract blocks.** A rotation keeps a contract block exactly when the newest key
  carries it, so rotating after a key was created in a blocked tenant lifts the block
  (`RotationLiftsBlock`).
- **Shown allowlist.** Of the newest keys that carry a list, `list_tenants` shows the list of the last
  and enforcement takes that of the first (`ListedDiffersOnTie`). And `list_tenants` counts a key that
  names no tenant under "default", where its list is not enforced (`ListedUnderDefault`). The two agree
  in exactly the other cases (`ListedIsEnforcedIff`).
- **Allowlist that is no list.** `set_ip_allowlist` leaves a key alone whose `ip_allowlist` is a string
  of exactly the characters asked for, or an object with exactly those names, and neither is enforced
  (`SpelledListIsNotEnforced`). Over a number or `true` it raises and sets nothing
  (`StampTakesEffect`).
- **Import.** A key committed between the import's count and its write is revoked for good
  (`LateKeyIsRevoked`).
- **Facts gate.** Only the shortest stretch of a sentence is examined, so a sentence with a longer
  acceptable one is still rejected. This errs on the safe side.
- **Cutting.** A character over the budget on its own becomes a piece on its own, over the budget.
- **Globs.** A bare `^` and a trailing backslash change the meaning; no other pattern without an
  open `[` does. A path that ends in a newline escapes the end anchor, and `**` does not cross a
  newline (`NewlineEscapesAnchor`; exactly which paths are affected: `NewlineDiffersIff`).
- **Streams.** A stream is billed once the provider has produced a chunk, even if every chunk was
  withheld (`WithheldStreamIsBilled`); the comment beside the flag says "reached the client", and the
  model follows the code.
- **Console recount.** The console and the artifact differ by the regressions whose item was graded
  earlier under another provider only (`ConsoleMissesMasked`).
- **Prefix substitution.** It loses a message that is itself a long common prefix starting with `#P`
  (`PrefixComesBackWrong`); nothing else.

## Model

| member | source | states |
|---|---|---|
| KeyEntry.RoundTripIffNormal | src/proxy/auth/pg_key_store.py:90-129 | an entry comes back from its row unchanged if and only if it is in normal form (tenant, tier and date present, tier not blank, flags true or absent) |
| KeyEntry.RoundTripIdempotent | src/proxy/auth/pg_key_store.py:90-129 | encoding and decoding a second time changes nothing, for every entry the table accepts, legacy strings included |
| KeyEntry.LegacyRoundTrip | src/proxy/auth/pg_key_store.py:90-129 | a legacy entry is read back as the key of its user, of tier "legacy", with no rights, no date and nothing else |
| KeyEntry.RecordRoundTrip | src/proxy/auth/pg_key_store.py:90-129 | field by field what any record is read back as, with "default" and "free" for the tenant and tier it lacks; refused if and only if its tenant, tier or date is no text |
| KeyEntry.RewriteCanon | src/proxy/auth/pg_key_store.py:90-129 | a row read and written back keeps every column, except that a blank tier becomes "free" |
| KeyEntry.MetaIsNormal | src/proxy/auth/pg_key_store.py:110-129 | whatever a clean row holds, the metadata read from it is in normal form |
| KeyTable.KeyTable.ReplaceAll | src/proxy/auth/pg_key_store.py:147-179 | the whole-store write: removed keys are tombstoned, revoked ones skipped, the rest rewritten; a value that does not encode rolls everything back |
| KeyTable.KeyTable.Transact | src/proxy/auth/pg_key_store.py:182-201 | the locked read-mutate-write: table, tombstones, result and returned store are those of the diff write; raising or failing to encode changes nothing |
| KeyTable.KeyTable.WriteDiff | src/proxy/auth/pg_key_store.py:204-226 | buries what the mutation removed, upserts what is new or changed and not revoked, and returns the refused hashes |
| KeyTable.KeyTable.InsertNew | src/proxy/auth/pg_key_store.py:63-68 | the shared insert statement touches no existing row and never revives a revoked hash |
| KeyTable.KeyTable.UpsertKeys | src/proxy/auth/pg_key_store.py:229-242 | the insert-only loop adds up to one insert-only write of the entries it reached, and counts the rows it added |
| KeyTable.DiffedRows | src/proxy/auth/pg_key_store.py:204-226 | exactly which rows a diff write leaves, with which contents, and exactly when it rolls back |
| KeyTable.DiffRefinesReplace | src/proxy/auth/pg_key_store.py:147-226 | from any valid table the diff write and the whole-store write of the same store fail together and end with the same tombstones, the same keys for every reader, and the same rows up to a blank tier |
| KeyTable.CachedIsTableIff | src/proxy/auth/pg_key_store.py:182-226 | the store a changing transaction returns for caching is the committed table if and only if every entry it wrote was in normal form |
| KeyTable.BlankTierDrifts | src/proxy/auth/api_key_manager.py:652-676 | a newly stored blank tier makes the returned store differ from the table |
| KeyTable.LegacyKeyIsItsUsers | src/proxy/auth/pg_key_store.py:147-264 | whichever writer writes a legacy entry, its row is read back as its user's key |
| KeyTable.DiffKeeps | src/proxy/auth/pg_key_store.py:182-226 | a transaction keeps live and revoked keys apart, only adds tombstones and records every removal |
| KeyTable.ApplyKeeps | src/proxy/auth/pg_key_store.py:147-242 | so does every committed write, whatever store its caller holds |
| KeyTable.RunKeeps | src/proxy/auth/pg_key_store.py:147-264 | and every run of the four writers in any order |
| KeyTable.RevocationIsPermanent | src/proxy/auth/pg_key_store.py:147-264 | a key live at one point of a run and gone at a later one is never live again |
| KeyTable.SyncRunIsSynced | infra/migrations/sync_proxy_keys.py:74-95 | the deploy job's inserts, in any order, make one insert-only write: existing rows untouched, revoked keys left out |
| KeyTable.ImportRevokesWhatItFinds | src/proxy/auth/pg_key_store.py:245-264 | the one-time import adds no tombstone if and only if every key in the table at its write is in the blob |
| KeyTable.LateKeyIsRevoked | src/proxy/auth/pg_key_store.py:245-264 | a key committed after the import found the table empty is revoked by its write and stays out in every later run |
| Lifecycle.StoreDict.StampAll | src/proxy/auth/api_key_manager.py:698-708 | the in-place loop of the suspend, contract and allowlist calls edits exactly the tenant's keys that need it and counts them; it raises if and only if the edit of some key does, having edited the keys before the first such key |
| Lifecycle.StoreDict.RemoveAll | src/proxy/auth/api_key_manager.py:789-796 | the delete loop removes exactly the tenant's keys and counts them |
| Lifecycle.StoreDict.EffectiveAllowlist | src/proxy/auth/api_key_manager.py:612-619 | the enforced list is the one of the newest key that carries one |
| Lifecycle.StoreDict.Create | src/proxy/auth/api_key_manager.py:667-676 | creating adds one key that inherits the enforced list; a blank tenant or a taken hash raises and changes nothing |
| Lifecycle.StoreDict.Rotate | src/proxy/auth/api_key_manager.py:817-852 | rotating swaps all the tenant's keys for the new one; a tenant with no key raises |
| Lifecycle.MaxIsLargest | src/proxy/auth/api_key_manager.py:612-619 | the two ways of picking a newest list pick largest dates of the sequence, and equal ones |
| Lifecycle.AtMostIsEarlier | src/proxy/auth/api_key_manager.py:612-619 | dates are compared as text is: a comes before b if and only if it is a proper prefix of b or has the smaller character where they first differ |
| Lifecycle.LaterIsEnforced | src/proxy/auth/api_key_manager.py:612-619 | of two keys with lists, in either dict order, the list of the one dated later is enforced and shown |
| Lifecycle.OneKeyIsEnforced | src/proxy/auth/api_key_manager.py:612-619 | of a list the elements as text are enforced and shown, of any other value nothing |
| Lifecycle.CallIsConfined | src/proxy/auth/api_key_manager.py:612-856 | a call on one tenant changes no other tenant's entry and no legacy entry |
| Lifecycle.UnchangedIsUntouched | src/proxy/auth/api_key_manager.py:698-800 | a call that reports no change left the store alone |
| Lifecycle.StampTakesEffect | src/proxy/auth/api_key_manager.py:685-778 | a suspend, contract or allowlist call raises if and only if an allowlist is set over a number or true; after one that does not, every key of the tenant says what was asked, nothing else changed, and calling again changes nothing |
| Lifecycle.UndoRestores | src/proxy/auth/api_key_manager.py:685-778 | setting and lifting both succeed and give back the store as it was, for a tenant none of whose keys carried the field |
| Lifecycle.CreateGives | src/proxy/auth/api_key_manager.py:652-676 | a created key has the tier, rights and date asked for, the tenant's allowlist, no suspension or block, and of the extra names only those the store does not use |
| Lifecycle.DeleteLeavesNone | src/proxy/auth/api_key_manager.py:781-800 | a delete leaves the tenant no key |
| Lifecycle.RotationCarriesOver | src/proxy/auth/api_key_manager.py:827-848 | the rotated key is dated now, keeps the newest key's tier and extra names, and carries the enforced allowlist |
| Lifecycle.CallKeepsNormal | src/proxy/auth/api_key_manager.py:652-852 | every call keeps all entries in normal form, unless it creates a key with a blank tier |
| Lifecycle.CallKeepsOrder | src/proxy/auth/api_key_manager.py:652-852 | after every call the dict order names exactly the keys of the store, each once |
| Lifecycle.AllowlistSurvives | src/proxy/auth/api_key_manager.py:612-676 | creating or rotating a key leaves every tenant's enforced allowlist as it was, whatever date the clock gives the new key |
| Lifecycle.SetAllowlistIsEnforcedIff | src/proxy/auth/api_key_manager.py:750-778 | the call returns and the list that was set is the list that is enforced if and only if no key of the tenant has a number or true as its allowlist, and the list is empty or some key of the tenant does not already spell it as the characters of a string or the names of an object |
| Lifecycle.SpelledListIsNotEnforced | src/proxy/auth/api_key_manager.py:750-778 | a key whose allowlist is a word, or an object, keeps it when the word's letters, or the object's names, are set, and nothing is enforced |
| Lifecycle.StoreDict.ShownAllowlist | src/proxy/auth/api_key_manager.py:859-890 | the console's pass over the keys it counts under a tenant, which for "default" include those that name none, shows the list of the last of the newest |
| Lifecycle.EnforcedIsFirst | src/proxy/auth/api_key_manager.py:612-619 | what is enforced is the list of the first of the newest keys that carry one |
| Lifecycle.ListedIsEnforcedIff | src/proxy/auth/api_key_manager.py:859-890 | the console shows the enforced list if and only if no key it counts under the tenant carries a list, or the first of the tenant's newest keys that carry one and the last of the newest it counts under the tenant carry the same one |
| Lifecycle.NewestExist | src/proxy/auth/api_key_manager.py:859-890 | nothing is enforced, or shown, if and only if no key of the tenant, or counted under it, carries a list; otherwise there is a first, or a last, newest one and its list is it |
| Lifecycle.ListedDiffersOnTie | src/proxy/auth/api_key_manager.py:859-890 | of two keys of one date with different lists the first is enforced and the second shown |
| Lifecycle.ListedUnderDefault | src/proxy/auth/api_key_manager.py:869-884 | the list of a key that names no tenant is shown for "default" and not enforced |
| Lifecycle.RotationLeavesOneKey | src/proxy/auth/api_key_manager.py:803-852 | rotation leaves exactly one key, suspended if and only if some old key was, with the newest key's rights; a contract block survives if and only if the newest key carried it |
| Lifecycle.RotationLiftsBlock | src/proxy/auth/api_key_manager.py:717-852 | a run that blocks a tenant's key, creates a second one and rotates ends with one key and no block |
| Lifecycle.RunIsConfined | src/proxy/auth/api_key_manager.py:574-856 | over every run an entry changes only through calls for its own tenant |
| Lifecycle.RunKeepsNormal | src/proxy/auth/api_key_manager.py:574-856 | over every run of calls with a tier, entries stay in the form the table gives back unchanged |
| Refresher.CacheRefresher.Request | src/proxy/auth/pg_key_store.py:341-348 | a request is added to what is pending and wakes the loop; none is dropped |
| Refresher.CacheRefresher.TakePending | src/proxy/auth/pg_key_store.py:350-359 | one turn takes everything pending, and asks for a full read when the wait timed out with nothing pending |
| Refresher.CacheRefresher.Failed | src/proxy/auth/pg_key_store.py:368-371 | a failed read asks for everything again |
| Refresher.TurnIsTake | src/proxy/auth/pg_key_store.py:350-359 | what one turn takes is what the take step of the system takes |
| Refresher.ReplaceSlice | src/proxy/auth/api_key_manager.py:64-72 | swapping some tenants' keys installs exactly their re-read keys and leaves every other tenant's |
| Refresher.CommitEffect | src/proxy/auth/api_key_manager.py:574-596 | a lifecycle transaction touches no other tenant, moves no key between tenants and returns the table it committed, except of the tenant of a key created with a blank tier |
| Refresher.StepKeepsIff | src/proxy/auth/pg_key_store.py:319-371 | from a state that agrees, a step of any instance keeps the agreement invariant (a cached tenant is fresh, or what will make it so is still on its way) if and only if it is guarded |
| Refresher.RefresherLosesNothing | src/proxy/auth/pg_key_store.py:319-371 | over every interleaving of guarded steps, once nothing of a tenant is on its way to an instance its cached keys are the table's, unless an announcement was lost or never sent |
| Refresher.ReaderIsGuarded | src/proxy/auth/api_key_manager.py:56-72 | an instance that commits nothing meets the theorem's guard whatever the others do |
| Refresher.ApplyLosesIff | src/proxy/auth/api_key_manager.py:574-596 | applying a read, and assigning the store that waits if one does, leaves nothing on its way for a tenant of the read, and then the cached keys are the table's if and only if the store to be assigned, or the cache assigned since the read, says of the tenant what the read says |
| Refresher.BlankLoses | src/proxy/auth/api_key_manager.py:652-676 | where the guard forbids the creation of a blank tier it leaves the cache wrong with nothing on its way |
| Refresher.StaleWriteKeepsRevokedKey | src/proxy/auth/api_key_manager.py:574-596 | a run of two instances after which a revoked key still validates and nothing is on its way |
| Refresher.StaleReadKeepsRevokedKey | src/proxy/auth/pg_key_store.py:350-371 | a run of one instance alone, not told of its own change, that ends the same way |
| Refresher.FullPassRepairs | src/proxy/auth/pg_key_store.py:350-371 | a full pass makes the cache the table, whatever it was |
| Refresher.WhatMayGoWrong | src/proxy/auth/pg_key_store.py:341-371 | everything may be asked for at any time, a read may fail and then asks for everything again, an announcement in transit may be lost and is then missed, and none comes from nothing |
| Refresher.ChangeIsAnnounced | src/proxy/auth/pg_key_store.py:319-348 | a write once assigned and announced is cached here and on its way to every other instance, and nothing else changes |
| Refresher.AnnouncementArrives | src/proxy/auth/pg_key_store.py:350-371 | an announcement that arrives undisturbed brings exactly the announced and the waiting tenants up to date, from any state, and leaves the other tenants alone |
| BlobCache.StepKeepsIff | src/proxy/auth/api_key_manager.py:202-246 | from a state that agrees, a step keeps the agreement of the cache with the recorded version, now and later, if and only if it is guarded |
| BlobCache.CacheAgrees | src/proxy/auth/api_key_manager.py:202-246 | over every interleaving of guarded steps, a recorded version equal to the store's means the cached keys are the store's |
| BlobCache.OneStepIsGuarded | src/proxy/auth/api_key_manager.py:551-571 | with a local write and its cache assignment as one step every run keeps the guard |
| BlobCache.LateAssignmentDisagrees | src/proxy/auth/api_key_manager.py:551-596 | a run from the start that ends with the current version recorded and other keys cached |
| BlobCache.LateAssignmentIff | src/proxy/auth/api_key_manager.py:551-596 | in each of the three orders of a late assignment and the end of a load, exactly when the cache agrees with the recorded version |
| BlobCache.LoadInstalls | src/proxy/auth/api_key_manager.py:202-246 | a load can start whenever none is in progress; undisturbed it caches the store and records its version if it could be told, and one that fails changes nothing |
| BlobCache.WriteInstalls | src/proxy/auth/api_key_manager.py:551-571 | an undisturbed local write is cached, and a foreign one touches nothing here |
| BlobCache.OneAtATime | src/proxy/auth/api_key_manager.py:167-186 | over every run, loads follow one another and so do local writes |
| BlobCache.KeyCache.Reload | src/proxy/auth/api_key_manager.py:167-186 | a load happens if and only if it is still needed, none was attempted since the lookup began and, for a miss, the forced-reload interval has passed; exactly what it changes, when it reads and when it fails; loads stay in turn and spaced |
| BlobCache.KeyCache.CheckStoreVersion | src/proxy/auth/api_key_manager.py:142-164 | after a check the cached keys were current at that moment, and it loads if and only if the store is not the recorded version and nothing was checked or loaded since the lookup began |
| BlobCache.KeyCache.LocalWrite | src/proxy/auth/api_key_manager.py:551-571 | a local write is its own cache, and the recorded version still never vouches for the wrong keys |
| BlobCache.KeyCache.Validate | src/proxy/auth/api_key_manager.py:249-300 | with reads that succeed at once, every validation answers from a store version that was current within the check interval, and from the current one when a reload or a check was due; a key of the store is found whenever a miss may force a load; at most one load, and only for one of these reasons, is made |
| BlobCache.MissLoadsAreRare | src/proxy/auth/api_key_manager.py:167-186 | of n loads for misses asked for from a time on, one was asked for n - 1 intervals later or more |
| BlobCache.CacheMissesAreRare | src/proxy/auth/api_key_manager.py:167-186 | and so it is of the loads of any cache, however it was used |
| Text.NormaliseTidies | examples/benchmark/run_benchmark.py:234-255 | normalised text has single spaces, no emphasis marks, nothing to strip and is lower case |
| Text.NormaliseIdempotent | examples/benchmark/run_benchmark.py:234-255 | normalising twice is normalising once |
| Text.NormaliseIsWords | examples/benchmark/run_benchmark.py:234-255 | normalised text is the words, that is the stretches without white space or emphasis, lower-cased and joined by single spaces |
| Text.SeparatedStaysSeparated | examples/benchmark/run_benchmark.py:248-255 | what an emphasis mark or white space stands between is never joined: the words of the whole are those of the two sides |
| Text.UnseparatedIsOneWord | examples/benchmark/run_benchmark.py:234-255 | what neither stands between is one word, unchanged |
| Text.AsciiLowers | examples/benchmark/run_benchmark.py:255-255 | lower-casing the ASCII letters meets what is asked of lower-casing |
| Text.AsciiLowerIs | examples/benchmark/run_benchmark.py:255-255 | each ASCII capital becomes its small letter and nothing else changes |
| Text.ClassesAre | examples/benchmark/run_benchmark.py:230-231 | the three emphasis marks, and the ASCII white space, which is neither emphasis, letter, digit nor punctuation |
| Text.TokensAtSpace | examples/benchmark/run_benchmark.py:262-262 | no token spans a space |
| Text.TokensAre | examples/benchmark/run_benchmark.py:262-262 | the tokens are the longest stretches of letters and digits with single dots between, all of them, in order |
| Text.SplitSentences | examples/benchmark/run_benchmark.py:300-312 | the loop that re-joins initials and abbreviations computes the sentences |
| Text.SentencesJoin | examples/benchmark/run_benchmark.py:300-312 | joined with spaces, the sentences of normal text are the text |
| Text.SentencesKeepTokens | examples/benchmark/run_benchmark.py:300-312 | splitting and re-merging loses, merges or reorders no token |
| Text.SentencesAre | examples/benchmark/run_benchmark.py:300-312 | a sentence ends at exactly the punctuation followed by white space that is not of an initial or an abbreviation |
| Text.InitialsContinue | examples/benchmark/run_benchmark.py:296-312 | "j." and "mr." go on, "end." does not |
| MinWindow.MinWindow | examples/benchmark/run_benchmark.py:315-339 | None if and only if there is no needle or one is missing; otherwise the earliest-ending of the shortest slices holding every needle |
| MinWindow.MinWindowUnique | examples/benchmark/run_benchmark.py:315-339 | that slice is unique |
| FactsGate.FactPresent | examples/benchmark/run_benchmark.py:342-394 | accepts exactly a substring, or a fact of two or more content tokens whose shortest stretch in some sentence is made of it and filler, within the cap and without a foreign negation |
| FactsGate.CheckFacts | examples/benchmark/run_benchmark.py:397-427 | passes if and only if every expected item is satisfied and no forbidden phrase is a substring, and reports exactly the others in order |
| FactsGate.EmphasisMakesNoNumber | examples/benchmark/run_benchmark.py:248-255 | the answer "2*4" is normalised to "2 4" and does not contain the fact "24" |
| FactsGate.ContentOfParts | examples/benchmark/run_benchmark.py:375-375 | the content of a fact is its tokens without the stopwords, part by part in order |
| FactsGate.WordLists | examples/benchmark/run_benchmark.py:265-288 | every stopword is filler, no filler is a negation, and "and" and "or" are no filler |
| FactsGate.RephrasingIsAccepted | examples/benchmark/run_benchmark.py:345-371 | "the private jet of Donald J. Trump" stands for "Donald J. Trump's private jet", and no longer with a "not" in the sentence |
| FactsGate.TwoWordsAreEnough | examples/benchmark/run_benchmark.py:375-377 | two content words in another order are accepted, one never by the second chance |
| FactsGate.NoManufacturedPass | examples/benchmark/run_benchmark.py:342-394 | a fact accepted without being a substring has two content tokens or more, and one sentence of the answer vouches for it: a contiguous stretch of the answer's own tokens holding all of them, only fact and filler, within the cap, with no negation the fact lacks anywhere in the sentence |
| FactsGate.MissingTokenFails | examples/benchmark/run_benchmark.py:342-394 | a fact one of whose content tokens the answer lacks is accepted only as a substring |
| FactsGate.LongerStretchIsRejected | examples/benchmark/run_benchmark.py:376-394 | a sentence whose longer stretch would do is rejected when its shortest one does not |
| BudgetCut.LongestPrefix | src/doc-pipeline/pipeline.py:338-344 | for any counter the search ends at a prefix within the budget, or one character, that one more character takes out of it |
| BudgetCut.EdgeIsLongest | src/doc-pipeline/pipeline.py:338-344 | for a prefix-monotone counter that is the longest prefix within the budget |
| BudgetCut.CutAtBoundary | src/doc-pipeline/pipeline.py:345-350 | the cut is at the last line break in the last three quarters, else the last space there, and elsewhere only when there is neither |
| BudgetCut.CutToBudget | src/doc-pipeline/pipeline.py:332-355 | for any counter and budget the loop ends, with a cutting of the text |
| BudgetCut.CuttingRebuilds | src/doc-pipeline/pipeline.py:332-355 | the pieces, each followed by a gap of white space, are the text |
| BudgetCut.NoEmptyPiece | src/doc-pipeline/pipeline.py:332-355 | no piece is empty |
| BudgetCut.CuttingFits | src/doc-pipeline/pipeline.py:332-355 | for a prefix-monotone counter every piece is within the budget or a single character |
| BudgetCut.AllFitsIfCharsDo | src/doc-pipeline/pipeline.py:332-355 | for a prefix-monotone counter no piece is empty and each is within the budget if and only if its first character is; so all are if every character of the text is |
| BudgetCut.AllFitIff | src/doc-pipeline/pipeline.py:332-355 | for a substring-monotone counter every piece is within the budget if and only if the first character and every one that is not white space is, on its own |
| BudgetCut.PieceIsLong | src/doc-pipeline/pipeline.py:332-355 | every piece but the last is longer than a quarter of the longest prefix within the budget of the text left |
| BudgetCut.SplitOversizedChunks | src/doc-pipeline/pipeline.py:358-375 | each chunk is kept when it fits and cut when it does not, in order; a budget under one is one |
| BudgetCut.SplitIsIdempotent | src/doc-pipeline/pipeline.py:358-375 | for a prefix-monotone counter splitting what was split changes nothing, over-budget characters included |
| DockerGlob.DockerRegex | scripts/ci/commercial_paths.py:55-73 | the index loop emits, token by token, the regex text of the pattern |
| DockerGlob.ReadsAsBody | scripts/ci/commercial_paths.py:55-73 | the regex reader parses that text, all of it, as the pattern's regex |
| DockerGlob.MatchedReads | scripts/ci/commercial_paths.py:55-73 | what the compiled regex matches, for every pattern without an open class and every path, newlines included |
| DockerGlob.MatchedIsLineGlob | scripts/ci/commercial_paths.py:55-73 | with no bare ^ and no trailing backslash, on any path, that is what the direct reading with `**` kept within a line matches, up to one final newline |
| DockerGlob.CompileKeepsMeaning | scripts/ci/commercial_paths.py:55-73 | with no bare ^ and no trailing backslash, the compiled regex matches a path if and only if the direct reading of `**`, `**/`, `*`, `?`, escapes and literals does |
| DockerGlob.CompileKeepsMeaningIff | scripts/ci/commercial_paths.py:55-73 | and for exactly those patterns: every other one without an open class has a path that tells the two readings apart |
| DockerGlob.NewlineEscapesAnchor | scripts/ci/commercial_paths.py:73-73 | a path with a final newline is matched by a pattern that does not mean it, and `**` does not match a path of two lines |
| DockerGlob.NewlineDiffersIff | scripts/ci/commercial_paths.py:55-73 | exactly which paths, newlines or not, the compiled regex and the direct reading agree on |
| DockerGlob.CandidatesAre | scripts/ci/commercial_paths.py:92-94 | the candidates are exactly the path and the directories above it |
| DockerGlob.DockerignoreExcludes | scripts/ci/commercial_paths.py:89-99 | the loop excludes a path if and only if the last rule that matches it or a directory above it is no exception |
| DockerGlob.AppliesIsGlob | scripts/ci/commercial_paths.py:89-99 | a rule applies exactly when its pattern, read directly, matches the path or a directory above it |
| DockerGlob.ExcludedBelow | scripts/ci/commercial_paths.py:89-99 | with no exception rule, excluding a directory excludes everything below it |
| Regexes.DotStar | scripts/ci/commercial_paths.py:62-62 | `.*` matches exactly the stretches without a newline |
| Regexes.NotSlashStar | scripts/ci/commercial_paths.py:64-64 | `[^/]*` matches exactly the stretches without a slash |
| Accounting.Proxy.RecordOutcome | src/proxy/main.py:1183-1270 | books every outcome once, with its row and its counters, and nothing for a deferral |
| Accounting.Proxy.BillBatchDeferred | src/proxy/main.py:1280-1296 | books a deferred request as one 202 outcome |
| Accounting.Proxy.ProcessAndServe | src/proxy/main.py:1865-1917 | an answer whose response stages fail is withheld and booked as an unbilled 500, otherwise as 200 |
| Accounting.Proxy.RelayStream | src/proxy/main.py:1474-1585 | relays the chunks that are not held back, in order, and books 200 if the provider produced any chunk, else the error status |
| Accounting.Proxy.ServeCore | src/proxy/main.py:2047-2412 | at every exit the books grow by exactly one outcome with the status the client is answered with; by what came of a driven stream; and for a crash or an undriven stream not at all |
| Accounting.BilledIffAnswered | src/proxy/main.py:1183-1277 | a request is billed if and only if it got an answer, or the promise of one, and was not sent by an admin acting as the tenant |
| Accounting.StatusIff | src/proxy/main.py:2047-2412 | for each status, exactly which requests are answered with it |
| Accounting.StreamStatusIff | src/proxy/main.py:1474-1585 | a driven stream is booked 200 if the provider produced a chunk, 429 if it produced none and failed on a rate limit, and else 502 |
| Accounting.RelayedParts | src/proxy/main.py:1474-1585 | what a client is relayed of a stream is what it is relayed of the parts, in order |
| Accounting.OneRowEach | src/proxy/main.py:1183-1296 | one row for every request that ends, carrying the status the client got, billable if and only if served or deferred and not sent by an admin acting as the tenant |
| Accounting.StreamBilledIff | src/proxy/main.py:1474-1585 | a stream is billed if and only if the provider produced a chunk |
| Accounting.WithheldStreamIsBilled | src/proxy/main.py:1474-1585 | a stream of which the client is sent nothing and which is billed |
| Accounting.QuotaCountsBilled | src/proxy/main.py:1314-1339 | over any sequence of requests the quota counter and the lost bumps add up to the billed requests, and the billable rows are those requests when the meter is wired |
| Accounting.QuotaIsInvoice | src/proxy/main.py:1314-1339 | the quota counter equals the billable rows if and only if no bump was lost |
| Accounting.TrialWithinBilled | src/proxy/main.py:1342-1369 | the trial counter never passes the billed requests, whenever it is reset, nor the quota counter when no bump of that was lost |
| Accounting.TrialCountsSinceReset | src/proxy/main.py:1342-1369 | the trial counter is exactly the billed requests of an active trial since its last reset whose bump got through |
| Accounting.RowsKept | src/proxy/main.py:1127-1135 | without error rows exactly the successes among the rows are kept, without the meter none |
| Accounting.RowsAreRequests | src/proxy/main.py:1243-1270 | with error rows kept, the rows are the recorded requests, each once, in order |
| Accounting.ErrorRowsAreFree | src/proxy/main.py:1127-1135 | switching error rows off changes no bill and no counter |
| Accounting.ImpersonationIsFree | src/proxy/main.py:1273-1277 | a request sent by an admin as a tenant is never billed to any tenant nor counted |
| VectorCodec.PackRoundTrip | src/proxy/embedding_cache.py:48-54 | unpacking a packed vector gives it back exactly |
| VectorCodec.Base64RoundTrip | src/proxy/embedding_cache.py:48-54 | base64 loses no byte, for every length |
| VectorCodec.KnownTexts | src/proxy/embedding_cache.py:48-54 | the alphabet and the test vectors of section 10 of RFC 4648 |
| VectorCodec.BytesAt | src/proxy/embedding_cache.py:48-54 | the bytes of a number stand in its place, lowest first |
| EmbeddingCache.SanitiseMakesSafe | src/proxy/tenancy/context.py:33-42 | every tenant id is made safe, and a safe one is left alone |
| EmbeddingCache.SanitiseIs | src/proxy/tenancy/context.py:33-42 | what an id becomes, character by character, at most 64 of them, and "default" for a blank one |
| EmbeddingCache.CacheKeyInjective | src/proxy/embedding_cache.py:42-45 | whatever tenants are called, a cache key fixes the namespace, the model and the digest |
| EmbeddingCache.SameKeyIff | src/proxy/embedding_cache.py:42-45 | two requests share a key if and only if their tenants' ids come out the same and the model and the digest are |
| EmbeddingCache.KeyTexts | src/proxy/embedding_cache.py:42-45 | the text of a key, for the default tenant and for any other |
| EmbeddingCache.ColonsCollide | src/proxy/embedding_cache.py:42-45 | were ids not sanitised, two models could share a key |
| EmbeddingCache.LocalCache.Get | src/proxy/embedding_cache.py:57-65 | finds exactly an entry that has not expired, and drops one that has |
| EmbeddingCache.LocalCache.Put | src/proxy/embedding_cache.py:68-75 | purges what expired, evicts the soonest to expire and no more than needed, and stores the vector |
| EmbeddingCache.PutKeepsLive | src/proxy/embedding_cache.py:68-75 | the vector put expires when asked, but not before a second; what expired is dropped; of the rest nothing while there is room, else the soonest to expire, as few as make room |
| EmbeddingCache.LocalCache.EmbedCached | src/proxy/embedding_cache.py:78-121 | returns the plain encoding from a hit, from Redis or computed, and says exactly when it is written back and how long it is kept; the local map stays sound and within its bound |
| EmbeddingCache.StepSound | src/proxy/embedding_cache.py:78-121 | every step of any instance or of Redis keeps every stored vector the encoding of every request with its key |
| EmbeddingCache.ComputedIsShared | src/proxy/embedding_cache.py:78-121 | a vector one instance computed and wrote to Redis is what another is answered with, and then holds itself |
| EmbeddingCache.Transparent | src/proxy/embedding_cache.py:78-121 | in any run of several instances, with expiry, eviction, slow reads and lost or late writes, every answer is the plain encoding and no local map passes its bound |
| ClientLru.ClientCache.ClientFor | src/routellm-sidecar/app.py:73-81 | the map holds the most recent distinct keys in last-use order; a client is built only for a key not among them, and is the asked key's own unless digests collide; it is filed last and the others stay as they were |
| ClientLru.RecentCall | src/routellm-sidecar/app.py:73-81 | popping, appending and evicting the oldest is what the history demands after one more call |
| ClientLru.KeptIff | src/routellm-sidecar/app.py:63-81 | a key is kept if and only if fewer than 64 other keys were used since |
| Aggregation.CountVerdict | examples/benchmark/run_ab.py:629-650 | a verdict is new unless it is a cache-hit repeat of an item already graded, and its key is remembered either way |
| Aggregation.Accumulate | examples/benchmark/run_ab.py:653-688 | every field of the bucket grows by what the record adds to it |
| Aggregation.AmountsAre | examples/benchmark/run_ab.py:653-688 | tokens and cost are the sums over all records of the scope, per arm |
| Aggregation.CacheTokensAre | examples/benchmark/run_ab.py:653-688 | cache tokens are the sums over those reported, the direct arm's only over calls that were billed |
| Aggregation.CallsAre | examples/benchmark/run_ab.py:653-688 | calls and cache hits count the records of the scope |
| Aggregation.ReportsAre | examples/benchmark/run_ab.py:653-688 | the reports of cache tokens count the records that carry one, the direct arm's only if billed |
| Aggregation.VerdictsAre | examples/benchmark/run_ab.py:629-688 | checked and regressed count the graded records that repeat no earlier verdict of the scope |
| Aggregation.SliceAggregate.Aggregate | examples/benchmark/run_ab.py:743-766 | after the loop each provider and profile that had a record has a bucket with the sums over exactly its records |
| Aggregation.TotalIsSumOfProfiles | examples/benchmark/run_ab.py:743-766 | every field of a provider's total is the sum over its profiles, verdict counts included, although each bucket tells replays apart on its own |
| Aggregation.BucketsAreAdditive | examples/benchmark/run_ab.py:743-766 | and so it is of the buckets the loop builds |
| Aggregation.Recount | examples/benchmark/run_ab.py:1436-1447 | the console's loop counts regressions with one seen-set for the slice |
| Aggregation.ArtifactMinusConsole | examples/benchmark/run_ab.py:1436-1447 | the artifact's count exceeds the console's by the masked regressions |
| Aggregation.ConsoleAgreesIff | examples/benchmark/run_ab.py:1436-1447 | the two agree if and only if no failing cache-hit repeat was graded earlier under another provider but not under its own |
| Aggregation.OneProviderAgrees | examples/benchmark/run_ab.py:1436-1447 | with one provider they always agree |
| Aggregation.ConsoleMissesMasked | examples/benchmark/run_ab.py:1436-1447 | two records on which the console counts no regression and the artifact one |
| ToonPrefix.LongestCommonPrefix | templates/async_go_template.go:197-212 | the longest string that starts every message |
| ToonPrefix.CompressWithToon | templates/async_go_template.go:164-195 | with the returned legend each message comes back if and only if it is not a long common prefix that starts with the code |
| ToonPrefix.DecompressUndoes | templates/async_go_template.go:259-265 | the same for one message and any legend the compressor can return; and no message grows |
| ToonPrefix.DecompressLeaves | templates/async_go_template.go:259-265 | only a message that starts with the code and goes on is expanded, and only with a known prefix |
| ToonPrefix.PrefixComesBackWrong | templates/async_go_template.go:164-212 | a batch whose first message comes back as something else |

## Left out

- Refresher.RefresherLosesNothing: runs in which a step breaks the guard are not promised anything, because the code loses a change there; the guard is exact step by step (Refresher.StepKeepsIff, Refresher.ApplyLosesIff).
- BlobCache.CacheAgrees: the same, with BlobCache.StepKeepsIff and BlobCache.LateAssignmentIff.
- Text.NormaliseTidies: lower-casing is any idempotent function that leaves white space and emphasis marks, makes no others and gives at least one character for each; that Python's `str.lower` is one is taken from the Unicode tables.
- BlobCache.KeyCache.Validate: reads succeed and take no time; a failed or slow read keeps the older keys, as the code does, until the next one.
- DockerGlob.MatchedReads: patterns with an unescaped `[` are not modelled, as Python and Docker read a class in different ways.
- KeyTable.SyncRunIsSynced: the deploy job commits each insert by itself, so what is proved is about the run of inserts, not one transaction.
- EmbeddingCache.Transparent: holds when no two texts in use share a SHA-256 digest.
- ClientLru.ClientCache.ClientFor: two keys that share a digest share a client.
- Accounting.QuotaIsInvoice: the counters of one month; a request that straddles midnight may count in the next.
- VectorCodec.Base64RoundTrip: Python's `b64decode` skips characters outside the alphabet; the model reads such text as unreadable. Nothing that was packed contains any.
- FactsGate.WordLists: the lists of stopwords, filler, negations and abbreviations are copied word by word; only how they relate is proved.
- Postgres locking and isolation below the level of one transaction, lock-acquire timeouts and role grants.
- Stripping and lower-casing of tenant ids and tiers before the lifecycle calls, and the arithmetic of JSON numbers.
- Lifecycle.EnforcedIsFirst: a `created_at` that is neither a string nor empty counts as no date, here and wherever a newest key is picked; the code raises when it compares such a date with a string.
- Lifecycle.StoreDict.ShownAllowlist: one tenant's part of `list_tenants`; the sort of all tenants, which raises on a null tenant beside a string, is not modelled.
- KeyEntry.RoundTripIffNormal: `jsonb` may order the names inside an object anew and respell a number; the model keeps a value as it was stored.
- Path normalisation and the line format of .dockerignore (`posixpath.normpath`, comments, the leading `!`): patterns and paths are already in normal form.
- Exceptions raised by code between two modelled exits of `_serve_core`: only a crash of the request stages is an input.
- Spend counters, prices, latencies, metrics, traces and audit rows.
- Usage rows after they are scheduled: the insert itself, and its loss if the database fails.
- NaN payloads in vectors: a float32 is its 32 bits.
- Rounding and percentages in the aggregator, which works on exact numbers.
- The stages, provider adapters, resilience layer and protocol translators around the request core: inputs.
- Secret Manager, Redis, HTTP and the model: answers that may be missing, late or lost.
- Prompt clean-up, secret redaction, licence checks and leak scans: heuristics without a crisp specification.
- Trial clamps, retention arithmetic and configuration merging: each is one expression over its own arguments, and nothing modelled here depends on it.
