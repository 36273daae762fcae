# Scenery in Dafny

A model of the runtime of [scenery](https://scenery.sh) and of its CRUD data
source, with proofs about every input, every run and every reachable state.
`dafny verify dfyconfig.toml` checks the whole project.

**The process host.** The front of a development session whose services run as
separate processes. `Journal` models its write-ahead journals as bytes, with a
process crash possible at any byte; `Receipts` the durable receipts kept in one;
`Runs` the application generations and assistant run scopes as values;
`RunJournal` the refinement from the retained runs to the run journal and its
amortized bound. `HostSystem` is one transition system in which every critical
section of the two locks, every release, every crash and every restart is a
separate step, and in which work in a service process outlives its hold at the host and
the host itself; `HostHolds`, `HostStreams` and `HostHistory` are its inductive
invariants and `HostTheorems` what follows for whole executions; `HostMeaning` says what
each step does and why, and `HostLatest` what a conversation's latest run is. `ProcessHost`
and the classes `Journal.JournalFile` and `Receipts.DurableOwners` are the
critical sections as the source writes them, loops and field updates, each proved
to do what the value model says.

**The CRUD data source.** `Sql` gives the built expressions SQL's three-valued
meaning over numbered placeholders; `Paging`, `Keyset` and `Like` are the theory of
keyset pagination, of ORDER BY with NULLS LAST and of literal search; `Crud`,
`CrudList`, `CrudPages`, `CrudOrder`, `CrudHash` and `CrudWrites` are the query builders,
what their queries mean, and what following cursors returns, in which order.

**The router** (`Routes`, `Router`, `RouteTables`): an exact-path index and a sorted
scan that choose the same best route. **Cron** (`CronOverlap`, `CronFields`,
`CronNext`, `CronCalendar`): the overlap scheduler and the next fire. **The
development reporter** (`Reporter`, `ReporterFlow`): byte budget, conservation and order in
every interleaving. **The SQL text normalizer** (`SqlTokens`, `SqlNormalizer`, `SqlPieces`,
`SqlForm`): what a normal form shows, and what it does not. **The
cross-process error codec** (`ErrorCodec`, `ErrorTrees`).

The environment enters as parameters: the answer of every write, the clock, the
allocated ids, the order in which steps happen, the outcome of a post, the database's
order on values. JSON, base64 and hashes are assumed to round-trip and not to
collide (`Codec.Faithful`, `Fingerprint`).

## Where the code does not do what is expected of it

Each has a witness and the exact condition, for all inputs.

- A revoked run can execute once more: a tool call that chose its generation before
  the expiry and acquires it afterwards runs, although the comment in
  runtime/process_host_conversations.go (lines 29-32) says its calls are refused from
  then on. `HostWitness.RevokedRunExecutes`, `HostTheorems.RevokedRunExecutesIff`.
- A pinned internal call can be refused although nothing was forced: a request or an
  attempt that goes on in its service process after its hold at the host has ended still
  calls, and the generation may have been retired meanwhile.
  `HostWitness.PinnedCallRefusedWithoutForce`, `HostTheorems.DispatchedIffAvailable`,
  `HostTheorems.RefusedOnlyWhenGone`.
- A conversation's latest run is not always its highest accepted run: when the latest run
  ends or is revoked, the pointer does not go back to an accepted run before it.
  `HostStranded.AcceptedRunIsStranded`, `HostLatest.LatestIsHighestIff`.
- A receipt whose principal starts with NUL is committed, and a compaction then makes the
  next incarnation refuse the whole receipt journal. (A receipt without a principal or an
  execution would do so at once; the tool dispatcher refuses the one and the host ignores
  the other, in runtime/mcp_dispatch.go, lines 134-138, and runtime/process_host_mcp.go,
  line 80.) `Receipts.NulPrincipalPoisons`, `Receipts.StoreRebuildsIff`,
  `Receipts.CompactionRebuilds`.
- A list filter drops a value whose text repeats another's: NULL and the text `<nil>`,
  for one. `CrudList.NilTextIsDropped`, `CrudList.ListedIsListIff`.
- A cursor is accepted by a request with another range, where a text filter is named like
  an end of a range filter and declared after it: both take one input, and the map that is
  hashed keeps only the list. `CrudHash.MaskedIsLost`, `CrudHash.HashTellsIff`.
- Interval schedules truncate toward zero, so they skip a time before the epoch.
  `CronNext.BeforeTheEpochSkips`, `CronNext.IntervalNextIff`.
- Overlap policies are validated without regard to case and white space but followed
  literally. `CronOverlap.ShoutedPolicySkips`, `CronOverlap.PolicyIsFollowedIff`.
- A cancellation joined beside a typed failure does not cross a process link.
  `ErrorCodec.JoinedCancellationIsLost`, `ErrorCodec.CancellationCrossesIff`.
- Neither does a transport outcome joined beside a typed failure, and a typed failure that
  a transport shares can arrive as another. `ErrorTrees.JoinedOutcomeIsLost`,
  `ErrorTrees.NestedOutcomeIsLost`, `ErrorTrees.OutcomeCrossesIffClear`;
  `ErrorTrees.SharedFailureIsOvertaken`, `ErrorTrees.FirstTypedCrossesIff`.
- A number can change how a quote right after it is read: one that ends in an E of its own,
  like `1.e`, makes it an escape string. `SqlForm.QuoteTells`, `SqlForm.NumbersInterchangeIff`.
- The normalizer's cut runs below the first byte of a long query that is not UTF-8.
  `SqlForm.CommentedBytesOverrun`, `SqlNormalizer.OverrunsIff`.

## Model

| member | source | states |
|---|---|---|
| `Journal.PartialAppend` | runtime/process_host_journal.go:119-121 | After any number of bytes of one append, what is read back is exactly the records before it, or those and the new one when its newline arrived. |
| `Journal.LinesOfFlatten` | runtime/process_host_journal.go:166-188 | Reading back a rewritten journal gives the records it was rewritten with (round trip). |
| `Journal.LinesConcat` | runtime/process_host_journal.go:122-128 | The records of two complete stretches of a file are the records of their concatenation. |
| `Journal.CommittedDropsTorn` | runtime/process_host_journal.go:117-121 | Exactly the bytes after the last newline are discarded. |
| `Journal.AppendSound` | runtime/process_host_journal.go:139-163 | Append keeps a journal either poisoned with nothing left to read, or healthy with exactly its counted records; a successful append adds exactly its record. |
| `Journal.RewriteSound` | runtime/process_host_journal.go:166-188 | The same for compaction, which replaces the records by exactly the given ones. |
| `Journal.OpenSound` | runtime/process_host_journal.go:93-136 | A starting host reaches such a state over any directory; an unpoisoned journal keeps every committed record, and its replay was accepted. |
| `Journal.AppendCrashAtomic` | runtime/process_host_journal.go:147-156 | A process crash at any byte of an append or of the poisoning after it leaves the records before, the records after, or nothing readable. |
| `Journal.RewriteCrashAtomic` | runtime/process_host_journal.go:205-219 | A crash around the rename of a compaction leaves the old records, the new records, or nothing readable. |
| `Journal.OpenCrashAtomic` | runtime/process_host_journal.go:129-134 | A crash of a starting host leaves the same committed records or nothing readable. |
| `Journal.SilentReplays` | runtime/process_host_journal.go:190-203 | A poisoned directory replays to no record or is refused, whichever of marker and removal took effect. |
| `Journal.JournalFile.AppendLine` | runtime/process_host_journal.go:139-163 | The mutating append has exactly the effect of the value model, and succeeds exactly when it says. |
| `Journal.JournalFile.RewriteLines` | runtime/process_host_journal.go:166-188 | The loop that builds the compacted body has exactly the effect of the value model. |
| `Journal.JournalFile.Replay` | runtime/process_host_journal.go:93-136 | The loop over the records reaches the state folded from them up to the first rejected record, and leaves the journal the model says. |
| `Journal.JournalFile.PoisonWith` | runtime/process_host_journal.go:191-203 | Poisoning marks the journal and leaves the directory the model says. |
| `Receipts.ApplyWellFormed` | runtime/process_host_receipts.go:106-124 | Every committed record keeps the keys of the map equal to the first-in first-out order, without duplicates, within the limit. |
| `Receipts.ApplyKeepsAmbiguity` | runtime/process_host_receipts.go:111-117 | No record makes an ambiguous retained receipt unambiguous. |
| `Receipts.NextMeaning` | runtime/process_host_receipts.go:93-103 | The committed record has the effect of the offered one; nothing is committed exactly when nothing would change; a second owner keeps the first one's fields and makes the receipt ambiguous. |
| `Receipts.CutJoins` | runtime/process_host_receipts.go:131 | Cutting a key at its first NUL and joining it again gives the key. |
| `Receipts.CompactionRebuilds` | runtime/process_host_receipts.go:128-136 | Replaying a compacted journal rebuilds the same map and order if and only if every retained key can be cut into two non-empty halves; otherwise it is refused. |
| `Receipts.Store` | runtime/process_host_receipts.go:72-88 | A store keeps the index well-formed whatever the environment answers. |
| `Receipts.StoreMeans` | runtime/process_host_receipts.go:57-124 | What a store makes of the index, field by field: the same owner changes nothing, another makes the first ambiguous, a new receipt is retained last and the oldest of a full index is forgotten, and nothing changes when the record cannot be committed. |
| `Receipts.LoadIff` | runtime/process_host_receipts.go:140-148 | A receipt is read exactly while it is retained and its owner is not ambiguous. |
| `Receipts.Open` | runtime/process_host_receipts.go:48-67 | A starting host's index is well-formed over any directory. |
| `Receipts.StoreRefines` | runtime/process_host_receipts.go:72-88 | Every store keeps: poisoned and silent, or fewer than twice the limit of records whose replay rebuilds exactly the index unless one of them is refused. |
| `Receipts.StoreRebuildsIff` | runtime/process_host_receipts.go:57-59 | Exactly when the journal after a store is rebuilt by the next incarnation, told before the store: the receipt names a principal and an execution, or, if the store compacts, every key then retained can be cut. |
| `Receipts.ReplayableIff` | runtime/process_host_receipts.go:131 | A receipt's key can be cut exactly when the principal is not empty, does not start with NUL, and holds a NUL or has an execution. |
| `Receipts.NulPrincipalPoisons` | runtime/process_host_receipts.go:126-136 | After a history of ordinary receipts, one whose principal starts with NUL is committed and retained, and the compaction of that store makes the next incarnation refuse the journal. |
| `Receipts.OpenRefines` | runtime/process_host_receipts.go:48-67 | Opening establishes the refinement over any directory. |
| `Receipts.CrashAtomic` | runtime/process_host_receipts.go:80-87 | After a crash at any byte of a store or its compaction, replay yields the index before or after the one record, or authorizes nothing. |
| `Receipts.HistoryRefines` | runtime/process_host_receipts.go:48-88 | In every state of every history of stores, crashes and restarts the journal rebuilds exactly the index, within its bounds, unless it holds a refused record; a history of storable receipts never does. |
| `Receipts.AmbiguityIsForever` | runtime/process_host_receipts.go:10-16 | A receipt once ambiguous is never authorized again while retained, across any number of stores, crashes, restarts, refused journals and compactions. |
| `Receipts.DurableOwners.ApplyRecord` | runtime/process_host_receipts.go:106-124 | The mutating apply does what the value model says and keeps the index well-formed. |
| `Receipts.DurableOwners.StoreOwner` | runtime/process_host_receipts.go:72-88 | The mutating store does what the value model says; success means the receipt is retained. |
| `Receipts.DurableOwners.CompactJournal` | runtime/process_host_receipts.go:128-136 | The loop over the order rewrites the journal with exactly the retained receipts. |
| `Receipts.DurableOwners.OpenFrom` | runtime/process_host_receipts.go:48-67 | The mutating open does what the value model says. |
| `Receipts.DurableOwners.LoadOwner` | runtime/process_host_receipts.go:140-148 | A poisoned journal fails; otherwise an unknown or ambiguous receipt reads as not found. |
| `RunJournal.ReplayIsAfter` | runtime/process_host_conversations.go:153-176 | Replaying one record changes the retained runs as committing it did. |
| `RunJournal.CompactionReplays` | runtime/process_host_conversations.go:259-269 | Replaying a compacted journal yields exactly the retained runs: same order, generation numbers and revoked flags. |
| `RunJournal.DoRefines` | runtime/process_host_conversations.go:293-423 | Reserve, finish, observe, expire and eviction, whatever the environment answers, keep: no journal, poisoned and silent, or replay yields exactly the retained runs. |
| `RunJournal.CrashRefinement` | runtime/process_host_conversations.go:230-269 | After a crash at any byte of an append, or around a compaction, inside any operation of a host whose journal is exact, replay yields exactly the retained runs before or after the one record in progress, or authorizes no run. |
| `RunJournal.OpenRefines` | runtime/process_host_conversations.go:149-181 | A new incarnation holds exactly the replayed runs, and none of them is dispatchable. |
| `RunJournal.CompactLength` | runtime/process_host_conversations.go:259-269 | A compacted journal has one record per retained run and one per revocation. |
| `RunJournal.DoBounded` | runtime/process_host_conversations.go:230-324 | Every operation keeps at most the limit L of runs and lines + (L − runs) + (L − revoked) below 4L. |
| `RunJournal.OpenBounded` | runtime/process_host_conversations.go:177-179 | So does a start over a journal of at most L runs. |
| `RunJournal.ReserveKeepsDispatchable` | runtime/process_host_conversations.go:242-255 | Making room never removes or changes a run that can execute. |
| `RunJournal.RoomBounded` | runtime/process_host_conversations.go:244-255 | When room says yes there is room for one more run. |
| `HostHolds.HoldStep` | runtime/process_host.go:309-359 | Every step of the session keeps each in-flight count equal to the generation's live holders, and keeps every held generation published unless it was removed by force. |
| `HostHolds.UnforcedKeepsHeld` | runtime/process_host.go:546-561 | Unforced retirement is refused while any request, call, admission or run holds the generation. |
| `HostHolds.DoCounted` | runtime/process_host_conversations.go:217-226 | Each run operation moves the counts exactly with the runs that hold. |
| `HostHolds.PublishNumbered` | runtime/process_host.go:488-530 | A publishable number was never published before. |
| `HostHolds.PinStep` | runtime/process_link_state.go:71-134 | Every step keeps each piece of work, also work whose hold has ended or whose host has stopped, pinned to the generation of its root. |
| `HostStreams.StreamInvStep` | runtime/process_host_conversations.go:353-380 | Every step of either lock keeps streams in agreement with the latest dispatchable run, and a stream of a retired generation only until that retirement's pass. |
| `HostStreams.ReserveFewer` | runtime/process_host_conversations.go:293-326 | A reservation, with its eviction, creates no new obligation for a stream. |
| `HostTheorems.Always` | runtime/process_host_conversations.go:16-58 | All invariants hold in every world of every execution: any interleaving of the critical sections, crashes at any byte, restarts. |
| `HostTheorems.HoldAccounting` | runtime/process_host.go:430-561 | In every reachable state a generation's in-flight count is the number of its live holders, and unforced removal needs none. |
| `HostTheorems.ReleasedOnce` | runtime/process_host.go:337 | No piece of work gives its hold back twice, in any history. |
| `HostTheorems.NumbersAreUsedOnce` | runtime/process_host.go:505-529 | Within an incarnation a published number is never publishable again, and once removed never acquirable again. |
| `HostTheorems.ToolCallsStayInScope` | runtime/process_host_mcp.go:58-72 | A tool call that names a run executes only in the generation that run was reserved in, in the same incarnation, while that generation is published and not removed, whatever happened between choosing and acquiring. |
| `HostTheorems.RevokedIsNeverChosen` | runtime/process_host_conversations.go:445-467 | After a run's revocation no call of it chooses a generation. |
| `HostTheorems.RevokedRunExecutesIff` | runtime/process_host_mcp.go:67-71 | A revoked run can execute again if and only if one of its calls chose its generation before the revocation and that generation is still published. |
| `HostTheorems.SettledForever` | runtime/process_host_conversations.go:407-423 | Without such a call, no continuation of any length, with crashes and restarts, executes the revoked run. |
| `HostTheorems.PendingCallExecutes` | runtime/process_host_mcp.go:149-158 | With such a call, the very next step executes the revoked run. |
| `HostTheorems.CallExecutes` | runtime/process_host_mcp.go:149-158 | A chosen call executes exactly when the generation it chose is still published, and in that generation. |
| `HostWitness.RevokedRunExecutes` | runtime/process_host_mcp.go:67-71 | For every configuration, an execution in which a run executes after its revocation. |
| `HostTheorems.CallTreesArePinned` | runtime/process_link_state.go:71-134 | Along any path of internal calls, at any depth, every call runs in the generation of the root, also calls of work whose hold has ended and of work an earlier host began. |
| `HostTheorems.CallTreesStayInIncarnation` | cmd/scenery/dev_process_model.go:62-66 | When no number is proposed twice in a session, no call tree crosses a host replacement. |
| `HostTheorems.DispatchedIffAvailable` | runtime/process_host.go:430-457 | A call of any work, holding or not, is dispatched exactly when this host has published the generation of its root and not removed it, and then in that generation; otherwise it is refused. |
| `HostTheorems.RefusedOnlyWhenGone` | runtime/process_host.go:442-446 | A refused call's generation was removed by force, or removed after all its work had given its hold back, or never published by this host, and then the caller began under an earlier one. |
| `HostTheorems.HeldTreesAreRefusedOnlyByForce` | runtime/process_host.go:532-561 | While the caller or any work above it in its call tree holds at this host, its calls are refused only after a forced removal. |
| `HostWitness.PinnedCallRefusedWithoutForce` | runtime/process_host.go:337 | For every configuration, an execution that forces nothing and refuses a pinned call, of a request that goes on after its client has gone. |
| `HostTheorems.StreamAttestation` | runtime/process_host_conversations.go:474-518 | While a conversation's latest accepted run can execute, every un-ended stream of it attests that run's generation; once a retirement returned, no un-ended stream attests the retired generation. |
| `HostLatest.LatestIsAccepted` | runtime/process_host_conversations.go:353-365 | In every execution a conversation's latest run is retained, of that conversation, and was accepted and not revoked since. |
| `HostLatest.LatestStep` | runtime/process_host_conversations.go:197-213 | Every step keeps that, and keeps the latest runs the highest accepted ones exactly when it does not take a latest run away and leave another accepted one. |
| `HostLatest.LatestIsHighestIff` | runtime/process_host_conversations.go:197-213 | Throughout an execution the latest run of every conversation is its highest accepted run if and only if no step strands an accepted run so. |
| `HostStranded.AcceptedRunIsStranded` | runtime/process_host_conversations.go:197-213 | For every configuration with room for two runs, an execution that leaves an accepted run in a conversation without a latest one. |
| `HostMeaning.ChoosingMeans` | runtime/process_host_conversations.go:442-469 | In every execution a tool call begins at once in the current generation exactly when it names neither conversation nor run, is bound to the generation of the callable run it names, unrevoked, held, unretired and vouched for by the journal, and otherwise changes nothing. |
| `HostMeaning.NamesOne` | runtime/process_host_conversations.go:133-139 | For run ids without NUL, the run a call names is of its conversation and id. |
| `HostMeaning.FinishingMeans` | runtime/process_host_conversations.go:329-351 | An accepted run becomes active, and the latest unless a later one is; then exactly the streams of its conversation that attest another generation end; a rejected run is forgotten, with its pointer; an unknown outcome changes only the state. |
| `HostMeaning.ObservingMeans` | runtime/process_host_conversations.go:384-404 | A terminal event forgets its run, any other accepts a run of unknown outcome, a revoked run stays; afterwards the run cannot expire. |
| `HostMeaning.ExpiringMeans` | runtime/process_host_conversations.go:407-423 | Exactly the retained runs of unknown outcome are revoked; such a run lets go of its generation and of the latest pointer, and nothing else changes. |
| `HostMeaning.ReservingMeans` | runtime/process_host_conversations.go:309-326 | A start is refused exactly for a poisoned journal, a retained run or a full session of runs that can execute; otherwise a full session forgets its oldest run that cannot, and the new run is retained last, pending and holding, if its record is committed. |
| `HostMeaning.StreamsEndForCause` | runtime/process_host_conversations.go:353-380 | In every step a stream ends exactly when it is told to, its generation is retired or a run of its conversation in another generation becomes the latest; it keeps what it attests and goes away only when detached. |
| `HostMeaning.AttachingMeans` | runtime/process_host_conversations.go:474-518 | A stream attests the generation of the latest run while that can execute, else of its request, and is registered open exactly when that is not retired. |
| `HostMeaning.PublishedIsComplete` | runtime/process_host.go:495-504 | Every published generation has an instance of each required process, and every binding names one. |
| `HostMeaning.PublishingMeans` | runtime/process_host.go:488-529 | A generation is published exactly when it is complete, of the contract and above the current number; it is then current and held by nothing. |
| `HostMeaning.RemovingMeans` | runtime/process_host.go:532-561 | A generation is removed exactly when it is published, not current, and held by nothing or forced. |
| `HostMeaning.BeginningMeans` | runtime/process_admission.go:59-102 | A request begins in the current generation, a background attempt in the newest published one with its instance, each holding it and pinned to it. |
| `HostTheorems.RunsAndJournalAreBounded` | runtime/process_host_conversations.go:60-63 | In every reachable state at most L runs are retained, and an unpoisoned run journal has fewer than 4L records. |
| `HostTheorems.CrashesKeepRuns` | runtime/process_host_conversations.go:228-269 | In every execution, a crash at any byte of any operation leaves exactly the runs retained before or after the record in progress, or no run; and a crash of a starting host leaves the same runs or none. |
| `HostTheorems.ReopenView` | runtime/process_host_conversations.go:177-179 | A crash of a starting host around the cut of a torn record or its compaction leaves exactly the runs the directory held, or nothing readable. |
| `HostTheorems.RestartsReviveNoRun` | runtime/process_host_conversations.go:147-181 | A host that starts over any directory an execution left holds exactly the runs it proves, none can execute, and it is poisoned exactly for a marker, an oversized file or a failed write of its own. |
| `ProcessHost.Session.constructor` | runtime/process_host_conversations.go:91-99 | A new host holds nothing. |
| `ProcessHost.Session.AcquireGeneration` | runtime/process_host.go:460-471 | Acquire holds the named generation, or the current one for 0, if it is published. |
| `ProcessHost.Session.ReleaseGeneration` | runtime/process_host.go:447 | A release gives exactly one hold back. |
| `ProcessHost.Session.PublishGeneration` | runtime/process_host.go:488-530 | The two validation loops and the number check publish exactly what the model calls publishable. |
| `ProcessHost.Session.RemoveGeneration` | runtime/process_host.go:546-561 | A generation is removed exactly when it is published, not current, and unheld or forced. |
| `ProcessHost.Session.Admit` | runtime/process_admission.go:59-78 | The search over the generations in any order holds the newest one that includes the instance, or none when none does. |
| `ProcessHost.Session.ForgetRun` | runtime/process_host_conversations.go:197-213 | Forgetting splices the order, drops the latest pointer and releases the hold, and nothing else. |
| `ProcessHost.Session.ReleaseHeld` | runtime/process_host_conversations.go:217-226 | A run gives its hold back once. |
| `ProcessHost.Session.Splice` | runtime/process_host_conversations.go:203-208 | The search-and-splice removes the key's first place. |
| `ProcessHost.Session.RetainedRecords` | runtime/process_host_conversations.go:259-267 | The loop builds a start record, and a revocation, per retained run in order. |
| `ProcessHost.Session.CompactRuns` | runtime/process_host_conversations.go:259-269 | Compaction rewrites the journal with exactly those records. |
| `ProcessHost.Session.EndRun` | runtime/process_host_conversations.go:230-240 | An end commits, forgets, and compacts past twice the limit. |
| `ProcessHost.Session.MakeRoom` | runtime/process_host_conversations.go:244-255 | The search ends the oldest run that cannot execute, and answers whether there is room. |
| `ProcessHost.Session.ReserveRun` | runtime/process_host_conversations.go:293-326 | A reservation succeeds exactly when the model says, and then its run is live in the given generation. |
| `ProcessHost.Session.InstallRun` | runtime/process_host_conversations.go:184-193 | The run gets the next sequence number and the end of the order. |
| `ProcessHost.Session.AcceptRun` | runtime/process_host_conversations.go:353-366 | The loop over the streams ends exactly those of the conversation that attest another generation, unless a later run was accepted. |
| `ProcessHost.Session.FinishRun` | runtime/process_host_conversations.go:329-349 | The three answers of the helper do what the model says. |
| `ProcessHost.Session.ObserveRun` | runtime/process_host_conversations.go:384-404 | An observed event ends or activates exactly the runs the model says; a revoked run stays revoked. |
| `ProcessHost.Session.ExpireRun` | runtime/process_host_conversations.go:407-423 | Only an unknown, unrevoked, live run is revoked, and it gives its hold back. |
| `ProcessHost.Session.ChooseGeneration` | runtime/process_host_conversations.go:445-467 | The chosen generation is that of a live, unrevoked, dispatchable run, or the call is refused. |
| `ProcessHost.Session.EndRetiredStreams` | runtime/process_host_conversations.go:370-380 | The nested loops end exactly the streams that attest the number. |
| `ProcessHost.Session.AttestStream` | runtime/process_host_conversations.go:485-493 | A stream attests the latest accepted run's generation while that run is dispatchable, its own otherwise. |
| `ProcessHost.Session.RegisterStream` | runtime/process_host_conversations.go:493-508 | A registered stream is ended at once when its generation is already retired. |
| `ProcessHost.Session.OpenRuns` | runtime/process_host_conversations.go:149-181 | The replay loop leaves exactly the runs the records prove. |
| `Paging.PaginationIsExact` | datasource/crud.go:242-289 | For any order on keys, following next cursors with any limits returns every row once, in the order of one sorted scan; the pages so far are all of it exactly when there is no next; and it ends. |
| `Paging.SelectSorted` | datasource/crud.go:250-259 | Filtering before or after sorting is the same scan. |
| `Paging.SortedMembers` | datasource/crud.go:254-259 | The scan has exactly the rows, each as often. |
| `Keyset.BeforeByColumn` | datasource/crud.go:522-554 | Being after a cursor, column by column, is the form the cursor clause tests. |
| `Keyset.RowOrderOrders` | datasource/crud.go:254-257 | ORDER BY with NULLS LAST, ascending or descending, is a strict total order on keys. |
| `Like.SearchIsLiteral` | datasource/crud.go:190-204 | The pattern built by the three escapes between percent signs matches a text under LIKE exactly when the search text is a substring, both lowered. |
| `Like.EscapeLikeEscapesEach` | datasource/crud.go:695-699 | The three successive replacements escape each special character once. |
| `Crud.WhereMeaning` | datasource/crud.go:434-456 | Under three-valued logic the WHERE holds of exactly the rows that carry every included value, none of them NULL. |
| `Crud.BuildWhere` | datasource/crud.go:434-456 | The loop numbers its placeholders as the arguments it appends. |
| `Crud.CursorMeaning` | datasource/crud.go:522-554 | The cursor clause holds of exactly the rows strictly after the cursor in the page's direction, NULLs last. |
| `Crud.BuildPrefix` | datasource/crud.go:534-541 | The inner loop builds equality on the columns before one, a placeholder for each value. |
| `Crud.BuildCursor` | datasource/crud.go:522-554 | The nested loops number their placeholders as the arguments they append. |
| `Crud.JoinMeaning` | datasource/crud.go:236-252 | Clauses joined by AND keep their placeholders and mean their conjunction. |
| `CrudList.FiltersMeaning` | datasource/crud.go:147-189 | The filter clauses hold of exactly the rows in every list and range given. |
| `CrudList.BuildFilters` | datasource/crud.go:147-189 | The loop over the filters builds exactly those clauses and arguments. |
| `CrudList.BuildFilter` | datasource/crud.go:148-188 | One filter's list or range. |
| `CrudList.BuildIn` | datasource/crud.go:165-170 | An IN list has one placeholder for each value appended. |
| `CrudList.CompactValues` | datasource/crud.go:509-520 | The loop drops a value whose text repeats the one before. |
| `CrudList.ListedIsListIff` | datasource/crud.go:158-160 | Sorting and compacting by text keeps every value of a list if and only if equal text means equal value; it never adds one. |
| `CrudList.AnySortIsListed` | datasource/crud.go:158-160 | Whichever way the unstable sort orders equal texts, the values passed are the same, if equal text means equal value. |
| `CrudList.NilTextIsDropped` | datasource/crud.go:158-160 | A list of NULL and the text <nil> loses one of them. |
| `CrudList.SearchMeaning` | datasource/crud.go:190-204 | The search clause holds of exactly the rows with the search text, literally, in a searched column. |
| `CrudList.OrderCoversKey` | datasource/crud.go:466-480 | Every primary key column takes part in the order. |
| `CrudOrder.OrderMeans` | datasource/crud.go:466-480 | The ORDER BY columns put rows by the sort field, NULLs last, and ties by the other primary key fields in the order of their names. |
| `CrudList.BuildOrder` | datasource/crud.go:466-480 | The loop collects the sort field and the rest of the key, by name. |
| `CrudPages.BuildBase` | datasource/crud.go:123-204 | Tenant scope, filters and search are built with consecutive placeholders. |
| `CrudPages.BuildList` | datasource/crud.go:122-259 | The query built step by step is the model's, refusals included. |
| `CrudPages.QueryAnswersRequest` | datasource/crud.go:122-275 | A list query answers one row more than a page of exactly the rows the request means beyond its cursor, in order, its limit within the bounds. |
| `CrudPages.FingerprintFixesMeaning` | datasource/crud.go:482-490 | Requests of one fingerprint mean the same rows. |
| `CrudHash.HashFixesMeaning` | datasource/crud.go:132-196 | Where no text filter writes the key of an end of a range filter after it, the map that is hashed fixes the fingerprint of every input the operation accepts, and the rows it means. |
| `CrudHash.MaskedIsLost` | datasource/crud.go:147-188 | Where one does, two accepted inputs with different ends of the range are hashed alike. |
| `CrudHash.HashTellsIff` | datasource/crud.go:132-196 | So the hash tells the requests of a spec apart as their fingerprints do if and only if no range filter is masked so, a condition on the declared names and their order. |
| `CrudHash.SlotsHash` | datasource/crud.go:132-196 | What the map holds of a key: the search, else what the last filter that writes the key writes, else the tenant field. |
| `CrudPages.CursorFixesListing` | datasource/crud.go:492-507 | A cursor is taken only by a request that means the same rows in the same order. |
| `CrudPages.NextCursorIsTaken` | datasource/crud.go:277-289 | The next_cursor of a page is accepted by the same request with any legal limit. |
| `CrudPages.FollowingIsExact` | datasource/crud.go:122-291 | Following next_cursor over a keyed table returns exactly the rows the first request means, each once and in order, a prefix until there is no next, and ends. |
| `CrudOrder.FollowingIsSorted` | datasource/crud.go:203-226 | The rows of the pages followed come by the sort and direction asked for, or else the spec's, ties by the other key fields by name; no row's sort cell is before an earlier row's. |
| `CrudOrder.PageIsFull` | datasource/crud.go:240-285 | A page holds the rows that remain up to the least of the limit asked for and the spec's, and has a next cursor exactly when more remain. |
| `CrudOrder.RefusedIff` | datasource/crud.go:122-247 | A list request is refused exactly for a missing tenant field, a sort or direction not allowed, a limit below one, a search over no column, or a cursor of another listing. |
| `CrudPages.SomethingIsListed` | datasource/crud.go:122-291 | The theorems have an instance: a sensible database, a valid spec and a request that lists every row. |
| `CrudWrites.BuildUpdate` | datasource/crud.go:345-371 | The loop builds the assignments and arguments of the model's plan, or falls back to a read. |
| `CrudWrites.UpdateMeaning` | datasource/crud.go:345-371 | In the rows that carry its keys and tenant an update gives each assignable field it carries that value; every other column, every key, tenant or immutable column and every other row stays. |
| `CrudWrites.UpdatePlanIff` | datasource/crud.go:345-371 | An update is refused exactly when a key or tenant field is missing, and only reads when it carries no field that may be assigned. |
| `CrudWrites.UpdateTouchesOneRow` | datasource/crud.go:345-371 | An update changes at most one row and keeps the table keyed. |
| `CrudWrites.ReadMeaning` | datasource/crud.go:293-307 | Get selects exactly the rows with the given keys and tenant. |
| `CrudWrites.AtMostOneScoped` | datasource/crud.go:293-307 | Keys and tenant name at most one row. |
| `CrudWrites.DeleteRemovesOneRow` | datasource/crud.go:382-396 | Delete keeps exactly the other rows, in order, and removes at most one. |
| `Routes.SplitPathInjective` | runtime/router.go:272-277 | A rooted path is known by its segments. |
| `Routes.BuildPattern` | runtime/router.go:254-270 | The loop yields the segments and their tallies. |
| `Routes.MatchSegments` | runtime/router.go:282-313 | The two-index walk answers the recursive match and its captures. |
| `Routes.MatchesIffFits` | runtime/router.go:282-313 | A request matches exactly when every segment before a wildcard takes its text and nothing is left over. |
| `Routes.MatchCaptures` | runtime/router.go:282-313 | A match captures every parameter's segment under its name, in order, and the rest of the path under a wildcard's. |
| `Routes.PatternSpells` | runtime/router.go:254-280 | A rooted path is what its parsed segments spell, and a literal is never written like a parameter or a wildcard. |
| `Routes.ComparePatterns` | runtime/router.go:222-252 | The index loop is the model's comparison. |
| `Routes.CompareIsTotalPreorder` | runtime/router.go:222-252 | compareRoutes is reflexive, antisymmetric in sign and transitive on well-formed routes. |
| `Routes.CompareIsRanked` | runtime/router.go:222-252 | Its tallies agree with one recursion over the segments. |
| `Routes.RankedIsPrecedence` | runtime/contract_path_tail.go:32 | Among the routes that fit one request it is literal, parameter, exact end, path tail at the first difference. |
| `Router.RegisterSorted` | runtime/router.go:76-92 | Registering and sorting again keeps the table sorted with the same routes. |
| `Router.ScanIsBest` | runtime/router.go:122-127 | The sorted scan finds the best route by precedence and then registration, when any matches and allows. |
| `Router.CandidatesSuit` | runtime/router.go:215-220 | A route is a candidate exactly when its pattern fits, a path tail has no empty segment, and the verb is listed, HEAD going with GET. |
| `Router.BestUnique` | runtime/router.go:222-252 | There is one best route. |
| `Router.ExactIsBest` | runtime/router.go:96-106 | The exact-path shortcut, when it finds a route, finds the best one, with no parameters. |
| `RouteTables.RouteTable.constructor` | runtime/router.go:64-66 | A new table has no routes. |
| `RouteTables.RouteTable.Handle` | runtime/router.go:76-92 | Registering any path keeps the routes and the exact-path index both views of the registrations so far, sorted for tables of rooted paths with terminal wildcards. |
| `RouteTables.RouteTable.Shortcut` | runtime/router.go:97-105 | The first route of an exact path that allows the verb. |
| `RouteTables.RouteTable.MatchingRoutes` | runtime/router.go:165-176 | All matches, in table order. |
| `RouteTables.RouteTable.FirstAllowed` | runtime/router.go:122-127 | The first of the matches that allows the verb. |
| `RouteTables.RouteTable.Serve` | runtime/router.go:94-130 | For tables of rooted paths with terminal wildcards, a request is dispatched to the best route that allows its verb, with its captures; else to global OPTIONS, not allowed or not found, exactly as stated. |
| `RouteTables.RouteTable.Choices` | runtime/router.go:94-150 | There, the exact-path index and the sorted scan both find the best route, when they find one. |
| `RouteTables.RouteTable.OwnerRoute` | runtime/router.go:134-150 | For such tables the owner is the best route that allows the verb, else the best that matches, else none. |
| `RouteTables.ServedIsOwned` | runtime/router.go:132-133 | The route served is the owner; nothing is found exactly when there is no owner. |
| `RouteTables.ServedOnce` | runtime/router.go:94-130 | A request has one answer. |
| `CronOverlap.StepKeepsInv` | runtime/cron.go:221-289 | Every timer and completion event keeps the policies' invariants. |
| `CronOverlap.PoliciesHold` | runtime/cron.go:264-287 | In every reachable state a queue waits on a running execution; skip, buffer_one and buffer_all run at most one; buffer_one queues at most one; cancel_other leaves at most one uncancelled. |
| `CronOverlap.BufferAllLosesOnlyTheLate` | runtime/cron.go:246-276 | Times are handled in schedule order; buffer_all accounts for every fired time, losing only those past the catch-up window. |
| `CronOverlap.TimerMeans` | runtime/cron.go:262-288 | A fired time is started at once by allow_all and cancel_other and, when nothing runs, by the others; else buffer_all queues it, buffer_one when its queue is empty, and it is dropped; only cancel_other cancels. |
| `CronOverlap.DoneMeans` | runtime/cron.go:235-256 | A completion takes its execution away; after the last one the queued times past the window are dropped and the first other is started. |
| `CronOverlap.PolicyNames` | runtime/cron.go:265-288 | The policies by their names, terminate_other being cancel_other and anything else skip. |
| `CronOverlap.PolicyIsFollowedIff` | runtime/cron.go:392-399 | An accepted policy text is followed if and only if it is already in normal form or names skip. |
| `CronOverlap.ShoutedPolicySkips` | runtime/cron.go:392-399 | BUFFER_ALL is accepted and skips. |
| `CronOverlap.JobLoop.constructor` | runtime/cron.go:186-220 | The loop starts empty, waiting for the plan's next time. |
| `CronOverlap.JobLoop.StartRun` | runtime/cron.go:192-209 | A start adds a running execution, or nothing without an id. |
| `CronOverlap.JobLoop.StopRunning` | runtime/cron.go:210-214 | Every running execution is cancelled, none is removed. |
| `CronOverlap.JobLoop.TimerFired` | runtime/cron.go:261-287 | The timer case has exactly the effect of the model, policy by policy. |
| `CronOverlap.JobLoop.Completed` | runtime/cron.go:239-260 | The completion case drops late times and starts the first that is not. |
| `CronFields.ParseField` | runtime/cron.go:561-615 | Parsing fails exactly when a segment does not parse or leaves its range, and otherwise holds exactly the values the segments name, at least one. |
| `CronFields.Mark` | runtime/cron.go:604-606 | The loop marks exactly the values of one segment and keeps the others. |
| `CronFields.ReachesIff` | runtime/cron.go:604-606 | The values reached by whole steps are those at a multiple of the step. |
| `CronNext.IntervalNextIff` | runtime/cron.go:39-45 | Interval Next is the least multiple after an instant if and only if the instant is not before the epoch or lies in the first second of an interval. |
| `CronNext.BeforeTheEpochSkips` | runtime/cron.go:39-45 | One second before the epoch it skips a minute. |
| `CronNext.NextMinute` | runtime/cron.go:56-70 | The loop answers the first matching minute of the horizon. |
| `CronNext.NextIsEarliest` | runtime/cron.go:56-70 | That is the earliest matching minute strictly after the argument, and none exactly when the horizon has none. |
| `CronNext.FirstMatchIsLeast` | runtime/cron.go:62-69 | The search finds the least match or proves there is none. |
| `CronCalendar.DateOfDayNumber` | runtime/cron.go:88-94 | Dates and day numbers from 2000 on are one-to-one. |
| `CronCalendar.DateOfIsReal` | runtime/cron.go:88-94 | Every day number is a real date of its year. |
| `CronCalendar.FiresWithinHorizon` | runtime/cron.go:56-107 | From 2000 through 2095 in UTC a schedule with a real date matches within the 5·366-day horizon. |
| `CronCalendar.NextFiresIff` | runtime/cron.go:56-107 | Next finds a time exactly for the schedules that name a real date. |
| `CronCalendar.MatchesMeaning` | runtime/cron.go:88-108 | A schedule matches a time of a date exactly when it names the minute, the hour and the month, and both day fields are bare or one that is not names the day, 7 being Sunday too. |
| `CronCalendar.EitherDaySuffices` | runtime/cron.go:104-106 | With both day fields restricted it matches exactly where one without the weekdays or one without the days of the month does. |
| `CronCalendar.MinutesAreTimes` | runtime/cron.go:88-94 | Every minute from 2000 on is a time of one real date. |
| `CronCalendar.WeekdayFollows` | runtime/cron.go:93-95 | 1 January 2000 was a Saturday, and weekdays follow one another. |
| `CronCalendar.YearStartIs` | runtime/cron.go:88-94 | Years start where the Gregorian rule for leap years says. |
| `Reporter.StepKeeps` | runtime/devreport.go:175-422 | Every atomic step of a producer, the sender, a stop or a disable keeps the lock, byte, size and drop-count invariants. |
| `Reporter.BudgetHolds` | runtime/devreport.go:392-420 | In every interleaving the byte count is what is reserved, queued, held back or still with the sender, never above the budget, and 0 once the loop is gone; every posted batch keeps its bounds. |
| `Reporter.NothingIsLost` | runtime/devreport.go:219-237 | Each report offered is in exactly one place; until stop or disable that is a call, the queue, the sender, the acknowledged or the counted reports; no drop count is lost. |
| `ReporterFlow.LineIsFifo` | runtime/devreport.go:175-239 | Reports are settled in the order they were queued, in every interleaving. |
| `ReporterFlow.FatesMean` | runtime/devreport.go:299-422 | A batch is acknowledged, with the drops it carries, exactly when it is posted, and otherwise counted as dropped; a call drops its report only under overload and gives it up only once reporting is disabled or stopped. |
| `Reporter.GatherBatch` | runtime/devreport.go:203-218 | The drain takes the longest run of reports that fits, holds the first that does not back, loses none and keeps the bounds. |
| `Reporter.Always` | runtime/devreport.go:175-422 | The invariants hold in every reachable state. |
| `SqlTokens.Length` | runtime/dbtrace_sql.go:19-88 | Every token takes at least one byte and never runs past the text. |
| `SqlTokens.QuotedEnd` | runtime/dbtrace_sql.go:103-118 | The loop ends where the recursive grammar of quotes, doubled quotes and escapes does. |
| `SqlTokens.BlockEnd` | runtime/dbtrace_sql.go:29-43 | The loop ends where the nested comment closes. |
| `SqlTokens.LineEnd` | runtime/dbtrace_sql.go:21-28 | A line comment ends with its newline, or the text. |
| `SqlTokens.DollarEnd` | runtime/dbtrace_sql.go:60-66 | A dollar string ends with its delimiter's first occurrence, or the text. |
| `SqlTokens.IdentEnd` | runtime/dbtrace_sql.go:55-58 | The run of identifier bytes. |
| `SqlTokens.NumberEnd` | runtime/dbtrace_sql.go:72-83 | A number runs over digits, letters, points and signed exponents. |
| `SqlTokens.DollarToken` | runtime/dbtrace_sql.go:54-71 | A dollar string up to its delimiter, or a parameter. |
| `SqlTokens.NextToken` | runtime/dbtrace_sql.go:19-88 | One turn of the switch takes exactly the model's token. |
| `SqlTokens.ScanQuery` | runtime/dbtrace_sql.go:19-88 | The loop writes exactly what the recursive scan writes. |
| `SqlNormalizer.TokenStable` | runtime/dbtrace_sql.go:19-88 | A token that ends within a text depends on that text and the one byte after it only. |
| `SqlNormalizer.ScanHidesContents` | runtime/dbtrace_sql.go:19-88 | The scanner writes the same whatever a string, number or comment holds. |
| `SqlNormalizer.NameHidesContents` | runtime/dbtrace_sql.go:13-18 | So is the sqlc name, but for the leading comment. |
| `SqlNormalizer.NormalFormHidesContents` | runtime/dbtrace_sql.go:12-101 | The normal form is the same for two texts the scanner takes as one string, number or comment. |
| `SqlForm.ContentsDoNotShow` | runtime/dbtrace_sql.go:8-11 | Replacing the contents of a string, dollar string or comment by other contents closed by the same delimiters, or a number by another, leaves the normal form unchanged; before a quote, numbers must end alike. |
| `SqlForm.NumbersInterchangeIff` | runtime/dbtrace_sql.go:40-42 | One number can stand for another before every text if and only if both or neither end in an E that is no part of a word. |
| `SqlPieces.EveryTextIsPieces` | runtime/dbtrace_sql.go:19-88 | Every text is a sequence of strings, dollar strings, comments, quoted names, numbers, parameters and plain bytes, the last one possibly cut off, by their own grammar. |
| `SqlPieces.ScanShows` | runtime/dbtrace_sql.go:19-88 | Of such a sequence the scanner writes one mark for each string and number, a space for each comment, and everything else as it is. |
| `SqlForm.NormalFormShows` | runtime/dbtrace_sql.go:12-101 | The normal form of every query: its sqlc name and the fields of what its pieces show, joined by spaces; unknown when empty, and cut at the last rune that starts within the limit when long. |
| `SqlForm.SqlcNameIff` | runtime/dbtrace_sql.go:13-17 | The sqlc name is exactly the one a leading comment gives, the key in any case. |
| `SqlForm.FoldedIsFields` | runtime/dbtrace_sql.go:89 | The folded text is the fields between white space, joined by single spaces. |
| `SqlForm.TrimIs` | runtime/dbtrace_sql.go:13 | Only white space is trimmed, and all of it. |
| `SqlPieces.PieceToken` | runtime/dbtrace_sql.go:19-88 | The scanner takes a piece that keeps to its grammar whole. |
| `SqlNormalizer.NormalFormBounds` | runtime/dbtrace_sql.go:89-100 | A normal form is never empty and never long. |
| `SqlNormalizer.OverrunsIff` | runtime/dbtrace_sql.go:93-98 | The cut runs below the first byte if and only if the trimmed query has no sqlc name and, after leading white space and comments, starts with more than the limit of bytes that continue a rune. |
| `SqlForm.CommentedBytesOverrun` | runtime/dbtrace_sql.go:93-98 | A comment followed by enough continuation bytes is such a query. |
| `SqlNormalizer.FinishText` | runtime/dbtrace_sql.go:89-100 | The cutting loop stops at the last rune start within the limit. |
| `SqlNormalizer.NormalizeQuery` | runtime/dbtrace_sql.go:12-101 | The whole of normalizeDBQuery, with its loops. |
| `ErrorCodec.EncodeDecode` | runtime/process_link_state.go:197-245 | Encoding a decoded wire error gives that wire error back. |
| `ErrorCodec.HopsAreStable` | runtime/process_link_state.go:197-245 | Any number of hops sends the wire error of the first. |
| `ErrorCodec.ChainsCross` | runtime/process_link_state.go:197-245 | For an error without joins, any number of hops also keeps the order of outcomes and failures, and its cancellation or deadline identity. |
| `ErrorTrees.TypedFailuresCross` | runtime/process_link_state.go:197-245 | For every error tree without a shared failure, joins included, any number of hops keeps the outermost typed failure and its nested typed causes. |
| `ErrorTrees.FirstTypedCrossesIff` | runtime/process_link_state.go:203-207 | For every tree, the failure that arrives first is the one found by following transports that hold the first failure; the first failure crosses exactly when that is it, and always where none is shared. |
| `ErrorTrees.SharedFailureIsOvertaken` | runtime/process_link_state.go:203-207 | A failure that the first transport shares, below another one, arrives as that other one. |
| `ErrorTrees.FirstTransportCrossesIff` | runtime/process_link_state.go:203-212 | For every tree, the transport outcome that arrives first is the first one without a typed failure or holding the first, or else the one arriving from that failure's cause. |
| `ErrorTrees.OutcomeCrossesIffClear` | runtime/process_link_state.go:203-212 | The first transport outcome crosses whenever no typed failure stands beside it; where nothing is shared it is the one that arrives only then. |
| `ErrorTrees.JoinedOutcomeIsLost` | runtime/process_link_state.go:203-212 | An outcome joined beside a typed failure is lost. |
| `ErrorTrees.NestedOutcomeIsLost` | runtime/process_link_state.go:203-212 | So is one that lies below the first typed failure, beside another. |
| `ErrorTrees.CancellationCrossesIffLeft` | runtime/process_link_state.go:213-218 | Where no failure is shared, a cancellation crosses exactly when it is what is left below the nested typed failures and then the transport outcomes. |
| `ErrorTrees.MessageCrosses` | runtime/process_link_state.go:213-218 | Where no failure is shared, the error left below arrives with its message. |
| `ErrorCodec.CancellationCrossesIff` | runtime/process_link_state.go:213-218 | For every tree, cancellation survives hops if and only if the leaf below the encoded failures is that cancellation; it is never invented. |
| `ErrorCodec.JoinedCancellationIsLost` | runtime/process_link_state.go:201-212 | A cancellation joined beside a typed failure does not cross. |
| `ErrorCodec.EndIsLeaf` | runtime/process_link_state.go:213-218 | A wire error ends in a cancellation exactly when that leaf is one. |

## Left out

- Power loss: appends are not synced, so only process crashes are modelled; also the case in which both the poison marker and the removal fail, which the supervisor handles.
- The quiescing flag of a host being replaced, and I/O failures other than a missing file while a starting host inspects its journals.
- The record count of a journal poisoned while it is replayed, which nothing reads; a retirement in the middle of one search for room, which is taken as one step.
- Timers and the liveness of the run observer: observing and expiring are steps that may happen at any time.
- Uniqueness of the run ids of forgotten runs, which comes from randomness.
- Reporter.BudgetHolds: does not model back-off, the failure counter or wrap-around of the 64-bit drop counter; a deferred unlock is taken together with the return it follows.
- Reporter.StepKeeps: enqueue and the sender's loop are atomic steps over values rather than methods, because they interleave; only the drain of a batch is also a method.
- CrudPages.FollowingIsExact: assumes that values survive the cursor codec, so a value whose JSON is null while its column is not NULL is not covered, and that the table does not change between pages.
- CrudPages.FingerprintFixesMeaning: the fingerprint stands for its hash, which is assumed not to collide; CrudHash is about the map that is hashed, for names without dots.
- CrudList.ListedIsListIff: equal texts are kept in list order, where the source's sort is not stable; AnySortIsListed says when that does not matter.
- ProcessHost.Session.PublishGeneration: does not model the checks of build identity and of instance addresses, each of which only refuses.
- ProcessHost.Session.ChooseGeneration: takes the names of a call already trimmed.
- JSON decoding of CRUD inputs, the create operation, and rendering of expressions as SQL text; a search over no column is refused where the source leaves that to the database.
- Like.SearchIsLiteral: assumes that lowering neither produces nor loses a pattern character, and lowers character by character.
- RouteTables.RouteTable.Serve: promises nothing for tables with unrooted paths or inner wildcards, which endpoint validation refuses and for which compareRoutes is not transitive; method lists come already expanded, and the Allow header is not modelled.
- HostTheorems.CallTreesStayInIncarnation: assumes that the supervisor proposes no number twice in a session; the supervisor itself is not modelled.
- CronFields.ParseField: reads segments whose numbers and steps are already parsed; overflow of a step past the machine's integers is not modelled.
- CronCalendar.NextFiresIff: is about UTC; the search itself is proved for any zone's clock.
- CronOverlap.PoliciesHold: assumes that execution ids can be allocated, as the queue can otherwise wait on nothing; cancellation of the job's own context ends the loop and is not a step.
- CronOverlap.PolicyIsFollowedIff: lowers and trims ASCII text.
- Calendar and one-time schedules, the durable job store, and admission of scheduled runs.
- SqlNormalizer.NormalizeQuery: white space and letter case are ASCII; library calls (trimming, fields, the name pattern) are functions.
- ErrorCodec.CancellationCrossesIff: errors with their own Is or As methods and the encoding of metadata are not modelled.
- HTTP serving, proxying, sockets, headers other than the generation's, authentication, telemetry and fault injection.
