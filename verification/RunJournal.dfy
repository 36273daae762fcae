/** The run journal refines the retained runs, at every byte a crash can stop at,
and stays within a bound that its compaction policy amortizes
(runtime/process_host_conversations.go, process_host_journal.go). */
module RunJournal {
  import opened Options
  import opened Journal
  import opened Runs

  // ----- what the journal keeps of the runs -----

  /** What of a run outlives its host: not its state, hold or sequence. */
  datatype Kept = Kept(conversation: string, runID: string, number: nat, revoked: bool)

  datatype Retained = Retained(kept: map<string, Kept>, order: seq<string>)

  function View(runs: map<string, Run>, order: seq<string>): Retained {
    Retained(map key | key in runs :: Kept(runs[key].conversation, runs[key].runID, runs[key].number, runs[key].revoked), order)
  }

  function HostView(host: Host): Retained {
    View(host.conv.runs, host.conv.order)
  }

  const NOTHING: Retained := Retained(map[], [])

  /** The retained runs after one more committed record. */
  function After(retained: Retained, record: RunRecord): Retained {
    var key := RunKey(record.conversation, record.runID);
    if record.ended then
      if key in retained.kept then Retained(retained.kept - {key}, Without(retained.order, key)) else retained
    else if record.revoked then
      if key in retained.kept then retained.(kept := retained.kept[key := retained.kept[key].(revoked := true)]) else retained
    else if key in retained.kept then retained
    else Retained(retained.kept[key := Kept(record.conversation, record.runID, record.generation, false)], retained.order + [key])
  }

  /** What a later incarnation replays: None when it refuses the journal. */
  function ReplayedView(config: Config, disk: Disk): Option<Retained> {
    match Replayed(disk, NO_RUNS, Replayer(config.codec))
    case None => None
    case Some(roster) => Some(View(roster.runs, roster.order))
  }

  lemma ReplayIsAfter(roster: Roster, record: RunRecord)
    ensures View(Replay(roster, record).runs, Replay(roster, record).order) == After(View(roster.runs, roster.order), record)
  {
  }

  // ----- the shape of the retained runs -----

  ghost predicate Tidy(runs: map<string, Run>, order: seq<string>) {
    Indexed(runs, order) && forall key :: key in runs ==> Filed(key, runs[key])
  }

  /** A run the journal can keep, under its own key. */
  predicate Filed(key: string, run: Run) {
    Storable(run) && RunKey(run.conversation, run.runID) == key
  }

  predicate Storable(run: Run) {
    run.conversation != "" && run.runID != "" && run.number != 0
  }

  lemma {:induction false} WithoutRemoves(order: seq<string>, key: string)
    requires forall i, j :: 0 <= i < j < |order| ==> order[i] != order[j]
    ensures var rest := Without(order, key);
            && (forall i, j :: 0 <= i < j < |rest| ==> rest[i] != rest[j])
            && (forall k :: k in rest <==> k in order && k != key)
  {
    if order != [] {
      assert order == [order[0]] + order[1..];
      assert forall i :: 0 <= i < |order| - 1 ==> order[1..][i] == order[i + 1];
      assert order[0] !in order[1..];
      if order[0] != key {
        WithoutRemoves(order[1..], key);
        var rest := Without(order[1..], key);
        assert order[0] !in rest;
        var whole := Without(order, key);
        assert whole == [order[0]] + rest;
        forall i, j | 0 <= i < j < |whole|
          ensures whole[i] != whole[j]
        {
          assert whole[j] == rest[j - 1] && rest[j - 1] in rest;
        }
      }
    }
  }

  lemma ForgetShape(host: Host, key: string)
    requires key in host.conv.runs
    ensures Forget(host, key).conv.runs == host.conv.runs - {key}
    ensures Forget(host, key).conv.order == Without(host.conv.order, key)
    ensures Forget(host, key).conv.log == host.conv.log && Forget(host, key).conv.sequence == host.conv.sequence
  {
  }

  lemma ForgetIndexed(host: Host, key: string)
    requires Indexed(host.conv.runs, host.conv.order)
    ensures Indexed(Forget(host, key).conv.runs, Forget(host, key).conv.order)
  {
    if key in host.conv.runs {
      ForgetShape(host, key);
      WithoutRemoves(host.conv.order, key);
    }
  }

  lemma ForgetTidy(host: Host, key: string)
    requires Tidy(host.conv.runs, host.conv.order) && key in host.conv.runs
    ensures Tidy(Forget(host, key).conv.runs, Forget(host, key).conv.order)
  {
    ForgetShape(host, key);
    ForgetIndexed(host, key);
  }

  // ----- each operation's effect on the view -----

  lemma ForgetView(host: Host, key: string)
    requires Tidy(host.conv.runs, host.conv.order) && key in host.conv.runs
    ensures HostView(Forget(host, key)) == After(HostView(host), EndRecord(host.conv.runs[key]))
  {
    ForgetShape(host, key);
    assert Filed(key, host.conv.runs[key]);
    assert HostView(Forget(host, key)).kept == HostView(host).kept - {key};
  }

  lemma InstallView(conv: Conversations, run: Run)
    requires RunKey(run.conversation, run.runID) !in conv.runs && !run.revoked
    ensures var next := Install(conv, RunKey(run.conversation, run.runID), run);
            View(next.runs, next.order) == After(View(conv.runs, conv.order), StartRecord(run))
  {
  }

  lemma ExpireShape(config: Config, host: Host, ref: Ref, env: Env)
    requires Expirable(host.conv, ref)
    ensures var run := host.conv.runs[ref.key];
            var next := Expire(config, host, ref, env).conv;
            && next.runs == host.conv.runs[ref.key := run.(revoked := true, held := false)]
            && next.order == host.conv.order && next.sequence == host.conv.sequence
            && next.log == Append(host.conv.log, config.codec.enc(RevokeRecord(run)), env.commit)
  {
  }

  lemma ExpireView(config: Config, host: Host, ref: Ref, env: Env)
    requires Tidy(host.conv.runs, host.conv.order) && Expirable(host.conv, ref)
    ensures HostView(Expire(config, host, ref, env)) == After(HostView(host), RevokeRecord(host.conv.runs[ref.key]))
    ensures Tidy(Expire(config, host, ref, env).conv.runs, Expire(config, host, ref, env).conv.order)
  {
    ExpireShape(config, host, ref, env);
    RevokedView(host.conv.runs, host.conv.order, ref.key);
  }

  /** Revoking a run is what its revocation record does. */
  lemma RevokedView(runs: map<string, Run>, order: seq<string>, key: string)
    requires Tidy(runs, order) && key in runs
    ensures var next := runs[key := runs[key].(revoked := true, held := false)];
            View(next, order) == After(View(runs, order), RevokeRecord(runs[key])) && Tidy(next, order)
  {
    assert Filed(key, runs[key]);
  }

  // ----- compaction -----

  lemma Unfold<S>(state: S, apply: (S, seq<Byte>) -> Option<S>, line: seq<Byte>, rest: seq<seq<Byte>>)
    requires apply(state, line).Some?
    ensures Fold(state, apply, [line] + rest) == Fold(apply(state, line).value, apply, rest)
  {
    assert ([line] + rest)[1..] == rest;
  }

  lemma EncodeConcat(codec: Codec<RunRecord>, a: seq<RunRecord>, b: seq<RunRecord>)
    ensures codec.EncodeAll(a + b) == codec.EncodeAll(a) + codec.EncodeAll(b)
  {
  }

  /** One retained run, replayed from its compacted records. */
  lemma ReplayOne(codec: Codec<RunRecord>, roster: Roster, run: Run, rest: seq<seq<Byte>>) returns (next: Roster)
    requires codec.Faithful() && Storable(run) && RunKey(run.conversation, run.runID) !in roster.runs
    ensures var records := if run.revoked then [StartRecord(run), RevokeRecord(run)] else [StartRecord(run)];
            Fold(roster, Replayer(codec), codec.EncodeAll(records) + rest) == Fold(next, Replayer(codec), rest)
    ensures var key := RunKey(run.conversation, run.runID);
            var view := View(roster.runs, roster.order);
            View(next.runs, next.order) ==
            Retained(view.kept[key := Kept(run.conversation, run.runID, run.number, run.revoked)], view.order + [key])
  {
    var apply := Replayer(codec);
    var start, revoke := codec.enc(StartRecord(run)), codec.enc(RevokeRecord(run));
    var started := Replay(roster, StartRecord(run));
    ReplayIsAfter(roster, StartRecord(run));
    assert apply(roster, start) == Some(started);
    if run.revoked {
      next := Replay(started, RevokeRecord(run));
      ReplayIsAfter(started, RevokeRecord(run));
      assert apply(started, revoke) == Some(next);
      Unfold(started, apply, revoke, rest);
      Unfold(roster, apply, start, [revoke] + rest);
      assert codec.EncodeAll([StartRecord(run), RevokeRecord(run)]) + rest == [start] + ([revoke] + rest);
    } else {
      next := started;
      Unfold(roster, apply, start, rest);
      assert codec.EncodeAll([StartRecord(run)]) == [start];
    }
  }

  function ViewPrefix(runs: map<string, Run>, order: seq<string>, n: nat): Retained
    requires n <= |order|
  {
    Retained(map key | key in runs && key in order[..n] :: Kept(runs[key].conversation, runs[key].runID, runs[key].number, runs[key].revoked), order[..n])
  }

  lemma PrefixNext(runs: map<string, Run>, order: seq<string>, n: nat)
    requires Tidy(runs, order) && n < |order|
    ensures order[n] in runs && order[n] !in ViewPrefix(runs, order, n).kept
    ensures var run := runs[order[n]];
            var view := ViewPrefix(runs, order, n);
            ViewPrefix(runs, order, n + 1) ==
            Retained(view.kept[order[n] := Kept(run.conversation, run.runID, run.number, run.revoked)], view.order + [order[n]])
  {
    assert order[..n + 1] == order[..n] + [order[n]];
  }

  lemma {:induction false} CompactionReplays(codec: Codec<RunRecord>, runs: map<string, Run>, order: seq<string>, n: nat, roster: Roster)
    requires codec.Faithful() && Tidy(runs, order) && n <= |order|
    requires View(roster.runs, roster.order) == ViewPrefix(runs, order, n)
    ensures forall key :: key in order[n..] ==> key in runs
    ensures var replayed := Fold(roster, Replayer(codec), codec.EncodeAll(CompactRecords(runs, order[n..])));
            replayed.Some? && View(replayed.value.runs, replayed.value.order) == View(runs, order)
    decreases |order| - n
  {
    if n == |order| {
      assert order[..n] == order;
      assert ViewPrefix(runs, order, n) == View(runs, order);
    } else {
      var run := runs[order[n]];
      PrefixNext(runs, order, n);
      assert order[n..][1..] == order[n + 1..];
      assert order[n] !in View(roster.runs, roster.order).kept;
      var rest := codec.EncodeAll(CompactRecords(runs, order[n + 1..]));
      var next := ReplayOne(codec, roster, run, rest);
      var records := if run.revoked then [StartRecord(run), RevokeRecord(run)] else [StartRecord(run)];
      EncodeConcat(codec, records, CompactRecords(runs, order[n + 1..]));
      CompactionReplays(codec, runs, order, n + 1, next);
    }
  }

  // ----- refinement -----

  /** The journal of a running host: it has no path, it is poisoned and silent, or
      replaying it yields exactly the retained runs. */
  ghost predicate Refines(config: Config, host: Host) {
    && Tidy(host.conv.runs, host.conv.order)
    && Sound(host.conv.log)
    && (host.conv.log.enabled && !host.conv.log.poisoned ==> JournalView(config, host.conv.log.disk) == Some(HostView(host)))
  }

  /** ReplayedView without the size bound on a replayed file. */
  function JournalView(config: Config, disk: Disk): Option<Retained> {
    match Fold(NO_RUNS, Replayer(config.codec), Records(disk))
    case None => None
    case Some(roster) => Some(View(roster.runs, roster.order))
  }

  /** A committed record moves the journal's view. */
  lemma CommitView(config: Config, log: Log, record: RunRecord, io: Io, view: Retained)
    requires config.codec.Faithful() && Sound(log) && !Incomplete(record)
    requires log.enabled && !log.poisoned && io.Done? && JournalView(config, log.disk) == Some(view)
    ensures JournalView(config, Append(log, config.codec.enc(record), io).disk) == Some(After(view, record))
  {
    var apply, line := Replayer(config.codec), config.codec.enc(record);
    AppendSound(log, line, io);
    RecordsView(config, Records(log.disk), record);
  }

  lemma RecordsView(config: Config, lines: seq<seq<Byte>>, record: RunRecord)
    requires config.codec.Faithful() && !Incomplete(record)
    requires Fold(NO_RUNS, Replayer(config.codec), lines).Some?
    ensures var roster := Fold(NO_RUNS, Replayer(config.codec), lines).value;
            Fold(NO_RUNS, Replayer(config.codec), lines + [config.codec.enc(record)]) == Some(Replay(roster, record)) &&
            View(Replay(roster, record).runs, Replay(roster, record).order) == After(View(roster.runs, roster.order), record)
  {
    var apply, line := Replayer(config.codec), config.codec.enc(record);
    var roster := Fold(NO_RUNS, apply, lines).value;
    FoldConcat(NO_RUNS, apply, lines, [line]);
    assert apply(roster, line) == Some(Replay(roster, record));
    ReplayIsAfter(roster, record);
  }

  lemma CompactRefines(config: Config, host: Host, io: Io)
    requires config.codec.Faithful() && Tidy(host.conv.runs, host.conv.order) && Sound(host.conv.log)
    ensures Refines(config, Compact(config, host, io))
    ensures HostView(Compact(config, host, io)) == HostView(host)
    ensures !host.conv.log.poisoned && host.conv.log.enabled && io.Done? ==>
              JournalView(config, Compact(config, host, io).conv.log.disk) == Some(HostView(host))
  {
    var runs, order := host.conv.runs, host.conv.order;
    var lines := config.codec.EncodeAll(CompactRecords(runs, order));
    RewriteSound(host.conv.log, lines, io);
    assert ViewPrefix(runs, order, 0) == NOTHING == View(NO_RUNS.runs, NO_RUNS.order);
    assert order[0..] == order;
    CompactionReplays(config.codec, runs, order, 0, NO_RUNS);
  }

  lemma EndRefines(config: Config, host: Host, ref: Ref, io: Io, compaction: Io)
    requires config.codec.Faithful() && Refines(config, host)
    ensures Refines(config, End(config, host, ref, io, compaction))
    ensures Live(host.conv, ref) ==>
              HostView(End(config, host, ref, io, compaction)) == After(HostView(host), EndRecord(host.conv.runs[ref.key]))
  {
    if Live(host.conv, ref) {
      var record := EndRecord(host.conv.runs[ref.key]);
      var committed := Commit(config, host, record, io);
      AppendSound(host.conv.log, config.codec.enc(record), io);
      ForgetTidy(committed, ref.key);
      ForgetView(committed, ref.key);
      if host.conv.log.enabled && !host.conv.log.poisoned && io.Done? {
        CommitView(config, host.conv.log, record, io, HostView(host));
      }
      var ended := Forget(committed, ref.key);
      assert HostView(committed) == HostView(host);
      if ended.conv.log.lines >= 2 * config.limit {
        CompactRefines(config, ended, compaction);
      }
    }
  }

  lemma {:induction false} StaleFound(host: Host, order: seq<string>)
    ensures var stale := Stale(host, order);
            stale.Some? ==> stale.value in order && stale.value in host.conv.runs && !Dispatchable(host, host.conv.runs[stale.value])
  {
    if order != [] {
      StaleFound(host, order[1..]);
    }
  }

  lemma RoomRefines(config: Config, host: Host, env: Env)
    requires config.codec.Faithful() && Refines(config, host)
    ensures Refines(config, Room(config, host, env))
    ensures Room(config, host, env).conv.runs.Keys <= host.conv.runs.Keys
  {
    StaleFound(host, host.conv.order);
    var stale := Stale(host, host.conv.order);
    if |host.conv.runs| >= config.limit && stale.Some? {
      EndRefines(config, host, RefOf(host.conv, stale.value), env.evict, env.evictCompaction);
      EndRuns(config, host, RefOf(host.conv, stale.value), env.evict, env.evictCompaction);
    }
  }

  lemma EndRuns(config: Config, host: Host, ref: Ref, io: Io, compaction: Io)
    requires Live(host.conv, ref)
    ensures End(config, host, ref, io, compaction).conv.runs == host.conv.runs - {ref.key}
  {
    ForgetShape(Commit(config, host, EndRecord(host.conv.runs[ref.key]), io), ref.key);
  }

  /** Some runs may be gone; the others are as they were. */
  ghost predicate Trimmed(before: Conversations, after: Conversations) {
    && after.sequence == before.sequence
    && (forall key :: key in after.runs ==> key in before.runs && after.runs[key] == before.runs[key])
  }

  lemma RoomTrims(config: Config, host: Host, env: Env, next: Host)
    requires next == Room(config, host, env)
    ensures Trimmed(host.conv, next.conv)
  {
    StaleFound(host, host.conv.order);
    var stale := Stale(host, host.conv.order);
    if |host.conv.runs| >= config.limit && stale.Some? {
      var ref := RefOf(host.conv, stale.value);
      EndRuns(config, host, ref, env.evict, env.evictCompaction);
      ForgetShape(Commit(config, host, EndRecord(host.conv.runs[ref.key]), env.evict), ref.key);
    }
  }

  /** A reservation installs its run beside what room left, or changes no run. */
  lemma ReserveShape(config: Config, host: Host, conversation: string, runID: string, number: nat, env: Env, next: Host)
    requires next == Reserve(config, host, conversation, runID, number, env)
    ensures if Reserved(config, host, conversation, runID, env)
            then
              && next.conv.sequence == host.conv.sequence + 1
              && RunKey(conversation, runID) in next.conv.runs
              && next.conv.runs[RunKey(conversation, runID)] == NewRun(conversation, runID, number).(sequence := host.conv.sequence + 1)
              && forall key :: key in next.conv.runs && key != RunKey(conversation, runID) ==> key in host.conv.runs && next.conv.runs[key] == host.conv.runs[key]
            else Trimmed(host.conv, next.conv)
  {
    RoomTrims(config, host, env, Room(config, host, env));
  }

  lemma ReserveRefines(config: Config, host: Host, conversation: string, runID: string, number: nat, env: Env)
    requires config.codec.Faithful() && Refines(config, host)
    requires Storable(NewRun(conversation, runID, number))
    ensures Refines(config, Reserve(config, host, conversation, runID, number, env))
    ensures Reserved(config, host, conversation, runID, env) ==>
              HostView(Reserve(config, host, conversation, runID, number, env)) ==
              After(HostView(Room(config, host, env)), StartRecord(NewRun(conversation, runID, number)))
  {
    if Admissible(config, host, conversation, runID) {
      RoomRefines(config, host, env);
      var roomy := Room(config, host, env);
      var run := NewRun(conversation, runID, number);
      var key := RunKey(conversation, runID);
      AppendSound(roomy.conv.log, config.codec.enc(StartRecord(run)), env.commit);
      if Appended(roomy.conv.log, env.commit) {
        assert key !in roomy.conv.runs;
        var committed := Commit(config, roomy, StartRecord(run), env.commit);
        InstallView(committed.conv, run);
        InstallTidy(committed.conv, key, run);
        if roomy.conv.log.enabled {
          CommitView(config, roomy.conv.log, StartRecord(run), env.commit, HostView(roomy));
        }
      }
    }
  }

  lemma InstallTidy(conv: Conversations, key: string, run: Run)
    requires Tidy(conv.runs, conv.order) && key !in conv.runs && Filed(key, run)
    ensures Tidy(Install(conv, key, run).runs, Install(conv, key, run).order)
  {
    assert key !in conv.order;
  }

  lemma ExpireRefines(config: Config, host: Host, ref: Ref, env: Env)
    requires config.codec.Faithful() && Refines(config, host)
    ensures Refines(config, Expire(config, host, ref, env))
  {
    if Expirable(host.conv, ref) {
      var record := RevokeRecord(host.conv.runs[ref.key]);
      assert Filed(ref.key, host.conv.runs[ref.key]);
      AppendSound(host.conv.log, config.codec.enc(record), env.commit);
      ExpireShape(config, host, ref, env);
      ExpireView(config, host, ref, env);
      if host.conv.log.enabled && !host.conv.log.poisoned && env.commit.Done? {
        CommitView(config, host.conv.log, record, env.commit, HostView(host));
      }
    }
  }

  // ----- the operations that commit authority -----

  datatype Op =
    | ReserveOp(conversation: string, runID: string, number: nat)
    | FinishOp(ref: Ref, outcome: Outcome)
    | ObservedOp(ref: Ref, terminal: bool)
    | ExpireOp(ref: Ref)

  function Do(config: Config, host: Host, op: Op, env: Env): Host {
    match op
    case ReserveOp(conversation, runID, number) => Reserve(config, host, conversation, runID, number, env)
    case FinishOp(ref, outcome) => Finish(config, host, ref, outcome, env)
    case ObservedOp(ref, terminal) => Observed(config, host, ref, terminal, env)
    case ExpireOp(ref) => Expire(config, host, ref, env)
  }

  /** Run ids are never empty and published numbers are never zero. */
  predicate ProperOp(op: Op) {
    op.ReserveOp? ==> Storable(NewRun(op.conversation, op.runID, op.number))
  }

  lemma StateKeepsView(host: Host, ref: Ref, state: RunState)
    requires Live(host.conv, ref)
    ensures HostView(host.(conv := SetState(host.conv, ref.key, state))) == HostView(host)
    ensures HostView(host.(conv := Accept(SetState(host.conv, ref.key, state), ref))) == HostView(host)
  {
  }

  lemma ViewDecidesTidy(runs: map<string, Run>, other: map<string, Run>, order: seq<string>)
    requires Tidy(runs, order) && View(runs, order) == View(other, order)
    ensures Tidy(other, order)
  {
    assert View(runs, order).kept.Keys == runs.Keys && View(other, order).kept.Keys == other.Keys;
    forall key | key in other
      ensures Filed(key, other[key])
    {
      assert View(runs, order).kept[key] == View(other, order).kept[key];
      assert Filed(key, runs[key]);
    }
  }

  /** Every operation, whatever the environment answers, keeps the journal exact. */
  lemma DoRefines(config: Config, host: Host, op: Op, env: Env)
    requires config.codec.Faithful() && Refines(config, host) && ProperOp(op)
    ensures Refines(config, Do(config, host, op, env))
  {
    hide Refines, Reserve, Expire, Finish, Observed;
    match op
    case ReserveOp(conversation, runID, number) => ReserveRefines(config, host, conversation, runID, number, env);
    case ExpireOp(ref) => ExpireRefines(config, host, ref, env);
    case FinishOp(ref, outcome) => FinishRefines(config, host, ref, outcome, env);
    case ObservedOp(ref, terminal) => ObservedRefines(config, host, ref, terminal, env);
  }

  lemma FinishRefines(config: Config, host: Host, ref: Ref, outcome: Outcome, env: Env)
    requires config.codec.Faithful() && Refines(config, host)
    ensures Refines(config, Finish(config, host, ref, outcome, env))
  {
    hide Refines, End, Accept, SetState;
    if Live(host.conv, ref) {
      match outcome
      case Rejected => EndRefines(config, host, ref, env.commit, env.compaction);
      case OutcomeUnknown => StateRefines(config, host, ref, Unknown);
      case Accepted => StateRefines(config, host, ref, Active);
    }
  }

  lemma ObservedRefines(config: Config, host: Host, ref: Ref, terminal: bool, env: Env)
    requires config.codec.Faithful() && Refines(config, host)
    ensures Refines(config, Observed(config, host, ref, terminal, env))
  {
    hide Refines, End, Accept, SetState;
    if Live(host.conv, ref) {
      EndRefines(config, host, ref, env.commit, env.compaction);
      StateRefines(config, host, ref, Active);
    }
  }

  lemma StateRefines(config: Config, host: Host, ref: Ref, state: RunState)
    requires Refines(config, host) && Live(host.conv, ref)
    ensures Refines(config, host.(conv := SetState(host.conv, ref.key, state)))
    ensures Refines(config, host.(conv := Accept(SetState(host.conv, ref.key, state), ref)))
  {
    StateKeepsView(host, ref, state);
    ViewDecidesTidy(host.conv.runs, SetState(host.conv, ref.key, state).runs, host.conv.order);
  }

  // ----- crashes -----

  /** Where inside an operation a crash can strike: while it appends a record, or
      while it replaces the journal, in the host state reached by then. */
  datatype Point = Writing(at: Host, record: RunRecord) | Compacting(at: Host)

  predicate EndReaches(config: Config, host: Host, ref: Ref, io: Io, point: Point) {
    && Live(host.conv, ref)
    && var record := EndRecord(host.conv.runs[ref.key]);
       var ended := Forget(Commit(config, host, record, io), ref.key);
       point == Writing(host, record) || (ended.conv.log.lines >= 2 * config.limit && point == Compacting(ended))
  }

  predicate Reaches(config: Config, host: Host, op: Op, env: Env, point: Point) {
    match op
    case ReserveOp(conversation, runID, number) =>
      && Admissible(config, host, conversation, runID)
      && (|| point == Writing(Room(config, host, env), StartRecord(NewRun(conversation, runID, number)))
          || (|host.conv.runs| >= config.limit && Stale(host, host.conv.order).Some? && Stale(host, host.conv.order).value in host.conv.runs &&
              EndReaches(config, host, RefOf(host.conv, Stale(host, host.conv.order).value), env.evict, point)))
    case FinishOp(ref, outcome) => outcome == Rejected && EndReaches(config, host, ref, env.commit, point)
    case ObservedOp(ref, terminal) =>
      terminal && Live(host.conv, ref) && !host.conv.runs[ref.key].revoked && EndReaches(config, host, ref, env.commit, point)
    case ExpireOp(ref) => Expirable(host.conv, ref) && point == Writing(host, RevokeRecord(host.conv.runs[ref.key]))
  }

  ghost predicate CrashAt(config: Config, point: Point, disk: Disk) {
    match point
    case Writing(at, record) => AppendCrash(at.conv.log, config.codec.enc(record), disk)
    case Compacting(at) => Ordered(at.conv) && RewriteCrash(at.conv.log, config.codec.EncodeAll(CompactRecords(at.conv.runs, at.conv.order)), disk)
  }

  lemma EndPoint(config: Config, host: Host, ref: Ref, io: Io, point: Point)
    requires config.codec.Faithful() && Refines(config, host) && EndReaches(config, host, ref, io, point)
    ensures Refines(config, point.at)
    ensures HostView(point.at) == HostView(host) || HostView(point.at) == After(HostView(host), EndRecord(host.conv.runs[ref.key]))
    ensures point.Writing? ==> !Incomplete(point.record)
  {
    assert Filed(ref.key, host.conv.runs[ref.key]);
    if point.Compacting? {
      var record := EndRecord(host.conv.runs[ref.key]);
      var committed := Commit(config, host, record, io);
      AppendSound(host.conv.log, config.codec.enc(record), io);
      ForgetTidy(committed, ref.key);
      ForgetView(committed, ref.key);
      ForgetShape(committed, ref.key);
      assert HostView(committed) == HostView(host);
      if host.conv.log.enabled && !host.conv.log.poisoned && io.Done? {
        CommitView(config, host.conv.log, record, io, HostView(host));
      }
    }
  }

  /** The host state in which an operation can crash refines its journal, and its
      record in progress is complete. */
  lemma PointRefines(config: Config, host: Host, op: Op, env: Env, point: Point)
    requires config.codec.Faithful() && Refines(config, host) && ProperOp(op)
    requires Reaches(config, host, op, env, point)
    ensures Refines(config, point.at)
    ensures point.Writing? ==> !Incomplete(point.record)
  {
    match op
    case ReserveOp(conversation, runID, number) =>
      StaleFound(host, host.conv.order);
      if point == Writing(Room(config, host, env), StartRecord(NewRun(conversation, runID, number))) {
        RoomRefines(config, host, env);
      } else {
        EndPoint(config, host, RefOf(host.conv, Stale(host, host.conv.order).value), env.evict, point);
      }
    case FinishOp(ref, outcome) => EndPoint(config, host, ref, env.commit, point);
    case ObservedOp(ref, terminal) => EndPoint(config, host, ref, env.commit, point);
    case ExpireOp(ref) => assert Filed(ref.key, host.conv.runs[ref.key]);
  }

  /** What a crash leaves on disk, whatever the size of the file. */
  lemma CrashRecords(config: Config, host: Host, op: Op, env: Env, point: Point, disk: Disk)
    requires config.codec.Faithful() && Refines(config, host) && ProperOp(op) && host.conv.log.enabled
    requires Reaches(config, host, op, env, point) && CrashAt(config, point, disk)
    ensures || Silent(disk)
            || JournalView(config, disk) == Some(HostView(point.at))
            || (point.Writing? && JournalView(config, disk) == Some(After(HostView(point.at), point.record)))
  {
    PointRefines(config, host, op, env, point);
    PointEnabled(config, host, op, env, point);
    var log := point.at.conv.log;
    if !log.poisoned {
      if point.Writing? {
        AppendCrashAtomic(log, config.codec.enc(point.record), disk);
        RecordsView(config, Records(log.disk), point.record);
      } else {
        var runs, order := point.at.conv.runs, point.at.conv.order;
        var lines := config.codec.EncodeAll(CompactRecords(runs, order));
        RewriteCrashAtomic(log, lines, disk);
        CompactRefines(config, point.at, Done);
        RewriteSound(log, lines, Done);
      }
    }
  }

  lemma PointEnabled(config: Config, host: Host, op: Op, env: Env, point: Point)
    requires Reaches(config, host, op, env, point)
    ensures point.at.conv.log.enabled == host.conv.log.enabled
  {
    hide Room, EndReaches, End;
    match op
    case ReserveOp(conversation, runID, number) =>
      RoomEnabled(config, host, env);
      if point != Writing(Room(config, host, env), StartRecord(NewRun(conversation, runID, number))) {
        EndPointEnabled(config, host, RefOf(host.conv, Stale(host, host.conv.order).value), env.evict, point);
      }
    case FinishOp(ref, outcome) => EndPointEnabled(config, host, ref, env.commit, point);
    case ObservedOp(ref, terminal) => EndPointEnabled(config, host, ref, env.commit, point);
    case ExpireOp(ref) =>
  }

  lemma EndPointEnabled(config: Config, host: Host, ref: Ref, io: Io, point: Point)
    requires EndReaches(config, host, ref, io, point)
    ensures point.at.conv.log.enabled == host.conv.log.enabled
  {
    hide Forget;
    ForgetShape(Commit(config, host, EndRecord(host.conv.runs[ref.key]), io), ref.key);
  }

  lemma EndEnabled(config: Config, host: Host, ref: Ref, io: Io, compaction: Io)
    ensures End(config, host, ref, io, compaction).conv.log.enabled == host.conv.log.enabled
  {
    hide Forget, CompactRecords;
    if Live(host.conv, ref) {
      ForgetShape(Commit(config, host, EndRecord(host.conv.runs[ref.key]), io), ref.key);
    }
  }

  lemma RoomEnabled(config: Config, host: Host, env: Env)
    ensures Room(config, host, env).conv.log.enabled == host.conv.log.enabled
  {
    hide End, Stale;
    var stale := Stale(host, host.conv.order);
    if stale.Some? && stale.value in host.conv.runs {
      EndEnabled(config, host, RefOf(host.conv, stale.value), env.evict, env.evictCompaction);
    }
  }

  /** Crash refinement of runs: after a crash at any byte of an append, or before
      or after the rename of a compaction, replay yields exactly the retained runs
      before or after the one record in progress, or authorizes no run. */
  lemma CrashRefinement(config: Config, host: Host, op: Op, env: Env, point: Point, disk: Disk)
    requires config.codec.Faithful() && Refines(config, host) && ProperOp(op) && host.conv.log.enabled
    requires Reaches(config, host, op, env, point) && CrashAt(config, point, disk)
    ensures var replayed := ReplayedView(config, disk);
            || replayed.None? || replayed == Some(NOTHING)
            || replayed == Some(HostView(point.at))
            || (point.Writing? && replayed == Some(After(HostView(point.at), point.record)))
  {
    CrashRecords(config, host, op, env, point, disk);
    if Silent(disk) {
      SilentReplays(disk, NO_RUNS, Replayer(config.codec));
    }
  }

  // ----- the next incarnation -----

  ghost predicate Parked(roster: Roster) {
    Tidy(roster.runs, roster.order) && forall key :: key in roster.runs ==> !roster.runs[key].held && 0 < roster.runs[key].sequence <= roster.sequence
  }

  lemma ReplayParked(roster: Roster, record: RunRecord)
    requires Parked(roster) && !Incomplete(record)
    ensures Parked(Replay(roster, record))
  {
    var key := RunKey(record.conversation, record.runID);
    if record.ended {
      WithoutRemoves(roster.order, key);
    } else if key in roster.runs {
      assert Filed(key, roster.runs[key]);
    } else {
      assert key !in roster.order;
    }
  }

  lemma {:induction false} PrefixParked(codec: Codec<RunRecord>, roster: Roster, lines: seq<seq<Byte>>)
    requires Parked(roster)
    ensures Parked(FoldPrefix(roster, Replayer(codec), lines))
    decreases lines
  {
    var apply := Replayer(codec);
    if lines != [] && apply(roster, lines[0]).Some? {
      ReplayParked(roster, codec.dec(lines[0]).value);
      PrefixParked(codec, apply(roster, lines[0]).value, lines[1..]);
    }
  }

  /** A new incarnation holds exactly the replayed runs, none of them dispatchable. */
  lemma OpenRefines(config: Config, disk: Disk, io: Io, compaction: Io)
    requires config.codec.Faithful()
    ensures var host := Open(config, disk, io, compaction);
            && Refines(config, host) && host.conv.log.enabled
            && (!host.conv.log.poisoned ==> ReplayedView(config, disk) == Some(HostView(host)))
            && forall key :: key in host.conv.runs ==> !Dispatchable(host, host.conv.runs[key])
  {
    var apply := Replayer(config.codec);
    PrefixParked(config.codec, NO_RUNS, Records(disk));
    OpenSound(disk, NO_RUNS, apply, io);
    var roster := Reached(disk, NO_RUNS, apply);
    if Replayed(disk, NO_RUNS, apply).Some? {
      FoldPrefixIsFold(NO_RUNS, apply, Records(disk));
    }
    var start := Host(NO_GENERATIONS, Conversations(roster.runs, roster.order, roster.sequence, map[], map[], Opened(disk, NO_RUNS, apply, io)));
    if start.conv.log.lines > config.limit {
      CompactRefines(config, start, compaction);
    }
  }

  // ----- the amortized bound -----

  function RevokedKeys(runs: map<string, Run>): set<string> {
    set key | key in runs && runs[key].revoked
  }

  /** The records a journal may hold between operations, given how many runs and
      revocations are left to commit before a run must end. */
  ghost predicate Bounded(config: Config, host: Host) {
    && |host.conv.runs| <= config.limit
    && (host.conv.log.enabled && !host.conv.log.poisoned ==>
          host.conv.log.lines + (config.limit - |host.conv.runs|) + (config.limit - |RevokedKeys(host.conv.runs)|) < 4 * config.limit)
  }

  lemma RevokedWithin(runs: map<string, Run>)
    ensures |RevokedKeys(runs)| <= |runs|
  {
    SubsetCard(RevokedKeys(runs), runs.Keys);
  }

  lemma {:induction false} SubsetCard<T>(a: set<T>, b: set<T>)
    requires a <= b
    ensures |a| <= |b|
  {
    if a != {} {
      var x :| x in a;
      SubsetCard(a - {x}, b - {x});
    }
  }

  function Elements(order: seq<string>): set<string> {
    set key | key in order
  }

  function RevokedIn(runs: map<string, Run>, order: seq<string>): set<string> {
    set key | key in order && key in runs && runs[key].revoked
  }

  lemma ConsElements(runs: map<string, Run>, order: seq<string>)
    requires order != [] && order[0] in runs
    requires forall i, j :: 0 <= i < j < |order| ==> order[i] != order[j]
    ensures |Elements(order)| == |Elements(order[1..])| + 1
    ensures |RevokedIn(runs, order)| == |RevokedIn(runs, order[1..])| + (if runs[order[0]].revoked then 1 else 0)
  {
    var head, tail := order[0], order[1..];
    assert forall i :: 0 <= i < |tail| ==> tail[i] == order[i + 1];
    assert head !in tail && order == [head] + tail;
    assert Elements(order) == Elements(tail) + {head};
    if runs[head].revoked {
      assert RevokedIn(runs, order) == RevokedIn(runs, tail) + {head};
    } else {
      assert RevokedIn(runs, order) == RevokedIn(runs, tail);
    }
  }

  lemma {:induction false} CompactLength(runs: map<string, Run>, order: seq<string>)
    requires forall key :: key in order ==> key in runs
    requires forall i, j :: 0 <= i < j < |order| ==> order[i] != order[j]
    ensures |CompactRecords(runs, order)| == |Elements(order)| + |RevokedIn(runs, order)|
  {
    if order != [] {
      ConsElements(runs, order);
      CompactLength(runs, order[1..]);
    }
  }

  lemma CompactBounded(config: Config, host: Host, io: Io)
    requires config.limit > 0 && Tidy(host.conv.runs, host.conv.order) && |host.conv.runs| <= config.limit
    requires host.conv.log.enabled
    requires io.Failed? || !host.conv.log.poisoned
    ensures Bounded(config, Compact(config, host, io))
  {
    var runs, order := host.conv.runs, host.conv.order;
    CompactLength(runs, order);
    assert Elements(order) == runs.Keys;
    assert RevokedIn(runs, order) == RevokedKeys(runs);
  }

  lemma EndBounded(config: Config, host: Host, ref: Ref, io: Io, compaction: Io)
    requires config.limit > 0 && config.codec.Faithful() && Refines(config, host) && Bounded(config, host)
    ensures Bounded(config, End(config, host, ref, io, compaction))
  {
    if Live(host.conv, ref) {
      var record := EndRecord(host.conv.runs[ref.key]);
      var committed := Commit(config, host, record, io);
      AppendSound(host.conv.log, config.codec.enc(record), io);
      var ended := Forget(committed, ref.key);
      ForgetShape(committed, ref.key);
      ForgetTidy(committed, ref.key);
      assert ended.conv.runs.Keys == host.conv.runs.Keys - {ref.key};
      if ended.conv.log.enabled && !ended.conv.log.poisoned && ended.conv.log.lines >= 2 * config.limit {
        CompactBounded(config, ended, compaction);
      }
    }
  }

  lemma RoomBounded(config: Config, host: Host, env: Env)
    requires config.limit > 0 && config.codec.Faithful() && Refines(config, host) && Bounded(config, host)
    ensures Bounded(config, Room(config, host, env))
    ensures HasRoom(config, host) ==> |Room(config, host, env).conv.runs| < config.limit
  {
    StaleFound(host, host.conv.order);
    var stale := Stale(host, host.conv.order);
    if |host.conv.runs| >= config.limit && stale.Some? {
      EndBounded(config, host, RefOf(host.conv, stale.value), env.evict, env.evictCompaction);
      EndRuns(config, host, RefOf(host.conv, stale.value), env.evict, env.evictCompaction);
      assert (host.conv.runs - {stale.value}).Keys == host.conv.runs.Keys - {stale.value};
    }
  }

  lemma InstallBounded(config: Config, roomy: Host, next: Host, key: string)
    requires Bounded(config, roomy) && |roomy.conv.runs| < config.limit && key !in roomy.conv.runs
    requires key in next.conv.runs && !next.conv.runs[key].revoked && next.conv.runs == roomy.conv.runs[key := next.conv.runs[key]]
    requires next.conv.log.enabled ==> roomy.conv.log.enabled && !roomy.conv.log.poisoned && next.conv.log.lines == roomy.conv.log.lines + 1
    ensures Bounded(config, next)
  {
    InstallSizes(roomy.conv.runs, next.conv.runs, key);
  }

  lemma InstallSizes(runs: map<string, Run>, next: map<string, Run>, key: string)
    requires key !in runs && key in next && !next[key].revoked && next == runs[key := next[key]]
    ensures |next| == |runs| + 1 && |RevokedKeys(next)| == |RevokedKeys(runs)|
  {
    assert next.Keys == runs.Keys + {key};
    assert RevokedKeys(next) == RevokedKeys(runs);
  }

  lemma ReserveBounded(config: Config, host: Host, conversation: string, runID: string, number: nat, env: Env)
    requires config.limit > 0 && config.codec.Faithful() && Refines(config, host) && Bounded(config, host)
    ensures Bounded(config, Reserve(config, host, conversation, runID, number, env))
  {
    if Admissible(config, host, conversation, runID) {
      RoomBounded(config, host, env);
      RoomRefines(config, host, env);
      var roomy := Room(config, host, env);
      if Appended(roomy.conv.log, env.commit) {
        InstallBounded(config, roomy, Reserve(config, host, conversation, runID, number, env), RunKey(conversation, runID));
      }
    }
  }

  lemma ExpireBounded(config: Config, host: Host, ref: Ref, env: Env)
    requires Bounded(config, host)
    ensures Bounded(config, Expire(config, host, ref, env))
  {
    if Expirable(host.conv, ref) {
      ExpireShape(config, host, ref, env);
      var next := Expire(config, host, ref, env);
      assert next.conv.runs.Keys == host.conv.runs.Keys;
      assert RevokedKeys(next.conv.runs) == RevokedKeys(host.conv.runs) + {ref.key};
    }
  }

  lemma StateBounded(config: Config, host: Host, ref: Ref, state: RunState)
    requires Bounded(config, host) && Live(host.conv, ref)
    ensures Bounded(config, host.(conv := SetState(host.conv, ref.key, state)))
    ensures Bounded(config, host.(conv := Accept(SetState(host.conv, ref.key, state), ref)))
  {
    var runs := SetState(host.conv, ref.key, state).runs;
    assert runs.Keys == host.conv.runs.Keys;
    assert RevokedKeys(runs) == RevokedKeys(host.conv.runs);
  }

  lemma FinishBounded(config: Config, host: Host, ref: Ref, outcome: Outcome, env: Env)
    requires config.limit > 0 && config.codec.Faithful() && Refines(config, host) && Bounded(config, host)
    ensures Bounded(config, Finish(config, host, ref, outcome, env))
  {
    if Live(host.conv, ref) {
      match outcome
      case Rejected => EndBounded(config, host, ref, env.commit, env.compaction);
      case OutcomeUnknown => StateBounded(config, host, ref, Unknown);
      case Accepted => StateBounded(config, host, ref, Active);
    }
  }

  lemma ObservedBounded(config: Config, host: Host, ref: Ref, terminal: bool, env: Env)
    requires config.limit > 0 && config.codec.Faithful() && Refines(config, host) && Bounded(config, host)
    ensures Bounded(config, Observed(config, host, ref, terminal, env))
  {
    if Live(host.conv, ref) {
      if terminal {
        EndBounded(config, host, ref, env.commit, env.compaction);
      } else {
        StateBounded(config, host, ref, Active);
      }
    }
  }

  /** Every operation keeps at most the limit of runs and fewer than four times
      the limit of records. */
  lemma DoBounded(config: Config, host: Host, op: Op, env: Env)
    requires config.limit > 0 && config.codec.Faithful() && Refines(config, host) && Bounded(config, host)
    ensures Bounded(config, Do(config, host, op, env))
  {
    match op
    case ReserveOp(conversation, runID, number) => ReserveBounded(config, host, conversation, runID, number, env);
    case ExpireOp(ref) => ExpireBounded(config, host, ref, env);
    case FinishOp(ref, outcome) => FinishBounded(config, host, ref, outcome, env);
    case ObservedOp(ref, terminal) => ObservedBounded(config, host, ref, terminal, env);
  }

  lemma BoundedLines(config: Config, host: Host)
    requires Bounded(config, host)
    ensures host.conv.log.enabled && !host.conv.log.poisoned ==> host.conv.log.lines < 4 * config.limit
  {
    RevokedWithin(host.conv.runs);
  }

  lemma OpenBounded(config: Config, disk: Disk, io: Io, compaction: Io)
    requires config.limit > 0 && config.codec.Faithful()
    requires |Reached(disk, NO_RUNS, Replayer(config.codec)).runs| <= config.limit
    ensures Bounded(config, Open(config, disk, io, compaction))
  {
    var apply := Replayer(config.codec);
    PrefixParked(config.codec, NO_RUNS, Records(disk));
    var roster := Reached(disk, NO_RUNS, apply);
    var start := Host(NO_GENERATIONS, Conversations(roster.runs, roster.order, roster.sequence, map[], map[], Opened(disk, NO_RUNS, apply, io)));
    RevokedWithin(roster.runs);
    if start.conv.log.lines > config.limit && !start.conv.log.poisoned {
      CompactBounded(config, start, compaction);
    }
  }

  /** Making room never removes, or changes, a run that can execute. */
  lemma ReserveKeepsDispatchable(config: Config, host: Host, conversation: string, runID: string, number: nat, env: Env, key: string)
    requires Tidy(host.conv.runs, host.conv.order)
    requires key in host.conv.runs && Dispatchable(host, host.conv.runs[key])
    ensures var next := Reserve(config, host, conversation, runID, number, env);
            key in next.conv.runs && next.conv.runs[key] == host.conv.runs[key]
  {
    hide Room, HasRoom;
    RoomKeepsDispatchable(config, host, env, key, Room(config, host, env));
  }

  lemma RoomKeepsDispatchable(config: Config, host: Host, env: Env, key: string, next: Host)
    requires Tidy(host.conv.runs, host.conv.order) && next == Room(config, host, env)
    requires key in host.conv.runs && Dispatchable(host, host.conv.runs[key])
    ensures key in next.conv.runs && next.conv.runs[key] == host.conv.runs[key]
  {
    StaleFound(host, host.conv.order);
    var stale := Stale(host, host.conv.order);
    if |host.conv.runs| >= config.limit && stale.Some? {
      EndRuns(config, host, RefOf(host.conv, stale.value), env.evict, env.evictCompaction);
    }
  }
}
