/** What holds of every execution of a process host session. */
module HostTheorems {
  import opened Options
  import opened Journal
  import opened Runs
  import opened RunJournal
  import opened HostSystem
  import opened HostHolds
  import opened HostStreams
  import opened HostHistory

  // ----- the journal part of the invariant -----

  /** A directory whose replay is refused or yields at most the limit of runs. */
  ghost predicate GoodDisk(config: Config, disk: Disk) {
    disk.marker || (JournalView(config, disk).Some? && |JournalView(config, disk).value.kept| <= config.limit)
  }

  ghost predicate JournalInv(config: Config, world: World) {
    match world
    case Down(disk, _, _, _) => GoodDisk(config, disk)
    case Up(host, _, _, _) => Refines(config, host) && Bounded(config, host) && host.conv.log.enabled
  }

  ghost predicate Inv(config: Config, world: World) {
    JournalInv(config, world) && HoldInv(world) && PinInv(world) && StreamInv(world) && LogInv(world)
  }

  lemma ViewSize(host: Host)
    ensures |HostView(host).kept| == |host.conv.runs|
  {
    assert HostView(host).kept.Keys == host.conv.runs.Keys;
  }

  lemma AfterSize(retained: Retained, record: RunRecord)
    ensures |After(retained, record).kept| <= |retained.kept| + 1
    ensures record.ended || record.revoked ==> |After(retained, record).kept| <= |retained.kept|
  {
    var key := RunKey(record.conversation, record.runID);
    var after := After(retained, record);
    if record.ended && key in retained.kept {
      assert after.kept.Keys == retained.kept.Keys - {key};
    } else if record.revoked && key in retained.kept {
      assert after.kept.Keys == retained.kept.Keys;
    } else if !record.ended && !record.revoked {
      assert after.kept.Keys == retained.kept.Keys + {key};
    }
  }

  /** The host state an operation crashes in holds at most the limit of runs, and
      fewer while it commits a new one. */
  lemma PointBounded(config: Config, host: Host, op: Op, env: Env, point: Point)
    requires config.limit > 0 && config.codec.Faithful() && Refines(config, host) && Bounded(config, host)
    requires Reaches(config, host, op, env, point)
    ensures |point.at.conv.runs| <= config.limit
    ensures point.Writing? && !point.record.ended && !point.record.revoked ==> |point.at.conv.runs| < config.limit
  {
    match op
    case ReserveOp(conversation, runID, number) =>
      StaleFound(host, host.conv.order);
      if point == Writing(Room(config, host, env), StartRecord(NewRun(conversation, runID, number))) {
        RoomBounded(config, host, env);
      } else {
        EndPointBounded(config, host, RefOf(host.conv, Stale(host, host.conv.order).value), env.evict, point);
      }
    case FinishOp(ref, outcome) => EndPointBounded(config, host, ref, env.commit, point);
    case ObservedOp(ref, terminal) => EndPointBounded(config, host, ref, env.commit, point);
    case ExpireOp(ref) =>
  }

  lemma EndPointBounded(config: Config, host: Host, ref: Ref, io: Io, point: Point)
    requires Bounded(config, host) && EndReaches(config, host, ref, io, point)
    ensures |point.at.conv.runs| <= config.limit
    ensures point.Writing? ==> point.record.ended
  {
    if point.Compacting? {
      var committed := Commit(config, host, EndRecord(host.conv.runs[ref.key]), io);
      ForgetShape(committed, ref.key);
      assert (host.conv.runs - {ref.key}).Keys == host.conv.runs.Keys - {ref.key};
    }
  }

  lemma SilentGood(config: Config, disk: Disk)
    requires Silent(disk)
    ensures GoodDisk(config, disk)
  {
  }

  lemma CrashGood(config: Config, host: Host, disk: Disk)
    requires config.limit > 0 && config.codec.Faithful()
    requires Refines(config, host) && Bounded(config, host) && host.conv.log.enabled && CrashLeaves(config, host, disk)
    ensures GoodDisk(config, disk)
  {
    ViewSize(host);
    if Silent(disk) {
      SilentGood(config, disk);
    } else if disk != host.conv.log.disk {
      var op, env, point :| ProperOp(op) && Reaches(config, host, op, env, point) && CrashAt(config, point, disk);
      CrashRecords(config, host, op, env, point, disk);
      PointBounded(config, host, op, env, point);
      ViewSize(point.at);
      if point.Writing? {
        AfterSize(HostView(point.at), point.record);
      }
    }
  }

  /** A crash of a starting host, around the cut of a torn record or its compaction,
      leaves exactly the runs the directory held, or no run. */
  lemma ReopenView(config: Config, before: Disk, after: Disk)
    requires config.codec.Faithful() && ReopenCrash(config, before, after)
    ensures Silent(after) || (!before.marker && JournalView(config, after) == JournalView(config, before))
  {
    if !Silent(after) {
      if OpenCrash(before, after) {
        OpenCrashAtomic(before, after);
      } else {
        var io :| RewriteCrash(Opened(before, NO_RUNS, Replayer(config.codec), io), CompactedRoster(config, before), after);
        RecompactedView(config, before, io, after);
      }
    }
  }

  lemma RecompactedView(config: Config, before: Disk, io: Io, after: Disk)
    requires config.codec.Faithful() && !Silent(after)
    requires RewriteCrash(Opened(before, NO_RUNS, Replayer(config.codec), io), CompactedRoster(config, before), after)
    ensures !before.marker && JournalView(config, after) == JournalView(config, before)
  {
    hide Records, Replayer, Complete, Fold, FoldPrefix;
    var apply := Replayer(config.codec);
    var log, roster := Opened(before, NO_RUNS, apply, io), Reached(before, NO_RUNS, apply);
    OpenSound(before, NO_RUNS, apply, io);
    PrefixParked(config.codec, NO_RUNS, Records(before));
    if Healthy(log) {
      FoldPrefixIsFold(NO_RUNS, apply, Records(before));
      RewriteCrashAtomic(log, CompactedRoster(config, before), after);
      var host := Host(NO_GENERATIONS, Conversations(roster.runs, roster.order, roster.sequence, map[], map[], log));
      CompactRefines(config, host, Done);
      RewriteSound(log, CompactedRoster(config, before), Done);
    }
  }

  lemma ReopenGood(config: Config, before: Disk, after: Disk)
    requires config.limit > 0 && config.codec.Faithful() && GoodDisk(config, before) && ReopenCrash(config, before, after)
    ensures GoodDisk(config, after)
  {
    ReopenView(config, before, after);
    if Silent(after) {
      SilentGood(config, after);
    }
  }

  lemma OpeningJournal(config: Config, disk: Disk, io: Io, compaction: Io)
    requires config.limit > 0 && config.codec.Faithful() && GoodDisk(config, disk)
    ensures var host := Open(config, disk, io, compaction);
            Refines(config, host) && Bounded(config, host) && host.conv.log.enabled
  {
    OpenRefines(config, disk, io, compaction);
    var apply := Replayer(config.codec);
    var roster := Reached(disk, NO_RUNS, apply);
    if !disk.marker && |Content(disk)| <= MAX_BYTES {
      FoldPrefixIsFold(NO_RUNS, apply, Records(disk));
      assert View(roster.runs, roster.order).kept.Keys == roster.runs.Keys;
    }
    OpenBounded(config, disk, io, compaction);
  }

  /** The run operations a step performs are the ones the journal can keep. */
  lemma RunningProper(world: World, op: Op, task: nat)
    requires world.Up? && HoldInv(world) && RunEnabled(world, op, task)
    ensures ProperOp(op)
  {
  }

  /** Whatever leaves the runs and the journal alone keeps the journal exact. */
  lemma SameJournal(config: Config, world: World, next: World)
    requires world.Up? && next.Up? && JournalInv(config, world)
    requires next.host.conv.runs == world.host.conv.runs && next.host.conv.order == world.host.conv.order && next.host.conv.log == world.host.conv.log
    ensures JournalInv(config, next)
  {
  }

  lemma RunningJournal(config: Config, world: World, op: Op, env: Env, task: nat, next: World)
    requires config.limit > 0 && config.codec.Faithful() && world.Up? && JournalInv(config, world) && HoldInv(world) && RunEnabled(world, op, task)
    requires next.Up? && next.host == Do(config, world.host, op, env)
    ensures JournalInv(config, next)
  {
    RunningProper(world, op, task);
    DoRefines(config, world.host, op, env);
    DoBounded(config, world.host, op, env);
    DoFramed(config, world.host, op, env, next.host);
  }

  lemma JournalStep(config: Config, world: World, step: Step, next: World)
    requires config.limit > 0 && config.codec.Faithful() && Moves(config, world, step, next)
    requires JournalInv(config, world) && HoldInv(world)
    ensures JournalInv(config, next)
  {
    match step
    case OnGens(gen) =>
      GenFrame(config, world, gen, next);
      SameJournal(config, world, next);
    case OnWork(work) =>
      WorkFrame(world, work, next);
      SameJournal(config, world, next);
    case OnStreams(stream) =>
      StreamFrame(world, stream, next);
      SameJournal(config, world, next);
    case Running(op, env, task) => RunningJournal(config, world, op, env, task, next);
    case Opening(io, compaction) => OpeningJournal(config, world.disk, io, compaction);
    case Crashing(disk) => CrashGood(config, world.host, disk);
    case CrashingAgain(disk) => ReopenGood(config, world.disk, disk);
  }

  // ----- every execution -----

  lemma InvStep(config: Config, world: World, step: Step, next: World)
    requires config.limit > 0 && config.codec.Faithful() && Inv(config, world) && Moves(config, world, step, next)
    ensures Inv(config, next)
  {
    hide Moves, JournalInv, HoldInv, PinInv, StreamInv, LogInv;
    JournalStep(config, world, step, next);
    HoldStep(config, world, step, next);
    PinStep(config, world, step, next);
    StreamInvStep(config, world, step, next);
    LogStep(config, world, step, next);
  }

  /** The invariants hold in every world of every execution. */
  lemma {:induction false} Always(config: Config, worlds: seq<World>, steps: seq<Step>, i: nat)
    requires config.limit > 0 && config.codec.Faithful() && Execution(config, worlds, steps) && i < |worlds|
    ensures Inv(config, worlds[i])
  {
    hide Moves, Inv;
    if i > 0 {
      Always(config, worlds, steps, i - 1);
      assert Moves(config, worlds[i - 1], steps[i - 1], worlds[i]);
      InvStep(config, worlds[i - 1], steps[i - 1], worlds[i]);
    } else {
      InitialInv(config);
    }
  }

  lemma InitialInv(config: Config)
    requires config.limit > 0
    ensures Inv(config, INITIAL)
  {
    hide JournalInv, HoldInv, PinInv, StreamInv, LogInv;
    EmptyDisk(config, INITIAL);
    Untouched(INITIAL);
  }

  lemma EmptyDisk(config: Config, world: World)
    requires config.limit > 0 && world.Down? && world.disk == Disk(None, false)
    ensures JournalInv(config, world)
  {
    assert Records(world.disk) == [];
  }

  lemma Untouched(world: World)
    requires world.Down? && world.threads == IDLE && world.log == []
    ensures HoldInv(world) && PinInv(world) && StreamInv(world) && LogInv(world)
  {
  }

  /** In every reachable state a generation's in-flight count is the number of its
      live holders, and an unforced retirement of a held generation is refused. */
  lemma HoldAccounting(config: Config, worlds: seq<World>, steps: seq<Step>, i: nat, number: nat)
    requires config.limit > 0 && config.codec.Faithful() && Execution(config, worlds, steps) && i < |worlds| && worlds[i].Up?
    requires number in worlds[i].host.gens.inFlight
    ensures var world := worlds[i];
            && world.host.gens.inFlight[number] == Holders(world.host.conv.runs, world.threads.tasks, number)
            && (Removable(world.host.gens, number, false) ==> Holders(world.host.conv.runs, world.threads.tasks, number) == 0)
  {
    Always(config, worlds, steps, i);
  }

  /** Within one incarnation a number, once published, stays used: it is never
      publishable again, and once removed never acquirable again. */
  lemma {:induction false} NumbersAreUsedOnce(config: Config, worlds: seq<World>, steps: seq<Step>, i: nat, j: nat, number: nat)
    requires config.limit > 0 && config.codec.Faithful() && Execution(config, worlds, steps) && i <= j < |worlds|
    requires worlds[i].Up? && worlds[j].Up? && worlds[i].incarnation == worlds[j].incarnation
    requires number in worlds[i].host.gens.inFlight
    ensures number in worlds[j].host.gens.inFlight && number <= worlds[j].host.gens.current
    ensures number in worlds[i].host.gens.retired ==> number in worlds[j].host.gens.retired && number !in worlds[j].host.gens.published
    decreases j - i
  {
    NumberedAlways(config, worlds, steps, i);
    NumberedAlways(config, worlds, steps, j);
    if i < j {
      StaysUp(config, worlds, steps, i, j);
      NumbersAreUsedOnce(config, worlds, steps, i, j - 1, number);
      assert Moves(config, worlds[j - 1], steps[j - 1], worlds[j]);
      GensGrow(config, worlds[j - 1], steps[j - 1], worlds[j]);
    }
  }

  lemma NumberedAlways(config: Config, worlds: seq<World>, steps: seq<Step>, i: nat)
    requires config.limit > 0 && config.codec.Faithful() && Execution(config, worlds, steps) && i < |worlds| && worlds[i].Up?
    ensures Numbered(worlds[i].host.gens)
  {
    Always(config, worlds, steps, i);
  }

  lemma GensGrow(config: Config, world: World, step: Step, next: World)
    requires Moves(config, world, step, next) && world.Up? && next.Up?
    ensures world.host.gens.inFlight.Keys <= next.host.gens.inFlight.Keys && world.host.gens.retired <= next.host.gens.retired
  {
    match step
    case OnGens(gen) => GenFrame(config, world, gen, next);
    case OnWork(work) => WorkFrame(world, work, next);
    case OnStreams(stream) => StreamFrame(world, stream, next);
    case Running(op, env, _) => DoFramed(config, world.host, op, env, next.host);
  }

  lemma SameIncarnation(config: Config, world: World, step: Step, next: World)
    requires Moves(config, world, step, next)
    ensures next.incarnation == (if step.Opening? then world.incarnation + 1 else world.incarnation)
    ensures step.Opening? <==> world.Down? && next.Up?
  {
    match step
    case OnGens(gen) => GenFrame(config, world, gen, next);
    case OnWork(work) => WorkFrame(world, work, next);
    case OnStreams(stream) => StreamFrame(world, stream, next);
    case Running(op, env, _) =>
    case Opening(io, compaction) =>
    case Crashing(disk) =>
    case CrashingAgain(disk) =>
  }

  /** Between two running worlds of one incarnation the host never stopped. */
  lemma {:induction false} StaysUp(config: Config, worlds: seq<World>, steps: seq<Step>, i: nat, j: nat)
    requires Execution(config, worlds, steps) && i < j < |worlds|
    requires worlds[i].Up? && worlds[j].Up? && worlds[i].incarnation == worlds[j].incarnation
    ensures worlds[j - 1].Up? && worlds[j - 1].incarnation == worlds[j].incarnation
  {
    assert Moves(config, worlds[j - 1], steps[j - 1], worlds[j]);
    SameIncarnation(config, worlds[j - 1], steps[j - 1], worlds[j]);
    IncarnationsGrow(config, worlds, steps, i, j - 1);
  }

  lemma {:induction false} IncarnationsGrow(config: Config, worlds: seq<World>, steps: seq<Step>, i: nat, j: nat)
    requires Execution(config, worlds, steps) && i <= j < |worlds|
    ensures worlds[i].incarnation <= worlds[j].incarnation
    decreases j - i
  {
    if i < j {
      IncarnationsGrow(config, worlds, steps, i, j - 1);
      assert Moves(config, worlds[j - 1], steps[j - 1], worlds[j]);
      SameIncarnation(config, worlds[j - 1], steps[j - 1], worlds[j]);
    }
  }

  // ----- run scopes -----

  /** A tool call that names a run executes only in the generation that run was
      reserved in, in the same incarnation, and never after that generation's
      removal, whatever happened between choosing and acquiring it. */
  lemma ToolCallsStayInScope(config: Config, worlds: seq<World>, steps: seq<Step>, i: nat, j: nat)
    requires config.limit > 0 && config.codec.Faithful() && Execution(config, worlds, steps) && i < |worlds|
    requires j < |worlds[i].log| && worlds[i].log[j].CallExecuted?
    ensures var before, event := worlds[i].log[..j], worlds[i].log[j];
            && WasReserved(before, event.incarnation, event.ref, event.number)
            && Available(before, event.incarnation, event.number)
            && forall other :: WasReserved(worlds[i].log, event.incarnation, event.ref, other) ==> other == event.number
  {
    hide JournalInv, HoldInv, StreamInv, Follows;
    Always(config, worlds, steps, i);
    var log, event := worlds[i].log, worlds[i].log[j];
    assert Justified(log[..j], event);
    forall other | WasReserved(log, event.incarnation, event.ref, other)
      ensures other == event.number
    {
      ReservedOnce(log, event.incarnation, event.ref, other, event.number);
    }
  }

  lemma ReservedOnce(log: seq<Event>, incarnation: nat, ref: Ref, a: nat, b: nat)
    requires History(log) && WasReserved(log, incarnation, ref, a) && WasReserved(log, incarnation, ref, b)
    ensures a == b
  {
    var i :| 0 <= i < |log| && log[i] == RunReserved(incarnation, ref, a);
    var j :| 0 <= j < |log| && log[j] == RunReserved(incarnation, ref, b);
    NotAfter(log, i, j, ref);
    NotAfter(log, j, i, ref);
  }

  lemma NotAfter(log: seq<Event>, i: nat, j: nat, ref: Ref)
    requires History(log) && i < |log| && j < |log| && log[i].RunReserved? && log[j].RunReserved?
    requires log[i].ref == ref == log[j].ref && log[i].incarnation == log[j].incarnation
    ensures j <= i
  {
    assert i < j ==> log[..j][i] == log[i];
    assert i < j ==> WasReserved(log[..j], log[j].incarnation, ref, log[i].number);
    assert Justified(log[..j], log[j]);
  }

  /** Once a run is revoked no later call of it chooses a generation. */
  lemma RevokedIsNeverChosen(config: Config, worlds: seq<World>, steps: seq<Step>, i: nat, early: nat, late: nat)
    requires config.limit > 0 && config.codec.Faithful() && Execution(config, worlds, steps) && i < |worlds|
    requires early < late < |worlds[i].log| && worlds[i].log[early].RunRevoked? && worlds[i].log[late].CallChosen?
    requires worlds[i].log[early].incarnation == worlds[i].log[late].incarnation
    ensures worlds[i].log[early].ref != worlds[i].log[late].ref
  {
    hide JournalInv, HoldInv, StreamInv, Follows;
    Always(config, worlds, steps, i);
    var log := worlds[i].log;
    assert Justified(log[..late], log[late]);
    assert log[..late][early] == log[early];
    assert log[early] in log[..late];
  }

  /** A call of the run has chosen its generation, which is still published. */
  predicate Pending(world: World, ref: Ref)
    requires world.Up?
  {
    exists call :: call in world.threads.calls && world.threads.calls[call].ref == ref && world.threads.calls[call].number in world.host.gens.published
  }

  ghost predicate Executes(log: seq<Event>, incarnation: nat, ref: Ref) {
    exists j :: 0 <= j < |log| && log[j].CallExecuted? && log[j].incarnation == incarnation && log[j].ref == ref
  }

  /** Half of the exact condition: a pending call of a revoked run executes. */
  lemma PendingCallExecutes(config: Config, world: World, ref: Ref) returns (step: Step, next: World)
    requires world.Up? && Inv(config, world) && Pending(world, ref)
    ensures Moves(config, world, step, next)
    ensures world.log <= next.log
    ensures Executes(next.log[|world.log|..], world.incarnation, ref)
  {
    var call :| call in world.threads.calls && world.threads.calls[call].ref == ref && world.threads.calls[call].number in world.host.gens.published;
    step, next := OnWork(Calling(call)), WorkNext(world, Calling(call));
    CallMoves(config, world, call, next);
    CallExecutes(world, call, next);
    assert next.log[|world.log|..][0] == CallExecuted(world.incarnation, call, ref, world.threads.calls[call].number);
  }

  lemma CallMoves(config: Config, world: World, call: nat, next: World)
    requires world.Up? && call in world.threads.calls && next == WorkNext(world, Calling(call))
    ensures Moves(config, world, OnWork(Calling(call)), next)
  {
  }

  /** A chosen call is logged as executed exactly when its generation is published. */
  lemma CallExecutes(world: World, call: nat, next: World)
    requires world.Up? && LogInv(world) && call in world.threads.calls && next == WorkNext(world, Calling(call))
    ensures var chosen := world.threads.calls[call];
            next.log ==
            if chosen.number in world.host.gens.published
            then world.log + [CallExecuted(world.incarnation, call, chosen.ref, chosen.number), Began(world.incarnation, world.threads.next, None, chosen.number)]
            else world.log
  {
    CallingShape(world, call, next);
  }

  /** The other half: a revoked run without a pending call never executes again. */
  ghost predicate Settled(world: World, incarnation: nat, ref: Ref) {
    && incarnation <= world.incarnation
    && (world.Up? && world.incarnation == incarnation ==> RunRevoked(incarnation, ref) in world.log && !Pending(world, ref))
  }

  lemma SettledStep(config: Config, world: World, step: Step, incarnation: nat, ref: Ref, next: World)
    requires Inv(config, world) && Moves(config, world, step, next) && Settled(world, incarnation, ref)
    ensures Settled(next, incarnation, ref)
    ensures world.log <= next.log
    ensures !Executes(next.log[|world.log|..], incarnation, ref)
  {
    SameIncarnation(config, world, step, next);
    NoExecution(config, world, step, incarnation, ref, next);
    if world.Up? && next.Up? && world.incarnation == incarnation {
      NoNewPending(config, world, step, ref, next);
      assert RunRevoked(incarnation, ref) in next.log;
    }
  }

  /** What a step appends to the log. */
  ghost predicate Appends(world: World, next: World, suffix: seq<Event>) {
    && next.log == world.log + suffix
    && (forall j :: 0 <= j < |suffix| ==> suffix[j].incarnation == world.incarnation)
  }

  predicate Quiet(suffix: seq<Event>) {
    forall j :: 0 <= j < |suffix| ==> !suffix[j].CallExecuted?
  }

  lemma WorkAppends(world: World, step: WorkStep, next: World) returns (suffix: seq<Event>)
    requires world.Up? && WorkEnabled(world, step) && next == WorkNext(world, step) && !step.Calling?
    ensures Appends(world, next, suffix) && Quiet(suffix)
  {
    suffix := next.log[|world.log|..];
  }

  lemma StepAppends(config: Config, world: World, step: Step, next: World) returns (suffix: seq<Event>)
    requires Moves(config, world, step, next) && !(step.OnWork? && step.work.Calling?)
    ensures Appends(world, next, suffix) && Quiet(suffix)
  {
    match step {
      case OnGens(gen) => suffix := next.log[|world.log|..];
      case OnWork(work) => suffix := WorkAppends(world, work, next);
      case OnStreams(stream) =>
        StreamFrame(world, stream, next);
        suffix := [];
      case Running(op, env, _) => suffix := RunEvents(config, world, op, env);
      case Opening(_, _) => suffix := [];
      case Crashing(_) => suffix := [];
      case CrashingAgain(_) => suffix := [];
    }
  }

  lemma NoExecution(config: Config, world: World, step: Step, incarnation: nat, ref: Ref, next: World)
    requires LogInv(world) && Moves(config, world, step, next) && Settled(world, incarnation, ref)
    ensures world.log <= next.log
    ensures !Executes(next.log[|world.log|..], incarnation, ref)
  {
    if step.OnWork? && step.work.Calling? {
      CallNotExecuted(world, step.work.call, incarnation, ref, next);
    } else {
      var suffix := StepAppends(config, world, step, next);
      assert next.log[|world.log|..] == suffix;
    }
  }

  lemma CallNotExecuted(world: World, call: nat, incarnation: nat, ref: Ref, next: World)
    requires world.Up? && LogInv(world) && call in world.threads.calls && next == WorkNext(world, Calling(call)) && Settled(world, incarnation, ref)
    ensures world.log <= next.log
    ensures !Executes(next.log[|world.log|..], incarnation, ref)
  {
    CallExecutes(world, call, next);
    var chosen := world.threads.calls[call];
    if chosen.number in world.host.gens.published {
      var suffix := [CallExecuted(world.incarnation, call, chosen.ref, chosen.number), Began(world.incarnation, world.threads.next, None, chosen.number)];
      assert next.log[|world.log|..] == suffix;
      assert world.incarnation == incarnation ==> chosen.ref != ref;
    } else {
      assert next.log[|world.log|..] == [];
    }
  }

  lemma NoNewPending(config: Config, world: World, step: Step, ref: Ref, next: World)
    requires Inv(config, world) && Moves(config, world, step, next) && world.Up? && next.Up?
    requires RunRevoked(world.incarnation, ref) in world.log && !Pending(world, ref)
    ensures !Pending(next, ref)
  {
    PublishedNumbers(config, world, step, next);
    forall call | call in next.threads.calls && next.threads.calls[call].ref == ref
      ensures next.threads.calls[call].number !in next.host.gens.published
    {
      NoNewCall(config, world, step, ref, call, next);
    }
  }

  lemma NoNewCall(config: Config, world: World, step: Step, ref: Ref, call: nat, next: World)
    requires LogInv(world) && Moves(config, world, step, next) && world.Up? && next.Up?
    requires RunRevoked(world.incarnation, ref) in world.log
    requires call in next.threads.calls && next.threads.calls[call].ref == ref
    ensures call in world.threads.calls && world.threads.calls[call] == next.threads.calls[call]
  {
    match step
    case OnGens(gen) => GenFrame(config, world, gen, next);
    case OnWork(work) => NoNewWork(world, work, ref, call, next);
    case OnStreams(stream) => StreamFrame(world, stream, next);
    case Running(op, env, _) =>
  }

  lemma NoNewWork(world: World, step: WorkStep, ref: Ref, call: nat, next: World)
    requires world.Up? && LogInv(world) && WorkEnabled(world, step) && next == WorkNext(world, step)
    requires RunRevoked(world.incarnation, ref) in world.log
    requires call in next.threads.calls && next.threads.calls[call].ref == ref
    ensures call in world.threads.calls && world.threads.calls[call] == next.threads.calls[call]
  {
    hide RunLinks, CallLinks, GenLinks, History, Dated, WorkNext;
    if step.Choosing? {
      NoNewChoice(world, step, ref, next);
    } else {
      OldCalls(world, step, next);
    }
  }

  /** Only choosing adds a call. */
  lemma OldCalls(world: World, step: WorkStep, next: World)
    requires world.Up? && WorkEnabled(world, step) && next == WorkNext(world, step) && !step.Choosing?
    ensures next.Up? && forall call :: call in next.threads.calls ==> call in world.threads.calls && next.threads.calls[call] == world.threads.calls[call]
  {
  }

  /** Choosing adds no call of a revoked run. */
  lemma NoNewChoice(world: World, step: WorkStep, ref: Ref, next: World)
    requires world.Up? && RunLinks(world) && step.Choosing? && WorkEnabled(world, step) && next == WorkNext(world, step)
    requires RunRevoked(world.incarnation, ref) in world.log
    ensures next.Up?
    ensures forall call :: call in next.threads.calls && next.threads.calls[call].ref == ref ==>
              call in world.threads.calls && next.threads.calls[call] == world.threads.calls[call]
  {
    var choice := RunGeneration(world.host, step.address, step.principal, step.digest, step.runID);
    if choice.InGeneration? {
      assert Live(world.host.conv, choice.ref) && !world.host.conv.runs[choice.ref.key].revoked;
      assert choice.ref != ref;
    }
  }

  /** A used number is published after a step only if it was before. */
  lemma PublishedNumbers(config: Config, world: World, step: Step, next: World)
    requires HoldInv(world) && Moves(config, world, step, next) && world.Up? && next.Up?
    ensures forall number :: number in next.host.gens.published && number in world.host.gens.inFlight ==> number in world.host.gens.published
  {
    match step
    case OnGens(gen) =>
    case OnWork(work) => WorkFrame(world, work, next);
    case OnStreams(stream) => StreamFrame(world, stream, next);
    case Running(op, env, _) => DoFramed(config, world.host, op, env, next.host);
  }

  lemma {:induction false} SettledForever(config: Config, worlds: seq<World>, steps: seq<Step>, n: nat, incarnation: nat, ref: Ref)
    requires config.limit > 0 && config.codec.Faithful() && Follows(config, worlds, steps) && n < |worlds|
    requires Inv(config, worlds[0]) && Settled(worlds[0], incarnation, ref)
    ensures worlds[0].log <= worlds[n].log && !Executes(worlds[n].log[|worlds[0].log|..], incarnation, ref)
    ensures Inv(config, worlds[n]) && Settled(worlds[n], incarnation, ref)
  {
    hide Moves, Inv, Settled, Executes;
    if n == 0 {
      NothingExecutes(worlds[0].log, incarnation, ref);
    } else {
      SettledForever(config, worlds, steps, n - 1, incarnation, ref);
      var before, last := worlds[n - 1], worlds[n];
      assert Moves(config, before, steps[n - 1], last);
      SettledStep(config, before, steps[n - 1], incarnation, ref, last);
      InvStep(config, before, steps[n - 1], last);
      SplitExecutes(worlds[0].log, before.log, last.log, incarnation, ref);
    }
  }

  lemma NothingExecutes(log: seq<Event>, incarnation: nat, ref: Ref)
    ensures !Executes(log[|log|..], incarnation, ref)
  {
  }

  lemma SplitExecutes(a: seq<Event>, b: seq<Event>, c: seq<Event>, incarnation: nat, ref: Ref)
    requires a <= b <= c
    requires !Executes(b[|a|..], incarnation, ref) && !Executes(c[|b|..], incarnation, ref)
    ensures a <= c && !Executes(c[|a|..], incarnation, ref)
  {
    forall j | 0 <= j < |c[|a|..]| && c[|a|..][j].CallExecuted? && c[|a|..][j].incarnation == incarnation
      ensures c[|a|..][j].ref != ref
    {
      if j < |b| - |a| {
        assert b[|a|..][j] == c[|a|..][j];
      } else {
        assert c[|b|..][j - (|b| - |a|)] == c[|a|..][j];
      }
    }
  }

  /** Exactly when a revoked run can still execute: some continuation executes it
      if and only if one of its calls chose its generation before the revocation
      and that generation is still published. */
  lemma RevokedRunExecutesIff(config: Config, world: World, ref: Ref)
    requires config.limit > 0 && config.codec.Faithful() && world.Up? && Inv(config, world)
    requires RunRevoked(world.incarnation, ref) in world.log
    ensures Pending(world, ref) <==> CanExecute(config, world, ref)
  {
    if Pending(world, ref) {
      PendingCanExecute(config, world, ref);
    } else {
      forall worlds: seq<World>, steps: seq<Step>
        ensures !Continues(config, world, worlds, steps, ref)
      {
        SettledStays(config, world, worlds, steps, ref);
      }
    }
  }

  lemma PendingCanExecute(config: Config, world: World, ref: Ref)
    requires world.Up? && Inv(config, world) && Pending(world, ref)
    ensures CanExecute(config, world, ref)
  {
    var step, next := PendingCallExecutes(config, world, ref);
    OneStep(config, world, step, next);
    OneWitness(config, world, next, step, ref);
  }

  lemma OneWitness(config: Config, world: World, next: World, step: Step, ref: Ref)
    requires Follows(config, [world, next], [step]) && world.log <= next.log
    requires Executes(next.log[|world.log|..], world.incarnation, ref)
    ensures CanExecute(config, world, ref)
  {
    var worlds, steps := [world, next], [step];
    assert worlds[|worlds| - 1] == next;
    assert Continues(config, world, worlds, steps, ref);
  }

  lemma OneStep(config: Config, world: World, step: Step, next: World)
    requires Moves(config, world, step, next)
    ensures Follows(config, [world, next], [step])
  {
    var worlds, steps := [world, next], [step];
    forall i, j | 0 <= i < |steps| && j == i + 1
      ensures Moves(config, worlds[i], steps[i], worlds[j])
    {
      assert i == 0;
    }
  }

  lemma SettledStays(config: Config, world: World, worlds: seq<World>, steps: seq<Step>, ref: Ref)
    requires config.limit > 0 && config.codec.Faithful() && world.Up? && Inv(config, world)
    requires RunRevoked(world.incarnation, ref) in world.log && !Pending(world, ref)
    ensures !Continues(config, world, worlds, steps, ref)
  {
    if Follows(config, worlds, steps) && worlds[0] == world {
      SettledForever(config, worlds, steps, |worlds| - 1, world.incarnation, ref);
    }
  }

  ghost predicate Continues(config: Config, world: World, worlds: seq<World>, steps: seq<Step>, ref: Ref) {
    && Follows(config, worlds, steps) && worlds[0] == world && world.log <= worlds[|worlds| - 1].log
    && Executes(worlds[|worlds| - 1].log[|world.log|..], world.incarnation, ref)
  }

  ghost predicate CanExecute(config: Config, world: World, ref: Ref) {
    exists worlds, steps :: Continues(config, world, worlds, steps, ref)
  }

  // ----- call trees -----

  lemma HistoryAlways(config: Config, worlds: seq<World>, steps: seq<Step>, i: nat)
    requires config.limit > 0 && config.codec.Faithful() && Execution(config, worlds, steps) && i < |worlds|
    ensures History(worlds[i].log) && Dated(worlds[i].log, worlds[i].incarnation)
  {
    Always(config, worlds, steps, i);
  }

  lemma HistoryPrefix(log: seq<Event>, n: nat)
    requires History(log) && n <= |log|
    ensures History(log[..n])
  {
    forall j | 0 <= j < n
      ensures Justified(log[..n][..j], log[..n][j])
    {
      assert log[..n][..j] == log[..j];
      assert Justified(log[..j], log[j]);
    }
  }

  /** Work gives its hold back once: no release is logged twice. */
  lemma ReleasedOnce(config: Config, worlds: seq<World>, steps: seq<Step>, i: nat, early: nat, late: nat)
    requires config.limit > 0 && config.codec.Faithful() && Execution(config, worlds, steps) && i < |worlds|
    requires early < late < |worlds[i].log| && worlds[i].log[late].Released?
    ensures worlds[i].log[early] != worlds[i].log[late]
  {
    HistoryAlways(config, worlds, steps, i);
    var log := worlds[i].log;
    assert Justified(log[..late], log[late]);
    assert log[..late][early] == log[early];
  }

  /** A call tree never leaves the generation pinned at its root: along any path of
      internal calls, at any depth, every call runs in the root's generation, also
      calls of work whose hold has ended, and of work an earlier host began. */
  lemma {:induction false} CallTreesArePinned(config: Config, worlds: seq<World>, steps: seq<Step>, i: nat, path: seq<nat>)
    requires config.limit > 0 && config.codec.Faithful() && Execution(config, worlds, steps) && i < |worlds|
    requires |path| > 0 && CallPath(worlds[i].log, path)
    ensures worlds[i].log[path[|path| - 1]].gen == worlds[i].log[path[0]].gen
  {
    HistoryAlways(config, worlds, steps, i);
    PathPinned(worlds[i].log, path, |path| - 1);
  }

  lemma {:induction false} PathPinned(log: seq<Event>, path: seq<nat>, k: nat)
    requires History(log) && CallPath(log, path) && k < |path|
    ensures log[path[k]].gen == log[path[0]].gen
  {
    hide History, Justified;
    if k > 0 {
      PathPinned(log, path, k - 1);
      CallerGeneration(log, path[k - 1], path[k]);
    }
  }

  /** An internal call runs in its caller's generation. */
  lemma CallerGeneration(log: seq<Event>, caller: nat, callee: nat)
    requires History(log) && caller < |log| && callee < |log| && log[caller].Began? && log[callee].Began?
    requires log[callee].parent == Some(log[caller].task)
    ensures log[callee].gen == log[caller].gen
  {
    var parent, child := log[caller], log[callee];
    assert Justified(log[..callee], child);
    var incarnation :| BeganIn(log[..callee], incarnation, parent.task, child.gen);
    var above :| Began(incarnation, parent.task, above, child.gen) in log[..callee];
    var k :| 0 <= k < callee && log[..callee][k] == Began(incarnation, parent.task, above, child.gen);
    BeganOnce(log, k, caller);
  }

  /** Positions of work in a log, each called by the one before. */
  predicate CallPath(log: seq<Event>, path: seq<nat>) {
    && (forall k :: 0 <= k < |path| ==> path[k] < |log| && log[path[k]].Began?)
    && (forall j, k :: 0 <= j < |path| && 0 <= k < |path| && k == j + 1 ==> log[path[k]].parent == Some(log[path[j]].task))
  }

  lemma BeganOnce(log: seq<Event>, i: nat, j: nat)
    requires History(log) && i < |log| && j < |log| && log[i].Began? && log[j].Began? && log[i].task == log[j].task
    ensures i == j
  {
    BeganNotAfter(log, i, j);
    BeganNotAfter(log, j, i);
  }

  lemma BeganNotAfter(log: seq<Event>, i: nat, j: nat)
    requires History(log) && i < |log| && j < |log| && log[i].Began? && log[j].Began? && log[i].task == log[j].task
    ensures j <= i
  {
    assert i < j ==> log[..j][i] == log[i] == Began(log[i].incarnation, log[i].task, log[i].parent, log[i].gen);
    assert i < j ==> BeganIn(log[..j], log[i].incarnation, log[j].task, log[i].gen);
    assert i < j ==> Started(log[..j], log[j].task, log[i].gen);
    assert Justified(log[..j], log[j]);
  }

  /** The supervisor proposes a number to one host incarnation only. */
  ghost predicate ProposedOnce(log: seq<Event>) {
    forall a, b, number :: Published(a, number) in log && Published(b, number) in log ==> a == b
  }

  /** When no number is proposed twice in a session, a call tree also never leaves the
      host incarnation of its root: work of an earlier host is refused. */
  lemma {:induction false} CallTreesStayInIncarnation(config: Config, worlds: seq<World>, steps: seq<Step>, i: nat, path: seq<nat>)
    requires config.limit > 0 && config.codec.Faithful() && Execution(config, worlds, steps) && i < |worlds|
    requires |path| > 0 && CallPath(worlds[i].log, path) && ProposedOnce(worlds[i].log)
    ensures worlds[i].log[path[|path| - 1]].incarnation == worlds[i].log[path[0]].incarnation
  {
    var log, last := worlds[i].log, |path| - 1;
    CallTreesArePinned(config, worlds, steps, i, path);
    HistoryAlways(config, worlds, steps, i);
    BeganPublished(log, path[0]);
    BeganPublished(log, path[last]);
  }

  lemma BeganPublished(log: seq<Event>, j: nat)
    requires History(log) && j < |log| && log[j].Began?
    ensures Published(log[j].incarnation, log[j].gen) in log
  {
    assert Justified(log[..j], log[j]);
  }

  /** An internal call of any work, whether or not its hold has ended, is dispatched
      exactly when the host has published the generation pinned at its root and not
      removed it, and then in that generation; otherwise it is refused. */
  lemma DispatchedIffAvailable(config: Config, worlds: seq<World>, steps: seq<Step>, i: nat, parent: nat, next: World)
    requires config.limit > 0 && config.codec.Faithful() && Execution(config, worlds, steps) && i < |worlds| && worlds[i].Up?
    requires parent in worlds[i].threads.tasks && next == WorkNext(worlds[i], Dispatching(parent))
    ensures var world := worlds[i];
            var root := world.threads.tasks[parent].root;
            next.log == world.log +
              [if Available(world.log, world.incarnation, root) then Began(world.incarnation, world.threads.next, Some(parent), root)
               else DispatchRefused(world.incarnation, parent, root)]
  {
    Always(config, worlds, steps, i);
    DispatchShape(worlds[i], parent, next);
  }

  lemma DispatchShape(world: World, parent: nat, next: World)
    requires world.Up? && LogInv(world) && HoldInv(world) && PinInv(world) && parent in world.threads.tasks
    requires next == WorkNext(world, Dispatching(parent))
    ensures var root := world.threads.tasks[parent].root;
            next.log == world.log +
              [if Available(world.log, world.incarnation, root) then Began(world.incarnation, world.threads.next, Some(parent), root)
               else DispatchRefused(world.incarnation, parent, root)]
  {
    hide LogInv, HoldInv, PinInv, Available;
    PinnedAt(world, parent);
    AvailableIsPublished(world, world.threads.tasks[parent].root);
  }

  lemma PinnedAt(world: World, id: nat)
    requires PinInv(world) && id in world.threads.tasks
    ensures Pinned(world.threads.tasks[id])
  {
  }

  /** Why a call was refused: its generation was removed by force, or removed after all
      its work had given its hold back, or never published by this host, and then the
      caller began under an earlier one. */
  lemma RefusedOnlyWhenGone(config: Config, worlds: seq<World>, steps: seq<Step>, i: nat, j: nat)
    requires config.limit > 0 && config.codec.Faithful() && Execution(config, worlds, steps) && i < |worlds|
    requires j < |worlds[i].log| && worlds[i].log[j].DispatchRefused?
    ensures var before, event := worlds[i].log[..j], worlds[i].log[j];
            && Started(before, event.caller, event.number)
            && (|| Removed(event.incarnation, event.number, true) in before
                || (Removed(event.incarnation, event.number, false) in before && AllReleased(before, event.incarnation, event.number))
                || (Published(event.incarnation, event.number) !in before && StartedBefore(before, event.incarnation, event.caller, event.number)))
  {
    HistoryAlways(config, worlds, steps, i);
    var log, event := worlds[i].log, worlds[i].log[j];
    assert Justified(log[..j], event);
    if Published(event.incarnation, event.number) !in log[..j] {
      EarlierCaller(log, worlds[i].incarnation, j);
    }
  }

  ghost predicate StartedBefore(log: seq<Event>, incarnation: nat, task: nat, gen: nat) {
    exists earlier: nat :: earlier < incarnation && BeganIn(log, earlier, task, gen)
  }

  lemma EarlierCaller(log: seq<Event>, incarnation: nat, j: nat)
    requires History(log) && Dated(log, incarnation) && j < |log| && log[j].DispatchRefused?
    requires Published(log[j].incarnation, log[j].number) !in log[..j]
    ensures StartedBefore(log[..j], log[j].incarnation, log[j].caller, log[j].number)
  {
    assert Justified(log[..j], log[j]);
    var earlier :| BeganIn(log[..j], earlier, log[j].caller, log[j].number);
    var above :| Began(earlier, log[j].caller, above, log[j].number) in log[..j];
    var k :| 0 <= k < j && log[..j][k] == Began(earlier, log[j].caller, above, log[j].number);
    assert log[k] == log[..j][k];
    HistoryPrefix(log, j);
    BeganPublished(log[..j], k);
  }

  /** While the caller, or any work above it in its call tree, holds at this host, its
      calls are refused only after a forced removal. */
  lemma HeldTreesAreRefusedOnlyByForce(config: Config, worlds: seq<World>, steps: seq<Step>, i: nat, j: nat, path: seq<nat>, k: nat)
    requires config.limit > 0 && config.codec.Faithful() && Execution(config, worlds, steps) && i < |worlds|
    requires j < |worlds[i].log| && worlds[i].log[j].DispatchRefused? && |path| > 0 && CallPath(worlds[i].log[..j], path)
    requires worlds[i].log[path[|path| - 1]].task == worlds[i].log[j].caller
    requires k < |path| && worlds[i].log[path[k]].incarnation == worlds[i].log[j].incarnation
    requires Released(worlds[i].log[j].incarnation, worlds[i].log[path[k]].task) !in worlds[i].log[..j]
    ensures Removed(worlds[i].log[j].incarnation, worlds[i].log[j].number, true) in worlds[i].log[..j]
  {
    HistoryAlways(config, worlds, steps, i);
    var log := worlds[i].log;
    var before, event := log[..j], log[j];
    HistoryPrefix(log, j);
    assert Justified(before, event);
    PathPinned(before, path, k);
    PathPinned(before, path, |path| - 1);
    CallerStarted(before, path[|path| - 1], event.number);
    var holder := before[path[k]];
    assert holder == Began(event.incarnation, holder.task, holder.parent, event.number);
    assert BeganIn(before, event.incarnation, holder.task, event.number);
  }

  /** Work begins in one generation. */
  lemma CallerStarted(log: seq<Event>, at: nat, gen: nat)
    requires History(log) && at < |log| && log[at].Began? && Started(log, log[at].task, gen)
    ensures log[at].gen == gen
  {
    var incarnation :| BeganIn(log, incarnation, log[at].task, gen);
    var above :| Began(incarnation, log[at].task, above, gen) in log;
    var k :| 0 <= k < |log| && log[k] == Began(incarnation, log[at].task, above, gen);
    BeganOnce(log, k, at);
  }

  // ----- streams -----

  /** While a conversation's latest accepted run can execute, its un-ended streams
      attest that run's generation; and once a retirement has returned, no un-ended
      stream attests the retired generation. */
  lemma StreamAttestation(config: Config, worlds: seq<World>, steps: seq<Step>, i: nat, id: nat)
    requires config.limit > 0 && config.codec.Faithful() && Execution(config, worlds, steps) && i < |worlds| && worlds[i].Up?
    requires id in worlds[i].host.conv.streams && !worlds[i].host.conv.streams[id].ended
    ensures var world := worlds[i];
            var stream := world.host.conv.streams[id];
            && (forall ref :: stream.conversation in world.host.conv.latest && world.host.conv.latest[stream.conversation] == ref && RefDispatchable(world.host, ref) ==>
                  stream.number == world.host.conv.runs[ref.key].number)
            && (stream.number in world.host.gens.retired ==> stream.number in world.threads.passes)
  {
    Always(config, worlds, steps, i);
    var world := worlds[i];
    assert Matches(LatestNumber(world.host, world.host.conv.streams[id].conversation), world.host.conv.streams[id].number);
  }

  // ----- bounds and restarts -----

  /** The run limit and the amortized journal bound, in every reachable state. */
  lemma RunsAndJournalAreBounded(config: Config, worlds: seq<World>, steps: seq<Step>, i: nat)
    requires config.limit > 0 && config.codec.Faithful() && Execution(config, worlds, steps) && i < |worlds| && worlds[i].Up?
    ensures |worlds[i].host.conv.runs| <= config.limit
    ensures !worlds[i].host.conv.log.poisoned ==> worlds[i].host.conv.log.lines < 4 * config.limit
  {
    Always(config, worlds, steps, i);
    BoundedLines(config, worlds[i].host);
  }

  /** Crash refinement of runs over executions: whatever a crash at any byte of any
      operation leaves, the next incarnation replays exactly the runs retained before
      or after the record in progress, or no run; and a crash of a starting host
      changes nothing of that. */
  lemma CrashesKeepRuns(config: Config, worlds: seq<World>, steps: seq<Step>, i: nat)
    requires config.limit > 0 && config.codec.Faithful() && Execution(config, worlds, steps) && i < |steps|
    requires steps[i].Crashing? || steps[i].CrashingAgain?
    ensures worlds[i + 1].Down?
    ensures steps[i].Crashing? ==> worlds[i].Up? && Left(config, worlds[i].host, ReplayedView(config, worlds[i + 1].disk))
    ensures steps[i].CrashingAgain? ==>
              worlds[i].Down? && (Nothing(ReplayedView(config, worlds[i + 1].disk)) || ReplayedView(config, worlds[i + 1].disk) == ReplayedView(config, worlds[i].disk))
  {
    Always(config, worlds, steps, i);
    assert Moves(config, worlds[i], steps[i], worlds[i + 1]);
    if steps[i].Crashing? {
      CrashLeft(config, worlds[i].host, steps[i].disk);
    } else {
      ReopenReplayed(config, worlds[i].disk, steps[i].disk);
    }
  }

  /** No run is authorized. */
  predicate Nothing(view: Option<Retained>) {
    view.None? || view.value == NOTHING
  }

  /** The runs before an operation, or before or after a record it commits. */
  ghost predicate Left(config: Config, host: Host, view: Option<Retained>) {
    || Nothing(view)
    || (!host.conv.log.poisoned && (view.value == HostView(host) || exists op, env, point :: InProgress(config, host, op, env, point, view.value)))
  }

  ghost predicate InProgress(config: Config, host: Host, op: Op, env: Env, point: Point, view: Retained) {
    && ProperOp(op) && Reaches(config, host, op, env, point)
    && (view == HostView(point.at) || (point.Writing? && view == After(HostView(point.at), point.record)))
  }

  lemma CrashLeft(config: Config, host: Host, disk: Disk)
    requires config.codec.Faithful() && Refines(config, host) && host.conv.log.enabled && CrashLeaves(config, host, disk)
    ensures Left(config, host, ReplayedView(config, disk))
  {
    if Silent(disk) {
      SilentReplays(disk, NO_RUNS, Replayer(config.codec));
    } else if disk != host.conv.log.disk {
      var op, env, point :| ProperOp(op) && Reaches(config, host, op, env, point) && CrashAt(config, point, disk);
      CrashRefinement(config, host, op, env, point, disk);
      if !Nothing(ReplayedView(config, disk)) {
        assert InProgress(config, host, op, env, point, ReplayedView(config, disk).value);
        PoisonedIsSilent(config, host, op, env, point, disk);
      }
    }
  }

  /** A poisoned host's crashes leave its silent directory. */
  lemma PoisonedIsSilent(config: Config, host: Host, op: Op, env: Env, point: Point, disk: Disk)
    requires Refines(config, host) && host.conv.log.enabled && Reaches(config, host, op, env, point) && CrashAt(config, point, disk) && !Silent(disk)
    ensures !host.conv.log.poisoned
  {
  }

  lemma ReopenReplayed(config: Config, before: Disk, after: Disk)
    requires config.codec.Faithful() && ReopenCrash(config, before, after)
    ensures Nothing(ReplayedView(config, after)) || ReplayedView(config, after) == ReplayedView(config, before)
  {
    ReopenView(config, before, after);
    if Silent(after) {
      SilentReplays(after, NO_RUNS, Replayer(config.codec));
    } else if after != before {
      Shrunk(config, before, after);
    }
  }

  /** A starting host changes only a file within the bound. */
  lemma Shrunk(config: Config, before: Disk, after: Disk)
    requires ReopenCrash(config, before, after) && !Silent(after) && after != before
    ensures |Content(before)| <= MAX_BYTES
  {
  }

  /** A host that starts over any directory an execution left holds exactly the
      runs that directory proves, and none of them can execute. */
  lemma RestartsReviveNoRun(config: Config, worlds: seq<World>, steps: seq<Step>, i: nat)
    requires config.limit > 0 && config.codec.Faithful() && Execution(config, worlds, steps) && i < |steps| && steps[i].Opening?
    ensures worlds[i].Down? && worlds[i + 1].Up?
    ensures var disk, host := worlds[i].disk, worlds[i + 1].host;
            && (!host.conv.log.poisoned ==> ReplayedView(config, disk) == Some(HostView(host)))
            && (host.conv.log.poisoned <==> disk.marker || |Content(disk)| > MAX_BYTES || Worn(config, disk, steps[i]))
            && forall key :: key in host.conv.runs ==> !Dispatchable(host, host.conv.runs[key])
  {
    assert Moves(config, worlds[i], steps[i], worlds[i + 1]);
    OpenRefines(config, worlds[i].disk, steps[i].io, steps[i].compaction);
    Always(config, worlds, steps, i);
  }

  /** A write of the start itself fails: the torn record's or the compaction's. */
  predicate Worn(config: Config, disk: Disk, step: Step)
    requires step.Opening?
  {
    || (!Complete(Content(disk)) && step.io.Failed?)
    || (|Records(disk)| > config.limit && step.compaction.Failed?)
  }
}
