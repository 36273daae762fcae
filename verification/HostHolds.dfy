/** Hold accounting: in every reachable state a generation's in-flight count is the
number of its live holders, and only force removes a held generation. */
module HostHolds {
  import opened Options
  import opened Journal
  import opened Runs
  import opened RunJournal
  import opened HostSystem

  // ----- generations -----

  /** Numbers grow; every published or retired number was published once; the
      current generation is the newest and stays published. */
  ghost predicate Numbered(gens: Generations) {
    && gens.published.Keys + gens.retired == gens.inFlight.Keys
    && gens.published.Keys !! gens.retired
    && (forall number :: number in gens.inFlight ==> 0 < number <= gens.current)
    && (gens.current == 0 || gens.current in gens.published)
  }

  lemma PublishNumbered(config: Config, gens: Generations, number: nat, revision: string, generation: Generation)
    requires Numbered(gens)
    ensures Numbered(Publish(config, gens, number, revision, generation))
    ensures Publishable(config, gens, number, revision, generation) ==> number !in gens.inFlight
  {
  }

  lemma RemoveNumbered(gens: Generations, number: nat, force: bool)
    requires Numbered(gens)
    ensures Numbered(Remove(gens, number, force))
  {
  }

  // ----- counting holders -----

  function TaskHolders(tasks: map<nat, Task>, number: nat): set<nat> {
    set id | id in tasks && tasks[id].held && tasks[id].gen == number
  }

  function RunHolders(runs: map<string, Run>, number: nat): set<string> {
    set key | key in runs && runs[key].held && runs[key].number == number
  }

  /** The live holders of a generation: requests, internal calls, host calls,
      admissions and runs. */
  function Holders(runs: map<string, Run>, tasks: map<nat, Task>, number: nat): nat {
    |TaskHolders(tasks, number)| + |RunHolders(runs, number)|
  }

  ghost predicate Counted(gens: Generations, runs: map<string, Run>, tasks: map<nat, Task>) {
    forall number :: number in gens.inFlight ==> gens.inFlight[number] == Holders(runs, tasks, number)
  }

  lemma AddTask(tasks: map<nat, Task>, id: nat, task: Task, number: nat)
    requires id !in tasks
    ensures |TaskHolders(tasks[id := task], number)| == |TaskHolders(tasks, number)| + (if task.held && task.gen == number then 1 else 0)
  {
    if task.held && task.gen == number {
      assert TaskHolders(tasks[id := task], number) == TaskHolders(tasks, number) + {id};
    } else {
      assert TaskHolders(tasks[id := task], number) == TaskHolders(tasks, number);
    }
  }

  lemma ReleaseTask(tasks: map<nat, Task>, id: nat, number: nat)
    requires id in tasks && tasks[id].held
    ensures |TaskHolders(tasks[id := tasks[id].(held := false)], number)| == |TaskHolders(tasks, number)| - (if tasks[id].gen == number then 1 else 0)
  {
    var next := tasks[id := tasks[id].(held := false)];
    if tasks[id].gen == number {
      assert TaskHolders(next, number) == TaskHolders(tasks, number) - {id};
    } else {
      assert TaskHolders(next, number) == TaskHolders(tasks, number);
    }
  }

  /** Dropping or updating one run changes only its own hold. */
  lemma ChangeRun(runs: map<string, Run>, key: string, next: map<string, Run>, number: nat)
    requires forall other :: other != key ==> (other in next <==> other in runs) && (other in runs ==> next[other] == runs[other])
    ensures |RunHolders(next, number)| ==
            |RunHolders(runs, number)|
            - (if key in RunHolders(runs, number) then 1 else 0) + (if key in RunHolders(next, number) then 1 else 0)
  {
    var before, after := RunHolders(runs, number), RunHolders(next, number);
    assert before - {key} == after - {key};
    TakeOne(before, key);
    TakeOne(after, key);
  }

  lemma TakeOne(keys: set<string>, key: string)
    ensures |keys| == |keys - {key}| + (if key in keys then 1 else 0)
  {
    if key in keys {
      assert keys == (keys - {key}) + {key};
    } else {
      assert keys == keys - {key};
    }
  }

  // ----- runs and counts -----

  /** Runs that hold a generation hold one that exists. */
  ghost predicate RunsHold(gens: Generations, runs: map<string, Run>) {
    forall key :: key in runs && runs[key].held ==> runs[key].number in gens.inFlight
  }

  lemma ReleaseRunCounted(host: Host, key: string, tasks: map<nat, Task>)
    requires key in host.conv.runs && RunsHold(host.gens, host.conv.runs) && Counted(host.gens, host.conv.runs, tasks)
    ensures var next := ReleaseRun(host, key);
            Counted(next.gens, next.conv.runs, tasks) && RunsHold(next.gens, next.conv.runs)
  {
    var next := ReleaseRun(host, key);
    forall number | number in next.gens.inFlight
      ensures next.gens.inFlight[number] == Holders(next.conv.runs, tasks, number)
    {
      ChangeRun(host.conv.runs, key, next.conv.runs, number);
    }
  }

  lemma ForgetCounted(host: Host, key: string, tasks: map<nat, Task>)
    requires key in host.conv.runs && RunsHold(host.gens, host.conv.runs) && Counted(host.gens, host.conv.runs, tasks)
    ensures var next := Forget(host, key);
            && Counted(next.gens, next.conv.runs, tasks) && RunsHold(next.gens, next.conv.runs)
            && next.gens == ReleaseRun(host, key).gens
  {
    ReleaseRunCounted(host, key, tasks);
    ForgetShape(host, key);
    var released, next := ReleaseRun(host, key), Forget(host, key);
    forall number | number in next.gens.inFlight
      ensures next.gens.inFlight[number] == Holders(next.conv.runs, tasks, number)
    {
      ChangeRun(released.conv.runs, key, next.conv.runs, number);
    }
  }

  /** The parts of the generations no run operation touches. */
  predicate SameGenerations(a: Generations, b: Generations) {
    a.published == b.published && a.current == b.current && a.retired == b.retired && a.inFlight.Keys == b.inFlight.Keys
  }

  lemma EndCounted(config: Config, host: Host, ref: Ref, io: Io, compaction: Io, tasks: map<nat, Task>)
    requires RunsHold(host.gens, host.conv.runs) && Counted(host.gens, host.conv.runs, tasks)
    ensures var next := End(config, host, ref, io, compaction);
            && Counted(next.gens, next.conv.runs, tasks) && RunsHold(next.gens, next.conv.runs)
            && SameGenerations(host.gens, next.gens)
  {
    if Live(host.conv, ref) {
      ForgetCounted(Commit(config, host, EndRecord(host.conv.runs[ref.key]), io), ref.key, tasks);
    }
  }

  lemma ReserveCounted(config: Config, host: Host, conversation: string, runID: string, number: nat, env: Env, tasks: map<nat, Task>)
    requires RunsHold(host.gens, host.conv.runs) && Counted(host.gens, host.conv.runs, tasks) && number in host.gens.inFlight
    ensures var next := Reserve(config, host, conversation, runID, number, env);
            && Counted(next.gens, next.conv.runs, tasks) && RunsHold(next.gens, next.conv.runs)
            && SameGenerations(host.gens, next.gens)
  {
    if Admissible(config, host, conversation, runID) {
      RoomCounted(config, host, env, tasks);
      var roomy, next := Room(config, host, env), Reserve(config, host, conversation, runID, number, env);
      if Appended(roomy.conv.log, env.commit) {
        InstallCounted(roomy.gens, roomy.conv.runs, RunKey(conversation, runID), next.conv.runs, number, tasks);
      }
    }
  }

  /** A run installed with its hold. */
  lemma InstallCounted(gens: Generations, runs: map<string, Run>, key: string, next: map<string, Run>, number: nat, tasks: map<nat, Task>)
    requires RunsHold(gens, runs) && Counted(gens, runs, tasks) && number in gens.inFlight && key !in runs && key in next
    requires next == runs[key := next[key]] && next[key].held && next[key].number == number
    ensures Counted(Hold(gens, number), next, tasks) && RunsHold(Hold(gens, number), next)
  {
    forall n | n in Hold(gens, number).inFlight
      ensures Hold(gens, number).inFlight[n] == Holders(next, tasks, n)
    {
      ChangeRun(runs, key, next, n);
    }
  }

  lemma RoomCounted(config: Config, host: Host, env: Env, tasks: map<nat, Task>)
    requires RunsHold(host.gens, host.conv.runs) && Counted(host.gens, host.conv.runs, tasks)
    ensures var next := Room(config, host, env);
            && Counted(next.gens, next.conv.runs, tasks) && RunsHold(next.gens, next.conv.runs)
            && SameGenerations(host.gens, next.gens)
            && next.conv.runs.Keys <= host.conv.runs.Keys
  {
    StaleFound(host, host.conv.order);
    var stale := Stale(host, host.conv.order);
    if |host.conv.runs| >= config.limit && stale.Some? {
      EndCounted(config, host, RefOf(host.conv, stale.value), env.evict, env.evictCompaction, tasks);
      EndRuns(config, host, RefOf(host.conv, stale.value), env.evict, env.evictCompaction);
    }
  }

  lemma StateCounted(host: Host, ref: Ref, state: RunState, tasks: map<nat, Task>)
    requires RunsHold(host.gens, host.conv.runs) && Counted(host.gens, host.conv.runs, tasks) && Live(host.conv, ref)
    ensures var runs := SetState(host.conv, ref.key, state).runs;
            Counted(host.gens, runs, tasks) && RunsHold(host.gens, runs)
  {
    var runs := SetState(host.conv, ref.key, state).runs;
    forall number | number in host.gens.inFlight
      ensures host.gens.inFlight[number] == Holders(runs, tasks, number)
    {
      ChangeRun(host.conv.runs, ref.key, runs, number);
    }
  }

  lemma ExpireCounted(config: Config, host: Host, ref: Ref, env: Env, tasks: map<nat, Task>)
    requires RunsHold(host.gens, host.conv.runs) && Counted(host.gens, host.conv.runs, tasks)
    ensures var next := Expire(config, host, ref, env);
            && Counted(next.gens, next.conv.runs, tasks) && RunsHold(next.gens, next.conv.runs)
            && SameGenerations(host.gens, next.gens)
  {
    if Expirable(host.conv, ref) {
      var committed := Commit(config, host, RevokeRecord(host.conv.runs[ref.key]), env.commit);
      var run := committed.conv.runs[ref.key];
      var revoked := committed.conv.(runs := committed.conv.runs[ref.key := run.(revoked := true)]);
      var middle := Host(committed.gens, DropLatest(revoked, ref));
      forall number | number in middle.gens.inFlight
        ensures middle.gens.inFlight[number] == Holders(middle.conv.runs, tasks, number)
      {
        ChangeRun(host.conv.runs, ref.key, middle.conv.runs, number);
      }
      ReleaseRunCounted(middle, ref.key, tasks);
    }
  }

  /** Each run operation moves the counts exactly with the runs that hold. */
  lemma DoCounted(config: Config, host: Host, op: Op, env: Env, tasks: map<nat, Task>)
    requires RunsHold(host.gens, host.conv.runs) && Counted(host.gens, host.conv.runs, tasks)
    requires op.ReserveOp? ==> op.number in host.gens.inFlight
    ensures var next := Do(config, host, op, env);
            && Counted(next.gens, next.conv.runs, tasks) && RunsHold(next.gens, next.conv.runs)
            && SameGenerations(host.gens, next.gens)
  {
    match op
    case ReserveOp(conversation, runID, number) => ReserveCounted(config, host, conversation, runID, number, env, tasks);
    case ExpireOp(ref) => ExpireCounted(config, host, ref, env, tasks);
    case FinishOp(ref, outcome) => FinishCounted(config, host, ref, outcome, env, tasks);
    case ObservedOp(ref, terminal) => ObservedCounted(config, host, ref, terminal, env, tasks);
  }

  lemma FinishCounted(config: Config, host: Host, ref: Ref, outcome: Outcome, env: Env, tasks: map<nat, Task>)
    requires RunsHold(host.gens, host.conv.runs) && Counted(host.gens, host.conv.runs, tasks)
    ensures var next := Finish(config, host, ref, outcome, env);
            && Counted(next.gens, next.conv.runs, tasks) && RunsHold(next.gens, next.conv.runs)
            && SameGenerations(host.gens, next.gens)
  {
    if Live(host.conv, ref) {
      match outcome
      case Rejected => EndCounted(config, host, ref, env.commit, env.compaction, tasks);
      case OutcomeUnknown => StateCounted(host, ref, Unknown, tasks);
      case Accepted => StateCounted(host, ref, Active, tasks);
    }
  }

  lemma ObservedCounted(config: Config, host: Host, ref: Ref, terminal: bool, env: Env, tasks: map<nat, Task>)
    requires RunsHold(host.gens, host.conv.runs) && Counted(host.gens, host.conv.runs, tasks)
    ensures var next := Observed(config, host, ref, terminal, env);
            && Counted(next.gens, next.conv.runs, tasks) && RunsHold(next.gens, next.conv.runs)
            && SameGenerations(host.gens, next.gens)
  {
    if Live(host.conv, ref) {
      if terminal {
        EndCounted(config, host, ref, env.commit, env.compaction, tasks);
      } else {
        StateCounted(host, ref, Active, tasks);
      }
    }
  }

  // ----- the invariant -----

  /** A generation some work still holds is dispatchable unless it was removed by
      force. */
  ghost predicate Standing(gens: Generations, forced: set<nat>, number: nat) {
    number in gens.inFlight && (number in gens.published || number in forced)
  }

  /** Work that holds its generation began in this incarnation. */
  ghost predicate Stands(world: World, task: Task)
    requires world.Up?
  {
    && task.born <= world.incarnation
    && (task.held ==> task.born == world.incarnation && Standing(world.host.gens, world.threads.forced, task.gen))
    && (task.born == world.incarnation ==> task.gen in world.host.gens.inFlight)
  }

  ghost predicate HoldInv(world: World) {
    if world.Down? then world.threads == Orphaned(world.threads) && forall id :: id in world.threads.tasks ==> Leftover(world, id)
    else
      && Numbered(world.host.gens)
      && Counted(world.host.gens, world.host.conv.runs, world.threads.tasks)
      && RunsHold(world.host.gens, world.host.conv.runs)
      && (forall id :: id in world.threads.tasks ==> id < world.threads.next && Stands(world, world.threads.tasks[id]))
      && (forall key :: key in world.host.conv.runs && world.host.conv.runs[key].held ==>
            Standing(world.host.gens, world.threads.forced, world.host.conv.runs[key].number))
      && world.threads.forced <= world.host.gens.retired
      && (forall call :: call in world.threads.calls ==> world.threads.calls[call].number in world.host.gens.inFlight)
  }

  /** Work a stopped host left in a service process. */
  predicate Leftover(world: World, id: nat) {
    id in world.threads.tasks && id < world.threads.next && world.threads.tasks[id].born <= world.incarnation
  }

  /** A run that holds a generation after an operation held it before, or is the
      one the operation reserved. */
  ghost predicate HeldFrom(before: map<string, Run>, after: map<string, Run>, op: Op) {
    forall key :: key in after && after[key].held ==>
      || (key in before && before[key].held && before[key].number == after[key].number)
      || (op.ReserveOp? && after[key].number == op.number)
  }

  lemma DoHeld(config: Config, host: Host, op: Op, env: Env, next: Host)
    requires next == Do(config, host, op, env)
    ensures HeldFrom(host.conv.runs, next.conv.runs, op)
  {
    match op
    case ReserveOp(conversation, runID, number) => ReserveShape(config, host, conversation, runID, number, env, next);
    case ExpireOp(ref) =>
      if Expirable(host.conv, ref) {
        ExpireShape(config, host, ref, env);
      }
    case FinishOp(ref, outcome) =>
      if Live(host.conv, ref) && outcome == Rejected {
        EndRuns(config, host, ref, env.commit, env.compaction);
      }
    case ObservedOp(ref, terminal) =>
      if Live(host.conv, ref) && terminal {
        EndRuns(config, host, ref, env.commit, env.compaction);
      }
  }

  /** What every run operation leaves of the generations. */
  ghost predicate Framed(a: Host, b: Host) {
    SameGenerations(a.gens, b.gens) && b.conv.log.enabled == a.conv.log.enabled
  }

  lemma EndFramed(config: Config, host: Host, ref: Ref, io: Io, compaction: Io, next: Host)
    requires next == End(config, host, ref, io, compaction)
    ensures Framed(host, next)
  {
    if Live(host.conv, ref) {
      var committed := Commit(config, host, EndRecord(host.conv.runs[ref.key]), io);
      assert Framed(host, committed);
      assert Framed(committed, Forget(committed, ref.key));
    }
  }

  lemma RoomFramed(config: Config, host: Host, env: Env, next: Host)
    requires next == Room(config, host, env)
    ensures Framed(host, next)
  {
    var stale := Stale(host, host.conv.order);
    if |host.conv.runs| >= config.limit && stale.Some? && stale.value in host.conv.runs {
      EndFramed(config, host, RefOf(host.conv, stale.value), env.evict, env.evictCompaction, next);
    }
  }

  lemma ReserveFramed(config: Config, host: Host, conversation: string, runID: string, number: nat, env: Env, next: Host)
    requires next == Reserve(config, host, conversation, runID, number, env)
    ensures Framed(host, next)
  {
    hide Room, Stale;
    var roomy := Room(config, host, env);
    RoomFramed(config, host, env, roomy);
    assert Framed(roomy, Commit(config, roomy, StartRecord(NewRun(conversation, runID, number)), env.commit));
  }

  lemma DoFramed(config: Config, host: Host, op: Op, env: Env, next: Host)
    requires next == Do(config, host, op, env)
    ensures Framed(host, next)
  {
    match op
    case ReserveOp(conversation, runID, number) => ReserveFramed(config, host, conversation, runID, number, env, next);
    case ExpireOp(ref) =>
    case FinishOp(ref, outcome) =>
      if Live(host.conv, ref) && outcome == Rejected {
        EndFramed(config, host, ref, env.commit, env.compaction, next);
      }
    case ObservedOp(ref, terminal) =>
      if Live(host.conv, ref) && terminal {
        EndFramed(config, host, ref, env.commit, env.compaction, End(config, host, ref, env.commit, env.compaction));
      }
  }

  lemma DoStanding(config: Config, world: World, op: Op, env: Env, task: nat, host: Host)
    requires world.Up? && HoldInv(world) && RunEnabled(world, op, task) && Framed(world.host, host)
    requires HeldFrom(world.host.conv.runs, host.conv.runs, op)
    ensures forall key :: key in host.conv.runs && host.conv.runs[key].held ==> Standing(host.gens, world.threads.forced, host.conv.runs[key].number)
  {
  }

  lemma BeginHolds(world: World, number: nat, work: Work)
    requires world.Up? && HoldInv(world)
    ensures HoldInv(Begin(world, number, work))
  {
    match Acquired(world.host.gens, number)
    case None =>
    case Some(chosen) => EnteredHolds(world, None, work, chosen, Number(Header(chosen)), chosen);
  }

  lemma EnteredHolds(world: World, parent: Option<nat>, work: Work, gen: nat, pinned: nat, root: nat)
    requires world.Up? && HoldInv(world) && gen in world.host.gens.published
    ensures HoldInv(Entered(world, parent, work, gen, pinned, root))
  {
    HoldCounted(world.host.gens, world.host.conv.runs, world.threads.tasks, world.threads.next, Task(work, world.incarnation, gen, pinned, root, true));
  }

  lemma HoldCounted(gens: Generations, runs: map<string, Run>, tasks: map<nat, Task>, id: nat, task: Task)
    requires Counted(gens, runs, tasks) && id !in tasks && task.held
    ensures Counted(Hold(gens, task.gen), runs, tasks[id := task])
  {
    var held := Hold(gens, task.gen);
    forall number | number in held.inFlight
      ensures held.inFlight[number] == Holders(runs, tasks[id := task], number)
    {
      AddTask(tasks, id, task, number);
    }
  }

  lemma ReleaseHolds(world: World, task: nat, next: World)
    requires world.Up? && HoldInv(world) && Holding(world.threads, task) && next == WorkNext(world, Releasing(task))
    ensures HoldInv(next)
  {
    ReleaseCounted(world.host.gens, world.host.conv.runs, world.threads.tasks, task);
  }

  lemma ReleaseCounted(gens: Generations, runs: map<string, Run>, tasks: map<nat, Task>, task: nat)
    requires Counted(gens, runs, tasks) && task in tasks && tasks[task].held
    ensures Counted(Release(gens, tasks[task].gen), runs, tasks[task := tasks[task].(held := false)])
  {
    var released, next := Release(gens, tasks[task].gen), tasks[task := tasks[task].(held := false)];
    forall number | number in released.inFlight
      ensures released.inFlight[number] == Holders(runs, next, number)
    {
      ReleaseTask(tasks, task, number);
    }
  }

  /** Unforced retirement never removes a held generation. */
  lemma UnforcedKeepsHeld(world: World, number: nat)
    requires world.Up? && HoldInv(world) && Removable(world.host.gens, number, false)
    ensures forall id :: Holding(world.threads, id) ==> world.threads.tasks[id].gen != number
    ensures forall key :: key in world.host.conv.runs && world.host.conv.runs[key].held ==> world.host.conv.runs[key].number != number
  {
    var tasks, runs := world.threads.tasks, world.host.conv.runs;
    assert Holders(runs, tasks, number) == 0;
    assert TaskHolders(tasks, number) == {} && RunHolders(runs, number) == {};
    forall id | Holding(world.threads, id)
      ensures tasks[id].gen != number
    {
      assert id !in TaskHolders(tasks, number);
    }
    forall key | key in runs && runs[key].held
      ensures runs[key].number != number
    {
      assert key !in RunHolders(runs, number);
    }
  }

  lemma RemovingHolds(config: Config, world: World, number: nat, force: bool)
    requires world.Up? && HoldInv(world)
    ensures HoldInv(GenNext(config, world, Removing(number, force)))
  {
    RemoveNumbered(world.host.gens, number, force);
    if !force && Removable(world.host.gens, number, false) {
      UnforcedKeepsHeld(world, number);
    }
  }

  lemma PublishingHolds(config: Config, world: World, number: nat, revision: string, generation: Generation)
    requires world.Up? && HoldInv(world)
    ensures HoldInv(GenNext(config, world, Publishing(number, revision, generation)))
  {
    PublishNumbered(config, world.host.gens, number, revision, generation);
    if Publishable(config, world.host.gens, number, revision, generation) {
      var tasks, runs := world.threads.tasks, world.host.conv.runs;
      assert TaskHolders(tasks, number) == {} && RunHolders(runs, number) == {};
    }
  }

  lemma GenHolds(config: Config, world: World, step: GenStep)
    requires world.Up? && HoldInv(world)
    ensures HoldInv(GenNext(config, world, step))
  {
    match step
    case Publishing(number, revision, generation) => PublishingHolds(config, world, number, revision, generation);
    case Removing(number, force) => RemovingHolds(config, world, number, force);
  }

  lemma RunningHolds(config: Config, world: World, op: Op, env: Env, task: nat, next: World)
    requires world.Up? && HoldInv(world) && RunEnabled(world, op, task)
    requires next == Up(Do(config, world.host, op, env), world.threads, world.incarnation, next.log)
    ensures HoldInv(next)
  {
    DoCounted(config, world.host, op, env, world.threads.tasks);
    DoHeld(config, world.host, op, env, next.host);
    DoFramed(config, world.host, op, env, next.host);
    DoStanding(config, world, op, env, task, next.host);
    RanHolds(world, next);
  }

  lemma RanHolds(world: World, next: World)
    requires world.Up? && next.Up? && HoldInv(world) && next.threads == world.threads && next.incarnation == world.incarnation && Framed(world.host, next.host)
    requires Counted(next.host.gens, next.host.conv.runs, next.threads.tasks) && RunsHold(next.host.gens, next.host.conv.runs)
    requires forall key :: key in next.host.conv.runs && next.host.conv.runs[key].held ==>
                             Standing(next.host.gens, next.threads.forced, next.host.conv.runs[key].number)
    ensures HoldInv(next)
  {
  }

  lemma CallingHolds(world: World, call: nat)
    requires world.Up? && HoldInv(world) && call in world.threads.calls
    ensures HoldInv(WorkNext(world, Calling(call)))
  {
    var chosen := world.threads.calls[call];
    var threads := world.threads.(calls := world.threads.calls - {call});
    match Acquired(world.host.gens, chosen.number)
    case None =>
    case Some(gen) =>
      BeginHolds(Up(world.host, threads, world.incarnation, world.log + [CallExecuted(world.incarnation, call, chosen.ref, gen)]), chosen.number, ToolCall);
  }

  lemma DispatchingHolds(world: World, parent: nat)
    requires world.Up? && HoldInv(world) && parent in world.threads.tasks
    ensures HoldInv(WorkNext(world, Dispatching(parent)))
  {
    var caller := world.threads.tasks[parent];
    var chosen := Acquired(world.host.gens, Number(Header(caller.pinned)));
    if chosen.Some? {
      EnteredHolds(world, Some(parent), Internal, chosen.value, caller.pinned, caller.root);
    }
  }

  lemma ChoosingHolds(world: World, address: string, principal: string, digest: string, runID: string)
    requires world.Up? && HoldInv(world) && Unlocked(world)
    ensures HoldInv(WorkNext(world, Choosing(address, principal, digest, runID)))
  {
    match RunGeneration(world.host, address, principal, digest, runID)
    case Refused =>
    case CurrentGeneration => BeginHolds(world, 0, ToolCall);
    case InGeneration(ref, number) =>
      assert Live(world.host.conv, ref) && world.host.conv.runs[ref.key].held && world.host.conv.runs[ref.key].number == number;
      assert Standing(world.host.gens, world.threads.forced, number);
  }

  lemma WorkHolds(world: World, step: WorkStep)
    requires world.Up? && HoldInv(world) && WorkEnabled(world, step)
    ensures HoldInv(WorkNext(world, step))
  {
    match step
    case Arriving => BeginHolds(world, 0, Ingress);
    case Admitting(instance, number) => EnteredHolds(world, None, Admission, number, number, number);
    case Dispatching(parent) => DispatchingHolds(world, parent);
    case Releasing(task) => ReleaseHolds(world, task, WorkNext(world, step));
    case Choosing(address, principal, digest, runID) => ChoosingHolds(world, address, principal, digest, runID);
    case Calling(call) => CallingHolds(world, call);
  }

  lemma OpeningHolds(config: Config, world: World, io: Io, compaction: Io)
    requires config.codec.Faithful() && world.Down? && HoldInv(world)
    ensures HoldInv(Next(config, world, Opening(io, compaction)))
  {
    OpenRefines(config, world.disk, io, compaction);
    OpenFresh(config, world.disk, io, compaction);
  }

  lemma OpenFresh(config: Config, disk: Disk, io: Io, compaction: Io)
    ensures var host := Open(config, disk, io, compaction);
            && host.gens == NO_GENERATIONS && host.conv.latest == map[] && host.conv.streams == map[]
            && forall key :: key in host.conv.runs ==> !host.conv.runs[key].held && host.conv.runs[key].sequence <= host.conv.sequence
  {
    PrefixParked(config.codec, NO_RUNS, Records(disk));
  }

  /** Hold accounting, as an invariant of every step. */
  lemma HoldStep(config: Config, world: World, step: Step, next: World)
    requires config.codec.Faithful() && HoldInv(world) && Moves(config, world, step, next)
    ensures HoldInv(next)
  {
    match step
    case OnGens(gen) => GenHolds(config, world, gen);
    case OnWork(work) => WorkHolds(world, work);
    case OnStreams(stream) => StreamFrame(world, stream, next);
    case Running(op, env, task) => RunningHolds(config, world, op, env, task, next);
    case Opening(io, compaction) => OpeningHolds(config, world, io, compaction);
    case Crashing(disk) =>
    case CrashingAgain(disk) =>
  }

  // ----- pins -----

  /** Every piece of work is pinned, at the host and in its process, to the
      generation of the root of its call tree. */
  ghost predicate PinInv(world: World) {
    forall id :: id in world.threads.tasks ==> Pinned(world.threads.tasks[id])
  }

  predicate Pinned(task: Task) {
    task.gen == task.pinned == task.root != 0
  }

  lemma WorkPins(world: World, step: WorkStep, next: World)
    requires world.Up? && HoldInv(world) && PinInv(world) && WorkEnabled(world, step) && next == WorkNext(world, step)
    ensures PinInv(next)
  {
    assert Numbered(world.host.gens);
  }

  lemma PinStep(config: Config, world: World, step: Step, next: World)
    requires HoldInv(world) && PinInv(world) && Moves(config, world, step, next)
    ensures PinInv(next)
  {
    match step
    case OnGens(gen) => GenFrame(config, world, gen, next);
    case OnWork(work) => WorkPins(world, work, next);
    case OnStreams(stream) => StreamFrame(world, stream, next);
    case Running(op, env, task) =>
    case Opening(io, compaction) =>
    case Crashing(disk) =>
    case CrashingAgain(disk) =>
  }
}
