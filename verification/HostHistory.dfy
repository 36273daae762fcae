/** Whole histories of a session: run scopes, call trees and generation numbers, as
properties of every log of events, and the invariants that justify each event. */
module HostHistory {
  import opened Options
  import opened Journal
  import opened Runs
  import opened RunJournal
  import opened HostSystem
  import opened HostHolds
  import opened HostStreams

  // ----- what justifies an event -----

  ghost predicate WasReserved(log: seq<Event>, incarnation: nat, ref: Ref, number: nat) {
    RunReserved(incarnation, ref, number) in log
  }

  ghost predicate WasRemoved(log: seq<Event>, incarnation: nat, number: nat) {
    Removed(incarnation, number, true) in log || Removed(incarnation, number, false) in log
  }

  /** The incarnation has published the generation and not removed it. */
  ghost predicate Available(log: seq<Event>, incarnation: nat, number: nat) {
    Published(incarnation, number) in log && !WasRemoved(log, incarnation, number)
  }

  ghost predicate BeganIn(log: seq<Event>, incarnation: nat, task: nat, gen: nat) {
    exists parent :: Began(incarnation, task, parent, gen) in log
  }

  /** The work began, in some incarnation, in the generation. */
  ghost predicate Started(log: seq<Event>, task: nat, gen: nat) {
    exists incarnation :: BeganIn(log, incarnation, task, gen)
  }

  /** No work that began in the generation holds it any longer. */
  ghost predicate AllReleased(log: seq<Event>, incarnation: nat, number: nat) {
    forall task :: BeganIn(log, incarnation, task, number) ==> Released(incarnation, task) in log
  }

  /** An event may follow a history.
      - Numbers are published in increasing order, and removed once.
      - A tool call executes in the generation its run was reserved in, in the same
        incarnation, while that generation is available.
      - It is chosen for a run only before the run's revocation.
      - Work begins only in an available generation, and releases it once; an internal
        call runs in its caller's generation, and is refused only when that generation
        is not available: removed by force, or left by all its work.
      - No run is reserved twice. */
  ghost predicate Justified(log: seq<Event>, event: Event) {
    match event
    case RunReserved(incarnation, ref, number) => forall other :: !WasReserved(log, incarnation, ref, other)
    case RunAccepted(incarnation, ref) => true
    case RunRevoked(incarnation, ref) => true
    case CallChosen(incarnation, call, ref, number) => WasReserved(log, incarnation, ref, number) && RunRevoked(incarnation, ref) !in log
    case CallExecuted(incarnation, call, ref, number) =>
      && WasReserved(log, incarnation, ref, number)
      && CallChosen(incarnation, call, ref, number) in log
      && Available(log, incarnation, number)
    case Published(incarnation, number) => forall other: nat :: Published(incarnation, other) in log ==> other < number
    case Removed(incarnation, number, force) =>
      Available(log, incarnation, number) && (force || AllReleased(log, incarnation, number))
    case Began(incarnation, task, parent, gen) =>
      && Available(log, incarnation, gen)
      && (forall other :: !Started(log, task, other))
      && (parent.Some? ==> Started(log, parent.value, gen))
    case Released(incarnation, task) =>
      (exists gen :: BeganIn(log, incarnation, task, gen)) && Released(incarnation, task) !in log
    case DispatchRefused(incarnation, caller, number) =>
      && Started(log, caller, number)
      && !Available(log, incarnation, number)
      && (Removed(incarnation, number, true) in log || AllReleased(log, incarnation, number))
  }

  /** Every event of a log was justified by what came before it. */
  ghost predicate History(log: seq<Event>) {
    forall j {:trigger Justified(log[..j], log[j])} :: 0 <= j < |log| ==> Justified(log[..j], log[j])
  }

  lemma HistorySnoc(log: seq<Event>, event: Event)
    requires History(log) && Justified(log, event)
    ensures History(log + [event])
  {
    var longer := log + [event];
    forall j | 0 <= j < |longer|
      ensures Justified(longer[..j], longer[j])
    {
      if j < |log| {
        assert longer[..j] == log[..j];
      } else {
        assert longer[..j] == log;
      }
    }
  }

  // ----- what links a world to its history -----

  ghost predicate RunLinks(world: World)
    requires world.Up?
  {
    && (forall key :: key in world.host.conv.runs && world.host.conv.runs[key].held ==>
          WasReserved(world.log, world.incarnation, RefOf(world.host.conv, key), world.host.conv.runs[key].number))
    && (forall ref, number :: WasReserved(world.log, world.incarnation, ref, number) ==> ref.sequence <= world.host.conv.sequence)
    && (forall ref :: RunRevoked(world.incarnation, ref) in world.log ==>
          ref.sequence <= world.host.conv.sequence && (Live(world.host.conv, ref) ==> world.host.conv.runs[ref.key].revoked))
  }

  ghost predicate CallLinks(world: World)
    requires world.Up?
  {
    forall call :: call in world.threads.calls ==>
      && WasReserved(world.log, world.incarnation, world.threads.calls[call].ref, world.threads.calls[call].number)
      && CallChosen(world.incarnation, call, world.threads.calls[call].ref, world.threads.calls[call].number) in world.log
      && world.threads.calls[call].number != 0
  }

  /** The log tells which generations the host has published and removed. */
  ghost predicate GenLinks(world: World)
    requires world.Up?
  {
    && (forall number :: Published(world.incarnation, number) in world.log <==> number in world.host.gens.inFlight)
    && (forall number :: WasRemoved(world.log, world.incarnation, number) <==> number in world.host.gens.retired)
    && (forall number :: number in world.threads.forced ==> Removed(world.incarnation, number, true) in world.log)
  }

  /** The log tells which work has begun. */
  ghost predicate TaskLinks(tasks: map<nat, Task>, log: seq<Event>) {
    && (forall id :: id in tasks ==> BeganIn(log, tasks[id].born, id, tasks[id].gen))
    && (forall incarnation, id: nat, gen :: BeganIn(log, incarnation, id, gen) ==> id in tasks && tasks[id].born == incarnation && tasks[id].gen == gen)
    && (forall incarnation, id: nat :: Released(incarnation, id) in log ==> id in tasks)
  }

  /** The log tells which work of this incarnation holds its generation. */
  ghost predicate HeldLinks(world: World) {
    forall id :: id in world.threads.tasks && world.threads.tasks[id].born == world.incarnation ==>
      (world.threads.tasks[id].held <==> Released(world.incarnation, id) !in world.log)
  }

  ghost predicate Dated(log: seq<Event>, incarnation: nat) {
    && (forall event :: event in log ==> event.incarnation <= incarnation)
    && (forall i, j :: 0 <= i < j < |log| ==> log[i].incarnation <= log[j].incarnation)
  }

  ghost predicate LogInv(world: World) {
    && History(world.log)
    && Dated(world.log, world.incarnation)
    && TaskLinks(world.threads.tasks, world.log)
    && (world.Up? ==> RunLinks(world) && CallLinks(world) && GenLinks(world) && HeldLinks(world))
  }

  // ----- one more event -----

  ghost predicate Extends(world: World, next: World, event: Event) {
    && world.Up? && next.Up? && next.incarnation == world.incarnation == event.incarnation
    && next.log == world.log + [event]
  }

  lemma ExtendLog(world: World, next: World, event: Event)
    requires Extends(world, next, event) && LogInv(world) && Justified(world.log, event)
    ensures History(next.log) && Dated(next.log, next.incarnation)
  {
    HistorySnoc(world.log, event);
  }

  lemma BeganGrows(log: seq<Event>, event: Event, incarnation: nat, task: nat, gen: nat)
    ensures BeganIn(log + [event], incarnation, task, gen) <==>
            BeganIn(log, incarnation, task, gen) || (event.Began? && event == Began(incarnation, task, event.parent, gen))
  {
    if BeganIn(log, incarnation, task, gen) {
      var parent :| Began(incarnation, task, parent, gen) in log;
      assert Began(incarnation, task, parent, gen) in log + [event];
    }
    if event.Began? && event == Began(incarnation, task, event.parent, gen) {
      assert Began(incarnation, task, event.parent, gen) in log + [event];
    }
  }

  /** Runs stay linked over an event that is not about a run. */
  lemma ExtendRuns(world: World, next: World, event: Event)
    requires Extends(world, next, event) && RunLinks(world) && !event.RunReserved? && !event.RunRevoked?
    requires next.host.conv.runs == world.host.conv.runs && next.host.conv.sequence == world.host.conv.sequence
    ensures RunLinks(next)
  {
    forall ref, number | WasReserved(next.log, next.incarnation, ref, number)
      ensures ref.sequence <= next.host.conv.sequence
    {
      assert WasReserved(world.log, world.incarnation, ref, number);
    }
    forall key | key in next.host.conv.runs && next.host.conv.runs[key].held
      ensures WasReserved(next.log, next.incarnation, RefOf(next.host.conv, key), next.host.conv.runs[key].number)
    {
      assert WasReserved(world.log, world.incarnation, RefOf(world.host.conv, key), world.host.conv.runs[key].number);
    }
  }

  predicate CallJustified(world: World, event: Event, call: nat, chosen: Call)
    requires world.Up?
  {
    || (call in world.threads.calls && world.threads.calls[call] == chosen)
    || (event == CallChosen(world.incarnation, call, chosen.ref, chosen.number) && chosen.number != 0)
  }

  lemma ExtendCalls(world: World, next: World, event: Event)
    requires Extends(world, next, event) && CallLinks(world) && Justified(world.log, event)
    requires forall call :: call in next.threads.calls ==> CallJustified(world, event, call, next.threads.calls[call])
    ensures CallLinks(next)
  {
    forall call | call in next.threads.calls
      ensures WasReserved(next.log, next.incarnation, next.threads.calls[call].ref, next.threads.calls[call].number)
      ensures CallChosen(next.incarnation, call, next.threads.calls[call].ref, next.threads.calls[call].number) in next.log
      ensures next.threads.calls[call].number != 0
    {
      var chosen := next.threads.calls[call];
      assert CallJustified(world, event, call, chosen);
      assert WasReserved(world.log, world.incarnation, chosen.ref, chosen.number);
    }
  }

  /** Generations stay linked over an event that is not about a generation. */
  lemma ExtendGens(world: World, next: World, event: Event)
    requires Extends(world, next, event) && GenLinks(world) && !event.Published? && !event.Removed?
    requires next.host.gens.inFlight.Keys == world.host.gens.inFlight.Keys && next.host.gens.retired == world.host.gens.retired
    requires next.threads.forced == world.threads.forced
    ensures GenLinks(next)
  {
    forall number
      ensures Published(next.incarnation, number) in next.log <==> Published(world.incarnation, number) in world.log
      ensures WasRemoved(next.log, next.incarnation, number) <==> WasRemoved(world.log, world.incarnation, number)
    {
    }
  }

  /** Work stays linked over an event that is not about work. */
  lemma ExtendTasks(tasks: map<nat, Task>, log: seq<Event>, event: Event)
    requires TaskLinks(tasks, log) && !event.Began? && !event.Released?
    ensures TaskLinks(tasks, log + [event])
  {
    forall incarnation, id, gen
      ensures BeganIn(log + [event], incarnation, id, gen) <==> BeganIn(log, incarnation, id, gen)
    {
      BeganGrows(log, event, incarnation, id, gen);
    }
  }

  lemma ExtendBegun(tasks: map<nat, Task>, log: seq<Event>, id: nat, task: Task, parent: Option<nat>)
    requires TaskLinks(tasks, log) && id !in tasks
    ensures TaskLinks(tasks[id := task], log + [Began(task.born, id, parent, task.gen)])
  {
    var event := Began(task.born, id, parent, task.gen);
    forall incarnation, other, gen
      ensures BeganIn(log + [event], incarnation, other, gen) <==>
              BeganIn(log, incarnation, other, gen) || (incarnation == task.born && other == id && gen == task.gen)
    {
      BeganGrows(log, event, incarnation, other, gen);
    }
  }

  lemma ExtendReleased(tasks: map<nat, Task>, log: seq<Event>, id: nat, incarnation: nat)
    requires TaskLinks(tasks, log) && id in tasks
    ensures TaskLinks(tasks[id := tasks[id].(held := false)], log + [Released(incarnation, id)])
  {
    var event := Released(incarnation, id);
    forall inc, other, gen
      ensures BeganIn(log + [event], inc, other, gen) <==> BeganIn(log, inc, other, gen)
    {
      BeganGrows(log, event, inc, other, gen);
    }
  }

  // ----- run operations -----

  /** A run after an operation is the same object as before, still revoked if it
      was, or the one just installed. */
  ghost predicate SameRuns(before: Conversations, after: Conversations) {
    && before.sequence <= after.sequence
    && forall key :: key in after.runs ==>
         || (key in before.runs && SameRun(before.runs[key], after.runs[key]))
         || before.sequence < after.runs[key].sequence
  }

  predicate SameRun(before: Run, after: Run) {
    && after.sequence == before.sequence && after.number == before.number
    && (before.revoked ==> after.revoked) && (after.held ==> before.held)
  }

  lemma EndSameRuns(config: Config, host: Host, ref: Ref, io: Io, compaction: Io)
    ensures SameRuns(host.conv, End(config, host, ref, io, compaction).conv)
  {
    EndFewer(config, host, ref, io, compaction);
    if Live(host.conv, ref) {
      EndRuns(config, host, ref, io, compaction);
    }
  }

  lemma StateSameRuns(host: Host, ref: Ref, state: RunState)
    requires Live(host.conv, ref)
    ensures SameRuns(host.conv, SetState(host.conv, ref.key, state))
    ensures SameRuns(host.conv, Accept(SetState(host.conv, ref.key, state), ref))
  {
  }

  lemma ExpireSameRuns(config: Config, host: Host, ref: Ref, env: Env)
    ensures SameRuns(host.conv, Expire(config, host, ref, env).conv)
  {
    if Expirable(host.conv, ref) {
      ExpireShape(config, host, ref, env);
    }
  }

  lemma DoSameRuns(config: Config, host: Host, op: Op, env: Env)
    ensures SameRuns(host.conv, Do(config, host, op, env).conv)
  {
    hide SameRuns, Reserve, Expire, End, Accept, SetState;
    SameRunsRefl(host.conv);
    match op
    case ReserveOp(conversation, runID, number) => ReserveSameRuns(config, host, conversation, runID, number, env);
    case ExpireOp(ref) => ExpireSameRuns(config, host, ref, env);
    case FinishOp(ref, outcome) =>
      EndSameRuns(config, host, ref, env.commit, env.compaction);
      if Live(host.conv, ref) {
        StateSameRuns(host, ref, Unknown);
        StateSameRuns(host, ref, Active);
      }
    case ObservedOp(ref, terminal) =>
      EndSameRuns(config, host, ref, env.commit, env.compaction);
      if Live(host.conv, ref) {
        StateSameRuns(host, ref, Active);
      }
  }

  lemma SameRunsRefl(conv: Conversations)
    ensures SameRuns(conv, conv)
  {
  }

  lemma ReserveSameRuns(config: Config, host: Host, conversation: string, runID: string, number: nat, env: Env)
    ensures SameRuns(host.conv, Reserve(config, host, conversation, runID, number, env).conv)
  {
    hide Reserve, Reserved;
    ReserveShape(config, host, conversation, runID, number, env, Reserve(config, host, conversation, runID, number, env));
  }

  lemma RunLinksNoEvent(world: World, next: World)
    requires world.Up? && next.Up? && RunLinks(world) && next.log == world.log && next.incarnation == world.incarnation
    requires SameRuns(world.host.conv, next.host.conv)
    requires forall key :: key in next.host.conv.runs && next.host.conv.runs[key].held ==> key in world.host.conv.runs && SameRun(world.host.conv.runs[key], next.host.conv.runs[key])
    ensures RunLinks(next)
  {
  }

  /** A run operation that logs at most an acceptance. */
  lemma AcceptingRun(config: Config, world: World, op: Op, env: Env, next: World)
    requires world.Up? && LogInv(world) && (op.FinishOp? || op.ObservedOp?)
    requires next == Up(Do(config, world.host, op, env), world.threads, world.incarnation, world.log + RunEvents(config, world, op, env))
    ensures LogInv(next)
  {
    hide LogInv, Do;
    var quiet := Up(Do(config, world.host, op, env), world.threads, world.incarnation, world.log);
    QuietRun(config, world, op, env, quiet);
    if RunEvents(config, world, op, env) == [] {
      assert next == quiet;
    } else {
      SameCalls(quiet, RunAccepted(world.incarnation, op.ref));
      ExtendOther(quiet, next, RunAccepted(world.incarnation, op.ref));
    }
  }

  /** A run operation but for its event. */
  lemma QuietRun(config: Config, world: World, op: Op, env: Env, next: World)
    requires world.Up? && LogInv(world) && !op.ReserveOp?
    requires next == Up(Do(config, world.host, op, env), world.threads, world.incarnation, world.log)
    ensures LogInv(next)
  {
    DoSameRuns(config, world.host, op, env);
    OldRuns(config, world.host, op, env);
    RunLinksNoEvent(world, next);
    DoFramed(config, world.host, op, env, next.host);
  }

  lemma RunningLinks(config: Config, world: World, op: Op, env: Env, task: nat, next: World)
    requires world.Up? && LogInv(world) && StreamInv(world) && RunEnabled(world, op, task)
    requires next == Up(Do(config, world.host, op, env), world.threads, world.incarnation, world.log + RunEvents(config, world, op, env))
    ensures LogInv(next)
  {
    match op
    case ReserveOp(conversation, runID, number) => ReservingLinks(config, world, conversation, runID, number, env, next);
    case ExpireOp(ref) => ExpiringLinks(config, world, ref, env, next);
    case FinishOp(ref, outcome) => AcceptingRun(config, world, op, env, next);
    case ObservedOp(ref, terminal) => AcceptingRun(config, world, op, env, next);
  }

  /** Only a reservation installs a run. */
  lemma OldRuns(config: Config, host: Host, op: Op, env: Env)
    requires !op.ReserveOp?
    ensures Do(config, host, op, env).conv.runs.Keys <= host.conv.runs.Keys
    ensures var next := Do(config, host, op, env).conv; forall key :: key in next.runs ==> SameRun(host.conv.runs[key], next.runs[key])
  {
    match op
    case ExpireOp(ref) =>
      if Expirable(host.conv, ref) {
        ExpireShape(config, host, ref, env);
      }
    case FinishOp(ref, outcome) =>
      if Live(host.conv, ref) && outcome == Rejected {
        EndRuns(config, host, ref, env.commit, env.compaction);
      }
    case ObservedOp(ref, terminal) =>
      if Live(host.conv, ref) && terminal {
        EndRuns(config, host, ref, env.commit, env.compaction);
      }
  }

  lemma ReservingLinks(config: Config, world: World, conversation: string, runID: string, number: nat, env: Env, next: World)
    requires world.Up? && LogInv(world) && StreamInv(world)
    requires next == Up(Reserve(config, world.host, conversation, runID, number, env), world.threads, world.incarnation,
                        world.log + RunEvents(config, world, ReserveOp(conversation, runID, number), env))
    ensures LogInv(next)
  {
    ReserveShape(config, world.host, conversation, runID, number, env, next.host);
    ReserveFramed(config, world.host, conversation, runID, number, env, next.host);
    if Reserved(config, world.host, conversation, runID, env) {
      var ref := Ref(RunKey(conversation, runID), world.host.conv.sequence + 1);
      RunEventLinks(world, next, RunReserved(world.incarnation, ref, number));
      ReservedLinks(world, next, ref, number);
    } else {
      assert next.log == world.log;
      RunLinksNoEvent(world, next);
    }
  }

  /** The parts of the history that are not about runs, over a run's event. */
  lemma RunEventLinks(world: World, next: World, event: Event)
    requires world.Up? && LogInv(world) && Extends(world, next, event) && Justified(world.log, event)
    requires (event.RunReserved? || event.RunRevoked?) && next.threads == world.threads && SameGenerations(world.host.gens, next.host.gens)
    ensures History(next.log) && Dated(next.log, next.incarnation) && CallLinks(next) && GenLinks(next)
    ensures TaskLinks(next.threads.tasks, next.log) && HeldLinks(next)
  {
    hide History, Dated, RunLinks, CallLinks, TaskLinks, Justified;
    ExtendLog(world, next, event);
    SameCalls(world, event);
    ExtendCalls(world, next, event);
    ExtendGens(world, next, event);
    ExtendTasks(world.threads.tasks, world.log, event);
  }

  lemma SameCalls(world: World, event: Event)
    requires world.Up?
    ensures forall call :: call in world.threads.calls ==> CallJustified(world, event, call, world.threads.calls[call])
  {
  }

  lemma ReservedLinks(world: World, next: World, ref: Ref, number: nat)
    requires world.Up? && RunLinks(world) && Extends(world, next, RunReserved(world.incarnation, ref, number))
    requires ref.sequence == next.host.conv.sequence == world.host.conv.sequence + 1
    requires ref.key in next.host.conv.runs && next.host.conv.runs[ref.key].number == number && next.host.conv.runs[ref.key].sequence == ref.sequence
    requires forall key :: key in next.host.conv.runs && key != ref.key ==> key in world.host.conv.runs && next.host.conv.runs[key] == world.host.conv.runs[key]
    ensures RunLinks(next)
  {
    var event := RunReserved(world.incarnation, ref, number);
    forall key | key in next.host.conv.runs && next.host.conv.runs[key].held
      ensures WasReserved(next.log, next.incarnation, RefOf(next.host.conv, key), next.host.conv.runs[key].number)
    {
      if key != ref.key {
        assert WasReserved(world.log, world.incarnation, RefOf(world.host.conv, key), world.host.conv.runs[key].number);
      }
    }
    forall other, n | WasReserved(next.log, next.incarnation, other, n)
      ensures other.sequence <= next.host.conv.sequence
    {
      assert WasReserved(world.log, world.incarnation, other, n) || other == ref;
    }
  }

  lemma ExpiringLinks(config: Config, world: World, ref: Ref, env: Env, next: World)
    requires world.Up? && LogInv(world) && StreamInv(world)
    requires next == Up(Expire(config, world.host, ref, env), world.threads, world.incarnation,
                        world.log + RunEvents(config, world, ExpireOp(ref), env))
    ensures LogInv(next)
  {
    hide History, Dated, TaskLinks, CallLinks, GenLinks, HeldLinks;
    if Expirable(world.host.conv, ref) {
      ExpireShape(config, world.host, ref, env);
      DoFramed(config, world.host, ExpireOp(ref), env, next.host);
      RunEventLinks(world, next, RunRevoked(world.incarnation, ref));
      RevokedLinks(world, next, ref);
    } else {
      assert next.log == world.log;
      QuietLinks(world, next);
    }
  }

  lemma RevokedLinks(world: World, next: World, ref: Ref)
    requires world.Up? && RunLinks(world) && Extends(world, next, RunRevoked(world.incarnation, ref)) && Live(world.host.conv, ref)
    requires next.host.conv.sequence == world.host.conv.sequence && world.host.conv.runs[ref.key].sequence <= world.host.conv.sequence
    requires next.host.conv.runs == world.host.conv.runs[ref.key := world.host.conv.runs[ref.key].(revoked := true, held := false)]
    ensures RunLinks(next)
  {
    forall key | key in next.host.conv.runs && next.host.conv.runs[key].held
      ensures WasReserved(next.log, next.incarnation, RefOf(next.host.conv, key), next.host.conv.runs[key].number)
    {
      assert WasReserved(world.log, world.incarnation, RefOf(world.host.conv, key), world.host.conv.runs[key].number);
    }
    forall other, n | WasReserved(next.log, next.incarnation, other, n)
      ensures other.sequence <= next.host.conv.sequence
    {
      assert WasReserved(world.log, world.incarnation, other, n);
    }
  }

  // ----- the other steps -----

  /** What a step with one event that leaves the runs alone keeps. */
  lemma ExtendRest(world: World, next: World, event: Event)
    requires Extends(world, next, event) && LogInv(world) && Justified(world.log, event) && !event.RunReserved? && !event.RunRevoked?
    requires next.host.conv == world.host.conv
    requires forall call :: call in next.threads.calls ==> CallJustified(world, event, call, next.threads.calls[call])
    ensures History(next.log) && Dated(next.log, next.incarnation) && RunLinks(next) && CallLinks(next)
  {
    ExtendLog(world, next, event);
    ExtendRuns(world, next, event);
    ExtendCalls(world, next, event);
  }

  /** An event about neither runs, generations nor the work that holds them. */
  lemma ExtendOther(world: World, next: World, event: Event)
    requires Extends(world, next, event) && LogInv(world) && Justified(world.log, event)
    requires event.CallChosen? || event.CallExecuted? || event.DispatchRefused? || event.RunAccepted?
    requires next.host == world.host && next.threads.tasks == world.threads.tasks && next.threads.forced == world.threads.forced
    requires forall call :: call in next.threads.calls ==> CallJustified(world, event, call, next.threads.calls[call])
    ensures LogInv(next)
  {
    hide History, Dated, RunLinks, CallLinks, Justified;
    ExtendRest(world, next, event);
    ExtendGens(world, next, event);
    ExtendTasks(world.threads.tasks, world.log, event);
  }

  lemma BeginLinks(world: World, number: nat, work: Work)
    requires world.Up? && LogInv(world) && HoldInv(world)
    ensures LogInv(Begin(world, number, work))
  {
    match Acquired(world.host.gens, number)
    case None =>
    case Some(chosen) => EnteredLinks(world, None, work, chosen, Number(Header(chosen)), chosen, Begin(world, number, work));
  }

  /** The log and the host agree on what is available. */
  lemma AvailableIsPublished(world: World, number: nat)
    requires world.Up? && LogInv(world) && HoldInv(world)
    ensures Available(world.log, world.incarnation, number) <==> number in world.host.gens.published
  {
    assert Numbered(world.host.gens);
    assert number in world.host.gens.published.Keys + world.host.gens.retired <==> number in world.host.gens.inFlight.Keys;
  }

  lemma FreshTask(world: World)
    requires world.Up? && LogInv(world) && HoldInv(world)
    ensures world.threads.next !in world.threads.tasks
    ensures forall other :: !Started(world.log, world.threads.next, other)
    ensures Released(world.incarnation, world.threads.next) !in world.log
  {
    forall incarnation: nat, other: nat
      ensures !BeganIn(world.log, incarnation, world.threads.next, other)
    {
    }
  }

  /** A step whose only event is work beginning in a published generation. */
  lemma EnteredLinks(world: World, parent: Option<nat>, work: Work, gen: nat, pinned: nat, root: nat, next: World)
    requires world.Up? && LogInv(world) && HoldInv(world) && gen in world.host.gens.published
    requires parent.Some? ==> Started(world.log, parent.value, gen)
    requires next == Entered(world, parent, work, gen, pinned, root)
    ensures LogInv(next)
  {
    hide History, Dated, RunLinks, CallLinks, HoldInv, TaskLinks, Started, Available;
    var event := Began(world.incarnation, world.threads.next, parent, gen);
    AvailableIsPublished(world, gen);
    FreshTask(world);
    ExtendRest(world, next, event);
    ExtendGens(world, next, event);
    ExtendBegun(world.threads.tasks, world.log, world.threads.next, Task(work, world.incarnation, gen, pinned, root, true), parent);
  }

  /** A generation that is not published was removed by force, or no work holds it. */
  lemma UnheldFacts(world: World, number: nat)
    requires world.Up? && LogInv(world) && HoldInv(world) && (forall id :: Holding(world.threads, id) ==> world.threads.tasks[id].gen != number)
    ensures AllReleased(world.log, world.incarnation, number)
  {
    forall task | BeganIn(world.log, world.incarnation, task, number)
      ensures Released(world.incarnation, task) in world.log
    {
      assert !Holding(world.threads, task);
    }
  }

  /** What a caller's pin says of the generation it asks for. */
  lemma CallerFacts(world: World, parent: nat)
    requires world.Up? && LogInv(world) && HoldInv(world) && PinInv(world) && parent in world.threads.tasks
    ensures var gen := world.threads.tasks[parent].gen;
            && Number(Header(world.threads.tasks[parent].pinned)) == gen != 0
            && Started(world.log, parent, gen)
            && (gen !in world.host.gens.published ==>
                  Removed(world.incarnation, gen, true) in world.log || AllReleased(world.log, world.incarnation, gen))
  {
    var gen := world.threads.tasks[parent].gen;
    assert Pinned(world.threads.tasks[parent]);
    assert BeganIn(world.log, world.threads.tasks[parent].born, parent, gen);
    if gen !in world.host.gens.published && gen !in world.threads.forced {
      forall id | Holding(world.threads, id)
        ensures world.threads.tasks[id].gen != gen
      {
        assert Stands(world, world.threads.tasks[id]);
      }
      UnheldFacts(world, gen);
    }
  }

  lemma DispatchingLinks(world: World, parent: nat, next: World)
    requires world.Up? && LogInv(world) && HoldInv(world) && PinInv(world) && parent in world.threads.tasks
    requires next == WorkNext(world, Dispatching(parent))
    ensures LogInv(next)
  {
    hide LogInv, HoldInv, PinInv, Started, Available, AllReleased;
    var caller := world.threads.tasks[parent];
    CallerFacts(world, parent);
    if caller.gen in world.host.gens.published {
      EnteredLinks(world, Some(parent), Internal, caller.gen, caller.pinned, caller.root, next);
    } else {
      AvailableIsPublished(world, caller.gen);
      ExtendOther(world, next, DispatchRefused(world.incarnation, parent, caller.gen));
    }
  }

  lemma ReleasingLinks(world: World, task: nat, next: World)
    requires world.Up? && WorkEnabled(world, Releasing(task)) && next == WorkNext(world, Releasing(task))
    requires LogInv(world) && HoldInv(world)
    ensures LogInv(next)
  {
    hide History, Dated, RunLinks, CallLinks, TaskLinks, HoldInv, BeganIn;
    var event := Released(world.incarnation, task);
    ReleaseFacts(world, task);
    ExtendRest(world, next, event);
    ExtendGens(world, next, event);
    ExtendReleased(world.threads.tasks, world.log, task, world.incarnation);
  }

  lemma ReleaseFacts(world: World, task: nat)
    requires world.Up? && LogInv(world) && HoldInv(world) && Holding(world.threads, task)
    ensures exists gen :: BeganIn(world.log, world.incarnation, task, gen)
    ensures Released(world.incarnation, task) !in world.log
  {
    assert Stands(world, world.threads.tasks[task]);
    assert BeganIn(world.log, world.incarnation, task, world.threads.tasks[task].gen);
  }

  lemma ChoosingLinks(world: World, address: string, principal: string, digest: string, runID: string, next: World)
    requires world.Up? && LogInv(world) && HoldInv(world) && Unlocked(world)
    requires next == WorkNext(world, Choosing(address, principal, digest, runID))
    ensures LogInv(next)
  {
    hide LogInv, HoldInv;
    match RunGeneration(world.host, address, principal, digest, runID)
    case Refused =>
    case CurrentGeneration => BeginLinks(world, 0, ToolCall);
    case InGeneration(ref, number) =>
      assert Live(world.host.conv, ref);
      ChosenLinks(world, ref, number, next);
  }

  lemma ChosenLinks(world: World, ref: Ref, number: nat, next: World)
    requires world.Up? && LogInv(world) && HoldInv(world)
    requires Live(world.host.conv, ref) && world.host.conv.runs[ref.key].held && !world.host.conv.runs[ref.key].revoked
    requires world.host.conv.runs[ref.key].number == number
    requires next == Up(world.host, world.threads.(calls := world.threads.calls[world.threads.next := Call(ref, number)], next := world.threads.next + 1),
                        world.incarnation, world.log + [CallChosen(world.incarnation, world.threads.next, ref, number)])
    ensures LogInv(next)
  {
    hide LogInv, HoldInv, WasReserved;
    ChosenFacts(world, ref, number);
    ExtendOther(world, next, CallChosen(world.incarnation, world.threads.next, ref, number));
  }

  lemma ChosenFacts(world: World, ref: Ref, number: nat)
    requires world.Up? && LogInv(world) && HoldInv(world)
    requires Live(world.host.conv, ref) && world.host.conv.runs[ref.key].held && !world.host.conv.runs[ref.key].revoked
    requires world.host.conv.runs[ref.key].number == number
    ensures number != 0 && WasReserved(world.log, world.incarnation, ref, number) && RunRevoked(world.incarnation, ref) !in world.log
  {
    assert RefOf(world.host.conv, ref.key) == ref;
    assert Standing(world.host.gens, world.threads.forced, number);
  }

  /** The world a call that acquired its generation begins its work in. */
  function Executed(world: World, call: nat): World
    requires world.Up? && call in world.threads.calls
  {
    Up(world.host, world.threads.(calls := world.threads.calls - {call}), world.incarnation,
       world.log + [CallExecuted(world.incarnation, call, world.threads.calls[call].ref, world.threads.calls[call].number)])
  }

  /** A chosen call executes exactly when its generation is still published. */
  lemma CallingShape(world: World, call: nat, next: World)
    requires world.Up? && CallLinks(world) && call in world.threads.calls && next == WorkNext(world, Calling(call))
    ensures next ==
            if world.threads.calls[call].number in world.host.gens.published
            then Begin(Executed(world, call), world.threads.calls[call].number, ToolCall)
            else Up(world.host, world.threads.(calls := world.threads.calls - {call}), world.incarnation, world.log)
  {
  }

  lemma CallingLinks(world: World, call: nat, next: World)
    requires world.Up? && LogInv(world) && HoldInv(world) && call in world.threads.calls && next == WorkNext(world, Calling(call))
    ensures LogInv(next)
  {
    CallingShape(world, call, next);
    if world.threads.calls[call].number in world.host.gens.published {
      ExecutedLinks(world, call, Executed(world, call));
      ExecutedHolds(world, call, Executed(world, call));
      BeginLinks(Executed(world, call), world.threads.calls[call].number, ToolCall);
    } else {
      QuietLinks(world, next);
    }
  }

  lemma ExecutedLinks(world: World, call: nat, executed: World)
    requires world.Up? && LogInv(world) && HoldInv(world) && call in world.threads.calls && world.threads.calls[call].number in world.host.gens.published
    requires executed == Executed(world, call)
    ensures LogInv(executed)
  {
    hide LogInv, HoldInv, Available, WasReserved;
    var chosen := world.threads.calls[call];
    AvailableIsPublished(world, chosen.number);
    CallFacts(world, call);
    ExtendOther(world, executed, CallExecuted(world.incarnation, call, chosen.ref, chosen.number));
  }

  lemma CallFacts(world: World, call: nat)
    requires world.Up? && LogInv(world) && call in world.threads.calls
    ensures var chosen := world.threads.calls[call];
            WasReserved(world.log, world.incarnation, chosen.ref, chosen.number) && CallChosen(world.incarnation, call, chosen.ref, chosen.number) in world.log
  {
  }

  lemma ExecutedHolds(world: World, call: nat, executed: World)
    requires world.Up? && HoldInv(world) && executed.Up? && executed.host == world.host && executed.incarnation == world.incarnation
    requires executed.threads == world.threads.(calls := world.threads.calls - {call})
    ensures HoldInv(executed)
  {
  }

  lemma NumberedOf(world: World)
    requires world.Up? && HoldInv(world)
    ensures Numbered(world.host.gens)
  {
  }

  lemma PublishedLinks(config: Config, world: World, number: nat, revision: string, generation: Generation, next: World)
    requires world.Up? && LogInv(world) && HoldInv(world) && Publishable(config, world.host.gens, number, revision, generation)
    requires next == GenNext(config, world, Publishing(number, revision, generation))
    ensures LogInv(next)
  {
    hide History, Dated, RunLinks, CallLinks, TaskLinks, HoldInv;
    var event := Published(world.incarnation, number);
    NumberedOf(world);
    ExtendRest(world, next, event);
    ExtendTasks(world.threads.tasks, world.log, event);
    forall n
      ensures Published(next.incarnation, n) in next.log <==> Published(world.incarnation, n) in world.log || n == number
      ensures WasRemoved(next.log, next.incarnation, n) <==> WasRemoved(world.log, world.incarnation, n)
    {
    }
  }

  lemma RemovedLinks(config: Config, world: World, number: nat, force: bool, next: World)
    requires world.Up? && LogInv(world) && HoldInv(world) && Removable(world.host.gens, number, force)
    requires next == GenNext(config, world, Removing(number, force))
    ensures LogInv(next)
  {
    hide History, Dated, RunLinks, CallLinks, TaskLinks, HoldInv;
    var event := Removed(world.incarnation, number, force);
    AvailableIsPublished(world, number);
    if !force {
      UnforcedKeepsHeld(world, number);
      UnheldFacts(world, number);
    }
    ExtendRest(world, next, event);
    ExtendTasks(world.threads.tasks, world.log, event);
    forall n
      ensures Published(next.incarnation, n) in next.log <==> Published(world.incarnation, n) in world.log
      ensures WasRemoved(next.log, next.incarnation, n) <==> WasRemoved(world.log, world.incarnation, n) || n == number
    {
    }
  }

  lemma GenLinked(config: Config, world: World, step: GenStep, next: World)
    requires world.Up? && LogInv(world) && HoldInv(world) && next == GenNext(config, world, step)
    ensures LogInv(next)
  {
    match step
    case Publishing(number, revision, generation) =>
      if Publishable(config, world.host.gens, number, revision, generation) {
        PublishedLinks(config, world, number, revision, generation, next);
      }
    case Removing(number, force) =>
      if Removable(world.host.gens, number, force) {
        RemovedLinks(config, world, number, force, next);
      }
  }

  lemma WorkLinks(world: World, step: WorkStep, next: World)
    requires world.Up? && LogInv(world) && HoldInv(world) && PinInv(world) && WorkEnabled(world, step) && next == WorkNext(world, step)
    ensures LogInv(next)
  {
    match step
    case Arriving => BeginLinks(world, 0, Ingress);
    case Admitting(instance, number) => EnteredLinks(world, None, Admission, number, number, number, next);
    case Dispatching(parent) => DispatchingLinks(world, parent, next);
    case Releasing(task) => ReleasingLinks(world, task, next);
    case Choosing(address, principal, digest, runID) => ChoosingLinks(world, address, principal, digest, runID, next);
    case Calling(call) => CallingLinks(world, call, next);
  }

  lemma OpeningLinks(config: Config, world: World, io: Io, compaction: Io, next: World)
    requires config.codec.Faithful() && LogInv(world) && HoldInv(world) && world.Down?
    requires next == Up(Open(config, world.disk, io, compaction), world.threads, world.incarnation + 1, world.log)
    ensures LogInv(next)
  {
    OpenFresh(config, world.disk, io, compaction);
    forall id | id in next.threads.tasks
      ensures next.threads.tasks[id].born != next.incarnation
    {
      assert Leftover(world, id);
    }
  }

  /** A stopped host leaves its work as the log tells it. */
  lemma StoppedLinks(world: World, next: World)
    requires LogInv(world) && next.Down? && next.log == world.log && next.incarnation == world.incarnation
    requires next.threads == world.threads || next.threads == Orphaned(world.threads)
    ensures LogInv(next)
  {
  }

  /** A step that only touches streams, passes or calls. */
  lemma QuietLinks(world: World, next: World)
    requires world.Up? && next.Up? && LogInv(world)
    requires next.log == world.log && next.incarnation == world.incarnation
    requires next.host.conv.runs == world.host.conv.runs && next.host.conv.sequence == world.host.conv.sequence
    requires SameGenerations(world.host.gens, next.host.gens) && next.threads.calls.Keys <= world.threads.calls.Keys
    requires forall call :: call in next.threads.calls ==> next.threads.calls[call] == world.threads.calls[call]
    requires next.threads.forced == world.threads.forced && next.threads.tasks == world.threads.tasks
    ensures LogInv(next)
  {
  }

  lemma LogStep(config: Config, world: World, step: Step, next: World)
    requires config.codec.Faithful() && Moves(config, world, step, next)
    requires LogInv(world) && HoldInv(world) && PinInv(world) && StreamInv(world)
    ensures LogInv(next)
  {
    match step
    case OnGens(gen) => GenLinked(config, world, gen, next);
    case OnWork(work) => WorkLinks(world, work, next);
    case OnStreams(stream) =>
      StreamFrame(world, stream, next);
      QuietLinks(world, next);
    case Running(op, env, task) => RunningLinks(config, world, op, env, task, next);
    case Opening(io, compaction) => OpeningLinks(config, world, io, compaction, next);
    case Crashing(disk) => StoppedLinks(world, next);
    case CrashingAgain(disk) => StoppedLinks(world, next);
  }
}
