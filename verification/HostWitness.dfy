/** Concrete executions: one in which a tool call of a revoked run executes, because it
chose its generation before the revocation and acquired it afterwards, and one in which
an internal call is refused although nothing was forced, because its caller goes on
after its hold has ended. */
module HostWitness {
  import opened Options
  import opened Journal
  import opened Runs
  import opened RunJournal
  import opened HostSystem
  import opened HostHolds
  import opened HostHistory
  import opened HostTheorems

  const NAME: string := ConversationKey("assistant", "principal", "digest")
  const KEY: string := RunKey(NAME, "run")
  const REF: Ref := Ref(KEY, 1)
  const CALM: Env := Env(Done, Done, Done, Done)

  /** A generation with an instance of every required process. */
  function Manifest(config: Config): Generation {
    Generation(map process | process in config.required :: "instance", map[])
  }

  function Gens(config: Config, inFlight: int): Generations {
    Generations(map[1 := Manifest(config)], 1, {}, map[1 := inFlight])
  }

  function TheRun(state: RunState, held: bool, revoked: bool): Run {
    Run(NAME, "run", 1, held, state, 1, revoked)
  }

  const EMPTY_CONV: Conversations := Conversations(map[], [], 0, map[], map[], Log(true, Disk(None, false), 0, false))

  const TASKS: map<nat, Task> := map[0 := Task(Ingress, 1, 1, 1, 1, true)]
  const RESERVED: seq<Event> := [Published(1, 1), Began(1, 0, None, 1), RunReserved(1, REF, 1)]

  const WORLD1: World := Up(Host(NO_GENERATIONS, EMPTY_CONV), IDLE, 1, [])

  function World2(config: Config): World { Up(Host(Gens(config, 0), EMPTY_CONV), IDLE, 1, RESERVED[..1]) }
  function World3(config: Config): World { Up(Host(Gens(config, 1), EMPTY_CONV), IDLE.(tasks := TASKS, next := 1), 1, RESERVED[..2]) }
  function World4(config: Config): World {
    Up(Do(config, World3(config).host, ReserveOp(NAME, "run", 1), CALM), IDLE.(tasks := TASKS, next := 1), 1, RESERVED)
  }

  lemma Opened1(config: Config)
    ensures Enabled(config, INITIAL, Opening(Done, Done)) && Next(config, INITIAL, Opening(Done, Done)) == WORLD1
  {
    var disk := Disk(None, false);
    var apply := Replayer(config.codec);
    assert Records(disk) == [];
    assert Reached(disk, NO_RUNS, apply) == NO_RUNS && Replayed(disk, NO_RUNS, apply) == Some(NO_RUNS);
    assert Opened(disk, NO_RUNS, apply, Done) == Log(true, disk, 0, false);
  }

  lemma Published2(config: Config)
    ensures var step := OnGens(Publishing(1, config.contract, Manifest(config)));
            Enabled(config, WORLD1, step) && Next(config, WORLD1, step) == World2(config)
  {
    assert config.required <= Manifest(config).instances.Keys;
    assert NO_GENERATIONS.published[1 := Manifest(config)] == map[1 := Manifest(config)];
    assert NO_GENERATIONS.inFlight[1 := 0] == map[1 := 0];
    assert RESERVED[..1] == [Published(1, 1)];
  }

  lemma Arrived3(config: Config)
    ensures Enabled(config, World2(config), OnWork(Arriving)) && Next(config, World2(config), OnWork(Arriving)) == World3(config)
  {
    assert Bump(map[1 := 0], 1, 1) == map[1 := 1];
    assert IDLE.tasks[0 := Task(Ingress, 1, 1, 1, 1, true)] == TASKS;
    assert RESERVED[..2] == RESERVED[..1] + [Began(1, 0, None, 1)];
  }

  lemma Reserved4(config: Config)
    requires config.limit > 0
    ensures var step := Running(ReserveOp(NAME, "run", 1), CALM, 0);
            Enabled(config, World3(config), step) && Next(config, World3(config), step) == World4(config)
    ensures var host := World4(config).host;
            && host.gens == Gens(config, 2) && host.conv.runs == map[KEY := TheRun(Pending, true, false)]
            && host.conv.sequence == 1 && host.conv.latest == map[] && !host.conv.log.poisoned && host.conv.log.enabled
  {
    var world := World3(config);
    assert Room(config, world.host, CALM) == world.host;
    assert Bump(map[1 := 1], 1, 1) == map[1 := 2];
    assert RESERVED == RESERVED[..2] + [RunReserved(1, REF, 1)];
  }

  /** A world with the one run, in the published generation. */
  predicate Poised(config: Config, world: World, run: Run, calls: map<nat, Call>, next: nat, log: seq<Event>) {
    && world.Up? && world.incarnation == 1 && world.threads == IDLE.(tasks := TASKS, calls := calls, next := next) && world.log == log
    && world.host.gens.published == map[1 := Manifest(config)] && world.host.gens.retired == {}
    && world.host.conv.runs == map[KEY := run] && world.host.conv.latest == map[] && !world.host.conv.log.poisoned
  }

  const CHOSEN: seq<Event> := RESERVED + [CallChosen(1, 1, REF, 1)]
  const REVOKED: seq<Event> := CHOSEN + [RunRevoked(1, REF)]
  const EXECUTED: seq<Event> := REVOKED + [CallExecuted(1, 1, REF, 1), Began(1, 2, None, 1)]

  /** The helper's answer is lost. */
  lemma Lost5(config: Config, world: World) returns (step: Step, next: World)
    requires Poised(config, world, TheRun(Pending, true, false), map[], 1, RESERVED)
    ensures Moves(config, world, step, next) && Poised(config, next, TheRun(Unknown, true, false), map[], 1, RESERVED)
  {
    step := Running(FinishOp(REF, OutcomeUnknown), CALM, 0);
    next := Next(config, world, step);
  }

  /** A tool call chooses its generation. */
  lemma Chosen6(config: Config, world: World) returns (step: Step, next: World)
    requires Poised(config, world, TheRun(Unknown, true, false), map[], 1, RESERVED)
    ensures Moves(config, world, step, next) && Poised(config, next, TheRun(Unknown, true, false), map[1 := Call(REF, 1)], 2, CHOSEN)
  {
    step := OnWork(Choosing("assistant", "principal", "digest", "run"));
    assert RunGeneration(world.host, "assistant", "principal", "digest", "run") == InGeneration(REF, 1);
    next := Next(config, world, step);
  }

  /** The run expires, whether or not its revocation can be committed. */
  lemma Revoked7(config: Config, world: World) returns (step: Step, next: World)
    requires Poised(config, world, TheRun(Unknown, true, false), map[1 := Call(REF, 1)], 2, CHOSEN)
    ensures Moves(config, world, step, next) && Poised(config, next, TheRun(Unknown, false, true), map[1 := Call(REF, 1)], 2, REVOKED)
  {
    step := Running(ExpireOp(REF), CALM, 0);
    assert Expirable(world.host.conv, REF);
    next := Next(config, world, step);
  }

  /** The call acquires its generation and runs. */
  lemma Executed8(config: Config, world: World) returns (step: Step, next: World)
    requires Poised(config, world, TheRun(Unknown, false, true), map[1 := Call(REF, 1)], 2, REVOKED)
    ensures Moves(config, world, step, next) && next.log == EXECUTED
  {
    step := OnWork(Calling(1));
    next := Next(config, world, step);
  }

  /** From a pending run to a revoked one that executes. */
  lemma Tail(config: Config, world: World) returns (worlds: seq<World>, steps: seq<Step>)
    requires Poised(config, world, TheRun(Pending, true, false), map[], 1, RESERVED)
    ensures Follows(config, worlds, steps) && worlds[0] == world && worlds[|worlds| - 1].log == EXECUTED
  {
    hide Moves, Holding;
    var lose, lost := Lost5(config, world);
    var choose, chosen := Chosen6(config, lost);
    var expire, expired := Revoked7(config, chosen);
    var call, executed := Executed8(config, expired);
    worlds, steps := [world, lost, chosen, expired, executed], [lose, choose, expire, call];
  }

  lemma Join(config: Config, a: seq<World>, p: seq<Step>, b: seq<World>, q: seq<Step>)
    requires Follows(config, a, p) && Follows(config, b, q) && a[|a| - 1] == b[0]
    ensures Follows(config, a + b[1..], p + q)
  {
    var worlds, steps := a + b[1..], p + q;
    forall i, j | 0 <= i < |steps| && j == i + 1
      ensures Moves(config, worlds[i], steps[i], worlds[j])
    {
      if i < |p| {
        assert Moves(config, a[i], p[i], a[j]);
      } else {
        assert Moves(config, b[i - |p|], q[i - |p|], b[j - |p|]);
      }
    }
  }

  /** "A run once revoked never executes again" fails: for every configuration
      there is an execution that executes a run after its revocation. */
  lemma RevokedRunExecutes(config: Config) returns (worlds: seq<World>, steps: seq<Step>)
    requires config.limit > 0
    ensures Execution(config, worlds, steps)
    ensures var log := worlds[|worlds| - 1].log;
            |log| > 5 && log[4] == RunRevoked(1, REF) && log[5] == CallExecuted(1, 1, REF, 1)
  {
    Opened1(config);
    Published2(config);
    Arrived3(config);
    Reserved4(config);
    var a := [INITIAL, WORLD1, World2(config), World3(config), World4(config)];
    var p := [Opening(Done, Done), OnGens(Publishing(1, config.contract, Manifest(config))), OnWork(Arriving), Running(ReserveOp(NAME, "run", 1), CALM, 0)];
    assert Follows(config, a, p);
    assert Poised(config, World4(config), TheRun(Pending, true, false), map[], 1, RESERVED);
    var b, q := Tail(config, World4(config));
    Join(config, a, p, b, q);
    worlds, steps := a + b[1..], p + q;
    assert worlds[|worlds| - 1] == b[|b| - 1];
  }

  // ----- a call refused without force -----

  const RELEASED: map<nat, Task> := map[0 := Task(Ingress, 1, 1, 1, 1, false)]

  /** A world whose one request is over for the host, and goes on in its process. */
  predicate Forsaken(config: Config, world: World, published: map<nat, Generation>, current: nat, log: seq<Event>) {
    && world.Up? && world.incarnation == 1 && world.threads.tasks == RELEASED && world.threads.attaching.None? && world.log == log
    && world.host.gens.published == published && world.host.gens.current == current
    && 1 in world.host.gens.inFlight && world.host.gens.inFlight[1] == 0
  }

  const OVER: seq<Event> := [Published(1, 1), Began(1, 0, None, 1), Released(1, 0)]
  const REPLACED: seq<Event> := OVER + [Published(1, 2)]
  const RETIRED: seq<Event> := REPLACED + [Removed(1, 1, false)]

  /** The client disconnects: the proxied request returns and its hold ends. */
  lemma Over4(config: Config) returns (step: Step, next: World)
    ensures Moves(config, World3(config), step, next) && Forsaken(config, next, map[1 := Manifest(config)], 1, OVER)
  {
    var world := World3(config);
    step := OnWork(Releasing(0));
    next := Next(config, world, step);
    assert OVER == RESERVED[..2] + [Released(1, 0)];
    assert TASKS[0 := Task(Ingress, 1, 1, 1, 1, false)] == RELEASED;
  }

  lemma Replaced5(config: Config, world: World) returns (step: Step, next: World)
    requires Forsaken(config, world, map[1 := Manifest(config)], 1, OVER)
    ensures Moves(config, world, step, next) && Forsaken(config, next, map[1 := Manifest(config), 2 := Manifest(config)], 2, REPLACED)
  {
    step := OnGens(Publishing(2, config.contract, Manifest(config)));
    assert config.required <= Manifest(config).instances.Keys;
    next := Next(config, world, step);
    assert map[1 := Manifest(config)][2 := Manifest(config)] == map[1 := Manifest(config), 2 := Manifest(config)];
  }

  lemma Retired6(config: Config, world: World) returns (step: Step, next: World)
    requires Forsaken(config, world, map[1 := Manifest(config), 2 := Manifest(config)], 2, REPLACED)
    ensures Moves(config, world, step, next) && Forsaken(config, next, map[2 := Manifest(config)], 2, RETIRED)
  {
    step := OnGens(Removing(1, false));
    next := Next(config, world, step);
    assert map[1 := Manifest(config), 2 := Manifest(config)] - {1} == map[2 := Manifest(config)];
  }

  lemma Refused7(config: Config, world: World) returns (step: Step, next: World)
    requires Forsaken(config, world, map[2 := Manifest(config)], 2, RETIRED)
    ensures Moves(config, world, step, next) && next.log == RETIRED + [DispatchRefused(1, 0, 1)]
  {
    step := OnWork(Dispatching(0));
    next := Next(config, world, step);
  }

  lemma Refusal(config: Config) returns (worlds: seq<World>, steps: seq<Step>)
    ensures Follows(config, worlds, steps) && worlds[0] == World3(config) && worlds[|worlds| - 1].log == RETIRED + [DispatchRefused(1, 0, 1)]
  {
    hide Moves, Forsaken;
    var release, over := Over4(config);
    var publish, replaced := Replaced5(config, over);
    var retire, retired := Retired6(config, replaced);
    var dispatch, refused := Refused7(config, retired);
    worlds, steps := [World3(config), over, replaced, retired, refused], [release, publish, retire, dispatch];
  }

  /** "A pinned call is refused only after a forced retirement" fails: for every
      configuration there is an execution that refuses one and forces nothing. */
  lemma PinnedCallRefusedWithoutForce(config: Config) returns (worlds: seq<World>, steps: seq<Step>)
    ensures Execution(config, worlds, steps)
    ensures var log := worlds[|worlds| - 1].log;
            DispatchRefused(1, 0, 1) in log && forall incarnation, number :: Removed(incarnation, number, true) !in log
  {
    Opened1(config);
    Published2(config);
    Arrived3(config);
    var a := [INITIAL, WORLD1, World2(config), World3(config)];
    var p := [Opening(Done, Done), OnGens(Publishing(1, config.contract, Manifest(config))), OnWork(Arriving)];
    assert Follows(config, a, p);
    var b, q := Refusal(config);
    Join(config, a, p, b, q);
    worlds, steps := a + b[1..], p + q;
    assert worlds[|worlds| - 1] == b[|b| - 1];
    var log := RETIRED + [DispatchRefused(1, 0, 1)];
    assert log[|RETIRED|] == DispatchRefused(1, 0, 1);
  }
}
