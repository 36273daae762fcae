/** A concrete execution in which a conversation has an accepted run and no latest one: the
latest run ends, and the pointer does not go back to the run before it. */
module HostStranded {
  import opened Options
  import opened Journal
  import opened Runs
  import opened RunJournal
  import opened HostSystem
  import opened HostTheorems
  import opened HostWitness
  import opened HostLatest

  const LATER_KEY: string := RunKey(NAME, "later")
  const LATER: Ref := Ref(LATER_KEY, 2)

  function LaterRun(state: RunState): Run {
    Run(NAME, "later", 1, true, state, 2, false)
  }

  /** A world with the given runs and latest pointers, and one request. */
  predicate Keeps(config: Config, world: World, runs: map<string, Run>, sequence: nat, latest: map<string, Ref>, log: seq<Event>) {
    && world.Up? && world.incarnation == 1 && world.threads == IDLE.(tasks := TASKS, next := 1) && world.log == log
    && world.host.conv.runs == runs && world.host.conv.sequence == sequence && world.host.conv.latest == latest
    && !world.host.conv.log.poisoned && world.host.conv.log.enabled
  }

  lemma KeysDiffer()
    ensures KEY != LATER_KEY
  {
    assert |KEY| == |NAME| + 4 && |LATER_KEY| == |NAME| + 6;
  }

  const FIRST: seq<Event> := RESERVED + [RunAccepted(1, REF)]
  const SECOND: seq<Event> := FIRST + [RunReserved(1, LATER, 1)]
  const THIRD: seq<Event> := SECOND + [RunAccepted(1, LATER)]

  lemma Accepted5(config: Config, world: World) returns (step: Step, next: World)
    requires Keeps(config, world, map[KEY := TheRun(Pending, true, false)], 1, map[], RESERVED)
    ensures Moves(config, world, step, next) && Keeps(config, next, map[KEY := TheRun(Active, true, false)], 1, map[NAME := REF], FIRST)
  {
    step := Running(FinishOp(REF, Accepted), CALM, 0);
    next := Next(config, world, step);
  }

  lemma Reserved6(config: Config, world: World) returns (step: Step, next: World)
    requires config.limit > 1 && Keeps(config, world, map[KEY := TheRun(Active, true, false)], 1, map[NAME := REF], FIRST)
    ensures Moves(config, world, step, next)
    ensures Keeps(config, next, map[KEY := TheRun(Active, true, false), LATER_KEY := LaterRun(Pending)], 2, map[NAME := REF], SECOND)
  {
    KeysDiffer();
    step := Running(ReserveOp(NAME, "later", 1), CALM, 0);
    assert |world.host.conv.runs| == 1;
    assert Room(config, world.host, CALM) == world.host;
    assert NAME != "";
    next := Next(config, world, step);
  }

  lemma Accepted7(config: Config, world: World) returns (step: Step, next: World)
    requires Keeps(config, world, map[KEY := TheRun(Active, true, false), LATER_KEY := LaterRun(Pending)], 2, map[NAME := REF], SECOND)
    ensures Moves(config, world, step, next)
    ensures Keeps(config, next, map[KEY := TheRun(Active, true, false), LATER_KEY := LaterRun(Active)], 2, map[NAME := LATER], THIRD)
  {
    KeysDiffer();
    step := Running(FinishOp(LATER, Accepted), CALM, 0);
    next := Next(config, world, step);
  }

  lemma Ended8(config: Config, world: World) returns (step: Step, next: World)
    requires Keeps(config, world, map[KEY := TheRun(Active, true, false), LATER_KEY := LaterRun(Active)], 2, map[NAME := LATER], THIRD)
    ensures Moves(config, world, step, next) && next.Up? && next.incarnation == 1 && next.log == THIRD
    ensures next.host.conv.runs == map[KEY := TheRun(Active, true, false)] && next.host.conv.latest == map[]
  {
    KeysDiffer();
    step := Running(ObservedOp(LATER, true), CALM, 0);
    EndRuns(config, world.host, LATER, CALM.commit, CALM.compaction);
    next := Next(config, world, step);
    assert map[NAME := LATER] - {NAME} == map[];
  }

  lemma Stranding(config: Config, world: World) returns (worlds: seq<World>, steps: seq<Step>)
    requires config.limit > 1 && Keeps(config, world, map[KEY := TheRun(Pending, true, false)], 1, map[], RESERVED)
    ensures Follows(config, worlds, steps) && worlds[0] == world
    ensures var last := worlds[|worlds| - 1];
            last.Up? && last.incarnation == 1 && last.log == THIRD && last.host.conv.runs == map[KEY := TheRun(Active, true, false)] && last.host.conv.latest == map[]
  {
    hide Moves, Keeps;
    var p, accepted := Accepted5(config, world);
    var q, reserved := Reserved6(config, accepted);
    var r, latest := Accepted7(config, reserved);
    var s, ended := Ended8(config, latest);
    worlds, steps := [world, accepted, reserved, latest, ended], [p, q, r, s];
  }

  /** "The latest run is the highest accepted run that has neither ended nor been revoked"
      fails: for every configuration with room for two runs there is an execution that
      leaves an accepted run in a conversation without a latest one. */
  lemma AcceptedRunIsStranded(config: Config) returns (worlds: seq<World>, steps: seq<Step>)
    requires config.limit > 1
    ensures Execution(config, worlds, steps)
    ensures var last := worlds[|worlds| - 1];
            && last.Up? && Live(last.host.conv, REF) && last.host.conv.runs[KEY].conversation == NAME && Standing(last.log, 1, REF)
            && NAME !in last.host.conv.latest && !Highest(last)
  {
    hide Moves, Standing;
    var a, p := Reserving(config);
    var b, q := Stranding(config, World4(config));
    worlds, steps := JoinOn(config, a, p, b, q);
    StillStands();
  }

  lemma JoinOn(config: Config, a: seq<World>, p: seq<Step>, b: seq<World>, q: seq<Step>) returns (worlds: seq<World>, steps: seq<Step>)
    requires Execution(config, a, p) && Follows(config, b, q) && a[|a| - 1] == b[0]
    ensures Execution(config, worlds, steps) && worlds[|worlds| - 1] == b[|b| - 1]
  {
    Join(config, a, p, b, q);
    worlds, steps := a + b[1..], p + q;
  }

  lemma Reserving(config: Config) returns (worlds: seq<World>, steps: seq<Step>)
    requires config.limit > 0
    ensures Execution(config, worlds, steps) && worlds[|worlds| - 1] == World4(config)
    ensures Keeps(config, World4(config), map[KEY := TheRun(Pending, true, false)], 1, map[], RESERVED)
  {
    Opened1(config);
    Published2(config);
    Arrived3(config);
    Reserved4(config);
    worlds := [INITIAL, WORLD1, World2(config), World3(config), World4(config)];
    steps := [Opening(Done, Done), OnGens(Publishing(1, config.contract, Manifest(config))), OnWork(Arriving), Running(ReserveOp(NAME, "run", 1), CALM, 0)];
  }

  lemma StillStands()
    ensures Standing(THIRD, 1, REF)
  {
    StandingSnoc(RESERVED, RunAccepted(1, REF), 1, REF);
    StandingSnoc(FIRST, RunReserved(1, LATER, 1), 1, REF);
    StandingSnoc(SECOND, RunAccepted(1, LATER), 1, REF);
  }
}
