/** A process host session as one transition system: every critical section of the
two locks, every atomic release, and a crash at any byte are separate steps, in
any interleaving (runtime/process_host.go, process_admission.go,
process_host_conversations.go, process_host_mcp.go, process_link_state.go). Work in a
service process outlives its hold at the host, and the host itself. */
module HostSystem {
  import opened Options
  import opened Journal
  import opened Runs
  import opened RunJournal

  // ----- pins across processes -----

  /** The generation header a linked process sends with an internal call: it is
      set exactly when the call's captured state is pinned. */
  function Header(pinned: nat): Option<nat> {
    if pinned != 0 then Some(pinned) else None
  }

  /** The number the host reads from a header; 0 asks for the current generation. */
  function Number(header: Option<nat>): nat {
    match header
    case None => 0
    case Some(number) => number
  }

  datatype Work = Ingress | Internal | ToolCall | Admission

  /** Work begun: the incarnation that began it, the generation it was given, the
      generation its process state carries, the generation pinned at the root of its
      calls, and whether it still holds its generation at the host. A process goes on
      after its hold ends, and keeps its pin. */
  datatype Task = Task(work: Work, born: nat, gen: nat, pinned: nat, root: nat, held: bool)

  /** A tool call between choosing its generation and acquiring it. */
  datatype Call = Call(ref: Ref, number: nat)

  /** An event stream between the two halves of its attachment, which holds the
      conversations lock. */
  datatype Attaching = Attaching(id: nat, conversation: string, attested: nat)

  datatype Event =
    | RunReserved(incarnation: nat, ref: Ref, number: nat)
    | RunAccepted(incarnation: nat, ref: Ref)
    | RunRevoked(incarnation: nat, ref: Ref)
    | CallChosen(incarnation: nat, call: nat, ref: Ref, number: nat)
    | CallExecuted(incarnation: nat, call: nat, ref: Ref, number: nat)
    | Published(incarnation: nat, number: nat)
    | Removed(incarnation: nat, number: nat, force: bool)
    | Began(incarnation: nat, task: nat, parent: Option<nat>, gen: nat)
    | Released(incarnation: nat, task: nat)
    | DispatchRefused(incarnation: nat, caller: nat, number: nat)

  /** `passes` are the removed generations whose retirement has not ended its
      streams yet, `forced` those removed by force. */
  datatype Threads = Threads(
    tasks: map<nat, Task>, calls: map<nat, Call>, attaching: Option<Attaching>,
    passes: set<nat>, forced: set<nat>, next: nat)

  datatype World =
    | Up(host: Host, threads: Threads, incarnation: nat, log: seq<Event>)
    | Down(disk: Disk, threads: Threads, incarnation: nat, log: seq<Event>)

  /** A step under the generations lock. */
  datatype GenStep = Publishing(number: nat, revision: string, generation: Generation) | Removing(number: nat, force: bool)

  /** A step of work: it begins, calls on, and ends. */
  datatype WorkStep =
    | Arriving
    | Admitting(instance: string, number: nat)
    | Dispatching(parent: nat)
    | Releasing(task: nat)
    | Choosing(address: string, principal: string, digest: string, runID: string)
    | Calling(call: nat)

  /** A step of an event stream, or of a retirement that ends streams. */
  datatype StreamStep =
    | Passing(number: nat)
    | Attesting(task: nat, conversation: string)
    | Registering
    | EndingStream(id: nat)
    | Detaching(id: nat)

  datatype Step =
    | OnGens(gen: GenStep)
    | OnWork(work: WorkStep)
    | OnStreams(stream: StreamStep)
    | Running(op: Op, env: Env, task: nat)
    | Crashing(disk: Disk)
    | CrashingAgain(disk: Disk)
    | Opening(io: Io, compaction: Io)

  const IDLE: Threads := Threads(map[], map[], None, {}, {}, 0)

  function Start(threads: Threads, task: Task): Threads {
    threads.(tasks := threads.tasks[threads.next := task], next := threads.next + 1)
  }

  /** What of the threads a stopped host leaves: the work in the service processes,
      without a hold. */
  function Orphaned(threads: Threads): Threads {
    IDLE.(tasks := map id | id in threads.tasks :: threads.tasks[id].(held := false), next := threads.next)
  }

  predicate Holding(threads: Threads, task: nat) {
    task in threads.tasks && threads.tasks[task].held
  }

  ghost predicate WorkEnabled(world: World, step: WorkStep)
    requires world.Up?
  {
    match step
    case Arriving => true
    case Admitting(instance, number) => IsAdmitted(world.host.gens, instance, number)
    case Dispatching(parent) => parent in world.threads.tasks
    case Releasing(task) => Holding(world.threads, task)
    case Choosing(_, _, _, _) => Unlocked(world)
    case Calling(call) => call in world.threads.calls
  }

  predicate StreamEnabled(world: World, step: StreamStep)
    requires world.Up?
  {
    match step
    case Passing(number) => Unlocked(world) && number in world.threads.passes
    case Attesting(task, _) => Unlocked(world) && Holding(world.threads, task)
    case Registering => world.threads.attaching.Some?
    case EndingStream(_) => Unlocked(world)
    case Detaching(_) => Unlocked(world)
  }

  predicate RunEnabled(world: World, op: Op, task: nat)
    requires world.Up?
  {
    && Unlocked(world)
    && (op.ReserveOp? ==>
          && Holding(world.threads, task) && world.threads.tasks[task].work == Ingress
          && op.number == world.threads.tasks[task].gen && op.conversation != "" && op.runID != "")
  }

  /** When a step can happen. */
  ghost predicate Enabled(config: Config, world: World, step: Step) {
    match step
    case OnGens(_) => world.Up?
    case OnWork(work) => world.Up? && WorkEnabled(world, work)
    case OnStreams(stream) => world.Up? && StreamEnabled(world, stream)
    case Running(op, _, task) => world.Up? && RunEnabled(world, op, task)
    case Crashing(disk) => world.Up? && CrashLeaves(config, world.host, disk)
    case CrashingAgain(disk) => world.Down? && ReopenCrash(config, world.disk, disk)
    case Opening(_, _) => world.Down?
  }

  predicate Unlocked(world: World)
    requires world.Up?
  {
    world.threads.attaching.None?
  }

  /** What a crash of a running host can leave of its run journal. */
  ghost predicate CrashLeaves(config: Config, host: Host, disk: Disk) {
    || disk == host.conv.log.disk
    || exists op, env, point :: ProperOp(op) && Reaches(config, host, op, env, point) && CrashAt(config, point, disk)
  }

  /** What a crash of a starting host can leave. */
  ghost predicate ReopenCrash(config: Config, before: Disk, after: Disk) {
    || OpenCrash(before, after)
    || exists io :: RewriteCrash(Opened(before, NO_RUNS, Replayer(config.codec), io), CompactedRoster(config, before), after)
  }

  function CompactedRoster(config: Config, disk: Disk): seq<seq<Byte>> {
    var roster := Reached(disk, NO_RUNS, Replayer(config.codec));
    if forall key :: key in roster.order ==> key in roster.runs
    then config.codec.EncodeAll(CompactRecords(roster.runs, roster.order)) else []
  }

  function GenNext(config: Config, world: World, step: GenStep): World
    requires world.Up?
  {
    match step
    case Publishing(number, revision, generation) =>
      if !Publishable(config, world.host.gens, number, revision, generation) then world
      else
        Up(world.host.(gens := Publish(config, world.host.gens, number, revision, generation)), world.threads, world.incarnation,
           world.log + [Published(world.incarnation, number)])
    case Removing(number, force) =>
      if !Removable(world.host.gens, number, force) then world
      else
        Up(world.host.(gens := Remove(world.host.gens, number, force)),
           world.threads.(passes := world.threads.passes + {number}, forced := if force then world.threads.forced + {number} else world.threads.forced),
           world.incarnation, world.log + [Removed(world.incarnation, number, force)])
  }

  function WorkNext(world: World, step: WorkStep): World
    requires world.Up? && WorkEnabled(world, step)
  {
    match step
    case Arriving => Begin(world, 0, Ingress)
    case Admitting(instance, number) => Entered(world, None, Admission, number, number, number)
    case Dispatching(parent) =>
      var caller := world.threads.tasks[parent];
      var number := Number(Header(caller.pinned));
      (match Acquired(world.host.gens, number)
       case None => Up(world.host, world.threads, world.incarnation, world.log + [DispatchRefused(world.incarnation, parent, number)])
       case Some(chosen) => Entered(world, Some(parent), Internal, chosen, caller.pinned, caller.root))
    case Releasing(task) =>
      Up(world.host.(gens := Release(world.host.gens, world.threads.tasks[task].gen)),
         world.threads.(tasks := world.threads.tasks[task := world.threads.tasks[task].(held := false)]),
         world.incarnation, world.log + [Released(world.incarnation, task)])
    case Choosing(address, principal, digest, runID) =>
      (match RunGeneration(world.host, address, principal, digest, runID)
       case Refused => world
       case CurrentGeneration => Begin(world, 0, ToolCall)
       case InGeneration(ref, number) =>
         Up(world.host,
            world.threads.(calls := world.threads.calls[world.threads.next := Call(ref, number)], next := world.threads.next + 1),
            world.incarnation, world.log + [CallChosen(world.incarnation, world.threads.next, ref, number)]))
    case Calling(call) =>
      var chosen := world.threads.calls[call];
      var threads := world.threads.(calls := world.threads.calls - {call});
      (match Acquired(world.host.gens, chosen.number)
       case None => Up(world.host, threads, world.incarnation, world.log)
       case Some(gen) =>
         Begin(Up(world.host, threads, world.incarnation, world.log + [CallExecuted(world.incarnation, call, chosen.ref, gen)]), chosen.number, ToolCall))
  }

  function StreamNext(world: World, step: StreamStep): World
    requires world.Up? && StreamEnabled(world, step)
  {
    match step
    case Passing(number) =>
      Up(world.host.(conv := RetiredPass(world.host.conv, number)), world.threads.(passes := world.threads.passes - {number}), world.incarnation, world.log)
    case Attesting(task, conversation) =>
      Up(world.host,
         world.threads.(attaching := Some(Attaching(world.threads.next, conversation, Attested(world.host, conversation, world.threads.tasks[task].gen))),
                        next := world.threads.next + 1),
         world.incarnation, world.log)
    case Registering =>
      var stream := world.threads.attaching.value;
      Up(Attach(world.host, stream.id, stream.conversation, stream.attested), world.threads.(attaching := None), world.incarnation, world.log)
    case EndingStream(id) => Up(world.host.(conv := EndStream(world.host.conv, id)), world.threads, world.incarnation, world.log)
    case Detaching(id) => Up(world.host.(conv := Detach(world.host.conv, id)), world.threads, world.incarnation, world.log)
  }

  function Next(config: Config, world: World, step: Step): World
    requires Enabled(config, world, step)
  {
    match step
    case OnGens(gen) => GenNext(config, world, gen)
    case OnWork(work) => WorkNext(world, work)
    case OnStreams(stream) => StreamNext(world, stream)
    case Running(op, env, _) =>
      Up(Do(config, world.host, op, env), world.threads, world.incarnation, world.log + RunEvents(config, world, op, env))
    case Crashing(disk) => Down(disk, Orphaned(world.threads), world.incarnation, world.log)
    case CrashingAgain(disk) => Down(disk, world.threads, world.incarnation, world.log)
    case Opening(io, compaction) => Up(Open(config, world.disk, io, compaction), world.threads, world.incarnation + 1, world.log)
  }

  /** Work that holds the generation it was given. */
  function Entered(world: World, parent: Option<nat>, work: Work, gen: nat, pinned: nat, root: nat): World
    requires world.Up?
  {
    Up(world.host.(gens := Hold(world.host.gens, gen)), Start(world.threads, Task(work, world.incarnation, gen, pinned, root, true)), world.incarnation,
       world.log + [Began(world.incarnation, world.threads.next, parent, gen)])
  }

  /** Work that acquires a generation and is told its number. */
  function Begin(world: World, number: nat, work: Work): World
    requires world.Up?
  {
    match Acquired(world.host.gens, number)
    case None => world
    case Some(chosen) => Entered(world, None, work, chosen, Number(Header(chosen)), chosen)
  }

  function RunEvents(config: Config, world: World, op: Op, env: Env): seq<Event>
    requires world.Up?
  {
    match op
    case ReserveOp(conversation, runID, number) =>
      if Reserved(config, world.host, conversation, runID, env)
      then [RunReserved(world.incarnation, Ref(RunKey(conversation, runID), world.host.conv.sequence + 1), number)] else []
    case ExpireOp(ref) => if Expirable(world.host.conv, ref) then [RunRevoked(world.incarnation, ref)] else []
    case FinishOp(ref, outcome) => if Live(world.host.conv, ref) && outcome == Accepted then [RunAccepted(world.incarnation, ref)] else []
    case ObservedOp(ref, terminal) => if Expirable(world.host.conv, ref) && !terminal then [RunAccepted(world.incarnation, ref)] else []
  }

  const INITIAL: World := Down(Disk(None, false), IDLE, 0, [])

  /** A step takes one world to the next. */
  ghost predicate Moves(config: Config, world: World, step: Step, next: World) {
    Enabled(config, world, step) && next == Next(config, world, step)
  }

  /** Worlds that follow one another. */
  ghost predicate Follows(config: Config, worlds: seq<World>, steps: seq<Step>) {
    && |worlds| == |steps| + 1
    && forall i, j :: 0 <= i < |steps| && j == i + 1 ==> Moves(config, worlds[i], steps[i], worlds[j])
  }

  /** The worlds a session passes through from its first start on. */
  ghost predicate Execution(config: Config, worlds: seq<World>, steps: seq<Step>) {
    Follows(config, worlds, steps) && worlds[0] == INITIAL
  }

  // ----- what steps leave alone -----

  /** A step of a stream touches streams and who is attaching, nothing else. */
  lemma StreamFrame(world: World, step: StreamStep, next: World)
    requires world.Up? && StreamEnabled(world, step) && next == StreamNext(world, step)
    ensures next.Up? && next.incarnation == world.incarnation && next.log == world.log
    ensures next.host.gens == world.host.gens && next.host.conv == world.host.conv.(streams := next.host.conv.streams)
    ensures next.threads.tasks == world.threads.tasks && next.threads.calls == world.threads.calls
    ensures next.threads.forced == world.threads.forced && next.threads.next >= world.threads.next
  {
  }

  /** A step of work touches the in-flight counts, the work and the calls. */
  lemma WorkFrame(world: World, step: WorkStep, next: World)
    requires world.Up? && WorkEnabled(world, step) && next == WorkNext(world, step)
    ensures next.Up? && next.incarnation == world.incarnation && world.log <= next.log
    ensures next.host.conv == world.host.conv
    ensures next.host.gens == world.host.gens.(inFlight := next.host.gens.inFlight)
    ensures next.host.gens.inFlight.Keys == world.host.gens.inFlight.Keys
    ensures next.threads.passes == world.threads.passes && next.threads.forced == world.threads.forced
    ensures next.threads.attaching == world.threads.attaching && next.threads.next >= world.threads.next
  {
  }

  lemma GenFrame(config: Config, world: World, step: GenStep, next: World)
    requires world.Up? && next == GenNext(config, world, step)
    ensures next.Up? && next.incarnation == world.incarnation && world.log <= next.log
    ensures next.host.conv == world.host.conv
    ensures next.threads == world.threads.(passes := next.threads.passes, forced := next.threads.forced)
    ensures world.host.gens.retired <= next.host.gens.retired && world.host.gens.inFlight.Keys <= next.host.gens.inFlight.Keys
    ensures world.threads.passes <= next.threads.passes && next.host.gens.retired <= world.host.gens.retired + next.threads.passes
  {
  }
}
