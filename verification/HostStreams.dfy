/** Stream attestation: overlapping event streams of a conversation agree with its
latest accepted run while that run can execute, and no stream outlives the
retirement of the generation it attests, in any interleaving of the two locks. */
module HostStreams {
  import opened Options
  import opened Journal
  import opened Runs
  import opened RunJournal
  import opened HostSystem
  import opened HostHolds

  /** Pointers never run ahead of the sequence counter, so a forgotten run's
      pointer never comes alive again. */
  ghost predicate Sequenced(conv: Conversations) {
    && (forall key :: key in conv.runs ==> conv.runs[key].sequence <= conv.sequence)
    && (forall name :: name in conv.latest ==> conv.latest[name].sequence <= conv.sequence)
  }

  /** The generation a conversation's streams must attest, while there is one. */
  function LatestNumber(host: Host, name: string): Option<nat> {
    if name in host.conv.latest && RefDispatchable(host, host.conv.latest[name])
    then Some(host.conv.runs[host.conv.latest[name].key].number) else None
  }

  /** Whenever a conversation's latest accepted run is dispatchable, every
      un-ended stream of the conversation attests that run's generation. */
  ghost predicate Agree(host: Host) {
    forall id :: id in host.conv.streams && !host.conv.streams[id].ended ==>
      Matches(LatestNumber(host, host.conv.streams[id].conversation), host.conv.streams[id].number)
  }

  predicate Matches(expected: Option<nat>, number: nat) {
    expected.Some? ==> expected.value == number
  }

  /** An un-ended stream attests a retired generation only until the retirement's
      pass over the streams. */
  ghost predicate Ending(host: Host, passes: set<nat>) {
    forall id :: id in host.conv.streams && !host.conv.streams[id].ended && host.conv.streams[id].number in host.gens.retired ==>
      host.conv.streams[id].number in passes
  }

  ghost predicate StreamInv(world: World) {
    world.Up? ==>
      && Sequenced(world.host.conv)
      && Agree(world.host)
      && Ending(world.host, world.threads.passes)
      && match world.threads.attaching {
           case None => true
           case Some(stream) => Matches(LatestNumber(world.host, stream.conversation), stream.attested)
         }
  }

  /** No conversation's obligation is new or different. */
  ghost predicate Fewer(before: Host, after: Host) {
    forall name :: LatestNumber(after, name).Some? ==> LatestNumber(after, name) == LatestNumber(before, name)
  }

  lemma FewerTrans(a: Host, b: Host, c: Host)
    requires Fewer(a, b) && Fewer(b, c)
    ensures Fewer(a, c)
  {
  }

  lemma FewerAgree(before: Host, after: Host)
    requires Agree(before) && Fewer(before, after) && after.conv.streams == before.conv.streams
    ensures Agree(after)
  {
  }

  lemma ForgetFewer(host: Host, key: string)
    requires key in host.conv.runs
    ensures var next := Forget(host, key);
            Fewer(host, next) && next.conv.streams == host.conv.streams
    ensures Sequenced(host.conv) ==> Sequenced(Forget(host, key).conv)
  {
    ForgetShape(host, key);
  }

  lemma EndFewer(config: Config, host: Host, ref: Ref, io: Io, compaction: Io)
    ensures var next := End(config, host, ref, io, compaction);
            Fewer(host, next) && next.conv.streams == host.conv.streams && next.conv.sequence == host.conv.sequence
    ensures Sequenced(host.conv) ==> Sequenced(End(config, host, ref, io, compaction).conv)
  {
    if Live(host.conv, ref) {
      var committed := Commit(config, host, EndRecord(host.conv.runs[ref.key]), io);
      ForgetFewer(committed, ref.key);
      ForgetShape(committed, ref.key);
      var ended := Forget(committed, ref.key);
      assert Fewer(host, ended);
      var next := End(config, host, ref, io, compaction);
      assert next.gens == ended.gens && next.conv.latest == ended.conv.latest && next.conv.runs == ended.conv.runs;
    }
  }

  lemma ReserveFewer(config: Config, host: Host, conversation: string, runID: string, number: nat, env: Env)
    requires Sequenced(host.conv)
    ensures var next := Reserve(config, host, conversation, runID, number, env);
            Fewer(host, next) && next.conv.streams == host.conv.streams && Sequenced(next.conv)
  {
    if Admissible(config, host, conversation, runID) {
      StaleFound(host, host.conv.order);
      var stale := Stale(host, host.conv.order);
      var roomy, next := Room(config, host, env), Reserve(config, host, conversation, runID, number, env);
      if |host.conv.runs| >= config.limit && stale.Some? {
        EndFewer(config, host, RefOf(host.conv, stale.value), env.evict, env.evictCompaction);
      }
      assert Fewer(host, roomy) && Sequenced(roomy.conv) && roomy.conv.streams == host.conv.streams;
      InstallFewer(roomy, Commit(config, roomy, StartRecord(NewRun(conversation, runID, number)), env.commit), next,
                   RunKey(conversation, runID), NewRun(conversation, runID, number), number);
      FewerTrans(host, roomy, next);
    }
  }

  lemma InstallFewer(roomy: Host, committed: Host, next: Host, key: string, run: Run, number: nat)
    requires Sequenced(roomy.conv)
    requires committed.gens == roomy.gens && committed.conv == roomy.conv.(log := committed.conv.log)
    requires next == committed || next == Host(Hold(committed.gens, number), Install(committed.conv, key, run))
    ensures Fewer(roomy, next) && next.conv.streams == roomy.conv.streams && Sequenced(next.conv)
  {
  }

  lemma ExpireFewer(config: Config, host: Host, ref: Ref, env: Env)
    ensures var next := Expire(config, host, ref, env);
            Fewer(host, next) && next.conv.streams == host.conv.streams
    ensures Sequenced(host.conv) ==> Sequenced(Expire(config, host, ref, env).conv)
  {
    if Expirable(host.conv, ref) {
      ExpireShape(config, host, ref, env);
    }
  }

  lemma AcceptAgree(host: Host, ref: Ref, state: RunState)
    requires Sequenced(host.conv) && Agree(host) && Live(host.conv, ref)
    ensures var next := host.(conv := Accept(SetState(host.conv, ref.key, state), ref));
            && Agree(next) && Sequenced(next.conv)
            && next.conv.streams.Keys == host.conv.streams.Keys
            && (forall id :: id in next.conv.streams ==> next.conv.streams[id].number == host.conv.streams[id].number)
            && (forall id :: id in next.conv.streams && host.conv.streams[id].ended ==> next.conv.streams[id].ended)
  {
    var middle := host.(conv := SetState(host.conv, ref.key, state));
    assert Fewer(host, middle);
    FewerAgree(host, middle);
  }

  /** What a run operation leaves of the streams. */
  lemma DoStreams(config: Config, host: Host, op: Op, env: Env, passes: set<nat>)
    requires Sequenced(host.conv) && Agree(host) && Ending(host, passes)
    ensures var next := Do(config, host, op, env);
            Sequenced(next.conv) && Agree(next) && Ending(next, passes)
  {
    var next := Do(config, host, op, env);
    match op
    case ReserveOp(conversation, runID, number) =>
      ReserveFewer(config, host, conversation, runID, number, env);
      FewerAgree(host, next);
      DoFramed(config, host, op, env, next);
    case ExpireOp(ref) =>
      ExpireFewer(config, host, ref, env);
      FewerAgree(host, next);
    case FinishOp(ref, outcome) =>
      FinishStreams(config, host, ref, outcome, env, passes);
    case ObservedOp(ref, terminal) =>
      ObservedStreams(config, host, ref, terminal, env, passes);
  }

  lemma FinishStreams(config: Config, host: Host, ref: Ref, outcome: Outcome, env: Env, passes: set<nat>)
    requires Sequenced(host.conv) && Agree(host) && Ending(host, passes)
    ensures var next := Finish(config, host, ref, outcome, env);
            Sequenced(next.conv) && Agree(next) && Ending(next, passes)
  {
    var next := Finish(config, host, ref, outcome, env);
    if Live(host.conv, ref) {
      match outcome
      case Accepted => AcceptAgree(host, ref, Active);
      case OutcomeUnknown =>
        assert Fewer(host, next);
        FewerAgree(host, next);
      case Rejected =>
        EndFewer(config, host, ref, env.commit, env.compaction);
        FewerAgree(host, next);
    }
  }

  lemma ObservedStreams(config: Config, host: Host, ref: Ref, terminal: bool, env: Env, passes: set<nat>)
    requires Sequenced(host.conv) && Agree(host) && Ending(host, passes)
    ensures var next := Observed(config, host, ref, terminal, env);
            Sequenced(next.conv) && Agree(next) && Ending(next, passes)
  {
    var next := Observed(config, host, ref, terminal, env);
    if Live(host.conv, ref) && !host.conv.runs[ref.key].revoked {
      if terminal {
        EndFewer(config, host, ref, env.commit, env.compaction);
        FewerAgree(host, next);
      } else {
        AcceptAgree(host, ref, Active);
      }
    }
  }

  /** A step of the generations lock can only take an obligation away. */
  lemma GensFewer(before: Host, after: Host)
    requires after.conv == before.conv && before.gens.retired <= after.gens.retired
    ensures Fewer(before, after)
  {
  }

  /** A step of work or of the generations leaves every obligation or takes it away. */
  lemma KeptStreams(world: World, next: World)
    requires world.Up? && next.Up? && StreamInv(world) && next.host.conv == world.host.conv
    requires world.host.gens.retired <= next.host.gens.retired
    requires next.threads.attaching == world.threads.attaching && world.threads.passes <= next.threads.passes
    requires next.host.gens.retired <= world.host.gens.retired + next.threads.passes
    ensures StreamInv(next)
  {
    GensFewer(world.host, next.host);
    FewerAgree(world.host, next.host);
  }

  lemma StreamStreams(world: World, step: StreamStep, next: World)
    requires world.Up? && StreamInv(world) && StreamEnabled(world, step) && next == StreamNext(world, step)
    ensures StreamInv(next)
  {
    StreamFrame(world, step, next);
    match step
    case Passing(number) =>
    case Attesting(task, conversation) =>
    case Registering =>
    case EndingStream(id) =>
    case Detaching(id) =>
  }

  lemma RunStreams(config: Config, world: World, op: Op, env: Env, task: nat, next: World)
    requires world.Up? && StreamInv(world) && RunEnabled(world, op, task)
    requires next == Up(Do(config, world.host, op, env), world.threads, world.incarnation, next.log)
    ensures StreamInv(next)
  {
    DoStreams(config, world.host, op, env, world.threads.passes);
  }

  /** Stream attestation, as an invariant of every step. */
  lemma StreamInvStep(config: Config, world: World, step: Step, next: World)
    requires config.codec.Faithful() && StreamInv(world) && HoldInv(world) && Moves(config, world, step, next)
    ensures StreamInv(next)
  {
    match step
    case OnGens(gen) =>
      GenFrame(config, world, gen, next);
      KeptStreams(world, next);
    case OnWork(work) =>
      WorkFrame(world, work, next);
      KeptStreams(world, next);
    case OnStreams(stream) => StreamStreams(world, stream, next);
    case Running(op, env, task) => RunStreams(config, world, op, env, task, next);
    case Opening(io, compaction) => OpenFresh(config, world.disk, io, compaction);
    case Crashing(disk) =>
    case CrashingAgain(disk) =>
  }
}
