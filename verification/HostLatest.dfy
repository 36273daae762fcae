/** A conversation's latest accepted run (runtime/process_host_conversations.go): what the
pointer always tells, and exactly when it is the highest accepted run there is. */
module HostLatest {
  import opened Options
  import opened Journal
  import opened Runs
  import opened RunJournal
  import opened HostSystem
  import opened HostStreams
  import opened HostHistory
  import opened HostTheorems
  import opened HostMeaning

  // ----- what a log says of a run -----

  /** The run was accepted, and not revoked since. */
  predicate Standing(log: seq<Event>, incarnation: nat, ref: Ref) {
    log != [] &&
    var last := log[|log| - 1];
    last == RunAccepted(incarnation, ref) || (last != RunRevoked(incarnation, ref) && Standing(log[..|log| - 1], incarnation, ref))
  }

  lemma StandingSnoc(log: seq<Event>, event: Event, incarnation: nat, ref: Ref)
    ensures Standing(log + [event], incarnation, ref) <==>
            event == RunAccepted(incarnation, ref) || (event != RunRevoked(incarnation, ref) && Standing(log, incarnation, ref))
  {
    assert (log + [event])[..|log|] == log;
  }

  lemma {:induction false} StandingIn(log: seq<Event>, incarnation: nat, ref: Ref)
    requires Standing(log, incarnation, ref)
    ensures RunAccepted(incarnation, ref) in log
  {
    if log[|log| - 1] != RunAccepted(incarnation, ref) {
      StandingIn(log[..|log| - 1], incarnation, ref);
    }
  }

  /** Two logs say the same of every run. */
  ghost predicate SameSaid(a: seq<Event>, b: seq<Event>, incarnation: nat) {
    forall ref :: (Standing(a, incarnation, ref) <==> Standing(b, incarnation, ref)) && (RunAccepted(incarnation, ref) in a <==> RunAccepted(incarnation, ref) in b)
  }

  lemma {:induction false} OtherSaid(log: seq<Event>, suffix: seq<Event>, incarnation: nat)
    requires forall j :: 0 <= j < |suffix| ==> !suffix[j].RunAccepted? && !suffix[j].RunRevoked?
    ensures SameSaid(log, log + suffix, incarnation)
    decreases |suffix|
  {
    if suffix == [] {
      assert log + suffix == log;
    } else {
      var init, last := suffix[..|suffix| - 1], suffix[|suffix| - 1];
      OtherSaid(log, init, incarnation);
      assert log + suffix == (log + init) + [last];
      forall ref
        ensures Standing(log + suffix, incarnation, ref) <==> Standing(log + init, incarnation, ref)
      {
        StandingSnoc(log + init, last, incarnation, ref);
      }
    }
  }

  // ----- the pointer -----

  /** What the latest pointer of a conversation always is: a retained run of it that was
      accepted and not revoked since. */
  ghost predicate Pointed(conv: Conversations, log: seq<Event>, incarnation: nat) {
    && (forall name :: name in conv.latest ==> PointsAt(conv, log, incarnation, name, conv.latest[name]))
    && (forall ref :: RunAccepted(incarnation, ref) in log ==> ref.sequence <= conv.sequence)
  }

  predicate PointsAt(conv: Conversations, log: seq<Event>, incarnation: nat, name: string, ref: Ref) {
    Live(conv, ref) && conv.runs[ref.key].conversation == name && Standing(log, incarnation, ref)
  }

  ghost predicate LatestInv(world: World) {
    world.Up? ==> Pointed(world.host.conv, world.log, world.incarnation)
  }

  /** Every accepted run that is retained and not revoked since is at most its
      conversation's latest. */
  ghost predicate Topped(conv: Conversations, log: seq<Event>, incarnation: nat) {
    forall ref :: Live(conv, ref) && Standing(log, incarnation, ref) ==> Below(conv, ref)
  }

  predicate Below(conv: Conversations, ref: Ref)
    requires Live(conv, ref)
  {
    var name := conv.runs[ref.key].conversation;
    name in conv.latest && ref.sequence <= conv.latest[name].sequence
  }

  /** The latest run of every conversation is its highest accepted run. */
  ghost predicate Highest(world: World) {
    world.Up? ==> Topped(world.host.conv, world.log, world.incarnation)
  }

  // ----- what operations do to it -----

  /** The same runs, and the same latest ones. */
  ghost predicate SameScopes(a: Conversations, b: Conversations) {
    && a.latest == b.latest && a.runs.Keys == b.runs.Keys && a.sequence == b.sequence
    && forall key :: key in a.runs ==> a.runs[key].sequence == b.runs[key].sequence && a.runs[key].conversation == b.runs[key].conversation
  }

  lemma Unmoved(a: Conversations, p: seq<Event>, b: Conversations, q: seq<Event>, incarnation: nat)
    requires SameScopes(a, b) && SameSaid(p, q, incarnation) && Pointed(a, p, incarnation)
    ensures Pointed(b, q, incarnation) && (Topped(a, p, incarnation) <==> Topped(b, q, incarnation))
  {
    hide Standing;
    forall name | name in b.latest
      ensures PointsAt(b, q, incarnation, name, b.latest[name])
    {
      assert PointsAt(a, p, incarnation, name, a.latest[name]);
    }
    forall ref: Ref
      ensures Live(a, ref) <==> Live(b, ref)
      ensures Live(a, ref) ==> (Below(a, ref) <==> Below(b, ref))
    {
    }
  }

  lemma Raised(a: Conversations, p: seq<Event>, b: Conversations, ref: Ref, incarnation: nat)
    requires Live(a, ref) && Accepts(a, b, ref) && Pointed(a, p, incarnation) && a.runs[ref.key].sequence <= a.sequence
    ensures Pointed(b, p + [RunAccepted(incarnation, ref)], incarnation)
    ensures Topped(a, p, incarnation) ==> Topped(b, p + [RunAccepted(incarnation, ref)], incarnation)
  {
    hide Standing;
    var q := p + [RunAccepted(incarnation, ref)];
    forall other
      ensures Standing(q, incarnation, other) <==> other == ref || Standing(p, incarnation, other)
    {
      StandingSnoc(p, RunAccepted(incarnation, ref), incarnation, other);
    }
    forall name | name in b.latest
      ensures PointsAt(b, q, incarnation, name, b.latest[name])
    {
      if b.latest[name] != ref {
        assert PointsAt(a, p, incarnation, name, a.latest[name]);
      }
    }
    if Topped(a, p, incarnation) {
      forall other | Live(b, other) && Standing(q, incarnation, other)
        ensures Below(b, other)
      {
        assert Live(a, other);
        if other != ref {
          assert Below(a, other);
        }
      }
    }
  }

  /** The run is gone, or revoked. */
  ghost predicate TakenAway(a: Conversations, p: seq<Event>, b: Conversations, q: seq<Event>, ref: Ref, incarnation: nat)
    requires Live(a, ref)
  {
    && b.sequence == a.sequence && DropsLatest(a, b, ref)
    && (forall other :: other != ref ==> (Standing(q, incarnation, other) <==> Standing(p, incarnation, other)))
    && (forall other :: RunAccepted(incarnation, other) in q <==> RunAccepted(incarnation, other) in p)
    && (forall other :: other != ref ==> (Live(a, other) <==> Live(b, other)))
    && (forall key :: key in b.runs ==> key in a.runs && b.runs[key].conversation == a.runs[key].conversation)
    && !(Live(b, ref) && Standing(q, incarnation, ref))
  }

  /** Another accepted run of the conversation. */
  predicate Rival(conv: Conversations, log: seq<Event>, incarnation: nat, ref: Ref, other: Ref)
    requires Live(conv, ref)
  {
    other != ref && Live(conv, other) && Standing(log, incarnation, other) && conv.runs[other.key].conversation == conv.runs[ref.key].conversation
  }

  /** The run is its conversation's latest, and another accepted one would be left. */
  ghost predicate Outlived(conv: Conversations, log: seq<Event>, incarnation: nat, ref: Ref)
    requires Live(conv, ref)
  {
    var name := conv.runs[ref.key].conversation;
    name in conv.latest && conv.latest[name] == ref && exists other :: Rival(conv, log, incarnation, ref, other)
  }

  lemma Lowered(a: Conversations, p: seq<Event>, b: Conversations, q: seq<Event>, ref: Ref, incarnation: nat)
    requires Live(a, ref) && TakenAway(a, p, b, q, ref, incarnation) && Pointed(a, p, incarnation)
    ensures Pointed(b, q, incarnation)
    ensures Topped(a, p, incarnation) ==> (Topped(b, q, incarnation) <==> !Outlived(a, p, incarnation, ref))
  {
    hide Standing;
    forall name | name in b.latest
      ensures PointsAt(b, q, incarnation, name, b.latest[name])
    {
      assert PointsAt(a, p, incarnation, name, a.latest[name]);
    }
    if Topped(a, p, incarnation) {
      if Outlived(a, p, incarnation, ref) {
        var other :| Rival(a, p, incarnation, ref, other);
        assert Live(b, other) && Standing(q, incarnation, other) && !Below(b, other);
      } else {
        forall other | Live(b, other) && Standing(q, incarnation, other)
          ensures Below(b, other)
        {
          assert other != ref && Live(a, other) && Below(a, other);
          var name := a.runs[other.key].conversation;
          assert PointsAt(a, p, incarnation, name, a.latest[name]);
          assert a.runs[ref.key].conversation == name ==> Rival(a, p, incarnation, ref, other);
        }
      }
    }
  }

  /** A run installed with the next sequence number was never accepted. */
  lemma Installed(a: Conversations, b: Conversations, log: seq<Event>, key: string, incarnation: nat)
    requires Pointed(a, log, incarnation) && key !in a.runs && key in b.runs && b.runs[key].sequence == a.sequence + 1 == b.sequence
    requires b.latest == a.latest && b.runs.Keys == a.runs.Keys + {key} && forall other :: other in a.runs ==> b.runs[other] == a.runs[other]
    ensures Pointed(b, log, incarnation) && (Topped(a, log, incarnation) <==> Topped(b, log, incarnation))
  {
    hide Standing;
    var ref := Ref(key, a.sequence + 1);
    if Standing(log, incarnation, ref) {
      StandingIn(log, incarnation, ref);
    }
    forall name | name in b.latest
      ensures PointsAt(b, log, incarnation, name, b.latest[name])
    {
      assert PointsAt(a, log, incarnation, name, a.latest[name]);
    }
    forall other: Ref
      ensures Live(b, other) <==> Live(a, other) || other == ref
      ensures Live(a, other) ==> (Below(a, other) <==> Below(b, other))
    {
    }
  }

  // ----- every step -----

  /** The run a step ends or revokes. */
  ghost function Taken(config: Config, world: World, step: Step): Option<Ref>
    requires world.Up?
  {
    var conv := world.host.conv;
    if !step.Running? then None
    else match step.op
      case ReserveOp(conversation, runID, _) =>
        var idle := Stale(world.host, conv.order);
        if RefusesStart(config, world.host, conversation, runID) || |conv.runs| < config.limit || idle.None? || idle.value !in conv.runs then None
        else Some(RefOf(conv, idle.value))
      case FinishOp(ref, outcome) => if Live(conv, ref) && outcome == Rejected then Some(ref) else None
      case ObservedOp(ref, terminal) => if Live(conv, ref) && terminal && !conv.runs[ref.key].revoked then Some(ref) else None
      case ExpireOp(ref) => if Expirable(conv, ref) then Some(ref) else None
  }

  /** The step takes the latest run of a conversation and leaves another accepted one. */
  ghost predicate Strands(config: Config, world: World, step: Step) {
    world.Up? &&
    var taken := Taken(config, world, step);
    taken.Some? && Live(world.host.conv, taken.value) && Outlived(world.host.conv, world.log, world.incarnation, taken.value)
  }

  ghost predicate Moved(world: World, next: World, stranded: bool) {
    world.Up? && next.Up? && next.incarnation == world.incarnation && LatestInv(next) && (Highest(world) ==> (Highest(next) <==> !stranded))
  }

  lemma QuietStep(world: World, next: World, suffix: seq<Event>)
    requires world.Up? && next.Up? && LatestInv(world) && next.incarnation == world.incarnation && next.log == world.log + suffix
    requires SameScopes(world.host.conv, next.host.conv) && forall j :: 0 <= j < |suffix| ==> !suffix[j].RunAccepted? && !suffix[j].RunRevoked?
    ensures Moved(world, next, false)
  {
    OtherSaid(world.log, suffix, world.incarnation);
    Unmoved(world.host.conv, world.log, next.host.conv, next.log, world.incarnation);
  }

  lemma WorkSuffix(world: World, step: WorkStep, next: World) returns (suffix: seq<Event>)
    requires world.Up? && WorkEnabled(world, step) && next == WorkNext(world, step)
    ensures next.log == world.log + suffix && forall j :: 0 <= j < |suffix| ==> !suffix[j].RunAccepted? && !suffix[j].RunRevoked?
  {
    suffix := next.log[|world.log|..];
  }

  lemma GenSuffix(config: Config, world: World, step: GenStep, next: World) returns (suffix: seq<Event>)
    requires world.Up? && next == GenNext(config, world, step)
    ensures next.log == world.log + suffix && forall j :: 0 <= j < |suffix| ==> !suffix[j].RunAccepted? && !suffix[j].RunRevoked?
  {
    suffix := next.log[|world.log|..];
  }

  lemma AcceptStep(world: World, next: World, ref: Ref)
    requires world.Up? && next.Up? && LatestInv(world) && next.incarnation == world.incarnation
    requires Live(world.host.conv, ref) && world.host.conv.runs[ref.key].sequence <= world.host.conv.sequence
    requires Accepts(world.host.conv, next.host.conv, ref) && next.log == world.log + [RunAccepted(world.incarnation, ref)]
    ensures Moved(world, next, false)
  {
    Raised(world.host.conv, world.log, next.host.conv, ref, world.incarnation);
  }

  lemma ForgetStep(world: World, next: World, ref: Ref)
    requires world.Up? && next.Up? && LatestInv(world) && next.incarnation == world.incarnation && next.log == world.log
    requires Live(world.host.conv, ref) && Forgets(world.host.conv, next.host.conv, ref)
    ensures Moved(world, next, Outlived(world.host.conv, world.log, world.incarnation, ref))
  {
    Lowered(world.host.conv, world.log, next.host.conv, next.log, ref, world.incarnation);
  }

  lemma RevokeStep(world: World, next: World, ref: Ref)
    requires world.Up? && next.Up? && LatestInv(world) && next.incarnation == world.incarnation
    requires Live(world.host.conv, ref) && DropsLatest(world.host.conv, next.host.conv, ref) && next.log == world.log + [RunRevoked(world.incarnation, ref)]
    requires next.host.conv.sequence == world.host.conv.sequence
    requires next.host.conv.runs == world.host.conv.runs[ref.key := world.host.conv.runs[ref.key].(revoked := true, held := false)]
    ensures Moved(world, next, Outlived(world.host.conv, world.log, world.incarnation, ref))
  {
    forall other
      ensures Standing(next.log, world.incarnation, other) <==> other != ref && Standing(world.log, world.incarnation, other)
    {
      StandingSnoc(world.log, RunRevoked(world.incarnation, ref), world.incarnation, other);
    }
    Lowered(world.host.conv, world.log, next.host.conv, next.log, ref, world.incarnation);
  }

  lemma FinishStep(config: Config, world: World, ref: Ref, outcome: Outcome, env: Env, task: nat, next: World)
    requires world.Up? && Sequenced(world.host.conv) && LatestInv(world) && Moves(config, world, Running(FinishOp(ref, outcome), env, task), next)
    ensures Moved(world, next, Strands(config, world, Running(FinishOp(ref, outcome), env, task)))
  {
    hide Accept, SetState, End, LatestInv, Highest, Outlived;
    if Live(world.host.conv, ref) {
      match outcome
      case Accepted =>
        AcceptIs(world.host, ref);
        AcceptStep(world, next, ref);
      case OutcomeUnknown =>
        UnknownIs(world.host.conv, ref);
        QuietStep(world, next, []);
      case Rejected =>
        EndIs(config, world.host, ref, env.commit, env.compaction);
        ForgetStep(world, next, ref);
    } else {
      QuietStep(world, next, []);
    }
  }

  lemma ObserveStep(config: Config, world: World, ref: Ref, terminal: bool, env: Env, task: nat, next: World)
    requires world.Up? && Sequenced(world.host.conv) && LatestInv(world) && Moves(config, world, Running(ObservedOp(ref, terminal), env, task), next)
    ensures Moved(world, next, Strands(config, world, Running(ObservedOp(ref, terminal), env, task)))
  {
    hide Accept, SetState, End, LatestInv, Highest, Outlived;
    if !Live(world.host.conv, ref) || world.host.conv.runs[ref.key].revoked || (!terminal && world.host.conv.runs[ref.key].state != Unknown) {
      QuietStep(world, next, []);
    } else if terminal {
      EndIs(config, world.host, ref, env.commit, env.compaction);
      ForgetStep(world, next, ref);
    } else {
      AcceptIs(world.host, ref);
      AcceptStep(world, next, ref);
    }
  }

  lemma ExpireStep(config: Config, world: World, ref: Ref, env: Env, task: nat, next: World)
    requires world.Up? && Sequenced(world.host.conv) && LatestInv(world) && Moves(config, world, Running(ExpireOp(ref), env, task), next)
    ensures Moved(world, next, Strands(config, world, Running(ExpireOp(ref), env, task)))
  {
    hide Expire, LatestInv, Highest, Outlived;
    if Expirable(world.host.conv, ref) {
      ExpireIs(config, world.host, ref, env);
      RevokeStep(world, next, ref);
    } else {
      ExpireNot(config, world.host, ref, env);
      QuietStep(world, next, []);
    }
  }

  lemma ExpireNot(config: Config, host: Host, ref: Ref, env: Env)
    requires !Expirable(host.conv, ref)
    ensures Expire(config, host, ref, env) == host
  {
  }

  lemma OldestOnce(host: Host, a: string, b: string)
    requires OldestIdle(host, a) && OldestIdle(host, b)
    ensures a == b
  {
    var i :| 0 <= i < |host.conv.order| && host.conv.order[i] == a && AllBusy(host, i);
    var j :| 0 <= j < |host.conv.order| && host.conv.order[j] == b && AllBusy(host, j);
  }

  /** What a reservation that evicts a run does before it installs its own. */
  lemma Evicted(config: Config, world: World, after: Conversations, idle: string)
    requires world.Up? && LatestInv(world) && idle in world.host.conv.runs && DropsLatest(world.host.conv, after, RefOf(world.host.conv, idle))
    ensures var conv := world.host.conv;
            var roomy := conv.(runs := conv.runs - {idle}, latest := after.latest);
            && Pointed(roomy, world.log, world.incarnation)
            && (Topped(conv, world.log, world.incarnation) ==>
                  (Topped(roomy, world.log, world.incarnation) <==> !Outlived(conv, world.log, world.incarnation, RefOf(conv, idle))))
  {
    var conv, ref := world.host.conv, RefOf(world.host.conv, idle);
    var roomy := conv.(runs := conv.runs - {idle}, latest := after.latest);
    Lowered(conv, world.log, roomy, world.log, ref, world.incarnation);
  }

  /** The rest of a reservation: its run, if it could be committed. */
  lemma Settle(roomy: Conversations, log: seq<Event>, next: World, run: Run, committed: bool, number: nat)
    requires next.Up? && Pointed(roomy, log, next.incarnation) && Leaves(roomy, next, run, committed, number, log)
    ensures LatestInv(next) && (Highest(next) <==> Topped(roomy, log, next.incarnation))
  {
    hide Standing;
    var key := run.conversation + "\0" + run.runID;
    var suffix := if committed then [RunReserved(next.incarnation, Ref(key, run.sequence), number)] else [];
    OtherSaid(log, suffix, next.incarnation);
    if committed {
      Installed(roomy, next.host.conv, log, key, next.incarnation);
      Unmoved(next.host.conv, log, next.host.conv, next.log, next.incarnation);
    } else {
      Unmoved(roomy, log, next.host.conv, next.log, next.incarnation);
    }
  }

  ghost predicate StrandsIdle(world: World)
    requires world.Up?
  {
    exists idle :: OldestIdle(world.host, idle) && Outlived(world.host.conv, world.log, world.incarnation, RefOf(world.host.conv, idle))
  }

  lemma ReserveMoves(config: Config, world: World, conversation: string, runID: string, number: nat, env: Env, task: nat, next: World)
    requires world.Up? && Indexed(world.host.conv.runs, world.host.conv.order) && LatestInv(world)
    requires Moves(config, world, Running(ReserveOp(conversation, runID, number), env, task), next)
    ensures Moved(world, next, Strands(config, world, Running(ReserveOp(conversation, runID, number), env, task)))
  {
    hide Reserve, Reserved, Indexed, LatestInv, Highest, Outlived, Reserves, AllBusy, Strands, StrandsIdle;
    var gone := ReserveIs(config, world.host, conversation, runID, number, env);
    StrandsIs(config, world, conversation, runID, number, env, task);
    if RefusesStart(config, world.host, conversation, runID) {
      QuietStep(world, next, []);
    } else {
      ReservedMoves(config, world, conversation, runID, number, Reserved(config, world.host, conversation, runID, env), gone, next);
    }
  }

  lemma StrandsIs(config: Config, world: World, conversation: string, runID: string, number: nat, env: Env, task: nat)
    requires world.Up? && Indexed(world.host.conv.runs, world.host.conv.order)
    ensures Strands(config, world, Running(ReserveOp(conversation, runID, number), env, task)) <==>
            !RefusesStart(config, world.host, conversation, runID) && |world.host.conv.runs| >= config.limit && StrandsIdle(world)
  {
    hide Outlived, AllBusy;
    AdmissibleIs(config, world.host, conversation, runID);
    forall a, b | OldestIdle(world.host, a) && OldestIdle(world.host, b)
      ensures a == b
    {
      OldestOnce(world.host, a, b);
    }
  }

  lemma ReservedMoves(config: Config, world: World, conversation: string, runID: string, number: nat, committed: bool, gone: set<string>, next: World)
    requires world.Up? && next.Up? && LatestInv(world) && next.incarnation == world.incarnation
    requires conversation + "\0" + runID !in world.host.conv.runs
    requires Reserves(config, world.host, next.host, Run(conversation, runID, number, true, Pending, world.host.conv.sequence + 1, false), committed, gone)
    requires next.log == world.log + if committed then [RunReserved(world.incarnation, Ref(conversation + "\0" + runID, world.host.conv.sequence + 1), number)] else []
    ensures Moved(world, next, |world.host.conv.runs| >= config.limit && StrandsIdle(world))
  {
    hide Outlived, AllBusy, LatestInv, Highest;
    var run := Run(conversation, runID, number, true, Pending, world.host.conv.sequence + 1, false);
    if |world.host.conv.runs| < config.limit {
      KeptMoves(world, run, committed, number, next);
    } else {
      var idle :| OldestIdle(world.host, idle) && gone == {idle} && DropsLatest(world.host.conv, next.host.conv, RefOf(world.host.conv, idle));
      EvictedMoves(config, world, run, committed, number, idle, next);
      forall other | OldestIdle(world.host, other)
        ensures other == idle
      {
        OldestOnce(world.host, other, idle);
      }
    }
  }

  predicate Leaves(before: Conversations, next: World, run: Run, committed: bool, number: nat, log: seq<Event>)
    requires next.Up?
  {
    var key, after := run.conversation + "\0" + run.runID, next.host.conv;
    && key !in before.runs && run.sequence == before.sequence + 1
    && after.runs == (if committed then before.runs[key := run] else before.runs)
    && after.latest == before.latest && after.sequence == (if committed then before.sequence + 1 else before.sequence)
    && next.log == log + if committed then [RunReserved(next.incarnation, Ref(key, run.sequence), number)] else []
  }

  lemma KeptMoves(world: World, run: Run, committed: bool, number: nat, next: World)
    requires world.Up? && next.Up? && LatestInv(world) && next.incarnation == world.incarnation
    requires Leaves(world.host.conv.(runs := world.host.conv.runs - {}), next, run, committed, number, world.log)
    ensures Moved(world, next, false)
  {
    assert world.host.conv.runs - {} == world.host.conv.runs;
    Settle(world.host.conv, world.log, next, run, committed, number);
  }

  lemma EvictedMoves(config: Config, world: World, run: Run, committed: bool, number: nat, idle: string, next: World)
    requires world.Up? && next.Up? && LatestInv(world) && next.incarnation == world.incarnation
    requires idle in world.host.conv.runs && DropsLatest(world.host.conv, next.host.conv, RefOf(world.host.conv, idle))
    requires Leaves(world.host.conv.(runs := world.host.conv.runs - {idle}, latest := next.host.conv.latest), next, run, committed, number, world.log)
    ensures Moved(world, next, Outlived(world.host.conv, world.log, world.incarnation, RefOf(world.host.conv, idle)))
  {
    hide Outlived, Pointed, Topped;
    var conv := world.host.conv;
    Evicted(config, world, next.host.conv, idle);
    Settle(conv.(runs := conv.runs - {idle}, latest := next.host.conv.latest), world.log, next, run, committed, number);
  }

  // ----- executions -----

  lemma OpenedLatest(config: Config, world: World, io: Io, compaction: Io, next: World)
    requires world.Down? && Dated(world.log, world.incarnation) && next == Up(Open(config, world.disk, io, compaction), world.threads, world.incarnation + 1, world.log)
    ensures LatestInv(next) && Highest(next)
  {
    assert next.host.conv.latest == map[];
    forall ref
      ensures !Standing(next.log, next.incarnation, ref) && RunAccepted(next.incarnation, ref) !in next.log
    {
      if Standing(next.log, next.incarnation, ref) {
        StandingIn(next.log, next.incarnation, ref);
      }
    }
  }

  lemma InvParts(config: Config, world: World)
    requires Inv(config, world)
    ensures Dated(world.log, world.incarnation)
    ensures world.Up? ==> Sequenced(world.host.conv) && Indexed(world.host.conv.runs, world.host.conv.order)
  {
  }

  /** A step keeps the latest runs the highest ones exactly when it strands none. */
  lemma LatestStep(config: Config, world: World, step: Step, next: World)
    requires Inv(config, world) && LatestInv(world) && Moves(config, world, step, next)
    ensures LatestInv(next) && (Highest(world) ==> (Highest(next) <==> !Strands(config, world, step)))
  {
    hide Inv, LatestInv, Highest, Outlived, Indexed, Sequenced;
    InvParts(config, world);
    match step
    case OnGens(gen) =>
      GenFrame(config, world, gen, next);
      var suffix := GenSuffix(config, world, gen, next);
      QuietStep(world, next, suffix);
    case OnWork(work) =>
      WorkFrame(world, work, next);
      var suffix := WorkSuffix(world, work, next);
      QuietStep(world, next, suffix);
    case OnStreams(stream) =>
      StreamFrame(world, stream, next);
      assert next.log == world.log + [];
      QuietStep(world, next, []);
    case Running(op, env, task) => RunLatest(config, world, op, env, task, next);
    case Opening(io, compaction) => OpenedLatest(config, world, io, compaction, next);
    case Crashing(disk) => DownLatest(next);
    case CrashingAgain(disk) => DownLatest(next);
  }

  lemma DownLatest(world: World)
    requires world.Down?
    ensures LatestInv(world) && Highest(world)
  {
  }

  lemma RunLatest(config: Config, world: World, op: Op, env: Env, task: nat, next: World)
    requires world.Up? && Sequenced(world.host.conv) && Indexed(world.host.conv.runs, world.host.conv.order) && LatestInv(world)
    requires Moves(config, world, Running(op, env, task), next)
    ensures Moved(world, next, Strands(config, world, Running(op, env, task)))
  {
    hide Moves, Moved, LatestInv, Strands, Indexed, Sequenced;
    match op
    case ReserveOp(conversation, runID, number) => ReserveMoves(config, world, conversation, runID, number, env, task, next);
    case FinishOp(ref, outcome) => FinishStep(config, world, ref, outcome, env, task, next);
    case ObservedOp(ref, terminal) => ObserveStep(config, world, ref, terminal, env, task, next);
    case ExpireOp(ref) => ExpireStep(config, world, ref, env, task, next);
  }

  /** In every execution, the latest run of a conversation is retained, of that
      conversation, and was accepted and not revoked since. */
  lemma {:induction false} LatestIsAccepted(config: Config, worlds: seq<World>, steps: seq<Step>, i: nat)
    requires config.limit > 0 && config.codec.Faithful() && Execution(config, worlds, steps) && i < |worlds|
    ensures LatestInv(worlds[i])
  {
    hide Moves, Inv, LatestInv;
    if i > 0 {
      LatestIsAccepted(config, worlds, steps, i - 1);
      Always(config, worlds, steps, i - 1);
      assert Moves(config, worlds[i - 1], steps[i - 1], worlds[i]);
      LatestStep(config, worlds[i - 1], steps[i - 1], worlds[i]);
    } else {
      DownLatest(INITIAL);
    }
  }

  /** Throughout an execution the latest run of every conversation is its highest accepted
      run, if and only if no step takes a latest run away while another accepted run of
      the conversation stays. */
  lemma LatestIsHighestIff(config: Config, worlds: seq<World>, steps: seq<Step>)
    requires config.limit > 0 && config.codec.Faithful() && Execution(config, worlds, steps)
    ensures (forall i :: 0 <= i < |worlds| ==> Highest(worlds[i])) <==> (forall i :: 0 <= i < |steps| ==> !Strands(config, worlds[i], steps[i]))
  {
    hide Moves, Highest, Strands;
    if forall i :: 0 <= i < |worlds| ==> Highest(worlds[i]) {
      forall i | 0 <= i < |steps|
        ensures !Strands(config, worlds[i], steps[i])
      {
        HighestStep(config, worlds, steps, i);
        assert Highest(worlds[i + 1]);
      }
    }
    if forall i :: 0 <= i < |steps| ==> !Strands(config, worlds[i], steps[i]) {
      forall i | 0 <= i < |worlds|
        ensures Highest(worlds[i])
      {
        HighestUpTo(config, worlds, steps, i);
      }
    }
  }

  lemma HighestStep(config: Config, worlds: seq<World>, steps: seq<Step>, i: nat)
    requires config.limit > 0 && config.codec.Faithful() && Execution(config, worlds, steps) && i < |steps| && Highest(worlds[i])
    ensures Highest(worlds[i + 1]) <==> !Strands(config, worlds[i], steps[i])
  {
    hide Inv, Highest, Strands, LatestInv;
    Always(config, worlds, steps, i);
    LatestIsAccepted(config, worlds, steps, i);
    assert Moves(config, worlds[i], steps[i], worlds[i + 1]);
    LatestStep(config, worlds[i], steps[i], worlds[i + 1]);
  }

  lemma {:induction false} HighestUpTo(config: Config, worlds: seq<World>, steps: seq<Step>, i: nat)
    requires config.limit > 0 && config.codec.Faithful() && Execution(config, worlds, steps) && i < |worlds|
    requires forall k :: 0 <= k < |steps| ==> !Strands(config, worlds[k], steps[k])
    ensures Highest(worlds[i])
  {
    hide Moves, Highest, Strands;
    if i > 0 {
      HighestUpTo(config, worlds, steps, i - 1);
      HighestStep(config, worlds, steps, i - 1);
    } else {
      DownLatest(INITIAL);
    }
  }
}
