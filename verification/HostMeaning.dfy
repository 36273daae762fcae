/** What each step of a session does to runs, streams and generations, in every execution
(runtime/process_host_conversations.go, process_host.go): which tool calls execute where,
what accepting, observing, expiring and reserving a run change, and why a stream ends. */
module HostMeaning {
  import opened Options
  import opened Journal
  import opened Runs
  import opened RunJournal
  import opened HostSystem
  import opened HostHolds
  import opened HostStreams
  import opened HostTheorems

  // ----- tool calls -----

  /** The retained run of the conversation and id a call names. */
  predicate Names(run: Run, address: string, principal: string, digest: string, runID: string) {
    run.conversation + "\0" + run.runID == address + "\0" + principal + "\0" + digest + "\0" + runID
  }

  /** A run that tool calls may execute in: not revoked, holding a generation that is not
      retired. */
  predicate Callable(host: Host, run: Run) {
    !run.revoked && run.held && run.number !in host.gens.retired
  }

  lemma RunsAreFiled(config: Config, worlds: seq<World>, steps: seq<Step>, i: nat)
    requires config.limit > 0 && config.codec.Faithful() && Execution(config, worlds, steps) && i < |worlds| && worlds[i].Up?
    ensures Indexed(worlds[i].host.conv.runs, worlds[i].host.conv.order)
    ensures forall key :: key in worlds[i].host.conv.runs ==> RunKey(worlds[i].host.conv.runs[key].conversation, worlds[i].host.conv.runs[key].runID) == key
  {
    Always(config, worlds, steps, i);
    assert forall key :: key in worlds[i].host.conv.runs ==> Filed(key, worlds[i].host.conv.runs[key]);
  }

  /** Where a tool call executes. One that names neither a conversation nor a run begins at
      once in the current generation; one that names a run is bound to the generation of
      the callable run of that name, while the journal can vouch for it; every other call
      changes nothing. */
  lemma ChoosingMeans(config: Config, worlds: seq<World>, steps: seq<Step>, i: nat, address: string, principal: string, digest: string, runID: string)
    requires config.limit > 0 && config.codec.Faithful() && Execution(config, worlds, steps) && i < |steps|
    requires steps[i] == OnWork(Choosing(address, principal, digest, runID))
    ensures worlds[i].Up? && worlds[i + 1].Up?
    ensures var world, next, conv := worlds[i], worlds[i + 1], worlds[i].host.conv;
            if digest == "" && runID == "" then
              if world.host.gens.current !in world.host.gens.published then next == world
              else next.log == world.log + [Began(world.incarnation, world.threads.next, None, world.host.gens.current)]
            else
              && (forall key :: key in conv.runs && Names(conv.runs[key], address, principal, digest, runID) && runID != "" ==>
                    if !conv.log.poisoned && Callable(world.host, conv.runs[key])
                    then
                      && next.log == world.log + [CallChosen(world.incarnation, world.threads.next, RefOf(conv, key), conv.runs[key].number)]
                      && next.host == world.host
                    else next == world)
              && (runID == "" || (forall key :: key in conv.runs ==> !Names(conv.runs[key], address, principal, digest, runID)) ==> next == world)
  {
    var world, next := worlds[i], worlds[i + 1];
    assert Moves(config, world, steps[i], next);
    RunsAreFiled(config, worlds, steps, i);
    ChoosingIs(world, address, principal, digest, runID, next);
  }

  lemma ChoosingIs(world: World, address: string, principal: string, digest: string, runID: string, next: World)
    requires world.Up? && Unlocked(world) && next == WorkNext(world, Choosing(address, principal, digest, runID))
    requires forall key :: key in world.host.conv.runs ==> RunKey(world.host.conv.runs[key].conversation, world.host.conv.runs[key].runID) == key
    ensures next.Up?
    ensures var conv := world.host.conv;
            if digest == "" && runID == "" then
              if world.host.gens.current !in world.host.gens.published then next == world
              else next.log == world.log + [Began(world.incarnation, world.threads.next, None, world.host.gens.current)]
            else
              && (forall key :: key in conv.runs && Names(conv.runs[key], address, principal, digest, runID) && runID != "" ==>
                    if !conv.log.poisoned && Callable(world.host, conv.runs[key])
                    then
                      && next.log == world.log + [CallChosen(world.incarnation, world.threads.next, RefOf(conv, key), conv.runs[key].number)]
                      && next.host == world.host
                    else next == world)
              && (runID == "" || (forall key :: key in conv.runs ==> !Names(conv.runs[key], address, principal, digest, runID)) ==> next == world)
  {
    var named := address + "\0" + principal + "\0" + digest + "\0" + runID;
    assert RunKey(ConversationKey(address, principal, digest), runID) == named;
    assert forall key :: key in world.host.conv.runs && Names(world.host.conv.runs[key], address, principal, digest, runID) ==> key == named;
    if named in world.host.conv.runs {
      assert Names(world.host.conv.runs[named], address, principal, digest, runID);
    }
  }

  /** Run ids hold no NUL, so the run a call names is of its conversation and id. */
  lemma NamesOne(run: Run, address: string, principal: string, digest: string, runID: string)
    requires '\0' !in run.runID && '\0' !in runID
    ensures Names(run, address, principal, digest, runID) <==> run.conversation == address + "\0" + principal + "\0" + digest && run.runID == runID
  {
    var conversation := address + "\0" + principal + "\0" + digest;
    if Names(run, address, principal, digest, runID) {
      assert conversation + "\0" + runID == address + "\0" + principal + "\0" + digest + "\0" + runID;
      LastNul(run.conversation, run.runID, conversation, runID);
    }
  }

  lemma LastNul(a: string, x: string, b: string, y: string)
    requires a + "\0" + x == b + "\0" + y && '\0' !in x && '\0' !in y
    ensures a == b && x == y
  {
    var s := a + "\0" + x;
    assert s[|a|] == '\0' && s[|b|] == '\0';
    assert |a| == |b|;
    assert a == s[..|a|] && b == s[..|b|];
    assert x == s[|a| + 1..] && y == s[|b| + 1..];
  }

  // ----- accepting a run -----

  /** What an acceptance makes of a conversation: the run is active, and it is the latest
      run unless a later one is. A new latest run ends exactly the streams of its
      conversation that attest another generation. */
  ghost predicate Accepts(before: Conversations, after: Conversations, ref: Ref)
    requires Live(before, ref)
  {
    var run := before.runs[ref.key];
    var later := run.conversation in before.latest && before.latest[run.conversation].sequence > run.sequence;
    && after == before.(runs := before.runs[ref.key := run.(state := Active)], latest := after.latest, streams := after.streams)
    && (later ==> after.latest == before.latest && after.streams == before.streams)
    && (!later ==>
          && after.latest == before.latest[run.conversation := ref]
          && after.streams.Keys == before.streams.Keys
          && forall id :: id in before.streams ==>
               after.streams[id] == before.streams[id].(ended := before.streams[id].ended || (before.streams[id].conversation == run.conversation && before.streams[id].number != run.number)))
  }

  /** The run is forgotten, and its conversation has no latest run if it was that. */
  ghost predicate Forgets(before: Conversations, after: Conversations, ref: Ref)
    requires Live(before, ref)
  {
    && after.runs == before.runs - {ref.key} && after.streams == before.streams && after.sequence == before.sequence
    && DropsLatest(before, after, ref)
  }

  ghost predicate DropsLatest(before: Conversations, after: Conversations, ref: Ref)
    requires Live(before, ref)
  {
    var name := before.runs[ref.key].conversation;
    after.latest == if name in before.latest && before.latest[name] == ref then before.latest - {name} else before.latest
  }

  lemma AcceptIs(host: Host, ref: Ref)
    requires Live(host.conv, ref)
    ensures Accepts(host.conv, Accept(SetState(host.conv, ref.key, Active), ref), ref)
  {
  }

  lemma ForgetIs(host: Host, key: string)
    requires key in host.conv.runs
    ensures Forgets(host.conv, Forget(host, key).conv, RefOf(host.conv, key))
  {
    ForgetShape(host, key);
  }

  lemma EndIs(config: Config, host: Host, ref: Ref, io: Io, compaction: Io)
    requires Live(host.conv, ref)
    ensures Forgets(host.conv, End(config, host, ref, io, compaction).conv, ref)
  {
    var committed := Commit(config, host, EndRecord(host.conv.runs[ref.key]), io);
    ForgetIs(committed, ref.key);
    assert RefOf(committed.conv, ref.key) == ref;
  }

  /** The helper's answer to a start: a rejected run is forgotten, an accepted one becomes
      active, one of unknown outcome only changes its state; a run that is gone stays gone. */
  lemma FinishingMeans(config: Config, worlds: seq<World>, steps: seq<Step>, i: nat, ref: Ref, outcome: Outcome, env: Env, task: nat)
    requires config.limit > 0 && config.codec.Faithful() && Execution(config, worlds, steps) && i < |steps|
    requires steps[i] == Running(FinishOp(ref, outcome), env, task)
    ensures worlds[i].Up? && worlds[i + 1].Up?
    ensures var before, after := worlds[i].host.conv, worlds[i + 1].host.conv;
            if !Live(before, ref) then worlds[i + 1] == worlds[i]
            else match outcome {
              case Accepted => Accepts(before, after, ref) && worlds[i + 1].log == worlds[i].log + [RunAccepted(worlds[i].incarnation, ref)]
              case OutcomeUnknown => after == before.(runs := before.runs[ref.key := before.runs[ref.key].(state := Unknown)])
              case Rejected => Forgets(before, after, ref)
            }
  {
    hide Accept, SetState, End, Accepts, Forgets;
    var world, next := worlds[i], worlds[i + 1];
    assert Moves(config, world, steps[i], next);
    if Live(world.host.conv, ref) {
      AcceptIs(world.host, ref);
      EndIs(config, world.host, ref, env.commit, env.compaction);
      UnknownIs(world.host.conv, ref);
    }
  }

  lemma UnknownIs(conv: Conversations, ref: Ref)
    requires Live(conv, ref)
    ensures SetState(conv, ref.key, Unknown) == conv.(runs := conv.runs[ref.key := conv.runs[ref.key].(state := Unknown)])
  {
  }

  /** An observed event: a terminal one ends its run, any other makes a run of unknown
      outcome active; a revoked run stays as it is. Afterwards the run cannot expire. */
  lemma ObservingMeans(config: Config, worlds: seq<World>, steps: seq<Step>, i: nat, ref: Ref, terminal: bool, env: Env, task: nat)
    requires config.limit > 0 && config.codec.Faithful() && Execution(config, worlds, steps) && i < |steps|
    requires steps[i] == Running(ObservedOp(ref, terminal), env, task)
    ensures worlds[i].Up? && worlds[i + 1].Up?
    ensures var before, after := worlds[i].host.conv, worlds[i + 1].host.conv;
            && (if !Live(before, ref) || before.runs[ref.key].revoked then worlds[i + 1] == worlds[i]
                else if terminal then Forgets(before, after, ref)
                else if before.runs[ref.key].state == Unknown then
                  Accepts(before, after, ref) && worlds[i + 1].log == worlds[i].log + [RunAccepted(worlds[i].incarnation, ref)]
                else worlds[i + 1] == worlds[i])
            && !Expirable(after, ref)
  {
    hide Accept, SetState, End;
    var world, next := worlds[i], worlds[i + 1];
    assert Moves(config, world, steps[i], next);
    if Live(world.host.conv, ref) {
      AcceptIs(world.host, ref);
      EndIs(config, world.host, ref, env.commit, env.compaction);
    }
  }

  /** Expiry revokes exactly the retained runs whose outcome is still unknown: such a run
      gives its generation back and is no longer the latest; nothing else changes. */
  lemma ExpiringMeans(config: Config, worlds: seq<World>, steps: seq<Step>, i: nat, ref: Ref, env: Env, task: nat)
    requires config.limit > 0 && config.codec.Faithful() && Execution(config, worlds, steps) && i < |steps|
    requires steps[i] == Running(ExpireOp(ref), env, task)
    ensures worlds[i].Up? && worlds[i + 1].Up?
    ensures var before, after := worlds[i].host.conv, worlds[i + 1].host.conv;
            if !(Live(before, ref) && before.runs[ref.key].state == Unknown && !before.runs[ref.key].revoked) then worlds[i + 1] == worlds[i]
            else
              && after == before.(runs := before.runs[ref.key := before.runs[ref.key].(revoked := true, held := false)], latest := after.latest, log := after.log)
              && DropsLatest(before, after, ref)
              && worlds[i + 1].log == worlds[i].log + [RunRevoked(worlds[i].incarnation, ref)]
  {
    var world, next := worlds[i], worlds[i + 1];
    assert Moves(config, world, steps[i], next);
    if Expirable(world.host.conv, ref) {
      ExpireIs(config, world.host, ref, env);
    }
  }

  lemma ExpireIs(config: Config, host: Host, ref: Ref, env: Env)
    requires Expirable(host.conv, ref)
    ensures var after := Expire(config, host, ref, env).conv;
            && after == host.conv.(runs := host.conv.runs[ref.key := host.conv.runs[ref.key].(revoked := true, held := false)], latest := after.latest, log := after.log)
            && DropsLatest(host.conv, after, ref)
  {
    ExpireShape(config, host, ref, env);
  }

  // ----- reserving a run -----

  /** The oldest run that cannot execute. */
  ghost predicate OldestIdle(host: Host, key: string) {
    && key in host.conv.runs && !Dispatchable(host, host.conv.runs[key])
    && exists k :: 0 <= k < |host.conv.order| && host.conv.order[k] == key && AllBusy(host, k)
  }

  /** The runs before a place in the order can all execute. */
  ghost predicate AllBusy(host: Host, k: nat)
    requires k <= |host.conv.order|
  {
    forall j :: 0 <= j < k ==> host.conv.order[j] in host.conv.runs && Dispatchable(host, host.conv.runs[host.conv.order[j]])
  }

  lemma {:induction false} StaleIs(host: Host, k: nat)
    requires k <= |host.conv.order| && AllBusy(host, k) && forall key :: key in host.conv.order ==> key in host.conv.runs
    ensures match Stale(host, host.conv.order[k..])
            case None => AllBusy(host, |host.conv.order|)
            case Some(key) => OldestIdle(host, key)
    decreases |host.conv.order| - k
  {
    if k < |host.conv.order| {
      var key := host.conv.order[k];
      assert host.conv.order[k..][0] == key && host.conv.order[k..][1..] == host.conv.order[k + 1..];
      if Dispatchable(host, host.conv.runs[key]) {
        StaleIs(host, k + 1);
      } else {
        assert OldestIdle(host, key);
      }
    }
  }

  /** A start is refused while the journal is poisoned, for a run that is retained, and in a
      full session whose runs can all execute. */
  ghost predicate RefusesStart(config: Config, host: Host, conversation: string, runID: string) {
    || host.conv.log.poisoned
    || conversation + "\0" + runID in host.conv.runs
    || (|host.conv.runs| >= config.limit && AllBusy(host, |host.conv.order|))
  }

  /** What a start that is not refused leaves: a full session has forgotten its oldest run
      that cannot execute; the new run is retained last, pending and holding the generation
      of its request, unless its record could not be committed. */
  ghost predicate Reserves(config: Config, before: Host, after: Host, run: Run, committed: bool, gone: set<string>) {
    var key := run.conversation + "\0" + run.runID;
    && (if |before.conv.runs| < config.limit then gone == {} && after.conv.latest == before.conv.latest
        else exists idle :: OldestIdle(before, idle) && gone == {idle} && DropsLatest(before.conv, after.conv, RefOf(before.conv, idle)))
    && after.conv.sequence == (if committed then before.conv.sequence + 1 else before.conv.sequence)
    && (!committed ==> after.conv.log.poisoned)
    && after.conv.runs == (if committed then (before.conv.runs - gone)[key := run] else before.conv.runs - gone)
    && (committed ==> after.conv.order != [] && after.conv.order[|after.conv.order| - 1] == key)
  }

  /** Reserving a run. A refused start changes nothing. Otherwise a full session forgets its
      oldest run that cannot execute, and the new run is retained last, pending and holding
      the generation of its request, unless its record cannot be committed. */
  lemma ReservingMeans(config: Config, worlds: seq<World>, steps: seq<Step>, i: nat, conversation: string, runID: string, number: nat, env: Env, task: nat)
    returns (gone: set<string>)
    requires config.limit > 0 && config.codec.Faithful() && Execution(config, worlds, steps) && i < |steps|
    requires steps[i] == Running(ReserveOp(conversation, runID, number), env, task)
    ensures worlds[i].Up? && worlds[i + 1].Up?
    ensures var host, next, key := worlds[i].host, worlds[i + 1].host, conversation + "\0" + runID;
            var run := Run(conversation, runID, number, true, Pending, host.conv.sequence + 1, false);
            if RefusesStart(config, host, conversation, runID) then worlds[i + 1] == worlds[i]
            else
              exists committed ::
                && Reserves(config, host, next, run, committed, gone)
                && worlds[i + 1].log == worlds[i].log + if committed then [RunReserved(worlds[i].incarnation, Ref(key, run.sequence), number)] else []
  {
    hide Reserve, Reserved, Execution, RefusesStart, Reserves;
    ReserveStep(config, worlds, steps, i, conversation, runID, number, env, task);
    RunsAreFiled(config, worlds, steps, i);
    gone := ReserveIs(config, worlds[i].host, conversation, runID, number, env);
  }

  lemma ReserveStep(config: Config, worlds: seq<World>, steps: seq<Step>, i: nat, conversation: string, runID: string, number: nat, env: Env, task: nat)
    requires Execution(config, worlds, steps) && i < |steps| && steps[i] == Running(ReserveOp(conversation, runID, number), env, task)
    ensures |worlds| == |steps| + 1 && worlds[i].Up?
    ensures worlds[i + 1] == Up(Reserve(config, worlds[i].host, conversation, runID, number, env), worlds[i].threads, worlds[i].incarnation,
                                worlds[i].log + if Reserved(config, worlds[i].host, conversation, runID, env)
                                                then [RunReserved(worlds[i].incarnation, Ref(conversation + "\0" + runID, worlds[i].host.conv.sequence + 1), number)] else [])
  {
    hide Reserve, Reserved;
    assert Moves(config, worlds[i], steps[i], worlds[i + 1]);
  }

  lemma ReserveIs(config: Config, host: Host, conversation: string, runID: string, number: nat, env: Env) returns (gone: set<string>)
    requires Indexed(host.conv.runs, host.conv.order)
    ensures var next, run := Reserve(config, host, conversation, runID, number, env), Run(conversation, runID, number, true, Pending, host.conv.sequence + 1, false);
            if RefusesStart(config, host, conversation, runID) then next == host && !Reserved(config, host, conversation, runID, env)
            else Reserves(config, host, next, run, Reserved(config, host, conversation, runID, env), gone)
  {
    hide Room, Stale, OldestIdle, AllBusy, Commit, RefusesStart, Admissible, Install, Indexed;
    AdmissibleIs(config, host, conversation, runID);
    if RefusesStart(config, host, conversation, runID) {
      gone := {};
    } else {
      gone := IdleIs(config, host, conversation, runID);
      RoomIs(config, host, env, gone);
      var roomy, run := Room(config, host, env), NewRun(conversation, runID, number);
      CommitIs(config, roomy, StartRecord(run), env.commit);
      InstallIs(Commit(config, roomy, StartRecord(run), env.commit).conv, run);
    }
  }

  /** What a full session forgets for a start it does not refuse. */
  lemma IdleIs(config: Config, host: Host, conversation: string, runID: string) returns (gone: set<string>)
    requires Indexed(host.conv.runs, host.conv.order) && !RefusesStart(config, host, conversation, runID)
    ensures if |host.conv.runs| < config.limit then gone == {}
            else
              && Stale(host, host.conv.order).Some? && gone == {Stale(host, host.conv.order).value}
              && Stale(host, host.conv.order).value in host.conv.runs && OldestIdle(host, Stale(host, host.conv.order).value)
  {
    hide Stale, AllBusy, Indexed;
    AdmissibleIs(config, host, conversation, runID);
    gone := if |host.conv.runs| < config.limit then {} else {Stale(host, host.conv.order).value};
  }

  lemma InstallIs(conv: Conversations, run: Run)
    ensures var key := run.conversation + "\0" + run.runID;
            var next := Install(conv, RunKey(run.conversation, run.runID), run);
            && next.runs == conv.runs[key := run.(sequence := conv.sequence + 1)] && next.log == conv.log
            && next.order != [] && next.order[|next.order| - 1] == key && next.latest == conv.latest && next.sequence == conv.sequence + 1
  {
  }

  lemma CommitIs(config: Config, host: Host, record: RunRecord, io: Io)
    ensures var next := Commit(config, host, record, io);
            next == host.(conv := host.conv.(log := next.conv.log)) && (!Appended(host.conv.log, io) ==> next.conv.log.poisoned)
  {
  }

  lemma AdmissibleIs(config: Config, host: Host, conversation: string, runID: string)
    requires Indexed(host.conv.runs, host.conv.order)
    ensures Admissible(config, host, conversation, runID) <==> !RefusesStart(config, host, conversation, runID)
    ensures match Stale(host, host.conv.order)
            case None => AllBusy(host, |host.conv.order|)
            case Some(idle) => OldestIdle(host, idle)
  {
    assert host.conv.order[0..] == host.conv.order;
    StaleIs(host, 0);
  }

  lemma RoomIs(config: Config, host: Host, env: Env, gone: set<string>)
    requires |host.conv.runs| < config.limit ==> gone == {}
    requires |host.conv.runs| >= config.limit ==>
               Stale(host, host.conv.order).Some? && Stale(host, host.conv.order).value in host.conv.runs && gone == {Stale(host, host.conv.order).value}
    ensures var roomy := Room(config, host, env);
            && roomy.conv.runs == host.conv.runs - gone && roomy.conv.sequence == host.conv.sequence
            && if |host.conv.runs| < config.limit then roomy.conv.latest == host.conv.latest
               else DropsLatest(host.conv, roomy.conv, RefOf(host.conv, Stale(host, host.conv.order).value))
  {
    if |host.conv.runs| >= config.limit {
      StaleFound(host, host.conv.order);
      EndIs(config, host, RefOf(host.conv, Stale(host, host.conv.order).value), env.evict, env.evictCompaction);
    }
  }

  // ----- streams -----

  /** Why a step ends a stream: it is told to, its generation is retired, or a run of its
      conversation in another generation becomes the latest. */
  ghost predicate Cause(world: World, step: Step, next: World, id: nat)
    requires world.Up? && next.Up? && id in world.host.conv.streams
  {
    var stream := world.host.conv.streams[id];
    || step == OnStreams(EndingStream(id))
    || step == OnStreams(Passing(stream.number))
    || exists ref :: Supersedes(world, next, stream, ref)
  }

  ghost predicate Supersedes(world: World, next: World, stream: Stream, ref: Ref)
    requires world.Up? && next.Up?
  {
    && next.log == world.log + [RunAccepted(world.incarnation, ref)] && Live(world.host.conv, ref)
    && world.host.conv.runs[ref.key].conversation == stream.conversation && world.host.conv.runs[ref.key].number != stream.number
    && stream.conversation in next.host.conv.latest && next.host.conv.latest[stream.conversation] == ref
  }

  /** In every step of a running host, a stream keeps its conversation and the generation it
      attests, ends exactly for a cause, never starts again, and goes away only when it is
      detached. */
  lemma StreamsEndForCause(config: Config, worlds: seq<World>, steps: seq<Step>, i: nat, id: nat)
    requires config.limit > 0 && config.codec.Faithful() && Execution(config, worlds, steps) && i < |steps|
    requires worlds[i].Up? && worlds[i + 1].Up? && id in worlds[i].host.conv.streams
    ensures var world, next := worlds[i], worlds[i + 1];
            var stream := world.host.conv.streams[id];
            if steps[i] == OnStreams(Detaching(id)) then id !in next.host.conv.streams
            else
              && id in next.host.conv.streams
              && next.host.conv.streams[id] == stream.(ended := stream.ended || Cause(world, steps[i], next, id))
  {
    hide Cause;
    var world, step, next := worlds[i], steps[i], worlds[i + 1];
    assert Moves(config, world, step, next);
    StreamIds(config, worlds, steps, i);
    match step
    case OnGens(gen) =>
      GenFrame(config, world, gen, next);
      NoCause(config, world, step, next, id);
    case OnWork(work) =>
      WorkFrame(world, work, next);
      NoCause(config, world, step, next, id);
    case OnStreams(stream) => StreamEnds(world, stream, next, id);
    case Running(op, env, _) => RunEnds(config, world, step, op, env, next, id);
  }

  /** Streams are numbered as they come. */
  ghost predicate Fresh(world: World) {
    if world.Down? then world.threads.attaching.None?
    else
      && (forall id :: id in world.host.conv.streams ==> id < world.threads.next)
      && (world.threads.attaching.Some? ==> world.threads.attaching.value.id < world.threads.next && world.threads.attaching.value.id !in world.host.conv.streams)
  }

  lemma {:induction false} StreamIds(config: Config, worlds: seq<World>, steps: seq<Step>, i: nat)
    requires Execution(config, worlds, steps) && i < |worlds|
    ensures Fresh(worlds[i])
  {
    hide Moves, Fresh;
    if i > 0 {
      StreamIds(config, worlds, steps, i - 1);
      assert Moves(config, worlds[i - 1], steps[i - 1], worlds[i]);
      FreshStep(config, worlds[i - 1], steps[i - 1], worlds[i]);
    } else {
      InitiallyFresh();
    }
  }

  lemma InitiallyFresh()
    ensures Fresh(INITIAL)
  {
  }

  lemma FreshStep(config: Config, world: World, step: Step, next: World)
    requires Fresh(world) && Moves(config, world, step, next)
    ensures Fresh(next)
  {
    match step
    case OnGens(gen) => GenFrame(config, world, gen, next);
    case OnWork(work) => WorkFrame(world, work, next);
    case OnStreams(stream) => StreamFresh(world, stream, next);
    case Running(op, env, _) => RunStreamsAre(config, world, op, env, next);
    case Opening(io, compaction) => OpenStreams(config, world.disk, io, compaction);
    case Crashing(disk) =>
    case CrashingAgain(disk) =>
  }

  lemma OpenStreams(config: Config, disk: Disk, io: Io, compaction: Io)
    ensures Open(config, disk, io, compaction).conv.streams == map[]
  {
  }

  lemma StreamFresh(world: World, step: StreamStep, next: World)
    requires world.Up? && Fresh(world) && StreamEnabled(world, step) && next == StreamNext(world, step)
    ensures Fresh(next)
  {
  }

  /** What tells an acceptance in a log. */
  lemma LastEvent(log: seq<Event>, suffix: seq<Event>, event: Event)
    requires log + suffix == log + [event]
    ensures suffix == [event]
  {
    assert |suffix| == 1;
    assert (log + suffix)[|log|] == suffix[0] && (log + [event])[|log|] == event;
  }

  /** Only operations on runs accept one. */
  lemma NoCause(config: Config, world: World, step: Step, next: World, id: nat)
    requires world.Up? && id in world.host.conv.streams && Moves(config, world, step, next) && (step.OnGens? || step.OnWork?) && next.Up?
    ensures !Cause(world, step, next, id)
  {
    var suffix := OtherEvents(config, world, step, next);
    forall ref
      ensures !Supersedes(world, next, world.host.conv.streams[id], ref)
    {
      if next.log == world.log + [RunAccepted(world.incarnation, ref)] {
        LastEvent(world.log, suffix, RunAccepted(world.incarnation, ref));
      }
    }
  }

  lemma OtherEvents(config: Config, world: World, step: Step, next: World) returns (suffix: seq<Event>)
    requires world.Up? && Moves(config, world, step, next) && (step.OnGens? || step.OnWork?)
    ensures next.log == world.log + suffix && (suffix != [] ==> !suffix[0].RunAccepted?)
  {
    match step {
      case OnGens(gen) =>
        suffix := if next.log == world.log then [] else [next.log[|world.log|]];
      case OnWork(work) => suffix := WorkEvents(world, work, next);
    }
  }

  lemma WorkEvents(world: World, step: WorkStep, next: World) returns (suffix: seq<Event>)
    requires world.Up? && WorkEnabled(world, step) && next == WorkNext(world, step)
    ensures next.log == world.log + suffix && (suffix != [] ==> !suffix[0].RunAccepted?)
  {
    suffix := next.log[|world.log|..];
  }

  lemma StreamEnds(world: World, step: StreamStep, next: World, id: nat)
    requires world.Up? && StreamEnabled(world, step) && next == StreamNext(world, step) && id in world.host.conv.streams
    requires world.threads.attaching.Some? ==> world.threads.attaching.value.id != id
    ensures next.Up?
    ensures var stream := world.host.conv.streams[id];
            if step == Detaching(id) then id !in next.host.conv.streams
            else id in next.host.conv.streams && next.host.conv.streams[id] == stream.(ended := stream.ended || Cause(world, OnStreams(step), next, id))
  {
    StreamFrame(world, step, next);
  }

  lemma RunEnds(config: Config, world: World, step: Step, op: Op, env: Env, next: World, id: nat)
    requires world.Up? && step.Running? && step.op == op && step.env == env && Moves(config, world, step, next) && id in world.host.conv.streams && next.Up?
    ensures var stream := world.host.conv.streams[id];
            id in next.host.conv.streams && next.host.conv.streams[id] == stream.(ended := stream.ended || Cause(world, step, next, id))
  {
    var stream := world.host.conv.streams[id];
    var ref := if op.ReserveOp? then Ref("", 0) else op.ref;
    RunStreamsAre(config, world, op, env, next);
    assert Cause(world, step, next, id) <==> next.log != world.log && next.log == world.log + [RunAccepted(world.incarnation, ref)] && Supersedes(world, next, stream, ref) by {
      forall other | Supersedes(world, next, stream, other)
        ensures other == ref && next.log == world.log + [RunAccepted(world.incarnation, ref)]
      {
        assert next.log[|world.log|] == RunAccepted(world.incarnation, other);
      }
    }
  }

  /** A run operation touches streams only when it accepts a run. */
  lemma RunStreamsAre(config: Config, world: World, op: Op, env: Env, next: World)
    requires world.Up? && next == Up(Do(config, world.host, op, env), world.threads, world.incarnation, world.log + RunEvents(config, world, op, env))
    ensures var before, after := world.host.conv, next.host.conv;
            if !op.ReserveOp? && next.log == world.log + [RunAccepted(world.incarnation, op.ref)]
            then Live(before, op.ref) && Accepts(before, after, op.ref)
            else after.streams == before.streams && forall other :: next.log != world.log + [RunAccepted(world.incarnation, other)]
  {
    hide Accept, SetState, End, Reserve, Expire, Accepts, Reserved;
    var suffix := RunEvents(config, world, op, env);
    forall event | next.log == world.log + [event]
      ensures suffix == [event]
    {
      LastEvent(world.log, suffix, event);
    }
    match op
    case ReserveOp(conversation, runID, number) => ReserveStreams(config, world.host, conversation, runID, number, env);
    case ExpireOp(ref) => ExpireFewer(config, world.host, ref, env);
    case FinishOp(ref, outcome) =>
      if Live(world.host.conv, ref) {
        AcceptIs(world.host, ref);
        EndFewer(config, world.host, ref, env.commit, env.compaction);
        UnknownIs(world.host.conv, ref);
      }
    case ObservedOp(ref, terminal) =>
      if Live(world.host.conv, ref) {
        AcceptIs(world.host, ref);
        EndFewer(config, world.host, ref, env.commit, env.compaction);
      }
  }

  lemma ReserveStreams(config: Config, host: Host, conversation: string, runID: string, number: nat, env: Env)
    ensures Reserve(config, host, conversation, runID, number, env).conv.streams == host.conv.streams
  {
    StaleFound(host, host.conv.order);
    var stale := Stale(host, host.conv.order);
    if |host.conv.runs| >= config.limit && stale.Some? {
      EndFewer(config, host, RefOf(host.conv, stale.value), env.evict, env.evictCompaction);
    }
  }

  /** A stream attests the generation of its conversation's latest run while that can
      execute, and otherwise the generation of its own request; it is registered open
      exactly when that generation is not retired by then. */
  lemma AttachingMeans(config: Config, worlds: seq<World>, steps: seq<Step>, i: nat, task: nat, conversation: string)
    requires Execution(config, worlds, steps) && i < |steps|
    ensures steps[i] == OnStreams(Attesting(task, conversation)) ==>
              var world, next, conv := worlds[i], worlds[i + 1], worlds[i].host.conv;
              && world.Up? && next.Up? && task in world.threads.tasks && next.host == world.host
              && var leads := conversation in conv.latest && Live(conv, conv.latest[conversation]) &&
                              conv.runs[conv.latest[conversation].key].held && conv.runs[conv.latest[conversation].key].number !in world.host.gens.retired;
                 next.threads.attaching == Some(Attaching(world.threads.next, conversation,
                   if leads then conv.runs[conv.latest[conversation].key].number else world.threads.tasks[task].gen))
    ensures steps[i] == OnStreams(Registering) ==>
              var world, next := worlds[i], worlds[i + 1];
              && world.Up? && next.Up? && world.threads.attaching.Some? && next.threads.attaching.None?
              && var stream := world.threads.attaching.value;
                 next.host.conv.streams == world.host.conv.streams[stream.id := Stream(stream.conversation, stream.attested, stream.attested in world.host.gens.retired)]
  {
    assert Moves(config, worlds[i], steps[i], worlds[i + 1]);
  }

  // ----- generations -----

  /** Every generation a host has published serves each process the host's routes and tools
      need, and every binding names one of its instances. */
  ghost predicate Complete(config: Config, generation: Generation) {
    && (forall process :: process in config.required ==> process in generation.instances)
    && (forall address :: address in generation.bindings ==> generation.bindings[address] in generation.instances)
  }

  lemma {:induction false} PublishedIsComplete(config: Config, worlds: seq<World>, steps: seq<Step>, i: nat, number: nat)
    requires Execution(config, worlds, steps) && i < |worlds| && worlds[i].Up? && number in worlds[i].host.gens.published
    ensures number != 0 && Complete(config, worlds[i].host.gens.published[number])
  {
    assert i > 0;
    var world, step, next := worlds[i - 1], steps[i - 1], worlds[i];
    assert Moves(config, world, step, next);
    if world.Up? && number in world.host.gens.published {
      PublishedIsComplete(config, worlds, steps, i - 1, number);
    }
    PublishedBefore(config, world, step, next, number);
  }

  lemma PublishedBefore(config: Config, world: World, step: Step, next: World, number: nat)
    requires Moves(config, world, step, next) && next.Up? && number in next.host.gens.published
    ensures || (world.Up? && number in world.host.gens.published && world.host.gens.published[number] == next.host.gens.published[number])
            || (number != 0 && Complete(config, next.host.gens.published[number]))
  {
    match step
    case OnGens(gen) =>
    case OnWork(work) => WorkFrame(world, work, next);
    case OnStreams(stream) => StreamFrame(world, stream, next);
    case Running(op, env, _) => DoFramed(config, world.host, op, env, next.host);
    case Opening(io, compaction) =>
  }

  /** A generation is published exactly when it is complete, of the host's contract, and of
      a number above the current one; it is then the current one, and nothing holds it. */
  lemma PublishingMeans(config: Config, worlds: seq<World>, steps: seq<Step>, i: nat, number: nat, revision: string, generation: Generation)
    requires Execution(config, worlds, steps) && i < |steps| && steps[i] == OnGens(Publishing(number, revision, generation))
    ensures worlds[i].Up? && worlds[i + 1].Up?
    ensures var world, next, gens := worlds[i], worlds[i + 1], worlds[i].host.gens;
            if !(revision == config.contract && Complete(config, generation) && number > gens.current) then next == world
            else
              && next.host.gens == Generations(gens.published[number := generation], number, gens.retired, gens.inFlight[number := 0])
              && next.host.conv == world.host.conv && next.log == world.log + [Published(world.incarnation, number)]
  {
    assert Moves(config, worlds[i], steps[i], worlds[i + 1]);
  }

  /** A generation is removed exactly when it is published, not the current one, and either
      nothing holds it or its removal is forced; it is retired from then on. */
  lemma RemovingMeans(config: Config, worlds: seq<World>, steps: seq<Step>, i: nat, number: nat, force: bool)
    requires config.limit > 0 && config.codec.Faithful() && Execution(config, worlds, steps) && i < |steps| && steps[i] == OnGens(Removing(number, force))
    ensures worlds[i].Up? && worlds[i + 1].Up?
    ensures var world, next, gens := worlds[i], worlds[i + 1], worlds[i].host.gens;
            var holders := Holders(world.host.conv.runs, world.threads.tasks, number);
            if !(number in gens.published && number != gens.current && (force || holders == 0)) then next == world
            else
              && next.host.gens == gens.(published := gens.published - {number}, retired := gens.retired + {number})
              && next.host.conv == world.host.conv && next.log == world.log + [Removed(world.incarnation, number, force)]
              && number in next.threads.passes
  {
    assert Moves(config, worlds[i], steps[i], worlds[i + 1]);
    PublishedIsCounted(config, worlds, steps, i, number);
  }

  lemma PublishedIsCounted(config: Config, worlds: seq<World>, steps: seq<Step>, i: nat, number: nat)
    requires config.limit > 0 && config.codec.Faithful() && Execution(config, worlds, steps) && i < |worlds| && worlds[i].Up?
    ensures number in worlds[i].host.gens.published ==>
              number in worlds[i].host.gens.inFlight && worlds[i].host.gens.inFlight[number] == Holders(worlds[i].host.conv.runs, worlds[i].threads.tasks, number)
  {
    Always(config, worlds, steps, i);
    assert Numbered(worlds[i].host.gens);
  }

  /** A request begins in the current generation, and a background attempt in the newest
      published generation that has its instance; each holds that generation. */
  lemma BeginningMeans(config: Config, worlds: seq<World>, steps: seq<Step>, i: nat, instance: string, number: nat)
    requires Execution(config, worlds, steps) && i < |steps|
    ensures steps[i] == OnWork(Arriving) ==>
              var world, next, current := worlds[i], worlds[i + 1], worlds[i].host.gens.current;
              && world.Up? && next.Up?
              && (if current in world.host.gens.published then BeginsIn(world, next, current) else next == world)
    ensures steps[i] == OnWork(Admitting(instance, number)) ==>
              var world, next, published := worlds[i], worlds[i + 1], worlds[i].host.gens.published;
              && world.Up? && next.Up? && BeginsIn(world, next, number) && number in published && instance in published[number].instances.Values
              && forall other :: other in published && other > number ==> instance !in published[other].instances.Values
  {
    assert Moves(config, worlds[i], steps[i], worlds[i + 1]);
  }

  /** The step begins work that holds a generation and is pinned to it. */
  predicate BeginsIn(world: World, next: World, number: nat)
    requires world.Up? && next.Up?
  {
    && next.log == world.log + [Began(world.incarnation, world.threads.next, None, number)]
    && world.threads.next in next.threads.tasks
    && next.threads.tasks[world.threads.next].gen == next.threads.tasks[world.threads.next].pinned == next.threads.tasks[world.threads.next].root == number
    && next.threads.tasks[world.threads.next].held
  }
}
