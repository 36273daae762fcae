/** The process host as it mutates its fields: each critical section, with the
loops of the source, does to the host exactly what the value model says
(runtime/process_host.go, process_admission.go, process_host_conversations.go). */
module ProcessHost {
  import opened Options
  import opened Journal
  import opened Runs
  import opened RunJournal

  /** The answers of removeGeneration. */
  datatype Removal = NotFound | CurrentGenerationKept | InFlightWork | RemovedNow

  class Session {
    const config: Config
    // generations, under the host lock; inFlight is atomic
    var published: map<nat, Generation>
    var current: nat
    var retired: set<nat>
    var inFlight: map<nat, int>
    // conversations, under their own lock
    var runs: map<string, Run>
    var order: seq<string>
    var sequence: nat
    var latest: map<string, Ref>
    var streams: map<nat, Stream>
    const journal: JournalFile

    ghost function State(): Host
      reads this, journal
    {
      Host(Generations(published, current, retired, inFlight),
           Conversations(runs, order, sequence, latest, streams, journal.State()))
    }

    ghost predicate Valid()
      reads this
    {
      Indexed(runs, order)
    }

    constructor (config: Config)
      ensures Valid() && this.config == config && fresh(journal)
      ensures State() == Host(NO_GENERATIONS, Conversations(map[], [], 0, map[], map[], Log(false, Disk(None, false), 0, false)))
    {
      this.config := config;
      published, current, retired, inFlight := map[], 0, {}, map[];
      runs, order, sequence, latest, streams := map[], [], 0, map[], map[];
      journal := new JournalFile();
    }

    // ----- generations -----

    method AcquireGeneration(number: nat) returns (generation: Option<nat>)
      modifies this`inFlight
      ensures State() == old(State()).(gens := Acquire(old(State()).gens, number))
      ensures generation == Acquired(old(State()).gens, number)
    {
      var chosen := current;
      if number != 0 {
        chosen := number;
      }
      if chosen !in published {
        return None;
      }
      inFlight := Bump(inFlight, chosen, 1);
      return Some(chosen);
    }

    method ReleaseGeneration(number: nat)
      modifies this`inFlight
      ensures State() == old(State()).(gens := Release(old(State()).gens, number))
    {
      inFlight := Bump(inFlight, number, -1);
    }

    method PublishGeneration(number: nat, revision: string, generation: Generation) returns (ok: bool)
      modifies this
      ensures State() == old(State()).(gens := Publish(config, old(State()).gens, number, revision, generation))
      ensures ok == Publishable(config, old(State()).gens, number, revision, generation)
    {
      if revision != config.contract {
        return false;
      }
      var required := config.required;
      while required != {}
        invariant required <= config.required
        invariant config.required - required <= generation.instances.Keys
        decreases required
      {
        var process :| process in required;
        if process !in generation.instances {
          return false;
        }
        required := required - {process};
      }
      var addresses := generation.bindings.Keys;
      while addresses != {}
        invariant addresses <= generation.bindings.Keys
        invariant forall address :: address in generation.bindings.Keys - addresses ==> generation.bindings[address] in generation.instances
        decreases addresses
      {
        var address :| address in addresses;
        if generation.bindings[address] !in generation.instances {
          return false;
        }
        addresses := addresses - {address};
      }
      if number <= current {
        return false;
      }
      published := published[number := generation];
      inFlight := inFlight[number := 0];
      current := number;
      return true;
    }

    method RemoveGeneration(number: nat, force: bool) returns (answer: Removal)
      modifies this`published, this`retired
      ensures State() == old(State()).(gens := Remove(old(State()).gens, number, force))
      ensures answer == RemovedNow <==> Removable(old(State()).gens, number, force)
    {
      if number !in published {
        return NotFound;
      }
      if number == current {
        return CurrentGenerationKept;
      }
      if !force && number in inFlight && inFlight[number] > 0 {
        return InFlightWork;
      }
      published := published - {number};
      retired := retired + {number};
      return RemovedNow;
    }

    /** admit: a search over the generations map in any order. */
    method Admit(instance: string) returns (admitted: Option<nat>)
      modifies this`inFlight
      ensures admitted.None? ==>
                forall number :: number in published ==> instance !in published[number].instances.Values
      ensures admitted.Some? ==> IsAdmitted(old(State()).gens, instance, admitted.value)
      ensures State() == old(State()).(gens := if admitted.Some? then Hold(old(State()).gens, admitted.value) else old(State()).gens)
    {
      admitted := None;
      var rest := published.Keys;
      while rest != {}
        invariant rest <= published.Keys
        invariant inFlight == old(inFlight)
        invariant admitted.Some? ==> admitted.value in published && instance in published[admitted.value].instances.Values
        invariant forall number :: number in published.Keys - rest && instance in published[number].instances.Values ==>
                    admitted.Some? && number <= admitted.value
        decreases rest
      {
        var number :| number in rest;
        rest := rest - {number};
        if admitted.Some? && number < admitted.value {
          continue;
        }
        if instance in published[number].instances.Values {
          admitted := Some(number);
        }
      }
      if admitted.Some? {
        inFlight := Bump(inFlight, admitted.value, 1);
      }
    }

    // ----- runs -----

    predicate CanDispatch(run: Run)
      reads this`retired
    {
      run.held && run.number !in retired
    }

    method ReleaseHeld(key: string)
      requires key in runs
      modifies this`inFlight, this`runs
      ensures State() == ReleaseRun(old(State()), key)
    {
      var run := runs[key];
      if run.held {
        inFlight := Bump(inFlight, run.number, -1);
        runs := runs[key := run.(held := false)];
      }
    }

    static method Splice(keys: seq<string>, key: string) returns (rest: seq<string>)
      ensures rest == Without(keys, key)
    {
      var index := 0;
      while index < |keys| && keys[index] != key
        invariant index <= |keys| && forall i :: 0 <= i < index ==> keys[i] != key
      {
        index := index + 1;
      }
      WithoutAt(keys, key, index);
      if index < |keys| {
        return keys[..index] + keys[index + 1..];
      }
      return keys;
    }

    /** forget: the order slice is searched and spliced. */
    method ForgetRun(key: string)
      requires Valid()
      modifies this`inFlight, this`runs, this`order, this`latest
      ensures Valid() && State() == Forget(old(State()), key)
    {
      if key !in runs {
        return;
      }
      ForgetIndexed(State(), key);
      ReleaseHeld(key);
      var run := runs[key];
      if run.conversation in latest && latest[run.conversation] == Ref(key, run.sequence) {
        latest := latest - {run.conversation};
      }
      runs := runs - {key};
      order := Splice(order, key);
    }

    /** The records of the retained runs, in their order. */
    static method RetainedRecords(runs: map<string, Run>, order: seq<string>) returns (records: seq<RunRecord>)
      requires forall key :: key in order ==> key in runs
      ensures records == CompactRecords(runs, order)
    {
      records := [];
      for index := 0 to |order|
        invariant records == CompactRecords(runs, order[..index])
      {
        var run := runs[order[index]];
        CompactSnoc(runs, order[..index], order[index]);
        assert order[..index + 1] == order[..index] + [order[index]];
        records := records + [StartRecord(run)];
        if run.revoked {
          records := records + [RevokeRecord(run)];
        }
      }
      assert order[..|order|] == order;
    }

    method CompactRuns(io: Io)
      requires Valid()
      modifies journal
      ensures State() == Compact(config, old(State()), io)
    {
      var records := RetainedRecords(runs, order);
      journal.RewriteLines(config.codec.EncodeAll(records), io);
    }

    method EndRun(ref: Ref, io: Io, compaction: Io)
      requires Valid()
      modifies this`inFlight, this`runs, this`order, this`latest, journal
      ensures Valid() && State() == End(config, old(State()), ref, io, compaction)
    {
      if ref.key !in runs || runs[ref.key].sequence != ref.sequence {
        return;
      }
      var committed := journal.AppendLine(config.codec.enc(EndRecord(runs[ref.key])), io);
      ForgetRun(ref.key);
      if journal.lines >= 2 * config.limit {
        CompactRuns(compaction);
      }
    }

    method MakeRoom(env: Env) returns (ok: bool)
      requires Valid()
      modifies this`inFlight, this`runs, this`order, this`latest, journal
      ensures Valid() && State() == Room(config, old(State()), env)
      ensures ok == HasRoom(config, old(State()))
    {
      if |runs| < config.limit {
        return true;
      }
      ghost var before := State();
      var index := 0;
      while index < |order|
        invariant index <= |order| && State() == before
        invariant Stale(before, order[index..]) == Stale(before, order)
      {
        var key := order[index];
        assert order[index..][0] == key && order[index..][1..] == order[index + 1..];
        if !CanDispatch(runs[key]) {
          EndRun(Ref(key, runs[key].sequence), env.evict, env.evictCompaction);
          return true;
        }
        index := index + 1;
      }
      return false;
    }

    method ReserveRun(conversation: string, runID: string, number: nat, env: Env) returns (reservation: Option<Ref>)
      requires Valid()
      modifies this, journal
      ensures Valid() && State() == Reserve(config, old(State()), conversation, runID, number, env)
      ensures reservation.Some? <==> Reserved(config, old(State()), conversation, runID, env)
      ensures reservation.Some? ==> Live(State().conv, reservation.value) && runs[reservation.value.key].number == number
    {
      var key := RunKey(conversation, runID);
      if journal.poisoned || key in runs {
        return None;
      }
      var room := MakeRoom(env);
      if !room {
        return None;
      }
      RoomTrims(config, old(State()), env, State());
      var run := NewRun(conversation, runID, number);
      var ok := journal.AppendLine(config.codec.enc(StartRecord(run)), env.commit);
      if !ok {
        return None;
      }
      InstallRun(key, run);
      return Some(Ref(key, sequence));
    }

    /** install, with the generation the run holds. */
    method InstallRun(key: string, run: Run)
      requires Valid() && key !in runs
      modifies this`inFlight, this`sequence, this`runs, this`order
      ensures Valid() && State() == Host(Hold(old(State()).gens, run.number), Install(old(State()).conv, key, run))
      ensures sequence == old(sequence) + 1 && key in runs && runs[key] == run.(sequence := sequence)
    {
      inFlight := Bump(inFlight, run.number, 1);
      sequence := sequence + 1;
      runs := runs[key := run.(sequence := sequence)];
      assert key !in order;
      order := order + [key];
    }

    method AcceptRun(ref: Ref)
      requires Live(State().conv, ref)
      modifies this`latest, this`streams
      ensures State() == old(State()).(conv := Accept(old(State()).conv, ref))
    {
      var run := runs[ref.key];
      if run.conversation in latest && latest[run.conversation].sequence > run.sequence {
        return;
      }
      latest := latest[run.conversation := ref];
      ghost var before := streams;
      var rest := streams.Keys;
      while rest != {}
        invariant latest == old(latest)[run.conversation := ref]
        invariant streams.Keys == before.Keys && rest <= streams.Keys
        invariant forall id :: id in rest ==> streams[id] == before[id]
        invariant forall id :: id in streams.Keys - rest ==> streams[id] == Superseded(before, run.conversation, run.number)[id]
        decreases rest
      {
        var id :| id in rest;
        rest := rest - {id};
        if streams[id].conversation == run.conversation && streams[id].number != run.number {
          streams := streams[id := streams[id].(ended := true)];
        }
      }
      assert streams == Superseded(before, run.conversation, run.number);
    }

    method FinishRun(ref: Ref, outcome: Outcome, env: Env)
      requires Valid()
      modifies this, journal
      ensures Valid() && State() == Finish(config, old(State()), ref, outcome, env)
    {
      if ref.key !in runs || runs[ref.key].sequence != ref.sequence {
        return;
      }
      match outcome {
        case Rejected => EndRun(ref, env.commit, env.compaction);
        case OutcomeUnknown => runs := runs[ref.key := runs[ref.key].(state := Unknown)];
        case Accepted =>
          runs := runs[ref.key := runs[ref.key].(state := Active)];
          AcceptRun(ref);
      }
    }

    method ObserveRun(ref: Ref, terminal: bool, env: Env)
      requires Valid()
      modifies this, journal
      ensures Valid() && State() == Observed(config, old(State()), ref, terminal, env)
    {
      if ref.key !in runs || runs[ref.key].sequence != ref.sequence || runs[ref.key].revoked {
        return;
      }
      if terminal {
        EndRun(ref, env.commit, env.compaction);
        return;
      }
      if runs[ref.key].state == Unknown {
        runs := runs[ref.key := runs[ref.key].(state := Active)];
        AcceptRun(ref);
      }
    }

    method ExpireRun(ref: Ref, env: Env)
      requires Valid()
      modifies this, journal
      ensures Valid() && State() == Expire(config, old(State()), ref, env)
    {
      if ref.key !in runs || runs[ref.key].sequence != ref.sequence || runs[ref.key].state != Unknown || runs[ref.key].revoked {
        return;
      }
      var committed := journal.AppendLine(config.codec.enc(RevokeRecord(runs[ref.key])), env.commit);
      var run := runs[ref.key].(revoked := true);
      runs := runs[ref.key := run];
      if run.conversation in latest && latest[run.conversation] == ref {
        latest := latest - {run.conversation};
      }
      ReleaseHeld(ref.key);
    }

    method ChooseGeneration(address: string, principal: string, digest: string, runID: string) returns (choice: Choice)
      ensures choice == RunGeneration(State(), address, principal, digest, runID)
      ensures choice.InGeneration? ==> Live(State().conv, choice.ref) && CanDispatch(runs[choice.ref.key]) && !runs[choice.ref.key].revoked
    {
      if digest == "" && runID == "" {
        return CurrentGeneration;
      }
      if journal.poisoned {
        return Refused;
      }
      var key := RunKey(ConversationKey(address, principal, digest), runID);
      if runID == "" || key !in runs || runs[key].revoked || !CanDispatch(runs[key]) {
        return Refused;
      }
      return InGeneration(Ref(key, runs[key].sequence), runs[key].number);
    }

    // ----- streams -----

    method EndRetiredStreams(number: nat)
      modifies this`streams
      ensures State() == old(State()).(conv := RetiredPass(old(State()).conv, number))
    {
      ghost var before := State().conv;
      var rest := streams.Keys;
      while rest != {}
        invariant streams.Keys == before.streams.Keys && rest <= streams.Keys
        invariant forall id :: id in rest ==> streams[id] == before.streams[id]
        invariant forall id :: id in streams.Keys - rest ==> streams[id] == RetiredPass(before, number).streams[id]
        decreases rest
      {
        var id :| id in rest;
        rest := rest - {id};
        if streams[id].number == number {
          streams := streams[id := streams[id].(ended := true)];
        }
      }
      assert streams == RetiredPass(before, number).streams;
    }

    method AttestStream(conversation: string, ingress: nat) returns (attested: nat)
      ensures attested == Attested(State(), conversation, ingress)
    {
      attested := ingress;
      if conversation in latest {
        var ref := latest[conversation];
        if ref.key in runs && runs[ref.key].sequence == ref.sequence && CanDispatch(runs[ref.key]) {
          attested := runs[ref.key].number;
        }
      }
    }

    method RegisterStream(id: nat, conversation: string, attested: nat)
      modifies this`streams
      ensures State() == Attach(old(State()), id, conversation, attested)
    {
      streams := streams[id := Stream(conversation, attested, false)];
      if attested in retired {
        streams := streams[id := streams[id].(ended := true)];
      }
    }

    // ----- restart -----

    method OpenRuns(left: Disk, io: Io, compaction: Io)
      modifies this, journal
      ensures Valid() && State() == Open(config, left, io, compaction)
    {
      published, current, retired, inFlight := map[], 0, {}, map[];
      latest, streams := map[], map[];
      PrefixParked(config.codec, NO_RUNS, Records(left));
      var roster := journal.Replay(left, NO_RUNS, Replayer(config.codec), io);
      runs, order, sequence := roster.runs, roster.order, roster.sequence;
      if journal.lines > config.limit {
        CompactRuns(compaction);
      }
    }
  }

  /** Removing a key is splicing at its first place. */
  lemma {:induction false} WithoutAt(keys: seq<string>, key: string, index: nat)
    requires index <= |keys| && (forall i :: 0 <= i < index ==> keys[i] != key) && (index < |keys| ==> keys[index] == key)
    ensures Without(keys, key) == if index < |keys| then keys[..index] + keys[index + 1..] else keys
  {
    if index > 0 {
      var rest := keys[1..];
      assert forall i :: 0 <= i < |rest| ==> rest[i] == keys[i + 1];
      WithoutAt(rest, key, index - 1);
      WithoutStep(keys, key);
      if index < |keys| {
        assert keys[..index] == [keys[0]] + rest[..index - 1] && keys[index + 1..] == rest[index..];
      }
    }
  }

  lemma WithoutStep(keys: seq<string>, key: string)
    requires keys != [] && keys[0] != key
    ensures Without(keys, key) == [keys[0]] + Without(keys[1..], key)
  {
  }

  function RecordsOf(run: Run): seq<RunRecord> {
    if run.revoked then [StartRecord(run), RevokeRecord(run)] else [StartRecord(run)]
  }

  lemma {:induction false} CompactSnoc(runs: map<string, Run>, order: seq<string>, key: string)
    requires key in runs && forall k :: k in order ==> k in runs
    ensures CompactRecords(runs, order + [key]) == CompactRecords(runs, order) + RecordsOf(runs[key])
  {
    if order == [] {
      assert order + [key] == [key] && [key][1..] == [];
      assert CompactRecords(runs, []) == [];
    } else {
      assert (order + [key])[1..] == order[1..] + [key];
      CompactSnoc(runs, order[1..], key);
      CompactCons(runs, order);
      CompactCons(runs, order + [key]);
    }
  }

  lemma CompactCons(runs: map<string, Run>, order: seq<string>)
    requires order != [] && forall k :: k in order ==> k in runs
    ensures CompactRecords(runs, order) == RecordsOf(runs[order[0]]) + CompactRecords(runs, order[1..])
  {
  }
}
