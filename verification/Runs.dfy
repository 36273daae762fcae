/** Application generations and assistant run scopes of a process host, as values:
the fields of processHost and processHostConversations and what each critical
section does to them (runtime/process_host.go, process_admission.go,
process_host_conversations.go). */
module Runs {
  import opened Options
  import opened Journal

  /** processHostRunLimit */
  const RUN_LIMIT: nat := 4096

  /** The fixed parameters of a host: its run limit, record encoding, the service
      processes its routes and tools name, and its contract revision. */
  datatype Config = Config(limit: nat, codec: Codec<RunRecord>, required: set<string>, contract: string)

  /** A published generation: its instances by process, and the process that
      serves each internal binding. */
  datatype Generation = Generation(instances: map<string, string>, bindings: map<string, string>)

  /** `published` is the generations map; `current` is 0 before the first
      publication; a number is in `retired` once its channel is closed; a
      generation object, with its in-flight count, outlives its removal. */
  datatype Generations = Generations(published: map<nat, Generation>, current: nat, retired: set<nat>, inFlight: map<nat, int>)

  datatype RunState = Pending | Active | Unknown

  datatype Outcome = Accepted | Rejected | OutcomeUnknown

  /** processHostRun; `held` says that its generation pointer is set. */
  datatype Run = Run(conversation: string, runID: string, number: nat, held: bool, state: RunState, sequence: nat, revoked: bool)

  datatype RunRecord = RunRecord(conversation: string, runID: string, generation: nat, ended: bool, revoked: bool)

  /** A pointer to a run: the object installed under `key` as `sequence`. */
  datatype Ref = Ref(key: string, sequence: nat)

  datatype Stream = Stream(conversation: string, number: nat, ended: bool)

  datatype Conversations = Conversations(
    runs: map<string, Run>, order: seq<string>, sequence: nat,
    latest: map<string, Ref>, streams: map<nat, Stream>, log: Log)

  datatype Host = Host(gens: Generations, conv: Conversations)

  function ConversationKey(address: string, principal: string, digest: string): (key: string)
    ensures key != ""
  {
    address + "\0" + principal + "\0" + digest
  }

  function RunKey(conversation: string, runID: string): string {
    conversation + "\0" + runID
  }

  // ----- generations -----

  function Bump(inFlight: map<nat, int>, number: nat, delta: int): map<nat, int> {
    if number in inFlight then inFlight[number := inFlight[number] + delta] else inFlight
  }

  function Release(gens: Generations, number: nat): Generations {
    gens.(inFlight := Bump(gens.inFlight, number, -1))
  }

  function Hold(gens: Generations, number: nat): Generations {
    gens.(inFlight := Bump(gens.inFlight, number, 1))
  }

  /** acquire: the generation a call of `number` (0 for the current one) holds. */
  function Acquired(gens: Generations, number: nat): Option<nat> {
    var chosen := if number != 0 then number else gens.current;
    if chosen in gens.published then Some(chosen) else None
  }

  function Acquire(gens: Generations, number: nat): Generations {
    match Acquired(gens, number)
    case None => gens
    case Some(chosen) => Hold(gens, chosen)
  }

  predicate ValidManifest(config: Config, revision: string, generation: Generation) {
    && revision == config.contract
    && config.required <= generation.instances.Keys
    && forall address :: address in generation.bindings ==> generation.bindings[address] in generation.instances
  }

  /** publish */
  predicate Publishable(config: Config, gens: Generations, number: nat, revision: string, generation: Generation) {
    ValidManifest(config, revision, generation) && number > gens.current
  }

  function Publish(config: Config, gens: Generations, number: nat, revision: string, generation: Generation): Generations {
    if !Publishable(config, gens, number, revision, generation) then gens
    else gens.(published := gens.published[number := generation], current := number, inFlight := gens.inFlight[number := 0])
  }

  /** removeGeneration */
  predicate Removable(gens: Generations, number: nat, force: bool) {
    number in gens.published && number != gens.current && (force || number !in gens.inFlight || gens.inFlight[number] <= 0)
  }

  function Remove(gens: Generations, number: nat, force: bool): Generations {
    if !Removable(gens, number, force) then gens
    else gens.(published := gens.published - {number}, retired := gens.retired + {number})
  }

  /** admit: the newest published generation that includes an instance. */
  ghost predicate IsAdmitted(gens: Generations, instance: string, number: nat) {
    && number in gens.published && instance in gens.published[number].instances.Values
    && forall other :: other in gens.published && instance in gens.published[other].instances.Values ==> other <= number
  }

  // ----- runs -----

  predicate Live(conv: Conversations, ref: Ref) {
    ref.key in conv.runs && conv.runs[ref.key].sequence == ref.sequence
  }

  function RefOf(conv: Conversations, key: string): Ref
    requires key in conv.runs
  {
    Ref(key, conv.runs[key].sequence)
  }

  predicate Dispatchable(host: Host, run: Run) {
    run.held && run.number !in host.gens.retired
  }

  /** Whether the run a pointer names is dispatchable; a forgotten run has
      released its generation. */
  predicate RefDispatchable(host: Host, ref: Ref) {
    Live(host.conv, ref) && Dispatchable(host, host.conv.runs[ref.key])
  }

  function Without(order: seq<string>, key: string): seq<string> {
    if order == [] then [] else if order[0] == key then order[1..] else [order[0]] + Without(order[1..], key)
  }

  /** processHostRun.release */
  function ReleaseRun(host: Host, key: string): Host
    requires key in host.conv.runs
  {
    var run := host.conv.runs[key];
    if run.held
    then Host(Release(host.gens, run.number), host.conv.(runs := host.conv.runs[key := run.(held := false)]))
    else host
  }

  function DropLatest(conv: Conversations, ref: Ref): Conversations
    requires Live(conv, ref)
  {
    var name := conv.runs[ref.key].conversation;
    if name in conv.latest && conv.latest[name] == ref then conv.(latest := conv.latest - {name}) else conv
  }

  /** forget */
  function Forget(host: Host, key: string): Host {
    if key !in host.conv.runs then host
    else
      var released := ReleaseRun(host, key);
      var conv := DropLatest(released.conv, RefOf(released.conv, key));
      Host(released.gens, conv.(runs := conv.runs - {key}, order := Without(conv.order, key)))
  }

  /** install */
  function Install(conv: Conversations, key: string, run: Run): Conversations {
    conv.(sequence := conv.sequence + 1,
          runs := conv.runs[key := run.(sequence := conv.sequence + 1)],
          order := conv.order + [key])
  }

  function StartRecord(run: Run): RunRecord { RunRecord(run.conversation, run.runID, run.number, false, false) }
  function EndRecord(run: Run): RunRecord { RunRecord(run.conversation, run.runID, 0, true, false) }
  function RevokeRecord(run: Run): RunRecord { RunRecord(run.conversation, run.runID, 0, false, true) }

  /** compact: a start record, and a revocation, per retained run in order. */
  function CompactRecords(runs: map<string, Run>, order: seq<string>): seq<RunRecord>
    requires forall key :: key in order ==> key in runs
  {
    if order == [] then []
    else
      var run := runs[order[0]];
      (if run.revoked then [StartRecord(run), RevokeRecord(run)] else [StartRecord(run)]) + CompactRecords(runs, order[1..])
  }

  /** The order slice lists the keys of the runs map, each once. */
  ghost predicate Indexed(runs: map<string, Run>, order: seq<string>) {
    && (forall i, j :: 0 <= i < j < |order| ==> order[i] != order[j])
    && (forall key :: key in order <==> key in runs)
  }

  predicate Ordered(conv: Conversations) {
    forall key :: key in conv.order ==> key in conv.runs
  }

  function Compact(config: Config, host: Host, io: Io): Host {
    if !Ordered(host.conv) then host
    else host.(conv := host.conv.(log := Rewrite(host.conv.log, config.codec.EncodeAll(CompactRecords(host.conv.runs, host.conv.order)), io)))
  }

  function Commit(config: Config, host: Host, record: RunRecord, io: Io): Host {
    host.(conv := host.conv.(log := Append(host.conv.log, config.codec.enc(record), io)))
  }

  /** end */
  function End(config: Config, host: Host, ref: Ref, io: Io, compaction: Io): Host {
    if !Live(host.conv, ref) then host
    else
      var ended := Forget(Commit(config, host, EndRecord(host.conv.runs[ref.key]), io), ref.key);
      if ended.conv.log.lines >= 2 * config.limit then Compact(config, ended, compaction) else ended
  }

  /** The oldest run that can no longer execute. */
  function Stale(host: Host, order: seq<string>): Option<string> {
    if order == [] then None
    else if order[0] in host.conv.runs && !Dispatchable(host, host.conv.runs[order[0]]) then Some(order[0])
    else Stale(host, order[1..])
  }

  /** The environment of one run operation: the answers to the eviction's append
      and compaction, and to its own append and compaction. */
  datatype Env = Env(evict: Io, evictCompaction: Io, commit: Io, compaction: Io)

  /** room */
  predicate HasRoom(config: Config, host: Host) {
    |host.conv.runs| < config.limit || Stale(host, host.conv.order).Some?
  }

  function Room(config: Config, host: Host, env: Env): Host {
    if |host.conv.runs| < config.limit then host
    else match Stale(host, host.conv.order)
      case None => host
      case Some(key) => if key in host.conv.runs then End(config, host, RefOf(host.conv, key), env.evict, env.evictCompaction) else host
  }

  /** reserveAssistantRun, by a request that holds generation `number`. */
  predicate Admissible(config: Config, host: Host, conversation: string, runID: string) {
    && !host.conv.log.poisoned
    && RunKey(conversation, runID) !in host.conv.runs
    && HasRoom(config, host)
  }

  function NewRun(conversation: string, runID: string, number: nat): Run {
    Run(conversation, runID, number, true, Pending, 0, false)
  }

  function Reserve(config: Config, host: Host, conversation: string, runID: string, number: nat, env: Env): Host {
    if !Admissible(config, host, conversation, runID) then host
    else
      var roomy := Room(config, host, env);
      var run := NewRun(conversation, runID, number);
      var committed := Commit(config, roomy, StartRecord(run), env.commit);
      if !Appended(roomy.conv.log, env.commit) then committed
      else Host(Hold(committed.gens, number), Install(committed.conv, RunKey(conversation, runID), run))
  }

  predicate Reserved(config: Config, host: Host, conversation: string, runID: string, env: Env) {
    Admissible(config, host, conversation, runID) && Appended(Room(config, host, env).conv.log, env.commit)
  }

  /** accept */
  function Superseded(streams: map<nat, Stream>, conversation: string, number: nat): map<nat, Stream> {
    map id | id in streams :: if streams[id].conversation == conversation && streams[id].number != number then streams[id].(ended := true) else streams[id]
  }

  function Accept(conv: Conversations, ref: Ref): Conversations
    requires Live(conv, ref)
  {
    var run := conv.runs[ref.key];
    if run.conversation in conv.latest && conv.latest[run.conversation].sequence > run.sequence then conv
    else conv.(latest := conv.latest[run.conversation := ref], streams := Superseded(conv.streams, run.conversation, run.number))
  }

  function SetState(conv: Conversations, key: string, state: RunState): Conversations
    requires key in conv.runs
  {
    conv.(runs := conv.runs[key := conv.runs[key].(state := state)])
  }

  /** finish */
  function Finish(config: Config, host: Host, ref: Ref, outcome: Outcome, env: Env): Host {
    if !Live(host.conv, ref) then host
    else match outcome
      case Rejected => End(config, host, ref, env.commit, env.compaction)
      case OutcomeUnknown => host.(conv := SetState(host.conv, ref.key, Unknown))
      case Accepted => host.(conv := Accept(SetState(host.conv, ref.key, Active), ref))
  }

  /** observed */
  function Observed(config: Config, host: Host, ref: Ref, terminal: bool, env: Env): Host {
    if !Live(host.conv, ref) || host.conv.runs[ref.key].revoked then host
    else if terminal then End(config, host, ref, env.commit, env.compaction)
    else if host.conv.runs[ref.key].state == Unknown then host.(conv := Accept(SetState(host.conv, ref.key, Active), ref))
    else host
  }

  /** expire */
  predicate Expirable(conv: Conversations, ref: Ref) {
    Live(conv, ref) && conv.runs[ref.key].state == Unknown && !conv.runs[ref.key].revoked
  }

  function Expire(config: Config, host: Host, ref: Ref, env: Env): Host {
    if !Expirable(host.conv, ref) then host
    else
      var committed := Commit(config, host, RevokeRecord(host.conv.runs[ref.key]), env.commit);
      var conv := committed.conv;
      var revoked := conv.(runs := conv.runs[ref.key := conv.runs[ref.key].(revoked := true)]);
      ReleaseRun(Host(committed.gens, DropLatest(revoked, ref)), ref.key)
  }

  /** runGeneration: where a tool call that names a conversation and run executes. */
  datatype Choice = CurrentGeneration | InGeneration(ref: Ref, number: nat) | Refused

  function RunGeneration(host: Host, address: string, principal: string, digest: string, runID: string): Choice {
    if digest == "" && runID == "" then CurrentGeneration
    else
      var key := RunKey(ConversationKey(address, principal, digest), runID);
      if host.conv.log.poisoned || runID == "" || key !in host.conv.runs then Refused
      else
        var run := host.conv.runs[key];
        if run.revoked || !Dispatchable(host, run) then Refused else InGeneration(RefOf(host.conv, key), run.number)
  }

  /** retired: the pass that ends the streams attesting a removed generation. */
  function RetiredPass(conv: Conversations, number: nat): Conversations {
    conv.(streams := map id | id in conv.streams :: if conv.streams[id].number == number then conv.streams[id].(ended := true) else conv.streams[id])
  }

  /** attachAssistantStream, its first half: the generation the stream attests. */
  function Attested(host: Host, conversation: string, ingress: nat): nat {
    if conversation in host.conv.latest && RefDispatchable(host, host.conv.latest[conversation])
    then host.conv.runs[host.conv.latest[conversation].key].number
    else ingress
  }

  /** attachAssistantStream, its second half: registers the stream, already ended
      when its attested generation is retired. */
  function Attach(host: Host, id: nat, conversation: string, attested: nat): Host {
    host.(conv := host.conv.(streams := host.conv.streams[id := Stream(conversation, attested, attested in host.gens.retired)]))
  }

  function EndStream(conv: Conversations, id: nat): Conversations {
    if id in conv.streams then conv.(streams := conv.streams[id := conv.streams[id].(ended := true)]) else conv
  }

  function Detach(conv: Conversations, id: nat): Conversations {
    conv.(streams := conv.streams - {id})
  }

  // ----- replay -----

  predicate Incomplete(record: RunRecord) {
    record.conversation == "" || record.runID == "" || (!record.ended && !record.revoked && record.generation == 0)
  }

  /** The runs a starting incarnation has replayed so far. */
  datatype Roster = Roster(runs: map<string, Run>, order: seq<string>, sequence: nat)

  const NO_RUNS: Roster := Roster(map[], [], 0)

  /** The effect of one complete record on the replayed runs, none of which holds
      a generation. */
  function Replay(roster: Roster, record: RunRecord): Roster {
    var key := RunKey(record.conversation, record.runID);
    if record.ended then
      if key in roster.runs then roster.(runs := roster.runs - {key}, order := Without(roster.order, key)) else roster
    else if record.revoked then
      if key in roster.runs then roster.(runs := roster.runs[key := roster.runs[key].(revoked := true)]) else roster
    else if key in roster.runs then roster
    else
      var run := Run(record.conversation, record.runID, record.generation, false, Pending, roster.sequence + 1, false);
      Roster(roster.runs[key := run], roster.order + [key], roster.sequence + 1)
  }

  function ReplayLine(codec: Codec<RunRecord>, roster: Roster, line: seq<Byte>): Option<Roster> {
    match codec.dec(line)
    case None => None
    case Some(record) => if Incomplete(record) then None else Some(Replay(roster, record))
  }

  function Replayer(codec: Codec<RunRecord>): (Roster, seq<Byte>) -> Option<Roster> {
    (roster, line) => ReplayLine(codec, roster, line)
  }

  const NO_GENERATIONS: Generations := Generations(map[], 0, {}, map[])

  /** A new incarnation over the directory an earlier one left. */
  function Open(config: Config, disk: Disk, io: Io, compaction: Io): Host {
    var apply := Replayer(config.codec);
    var roster := Reached(disk, NO_RUNS, apply);
    var host := Host(NO_GENERATIONS, Conversations(roster.runs, roster.order, roster.sequence, map[], map[], Opened(disk, NO_RUNS, apply, io)));
    if host.conv.log.lines > config.limit then Compact(config, host, compaction) else host
  }
}
