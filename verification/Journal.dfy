/** The write-ahead journal of a process host (runtime/process_host_journal.go).

A journal is one file of newline-terminated records beside an optional poison
marker.  The directory is modelled as bytes, so that a process crash can leave
any prefix of a record behind. */
module Journal {
  import opened Options

  type Byte = b: int | 0 <= b < 256

  const NEWLINE: Byte := 10

  /** processHostJournalMaxBytes */
  const MAX_BYTES: nat := 64 * 1024 * 1024

  /** What the session's host state directory holds for one journal. */
  datatype Disk = Disk(file: Option<seq<Byte>>, marker: bool)

  /** Which of the two effects of poisoning reached the directory. */
  datatype Poisoning = MarkedAndRemoved | MarkedOnly | RemovedOnly

  /** The environment's answer to one write: it succeeds, or it fails after some
      bytes reached the file and the journal is poisoned. */
  datatype Io = Done | Failed(written: nat, how: Poisoning)

  /** processHostJournal; a journal without a path is not `enabled`. */
  datatype Log = Log(enabled: bool, disk: Disk, lines: nat, poisoned: bool)

  /** The record encoding of a journal. */
  datatype Codec<!R(!new)> = Codec(enc: R -> seq<Byte>, dec: seq<Byte> -> Option<R>) {
    /** JSON encoding round-trips and never emits a raw newline. */
    ghost predicate Faithful() {
      forall r: R :: NoNewline(enc(r)) && dec(enc(r)) == Some(r)
    }

    function EncodeAll(records: seq<R>): (lines: seq<seq<Byte>>)
      ensures |lines| == |records|
      ensures forall i :: 0 <= i < |lines| ==> lines[i] == enc(records[i])
    {
      seq(|records|, i requires 0 <= i < |records| => enc(records[i]))
    }
  }

  function Content(disk: Disk): seq<Byte> {
    match disk.file
    case None => []
    case Some(data) => data
  }

  predicate NoNewline(line: seq<Byte>) {
    NEWLINE !in line
  }

  predicate Complete(data: seq<Byte>) {
    data == [] || data[|data| - 1] == NEWLINE
  }

  function FirstNewline(data: seq<Byte>): (i: nat)
    requires NEWLINE in data
    ensures i < |data| && data[i] == NEWLINE && NoNewline(data[..i])
  {
    if data[0] == NEWLINE then 0 else
      var i := FirstNewline(data[1..]);
      assert data[..i + 1] == [data[0]] + data[1..][..i];
      i + 1
  }

  /** The records of a complete journal, without their newlines. */
  function Lines(data: seq<Byte>): (lines: seq<seq<Byte>>)
    requires Complete(data)
    decreases |data|
  {
    if data == [] then [] else
      var i := FirstNewline(data);
      assert Complete(data[i + 1..]);
      [data[..i]] + Lines(data[i + 1..])
  }

  /** The journal up to and including its last newline. */
  function Committed(data: seq<Byte>): (complete: seq<Byte>)
    ensures Complete(complete) && complete <= data
  {
    if Complete(data) then data else Committed(data[..|data| - 1])
  }

  /** What a later incarnation reads: the committed records. */
  function Records(disk: Disk): seq<seq<Byte>> {
    Lines(Committed(Content(disk)))
  }

  function Flatten(lines: seq<seq<Byte>>): seq<Byte> {
    if lines == [] then [] else lines[0] + [NEWLINE] + Flatten(lines[1..])
  }

  // ----- splitting and joining -----

  lemma {:induction false} FirstNewlineOf(line: seq<Byte>, rest: seq<Byte>)
    requires NoNewline(line)
    ensures NEWLINE in line + [NEWLINE] + rest
    ensures FirstNewline(line + [NEWLINE] + rest) == |line|
  {
    var data := line + [NEWLINE] + rest;
    assert data[|line|] == NEWLINE;
    var i := FirstNewline(data);
    assert forall j :: 0 <= j < |line| ==> data[j] == line[j] && line[j] in line;
    assert forall j :: 0 <= j < i ==> data[j] in data[..i];
  }

  lemma LinesHead(line: seq<Byte>, rest: seq<Byte>)
    requires NoNewline(line) && Complete(rest)
    ensures Complete(line + [NEWLINE] + rest)
    ensures Lines(line + [NEWLINE] + rest) == [line] + Lines(rest)
  {
    var data := line + [NEWLINE] + rest;
    FirstNewlineOf(line, rest);
    assert data[..|line|] == line && data[|line| + 1..] == rest;
  }

  /** The first record of a complete journal and the rest of it. */
  lemma SplitFirst(a: seq<Byte>) returns (line: seq<Byte>, rest: seq<Byte>)
    requires Complete(a) && a != []
    ensures a == line + [NEWLINE] + rest && NoNewline(line) && Complete(rest)
    ensures Lines(a) == [line] + Lines(rest)
  {
    var i := FirstNewline(a);
    line, rest := a[..i], a[i + 1..];
  }

  lemma ConcatAssoc<T>(a: seq<T>, b: seq<T>, c: seq<T>)
    ensures a + b + c == a + (b + c)
  {
  }

  lemma {:induction false} LinesConcat(a: seq<Byte>, b: seq<Byte>)
    requires Complete(a) && Complete(b)
    ensures Complete(a + b) && Lines(a + b) == Lines(a) + Lines(b)
    decreases |a|
  {
    if a == [] {
      assert a + b == b;
    } else {
      var line, rest := SplitFirst(a);
      LinesConcat(rest, b);
      LinesHead(line, rest + b);
      ConcatAssoc(line + [NEWLINE], rest, b);
      ConcatAssoc([line], Lines(rest), Lines(b));
    }
  }

  /** Reading back what compaction writes. */
  lemma {:induction false} LinesOfFlatten(lines: seq<seq<Byte>>)
    requires forall line :: line in lines ==> NoNewline(line)
    ensures Complete(Flatten(lines))
    ensures Lines(Flatten(lines)) == lines
  {
    if lines != [] {
      LinesOfFlatten(lines[1..]);
      LinesHead(lines[0], Flatten(lines[1..]));
    }
  }

  lemma {:induction false} CommittedDropsTorn(a: seq<Byte>, torn: seq<Byte>)
    requires Complete(a) && NoNewline(torn)
    ensures Committed(a + torn) == a
    decreases |torn|
  {
    if torn == [] {
      assert a + torn == a;
    } else {
      var last := |torn| - 1;
      assert torn[last] in torn;
      assert (a + torn)[..|a + torn| - 1] == a + torn[..last];
      CommittedDropsTorn(a, torn[..last]);
    }
  }

  /** A crash after any number of bytes of one append leaves exactly the records
      committed before it or those and the appended one. */
  lemma PartialAppend(data: seq<Byte>, line: seq<Byte>, k: nat)
    requires Complete(data) && NoNewline(line)
    requires k <= |line| + 1
    ensures Lines(Committed(data + (line + [NEWLINE])[..k])) ==
            if k <= |line| then Lines(data) else Lines(data) + [line]
  {
    if k <= |line| {
      assert (line + [NEWLINE])[..k] == line[..k];
      CommittedDropsTorn(data, line[..k]);
    } else {
      assert (line + [NEWLINE])[..k] == line + [NEWLINE] + [];
      LinesHead(line, []);
      LinesConcat(data, line + [NEWLINE] + []);
    }
  }

  // ----- operations -----

  function Poison(log: Log, how: Poisoning): Log {
    log.(poisoned := true,
         disk := Disk(if how == MarkedOnly then log.disk.file else None, log.disk.marker || how != RemovedOnly))
  }

  function Written(disk: Disk, bytes: seq<Byte>): Disk {
    disk.(file := Some(Content(disk) + bytes))
  }

  function Take(bytes: seq<Byte>, k: nat): seq<Byte> {
    if k <= |bytes| then bytes[..k] else bytes
  }

  /** append: commits one record, or poisons the journal. */
  function Append(log: Log, line: seq<Byte>, io: Io): Log {
    if log.poisoned || !log.enabled then log
    else match io
      case Done => log.(disk := Written(log.disk, line + [NEWLINE]), lines := log.lines + 1)
      case Failed(k, how) => Poison(log.(disk := Written(log.disk, Take(line + [NEWLINE], k))), how)
  }

  /** Whether append answers without a failure. */
  predicate Appended(log: Log, io: Io) {
    !log.poisoned && (log.enabled ==> io.Done?)
  }

  /** rewrite: renames a finished temporary file over the journal. */
  function Rewrite(log: Log, lines: seq<seq<Byte>>, io: Io): Log {
    if log.poisoned || !log.enabled then log
    else match io
      case Done => log.(disk := log.disk.(file := Some(Flatten(lines))), lines := |lines|)
      case Failed(_, how) => Poison(log, how)
  }

  function Fold<S>(state: S, apply: (S, seq<Byte>) -> Option<S>, lines: seq<seq<Byte>>): Option<S> {
    if lines == [] then Some(state)
    else match apply(state, lines[0])
      case None => None
      case Some(next) => Fold(next, apply, lines[1..])
  }

  lemma {:induction false} FoldConcat<S>(state: S, apply: (S, seq<Byte>) -> Option<S>, a: seq<seq<Byte>>, b: seq<seq<Byte>>)
    ensures Fold(state, apply, a + b) ==
            match Fold(state, apply, a) { case None => None case Some(mid) => Fold(mid, apply, b) }
  {
    if a == [] {
      assert a + b == b;
    } else {
      assert (a + b)[1..] == a[1..] + b;
      match apply(state, a[0])
      case None =>
      case Some(next) => FoldConcat(next, apply, a[1..], b);
    }
  }

  /** What replay answers for a directory: nothing it can prove, or the folded
      state of its committed records. */
  function Replayed<S>(disk: Disk, init: S, apply: (S, seq<Byte>) -> Option<S>): Option<S> {
    if disk.marker || |Content(disk)| > MAX_BYTES then None else Fold(init, apply, Records(disk))
  }

  /** The state replay has reached when it stops, at the end or at the record it
      rejects. */
  function Reached<S>(disk: Disk, init: S, apply: (S, seq<Byte>) -> Option<S>): S {
    if disk.marker || |Content(disk)| > MAX_BYTES then init else FoldPrefix(init, apply, Records(disk))
  }

  function FoldPrefix<S>(state: S, apply: (S, seq<Byte>) -> Option<S>, lines: seq<seq<Byte>>): S {
    if lines == [] || apply(state, lines[0]).None? then state
    else FoldPrefix(apply(state, lines[0]).value, apply, lines[1..])
  }

  lemma {:induction false} FoldPrefixIsFold<S>(state: S, apply: (S, seq<Byte>) -> Option<S>, lines: seq<seq<Byte>>)
    requires Fold(state, apply, lines).Some?
    ensures FoldPrefix(state, apply, lines) == Fold(state, apply, lines).value
  {
    if lines != [] {
      FoldPrefixIsFold(apply(state, lines[0]).value, apply, lines[1..]);
    }
  }

  /** The journal after replay: a rejected or oversized journal is poisoned, and
      a torn record is cut off before a later append could extend it. */
  function Opened<S>(disk: Disk, init: S, apply: (S, seq<Byte>) -> Option<S>, io: Io): Log {
    var how := if io.Failed? then io.how else MarkedAndRemoved;
    if disk.marker then Log(true, disk, 0, true)
    else if Replayed(disk, init, apply).None? then Poison(Log(true, disk, 0, false), how)
    else if Complete(Content(disk)) then Log(true, disk, |Records(disk)|, false)
    else if io.Done? then Log(true, disk.(file := Some(Committed(Content(disk)))), |Records(disk)|, false)
    else Poison(Log(true, disk, |Records(disk)|, false), how)
  }

  // ----- crashes -----

  /** Directories a crash while poisoning can leave, from the directory before. */
  predicate PoisonCrash(before: Disk, after: Disk) {
    after == before || after == before.(marker := true) || after == before.(file := None) || after == Disk(None, true)
  }

  /** Directories a crash during Append can leave. */
  ghost predicate AppendCrash(log: Log, line: seq<Byte>, after: Disk) {
    if log.poisoned || !log.enabled then after == log.disk
    else after == log.disk ||
         exists k: nat :: k <= |line| + 1 && PoisonCrash(Written(log.disk, Take(line + [NEWLINE], k)), after)
  }

  /** Directories a crash during Rewrite can leave: the rename is atomic. */
  predicate RewriteCrash(log: Log, lines: seq<seq<Byte>>, after: Disk) {
    if log.poisoned || !log.enabled then after == log.disk
    else PoisonCrash(log.disk, after) || after == log.disk.(file := Some(Flatten(lines)))
  }

  /** Directories a crash while opening can leave. */
  predicate OpenCrash(before: Disk, after: Disk) {
    || PoisonCrash(before, after)
    || (!before.marker && |Content(before)| <= MAX_BYTES && after == before.(file := Some(Committed(Content(before)))))
  }

  /** A directory a later incarnation obtains no record from. */
  predicate Silent(disk: Disk) {
    disk.marker || disk.file.None?
  }

  /** A live journal: its file holds exactly its counted, complete records. */
  predicate Healthy(log: Log) {
    log.enabled && !log.poisoned && !log.disk.marker && Complete(Content(log.disk)) && log.lines == |Records(log.disk)|
  }

  /** Every journal state the host can reach: without a path, poisoned and
      silent, or healthy. */
  predicate Sound(log: Log) {
    !log.enabled || (log.poisoned && Silent(log.disk)) || Healthy(log)
  }

  lemma CommittedComplete(data: seq<Byte>)
    requires Complete(data)
    ensures Committed(data) == data
  {
  }

  lemma WholeAppend(data: seq<Byte>, line: seq<Byte>)
    requires Complete(data) && NoNewline(line)
    ensures Complete(data + (line + [NEWLINE]))
    ensures Lines(Committed(data + (line + [NEWLINE]))) == Lines(data) + [line]
  {
    hide Lines, Committed, NoNewline;
    PartialAppend(data, line, |line| + 1);
    assert (line + [NEWLINE])[..|line| + 1] == line + [NEWLINE];
  }

  lemma AppendSound(log: Log, line: seq<Byte>, io: Io)
    requires Sound(log) && NoNewline(line)
    ensures Sound(Append(log, line, io))
    ensures !log.poisoned && log.enabled && io.Done? ==>
              Records(Append(log, line, io).disk) == Records(log.disk) + [line]
  {
    hide Lines, Committed, Complete, NoNewline;
    if !log.poisoned && log.enabled && io.Done? {
      CommittedComplete(Content(log.disk));
      WholeAppend(Content(log.disk), line);
    }
  }

  lemma RewriteSound(log: Log, lines: seq<seq<Byte>>, io: Io)
    requires Sound(log) && forall line :: line in lines ==> NoNewline(line)
    ensures Sound(Rewrite(log, lines, io))
    ensures !log.poisoned && log.enabled && io.Done? ==> Records(Rewrite(log, lines, io).disk) == lines
  {
    LinesOfFlatten(lines);
  }

  lemma OpenSound<S>(disk: Disk, init: S, apply: (S, seq<Byte>) -> Option<S>, io: Io)
    ensures Sound(Opened(disk, init, apply, io))
    ensures var log := Opened(disk, init, apply, io);
            !log.poisoned ==> Records(log.disk) == Records(disk) && Replayed(disk, init, apply).Some?
  {
  }

  /** Crash atomicity of append: a later incarnation reads the records before or
      after the one in progress, or nothing. */
  lemma AppendCrashAtomic(log: Log, line: seq<Byte>, after: Disk)
    requires Healthy(log) && NoNewline(line)
    requires AppendCrash(log, line, after)
    ensures Silent(after) || Records(after) == Records(log.disk) || Records(after) == Records(log.disk) + [line]
  {
    hide Lines, Committed, Complete, NoNewline;
    CommittedComplete(Content(log.disk));
    if after != log.disk {
      var k: nat :| k <= |line| + 1 && PoisonCrash(Written(log.disk, Take(line + [NEWLINE], k)), after);
      PartialAppend(Content(log.disk), line, k);
    }
  }

  lemma RewriteCrashAtomic(log: Log, lines: seq<seq<Byte>>, after: Disk)
    requires Healthy(log) && forall line :: line in lines ==> NoNewline(line)
    requires RewriteCrash(log, lines, after)
    ensures Silent(after) || Records(after) == Records(log.disk) || Records(after) == lines
  {
    LinesOfFlatten(lines);
  }

  lemma OpenCrashAtomic(before: Disk, after: Disk)
    requires OpenCrash(before, after)
    ensures Silent(after) || Records(after) == Records(before)
  {
  }

  /** A directory no record is read from replays to the initial state or is refused. */
  lemma SilentReplays<S>(disk: Disk, init: S, apply: (S, seq<Byte>) -> Option<S>)
    requires Silent(disk)
    ensures Replayed(disk, init, apply).None? || Replayed(disk, init, apply) == Some(init)
  {
  }

  // ----- the journal as the host mutates it -----

  class JournalFile {
    var enabled: bool
    var disk: Disk
    var lines: nat
    var poisoned: bool

    ghost function State(): Log
      reads this
    {
      Log(enabled, disk, lines, poisoned)
    }

    constructor ()
      ensures State() == Log(false, Disk(None, false), 0, false)
    {
      enabled, disk, lines, poisoned := false, Disk(None, false), 0, false;
    }

    method PoisonWith(how: Poisoning)
      modifies this
      ensures State() == Poison(old(State()), how)
    {
      poisoned := true;
      if how != RemovedOnly {
        disk := disk.(marker := true);
      }
      if how != MarkedOnly {
        disk := disk.(file := None);
      }
    }

    method AppendLine(line: seq<Byte>, io: Io) returns (ok: bool)
      modifies this
      ensures State() == Append(old(State()), line, io)
      ensures ok == Appended(old(State()), io)
    {
      if poisoned {
        return false;
      }
      if !enabled {
        return true;
      }
      match io {
        case Failed(k, how) =>
          disk := Written(disk, Take(line + [NEWLINE], k));
          PoisonWith(how);
          return false;
        case Done =>
          disk := Written(disk, line + [NEWLINE]);
          lines := lines + 1;
          return true;
      }
    }

    method RewriteLines(records: seq<seq<Byte>>, io: Io)
      modifies this
      ensures State() == Rewrite(old(State()), records, io)
    {
      if poisoned || !enabled {
        return;
      }
      var body: seq<Byte> := [];
      for i := 0 to |records|
        invariant unchanged(this)
        invariant body + Flatten(records[i..]) == Flatten(records)
      {
        body := body + (records[i] + [NEWLINE]);
        assert records[i..][1..] == records[i + 1..];
        assert body + Flatten(records[i + 1..]) == Flatten(records);
      }
      assert body == Flatten(records);
      match io {
        case Failed(_, how) => PoisonWith(how);
        case Done =>
          disk := disk.(file := Some(body));
          lines := |records|;
      }
    }

    /** replay over the directory a previous incarnation left. */
    method Replay<S>(left: Disk, init: S, apply: (S, seq<Byte>) -> Option<S>, io: Io) returns (state: S)
      modifies this
      ensures State() == Opened(left, init, apply, io)
      ensures state == Reached(left, init, apply)
    {
      enabled, disk, lines, poisoned := true, left, 0, false;
      state := init;
      if left.marker {
        poisoned := true;
        return;
      }
      var how := if io.Failed? then io.how else MarkedAndRemoved;
      var data := Content(left);
      if |data| > MAX_BYTES {
        PoisonWith(how);
        return;
      }
      var complete := Committed(data);
      var count := 0;
      var rest := complete;
      assert Records(left)[0..] == Records(left);
      while rest != []
        invariant enabled && disk == left && lines == 0 && !poisoned
        invariant Complete(rest) && count <= |Records(left)| && Lines(rest) == Records(left)[count..]
        invariant Fold(state, apply, Lines(rest)) == Fold(init, apply, Records(left))
        invariant FoldPrefix(state, apply, Lines(rest)) == FoldPrefix(init, apply, Records(left))
        decreases |rest|
      {
        var end := FirstNewline(rest);
        assert Complete(rest[end + 1..]);
        match apply(state, rest[..end]) {
          case None =>
            PoisonWith(how);
            return;
          case Some(next) =>
            state := next;
        }
        rest := rest[end + 1..];
        count := count + 1;
      }
      lines := count;
      if |complete| < |data| {
        if io.Failed? {
          PoisonWith(how);
        } else {
          disk := disk.(file := Some(complete));
        }
      }
    }
  }
}
