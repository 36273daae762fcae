/** Durable receipts (runtime/process_host_receipts.go): a bounded first-in
first-out index of authorizations, rebuilt by every host incarnation from its
journal. */
module Receipts {
  import opened Options
  import opened Journal

  /** processHostDurableOwnerLimit */
  const OWNER_LIMIT: nat := 4096

  datatype Owner = Owner(process: string, service: string, taskName: string, ambiguous: bool)

  datatype Record = Record(principal: string, executionID: string, process: string, service: string, taskName: string, ambiguous: bool)

  datatype Index = Index(values: map<string, Owner>, order: seq<string>)

  /** The index and its journal; `limit` is the bound on retained receipts. */
  datatype Owners = Owners(index: Index, log: Log)

  const EMPTY: Index := Index(map[], [])

  function Key(principal: string, executionID: string): string {
    principal + "\0" + executionID
  }

  predicate SameOwner(owner: Owner, record: Record) {
    owner.process == record.process && owner.service == record.service && owner.taskName == record.taskName
  }

  /** apply: adds one committed record. */
  function Apply(limit: nat, index: Index, record: Record): Index
    requires limit > 0
  {
    var key := Key(record.principal, record.executionID);
    if key in index.values then
      if record.ambiguous || !SameOwner(index.values[key], record)
      then index.(values := index.values[key := index.values[key].(ambiguous := true)])
      else index
    else
      var owner := Owner(record.process, record.service, record.taskName, record.ambiguous);
      if |index.order| >= limit
      then Index((index.values - {index.order[0]})[key := owner], index.order[1..] + [key])
      else Index(index.values[key := owner], index.order + [key])
  }

  /** next: the record a new owner commits, if it changes anything. */
  function Next(index: Index, record: Record): Option<Record> {
    var key := Key(record.principal, record.executionID);
    if key !in index.values then Some(record)
    else
      var existing := index.values[key];
      if existing.ambiguous || SameOwner(existing, record) then None
      else Some(record.(process := existing.process, service := existing.service, taskName := existing.taskName, ambiguous := true))
  }

  /** strings.Cut at the first NUL. */
  function Cut(key: string): (string, string) {
    if key == "" then ("", "")
    else if key[0] == '\0' then ("", key[1..])
    else var (before, after) := Cut(key[1..]); ([key[0]] + before, after)
  }

  function CompactRecord(key: string, owner: Owner): Record {
    var (principal, executionID) := Cut(key);
    Record(principal, executionID, owner.process, owner.service, owner.taskName, owner.ambiguous)
  }

  /** compact: the records the rewritten journal holds. */
  function Compacted(index: Index): seq<Record>
    requires forall key :: key in index.order ==> key in index.values
  {
    seq(|index.order|, i requires 0 <= i < |index.order| => CompactRecord(index.order[i], index.values[index.order[i]]))
  }

  /** The replay of one journal line: undecodable or incomplete records are rejected. */
  function ReplayLine(limit: nat, codec: Codec<Record>, index: Index, line: seq<Byte>): Option<Index>
    requires limit > 0
  {
    match codec.dec(line)
    case None => None
    case Some(record) => if record.principal == "" || record.executionID == "" then None else Some(Apply(limit, index, record))
  }

  function Replayer(limit: nat, codec: Codec<Record>): (Index, seq<Byte>) -> Option<Index>
    requires limit > 0
  {
    (index, line) => ReplayLine(limit, codec, index, line)
  }

  // ----- the index -----

  predicate Distinct(order: seq<string>) {
    forall i, j :: 0 <= i < j < |order| ==> order[i] != order[j]
  }

  /** The keys of the map are the first-in first-out order, without duplicates
      and within the limit. */
  ghost predicate WellFormed(limit: nat, index: Index) {
    && |index.order| <= limit
    && Distinct(index.order)
    && (forall key :: key in index.order <==> key in index.values)
    && (forall key :: key in index.order ==> '\0' in key)
  }

  lemma ApplyWellFormed(limit: nat, index: Index, record: Record)
    requires limit > 0 && WellFormed(limit, index)
    ensures WellFormed(limit, Apply(limit, index, record))
  {
    var key := Key(record.principal, record.executionID);
    assert key[|record.principal|] == '\0';
    if key !in index.values && |index.order| >= limit {
      var next := Apply(limit, index, record);
      assert index.order == [index.order[0]] + index.order[1..];
      forall k
        ensures k in next.order <==> k in next.values
      {
      }
    }
  }

  /** An ambiguity outlives every record as long as its receipt is retained. */
  lemma ApplyKeepsAmbiguity(limit: nat, index: Index, record: Record, key: string)
    requires limit > 0 && key in index.values && index.values[key].ambiguous
    requires WellFormed(limit, index)
    ensures key in Apply(limit, index, record).values ==> Apply(limit, index, record).values[key].ambiguous
  {
  }

  /** The receipt names the owner it has. */
  predicate Owns(owner: Owner, record: Record) {
    owner.process == record.process && owner.service == record.service && owner.taskName == record.taskName
  }

  /** What a changed authorization means: a first owner is stored as it is, a
      second different owner leaves the first one's fields and makes it
      ambiguous, and anything else changes nothing. */
  lemma NextMeaning(limit: nat, index: Index, record: Record)
    requires limit > 0 && WellFormed(limit, index) && !record.ambiguous
    ensures var key := Key(record.principal, record.executionID);
            var next := Next(index, record);
            (next.None? <==> Apply(limit, index, record) == index) &&
            (next.Some? ==> Apply(limit, index, next.value) == Apply(limit, index, record)) &&
            (key in index.values ==>
               var owner := index.values[key];
               Apply(limit, index, record).values ==
               index.values[key := owner.(ambiguous := owner.ambiguous || !Owns(owner, record))])
  {
    var key := Key(record.principal, record.executionID);
    if key in index.values {
      var owner := index.values[key];
      assert index.values[key := owner] == index.values;
      if !owner.ambiguous && !SameOwner(owner, record) {
        assert Apply(limit, index, record).values[key] != owner;
      }
    } else {
      var next := Apply(limit, index, record);
      assert key in next.values;
    }
  }

  lemma {:induction false} CutJoins(key: string)
    requires '\0' in key
    ensures Key(Cut(key).0, Cut(key).1) == key
  {
    if key[0] != '\0' {
      CutJoins(key[1..]);
      assert Key(Cut(key).0, Cut(key).1) == [key[0]] + Key(Cut(key[1..]).0, Cut(key[1..]).1);
    }
  }

  // ----- replay of a compacted journal -----

  /** A key whose compacted record replay accepts. */
  predicate Replayable(key: string) {
    Cut(key).0 != "" && Cut(key).1 != ""
  }

  /** Which receipts have a key that can be cut: the principal does not start with NUL,
      and the key does not end at its first NUL. */
  lemma ReplayableIff(principal: string, executionID: string)
    ensures Replayable(Key(principal, executionID)) <==>
            principal != "" && principal[0] != '\0' && ('\0' in principal || executionID != "")
  {
    CutParts(principal, executionID);
  }

  lemma {:induction false} CutParts(principal: string, executionID: string)
    ensures var (before, after) := Cut(Key(principal, executionID));
            && (before == "" <==> principal == "" || principal[0] == '\0')
            && (after == "" <==> '\0' !in principal && executionID == "")
    decreases |principal|
  {
    var key := Key(principal, executionID);
    if principal == "" {
      assert key == "\0" + executionID && key[1..] == executionID;
    } else if principal[0] == '\0' {
      assert key[0] == '\0' && key[1..] == principal[1..] + "\0" + executionID;
    } else {
      assert key[0] == principal[0] && key[1..] == Key(principal[1..], executionID);
      CutParts(principal[1..], executionID);
    }
  }

  function Prefix(index: Index, n: nat): Index
    requires n <= |index.order| && forall key :: key in index.order ==> key in index.values
  {
    Index(map key | key in index.order[..n] :: index.values[key], index.order[..n])
  }

  lemma FreshKey(limit: nat, index: Index, n: nat)
    requires WellFormed(limit, index) && n < |index.order|
    ensures index.order[n] in index.values && index.order[n] !in index.order[..n] && n < limit
  {
  }

  lemma PrefixGrows(index: Index, n: nat)
    requires n < |index.order| && forall key :: key in index.order ==> key in index.values
    ensures var key := index.order[n];
            Prefix(index, n + 1) == Index(Prefix(index, n).values[key := index.values[key]], Prefix(index, n).order + [key])
  {
    assert index.order[..n + 1] == index.order[..n] + [index.order[n]];
  }

  lemma PrefixStep(limit: nat, index: Index, n: nat)
    requires limit > 0 && WellFormed(limit, index) && n < |index.order|
    ensures Apply(limit, Prefix(index, n), CompactRecord(index.order[n], index.values[index.order[n]])) == Prefix(index, n + 1)
  {
    CutJoins(index.order[n]);
    FreshKey(limit, index, n);
    PrefixGrows(index, n);
  }

  /** The record of one retained receipt replays to one receipt more, or not at all. */
  lemma ReplayOne(limit: nat, codec: Codec<Record>, index: Index, n: nat)
    requires limit > 0 && codec.Faithful() && WellFormed(limit, index) && n < |index.order|
    ensures Replayer(limit, codec)(Prefix(index, n), codec.EncodeAll(Compacted(index))[n]) ==
            if Replayable(index.order[n]) then Some(Prefix(index, n + 1)) else None
  {
    if Replayable(index.order[n]) {
      PrefixStep(limit, index, n);
    }
  }

  ghost predicate RestReplayable(index: Index, n: nat) {
    forall i :: n <= i < |index.order| ==> Replayable(index.order[i])
  }

  lemma {:induction false} ReplayRest(limit: nat, codec: Codec<Record>, index: Index, n: nat)
    requires limit > 0 && codec.Faithful() && WellFormed(limit, index) && n <= |index.order|
    ensures Fold(Prefix(index, n), Replayer(limit, codec), codec.EncodeAll(Compacted(index))[n..]) ==
            if RestReplayable(index, n) then Some(index) else None
    decreases |index.order| - n
  {
    hide Replayer, Replayable, ReplayLine;
    var lines := codec.EncodeAll(Compacted(index));
    if n == |index.order| {
      assert Prefix(index, n) == index;
    } else {
      hide Prefix;
      assert lines[n..][0] == lines[n] && lines[n..][1..] == lines[n + 1..];
      ReplayOne(limit, codec, index, n);
      ReplayRest(limit, codec, index, n + 1);
    }
  }

  /** Compaction loses nothing exactly when every retained key can be cut into
      two non-empty halves; otherwise the next incarnation refuses the journal. */
  lemma CompactionRebuilds(limit: nat, codec: Codec<Record>, index: Index)
    requires limit > 0 && codec.Faithful() && WellFormed(limit, index)
    ensures Fold(EMPTY, Replayer(limit, codec), codec.EncodeAll(Compacted(index))) ==
            if forall key :: key in index.order ==> Replayable(key) then Some(index) else None
  {
    assert Prefix(index, 0) == EMPTY;
    var lines := codec.EncodeAll(Compacted(index));
    assert lines[0..] == lines;
    ReplayRest(limit, codec, index, 0);
  }

  // ----- operations on the index and its journal -----

  function Compact(codec: Codec<Record>, owners: Owners, io: Io): Owners
    requires forall key :: key in owners.index.order ==> key in owners.index.values
  {
    owners.(log := Rewrite(owners.log, codec.EncodeAll(Compacted(owners.index)), io))
  }

  /** store: commits, then authorizes, the owner of an accepted receipt. */
  function Store(limit: nat, codec: Codec<Record>, owners: Owners, record: Record, io: Io, compaction: Io): (next: Owners)
    requires limit > 0 && WellFormed(limit, owners.index)
    ensures WellFormed(limit, next.index)
  {
    match Next(owners.index, record)
    case None => owners
    case Some(committed) =>
      var log := Append(owners.log, codec.enc(committed), io);
      if !Appended(owners.log, io) then owners.(log := log)
      else
        ApplyWellFormed(limit, owners.index, committed);
        var stored := Owners(Apply(limit, owners.index, committed), log);
        if log.lines >= 2 * limit then Compact(codec, stored, compaction) else stored
  }

  /** open: replays the directory a previous incarnation left. */
  function Open(limit: nat, codec: Codec<Record>, disk: Disk, io: Io, compaction: Io): (next: Owners)
    requires limit > 0
    ensures WellFormed(limit, next.index)
  {
    var apply := Replayer(limit, codec);
    ReachedWellFormed(limit, codec, disk);
    var start := Owners(Reached(disk, EMPTY, apply), Opened(disk, EMPTY, apply, io));
    if start.log.lines > limit then Compact(codec, start, compaction) else start
  }

  lemma ReachedWellFormed(limit: nat, codec: Codec<Record>, disk: Disk)
    requires limit > 0
    ensures WellFormed(limit, Reached(disk, EMPTY, Replayer(limit, codec)))
  {
    PrefixWellFormed(limit, codec, EMPTY, Records(disk));
  }

  lemma {:induction false} PrefixWellFormed(limit: nat, codec: Codec<Record>, index: Index, lines: seq<seq<Byte>>)
    requires limit > 0 && WellFormed(limit, index)
    ensures WellFormed(limit, FoldPrefix(index, Replayer(limit, codec), lines))
    decreases lines
  {
    var apply := Replayer(limit, codec);
    if lines != [] && apply(index, lines[0]).Some? {
      ApplyWellFormed(limit, index, codec.dec(lines[0]).value);
      PrefixWellFormed(limit, codec, apply(index, lines[0]).value, lines[1..]);
    }
  }

  /** What storing a receipt makes of the index. A receipt of the same owner, or of an
      ambiguous one, changes nothing; one of another owner makes the first ambiguous; a
      new one is retained last, and of a full index the oldest is forgotten; and nothing
      changes when the record cannot be committed, which poisons the journal. */
  lemma StoreMeans(limit: nat, codec: Codec<Record>, owners: Owners, record: Record, io: Io, compaction: Io)
    requires limit > 0 && WellFormed(limit, owners.index) && !record.ambiguous
    ensures var index, next, key := owners.index, Store(limit, codec, owners, record, io, compaction), record.principal + "\0" + record.executionID;
            var oldest := if |index.order| < limit then {} else {index.order[0]};
            if key in index.values && (index.values[key].ambiguous || Owns(index.values[key], record)) then next == owners
            else if !Appended(owners.log, io) then next.index == index && next.log.poisoned
            else if key in index.values then next.index == Index(index.values[key := index.values[key].(ambiguous := true)], index.order)
            else
              && next.index.values == (index.values - oldest)[key := Owner(record.process, record.service, record.taskName, false)]
              && next.index.order == index.order[|oldest|..] + [key]
  {
    hide Append, Rewrite, Compacted, WellFormed, Apply, Next;
    NextIs(owners.index, record);
    if Next(owners.index, record).Some? {
      var committed := Next(owners.index, record).value;
      ApplyIs(limit, owners.index, committed);
      if !Appended(owners.log, io) {
        FailedAppend(owners.log, codec, committed, io);
      }
    }
  }

  /** What is committed for a receipt: nothing, itself, or its first owner made ambiguous. */
  lemma NextIs(index: Index, record: Record)
    ensures var key := record.principal + "\0" + record.executionID;
            Next(index, record) ==
            if key !in index.values then Some(record)
            else if index.values[key].ambiguous || Owns(index.values[key], record) then None
            else
              var first := index.values[key];
              Some(Record(record.principal, record.executionID, first.process, first.service, first.taskName, true))
  {
  }

  lemma ApplyIs(limit: nat, index: Index, record: Record)
    requires limit > 0 && WellFormed(limit, index)
    ensures var key := record.principal + "\0" + record.executionID;
            var oldest := if |index.order| < limit then {} else {index.order[0]};
            if key in index.values then
              record.ambiguous ==> Apply(limit, index, record) == Index(index.values[key := index.values[key].(ambiguous := true)], index.order)
            else
              && Apply(limit, index, record).values == (index.values - oldest)[key := Owner(record.process, record.service, record.taskName, record.ambiguous)]
              && Apply(limit, index, record).order == index.order[|oldest|..] + [key]
  {
    assert |index.order| < limit ==> index.values - {} == index.values;
  }

  lemma FailedAppend(log: Log, codec: Codec<Record>, record: Record, io: Io)
    requires !Appended(log, io)
    ensures Append(log, codec.enc(record), io).poisoned
  {
  }

  /** A receipt is read exactly while it is retained and its owner is not ambiguous. */
  lemma LoadIff(owners: Owners, principal: string, executionID: string, owner: Owner)
    requires !owners.log.poisoned
    ensures Load(owners, principal, executionID) == Some(owner) <==>
            principal + "\0" + executionID in owners.index.values && owners.index.values[principal + "\0" + executionID] == owner && !owner.ambiguous
  {
  }

  /** load: the authorized owner of a receipt, None when it reads as not found;
      a poisoned journal fails instead. */
  function Load(owners: Owners, principal: string, executionID: string): Option<Owner>
    requires !owners.log.poisoned
  {
    var key := Key(principal, executionID);
    if key in owners.index.values && !owners.index.values[key].ambiguous then Some(owners.index.values[key]) else None
  }

  // ----- the index refines its journal -----

  /** A receipt whose records every later incarnation accepts. */
  predicate Storable(record: Record) {
    record.principal != "" && record.principal[0] != '\0' && record.executionID != ""
  }

  predicate Named(record: Record) {
    record.principal != "" && record.executionID != ""
  }

  /** The records of a journal every one of which replay accepts. */
  predicate Acceptable(codec: Codec<Record>, lines: seq<seq<Byte>>) {
    forall i :: 0 <= i < |lines| ==> codec.dec(lines[i]).Some? && Named(codec.dec(lines[i]).value)
  }

  /** Replaying the records rebuilds the index, or is refused because of a record
      that names no principal or execution. */
  ghost predicate Rebuilds(limit: nat, codec: Codec<Record>, lines: seq<seq<Byte>>, index: Index)
    requires limit > 0
  {
    Fold(EMPTY, Replayer(limit, codec), lines) == if Acceptable(codec, lines) then Some(index) else None
  }

  ghost predicate AllReplayable(index: Index) {
    forall key :: key in index.order ==> Replayable(key)
  }

  /** In every state the journal is poisoned and silent, or it holds fewer than
      twice the limit of records and replaying it rebuilds the index unless one
      of them is refused.  In a `strict` session, which stores only storable
      receipts, none is. */
  ghost predicate Refines(limit: nat, codec: Codec<Record>, strict: bool, owners: Owners)
    requires limit > 0
  {
    && WellFormed(limit, owners.index)
    && Sound(owners.log) && owners.log.enabled
    && (!owners.log.poisoned ==>
          && owners.log.lines < 2 * limit
          && Rebuilds(limit, codec, Records(owners.log.disk), owners.index)
          && (strict ==> AllReplayable(owners.index) && Acceptable(codec, Records(owners.log.disk))))
  }

  lemma ApplyReplayable(limit: nat, index: Index, record: Record)
    requires limit > 0 && Storable(record) && AllReplayable(index)
    ensures AllReplayable(Apply(limit, index, record))
  {
    ReplayableIff(record.principal, record.executionID);
  }

  /** One more committed record. */
  lemma RebuildsMore(limit: nat, codec: Codec<Record>, lines: seq<seq<Byte>>, index: Index, record: Record)
    requires limit > 0 && codec.Faithful() && Rebuilds(limit, codec, lines, index)
    ensures Rebuilds(limit, codec, lines + [codec.enc(record)], Apply(limit, index, record))
    ensures Acceptable(codec, lines + [codec.enc(record)]) <==> Acceptable(codec, lines) && Named(record)
  {
    var line := codec.enc(record);
    FoldConcat(EMPTY, Replayer(limit, codec), lines, [line]);
    assert (lines + [line])[|lines|] == line;
    assert forall i :: 0 <= i < |lines| ==> (lines + [line])[i] == lines[i];
    assert Fold(index, Replayer(limit, codec), [line]) == Replayer(limit, codec)(index, line);
  }

  lemma CompactedRebuilds(limit: nat, codec: Codec<Record>, index: Index)
    requires limit > 0 && codec.Faithful() && WellFormed(limit, index)
    ensures Rebuilds(limit, codec, codec.EncodeAll(Compacted(index)), index)
    ensures Acceptable(codec, codec.EncodeAll(Compacted(index))) <==> AllReplayable(index)
  {
    CompactionRebuilds(limit, codec, index);
    var lines := codec.EncodeAll(Compacted(index));
    forall i | 0 <= i < |lines|
      ensures codec.dec(lines[i]).Some? && (Named(codec.dec(lines[i]).value) <==> Replayable(index.order[i]))
    {
      assert codec.dec(lines[i]) == Some(Compacted(index)[i]);
    }
  }

  lemma CompactRefines(limit: nat, codec: Codec<Record>, strict: bool, owners: Owners, io: Io)
    requires limit > 0 && codec.Faithful() && WellFormed(limit, owners.index)
    requires strict && !owners.log.poisoned ==> AllReplayable(owners.index)
    requires Sound(owners.log) && owners.log.enabled
    ensures Refines(limit, codec, strict, Compact(codec, owners, io))
  {
    RewriteSound(owners.log, codec.EncodeAll(Compacted(owners.index)), io);
    CompactedRebuilds(limit, codec, owners.index);
  }

  lemma NextIsNamed(index: Index, record: Record)
    requires Next(index, record).Some?
    ensures var next := Next(index, record).value;
            next.principal == record.principal && next.executionID == record.executionID
  {
  }

  lemma StoreRefines(limit: nat, codec: Codec<Record>, strict: bool, owners: Owners, record: Record, io: Io, compaction: Io)
    requires limit > 0 && codec.Faithful() && Refines(limit, codec, strict, owners)
    requires strict ==> Storable(record)
    ensures Refines(limit, codec, strict, Store(limit, codec, owners, record, io, compaction))
  {
    hide Rebuilds, Acceptable, AllReplayable, WellFormed;
    match Next(owners.index, record)
    case None =>
    case Some(committed) =>
      NextIsNamed(owners.index, record);
      AppendSound(owners.log, codec.enc(committed), io);
      if Appended(owners.log, io) {
        RebuildsMore(limit, codec, Records(owners.log.disk), owners.index, committed);
        ApplyWellFormed(limit, owners.index, committed);
        if strict {
          ApplyReplayable(limit, owners.index, committed);
        }
        var log := Append(owners.log, codec.enc(committed), io);
        if log.lines >= 2 * limit {
          CompactRefines(limit, codec, strict, Owners(Apply(limit, owners.index, committed), log), compaction);
        }
      }
  }

  /** The keys an index retains with one more receipt: the oldest goes past the limit. */
  function RetainedKeys(limit: nat, index: Index, key: string): seq<string> {
    if key in index.values then index.order
    else (if index.order != [] && |index.order| >= limit then index.order[1..] else index.order) + [key]
  }

  lemma ApplyRetains(limit: nat, index: Index, record: Record)
    requires limit > 0
    ensures Apply(limit, index, record).order == RetainedKeys(limit, index, Key(record.principal, record.executionID))
  {
  }

  /** Exactly when a committed receipt leaves a journal the next incarnation rebuilds: it
      names a principal and an execution, or, when the commit compacts the journal, every
      key then retained can be cut into two non-empty halves.  Otherwise the next
      incarnation refuses every receipt. */
  lemma StoreRebuildsIff(limit: nat, codec: Codec<Record>, owners: Owners, record: Record, io: Io, compaction: Io)
    requires limit > 0 && codec.Faithful() && Refines(limit, codec, false, owners) && !owners.log.poisoned
    requires Acceptable(codec, Records(owners.log.disk)) && Next(owners.index, record).Some? && io.Done? && compaction.Done?
    ensures var accepted := if owners.log.lines + 1 < 2 * limit then Named(record)
                            else forall key :: key in RetainedKeys(limit, owners.index, Key(record.principal, record.executionID)) ==> Replayable(key);
            var next := Store(limit, codec, owners, record, io, compaction);
            Fold(EMPTY, Replayer(limit, codec), Records(next.log.disk)) == if accepted then Some(next.index) else None
  {
    hide Acceptable, WellFormed, Named, Store, Apply, Next, Replayer, Replayable;
    var committed := Next(owners.index, record).value;
    NextIsNamed(owners.index, record);
    SameNames(committed, record);
    ApplyRetains(limit, owners.index, committed);
    AppendSound(owners.log, codec.enc(committed), io);
    RebuildsMore(limit, codec, Records(owners.log.disk), owners.index, committed);
    StoreShape(limit, codec, owners, record, io, compaction);
    var log, index := Append(owners.log, codec.enc(committed), io), Apply(limit, owners.index, committed);
    if log.lines >= 2 * limit {
      RewriteSound(log, codec.EncodeAll(Compacted(index)), compaction);
      CompactedRebuilds(limit, codec, index);
    }
  }

  lemma StoreShape(limit: nat, codec: Codec<Record>, owners: Owners, record: Record, io: Io, compaction: Io)
    requires limit > 0 && WellFormed(limit, owners.index) && !owners.log.poisoned && io.Done? && Next(owners.index, record).Some?
    ensures var committed := Next(owners.index, record).value;
            var stored := Owners(Apply(limit, owners.index, committed), Append(owners.log, codec.enc(committed), io));
            && WellFormed(limit, stored.index) && (forall key :: key in stored.index.order ==> key in stored.index.values)
            && Store(limit, codec, owners, record, io, compaction) ==
               if stored.log.lines >= 2 * limit then Compact(codec, stored, compaction) else stored
  {
    ApplyWellFormed(limit, owners.index, Next(owners.index, record).value);
  }

  lemma SameNames(a: Record, b: Record)
    requires a.principal == b.principal && a.executionID == b.executionID
    ensures Named(a) == Named(b)
  {
  }

  /** A directory a crashed or stopped incarnation can leave: its journal as it
      was, or as one interrupted store left it. */
  ghost predicate Left(limit: nat, codec: Codec<Record>, strict: bool, owners: Owners, after: Disk)
    requires limit > 0 && WellFormed(limit, owners.index)
  {
    || after == owners.log.disk
    || exists record, io :: StoreCrash(limit, codec, strict, owners, record, io, after)
  }

  ghost predicate StoreCrash(limit: nat, codec: Codec<Record>, strict: bool, owners: Owners, record: Record, io: Io, after: Disk)
    requires limit > 0 && WellFormed(limit, owners.index)
  {
    && (strict ==> Storable(record))
    && Next(owners.index, record).Some?
    && var committed := Next(owners.index, record).value;
       var log := Append(owners.log, codec.enc(committed), io);
       || AppendCrash(owners.log, codec.enc(committed), after)
       || (Appended(owners.log, io) && log.lines >= 2 * limit &&
           (ApplyWellFormed(limit, owners.index, committed);
            RewriteCrash(log, codec.EncodeAll(Compacted(Apply(limit, owners.index, committed))), after)))
  }

  /** What the next incarnation makes of a directory. */
  ghost function Found(limit: nat, codec: Codec<Record>, disk: Disk): Option<Index>
    requires limit > 0
  {
    Replayed(disk, EMPTY, Replayer(limit, codec))
  }

  /** The receipts a step can change: none, one applied record, or all forgotten. */
  ghost predicate Evolves(limit: nat, strict: bool, before: Index, after: Index)
    requires limit > 0
  {
    after == before || after == EMPTY || exists record :: (strict ==> Storable(record)) && after == Apply(limit, before, record)
  }

  lemma FoundRebuilds(limit: nat, codec: Codec<Record>, disk: Disk, index: Index)
    requires limit > 0 && Rebuilds(limit, codec, Records(disk), index) && Found(limit, codec, disk).Some?
    ensures Found(limit, codec, disk) == Some(index)
  {
  }

  /** After a crash anywhere in a store, replay yields the index before or after
      the record in progress, or authorizes nothing. */
  lemma CrashAtomic(limit: nat, codec: Codec<Record>, strict: bool, owners: Owners, after: Disk)
    requires limit > 0 && codec.Faithful() && Refines(limit, codec, strict, owners)
    requires Left(limit, codec, strict, owners, after)
    ensures var found := Found(limit, codec, after);
            && (found.Some? ==> Evolves(limit, strict, owners.index, found.value))
            && (owners.log.poisoned ==> found.None? || found == Some(EMPTY))
  {
    if Silent(after) {
      SilentReplays(after, EMPTY, Replayer(limit, codec));
    } else if after == owners.log.disk {
      SameIsFound(limit, codec, strict, owners);
    } else {
      var record, io :| StoreCrash(limit, codec, strict, owners, record, io, after);
      StoreCrashAtomic(limit, codec, strict, owners, record, io, after);
    }
  }

  lemma SameIsFound(limit: nat, codec: Codec<Record>, strict: bool, owners: Owners)
    requires limit > 0 && Refines(limit, codec, strict, owners) && !Silent(owners.log.disk)
    ensures !owners.log.poisoned
    ensures Found(limit, codec, owners.log.disk).Some? ==> Found(limit, codec, owners.log.disk) == Some(owners.index)
  {
  }

  lemma StoreCrashAtomic(limit: nat, codec: Codec<Record>, strict: bool, owners: Owners, record: Record, io: Io, after: Disk)
    requires limit > 0 && codec.Faithful() && Refines(limit, codec, strict, owners)
    requires StoreCrash(limit, codec, strict, owners, record, io, after) && !Silent(after)
    ensures !owners.log.poisoned
    ensures Found(limit, codec, after).Some? ==> Evolves(limit, strict, owners.index, Found(limit, codec, after).value)
  {
    hide Rebuilds, Found, Acceptable, AllReplayable, WellFormed;
    var committed := Next(owners.index, record).value;
    var line, index := codec.enc(committed), Apply(limit, owners.index, committed);
    NextIsNamed(owners.index, record);
    assert !owners.log.poisoned;
    RebuildsMore(limit, codec, Records(owners.log.disk), owners.index, committed);
    if AppendCrash(owners.log, line, after) {
      AppendCrashAtomic(owners.log, line, after);
    } else {
      var log := Append(owners.log, line, io);
      AppendSound(owners.log, line, io);
      ApplyWellFormed(limit, owners.index, committed);
      RewriteCrashAtomic(log, codec.EncodeAll(Compacted(index)), after);
      CompactedRebuilds(limit, codec, index);
    }
    if Found(limit, codec, after).Some? {
      if Records(after) == Records(owners.log.disk) {
        FoundRebuilds(limit, codec, after, owners.index);
      } else {
        FoundRebuilds(limit, codec, after, index);
      }
    }
  }

  lemma OpenRefines(limit: nat, codec: Codec<Record>, strict: bool, disk: Disk, io: Io, compaction: Io)
    requires limit > 0 && codec.Faithful()
    requires strict && Found(limit, codec, disk).Some? ==> AllReplayable(Found(limit, codec, disk).value)
    ensures Refines(limit, codec, strict, Open(limit, codec, disk, io, compaction))
  {
    var apply := Replayer(limit, codec);
    ReachedWellFormed(limit, codec, disk);
    OpenSound(disk, EMPTY, apply, io);
    var start := Owners(Reached(disk, EMPTY, apply), Opened(disk, EMPTY, apply, io));
    if !start.log.poisoned {
      FoldPrefixIsFold(EMPTY, apply, Records(disk));
      FoldedIsAcceptable(limit, codec, EMPTY, Records(disk));
    }
    if start.log.lines > limit {
      CompactRefines(limit, codec, strict, start, compaction);
    }
  }

  lemma {:induction false} FoldedIsAcceptable(limit: nat, codec: Codec<Record>, index: Index, lines: seq<seq<Byte>>)
    requires limit > 0 && Fold(index, Replayer(limit, codec), lines).Some?
    ensures Acceptable(codec, lines)
    decreases lines
  {
    if lines != [] {
      FoldedIsAcceptable(limit, codec, Replayer(limit, codec)(index, lines[0]).value, lines[1..]);
      assert forall i :: 0 < i < |lines| ==> lines[i] == lines[1..][i - 1];
    }
  }

  // ----- whole histories -----

  /** A session's receipts: held by a running host, or left by a crashed one. */
  datatype World = Up(owners: Owners) | Down(disk: Disk)

  ghost predicate Stores(limit: nat, codec: Codec<Record>, strict: bool, owners: Owners, next: Owners)
    requires limit > 0 && WellFormed(limit, owners.index)
  {
    exists record, io, compaction :: (strict ==> Storable(record)) && next == Store(limit, codec, owners, record, io, compaction)
  }

  ghost predicate Step(limit: nat, codec: Codec<Record>, strict: bool, before: World, after: World)
    requires limit > 0
  {
    match before
    case Up(owners) =>
      && WellFormed(limit, owners.index)
      && match after {
           case Up(next) => Stores(limit, codec, strict, owners, next)
           case Down(disk) => Left(limit, codec, strict, owners, disk)
         }
    case Down(disk) =>
      match after
      case Up(next) => exists io, compaction :: next == Open(limit, codec, disk, io, compaction)
      case Down(left) => OpenCrash(disk, left) || exists io :: OpenCompactionCrash(limit, codec, disk, io, left)
  }

  ghost predicate OpenCompactionCrash(limit: nat, codec: Codec<Record>, disk: Disk, io: Io, left: Disk)
    requires limit > 0
  {
    var apply := Replayer(limit, codec);
    ReachedWellFormed(limit, codec, disk);
    RewriteCrash(Opened(disk, EMPTY, apply, io), codec.EncodeAll(Compacted(Reached(disk, EMPTY, apply))), left)
  }

  /** What a world authorizes: nothing, or the receipts of an index. */
  ghost function Known(limit: nat, codec: Codec<Record>, world: World): Option<Index>
    requires limit > 0
  {
    match world
    case Up(owners) => if owners.log.poisoned then None else Some(owners.index)
    case Down(disk) => Found(limit, codec, disk)
  }

  ghost predicate Good(limit: nat, codec: Codec<Record>, strict: bool, world: World)
    requires limit > 0
  {
    match world
    case Up(owners) => Refines(limit, codec, strict, owners)
    case Down(disk) =>
      var found := Found(limit, codec, disk);
      found.Some? ==> WellFormed(limit, found.value) && (strict ==> AllReplayable(found.value))
  }

  /** A history of stores, crashes at any byte and restarts, from an empty directory. */
  ghost predicate Behavior(limit: nat, codec: Codec<Record>, strict: bool, worlds: seq<World>)
    requires limit > 0
  {
    && |worlds| > 0 && worlds[0] == Down(Disk(None, false))
    && forall i, j :: 0 <= i < j < |worlds| && j == i + 1 ==> Step(limit, codec, strict, worlds[i], worlds[j])
  }

  /** What a step makes of the authorized receipts; where nothing was authorized,
      nothing is. */
  ghost predicate Moves(limit: nat, strict: bool, before: Option<Index>, after: Option<Index>)
    requires limit > 0
  {
    after.Some? ==> if before.Some? then Evolves(limit, strict, before.value, after.value) else after.value == EMPTY
  }

  lemma StepGood(limit: nat, codec: Codec<Record>, strict: bool, before: World, after: World)
    requires limit > 0 && codec.Faithful() && Good(limit, codec, strict, before) && Step(limit, codec, strict, before, after)
    ensures Good(limit, codec, strict, after)
    ensures Moves(limit, strict, Known(limit, codec, before), Known(limit, codec, after))
  {
    hide Refines, AllReplayable, Evolves;
    match before
    case Up(owners) =>
      if after.Up? {
        StoreStep(limit, codec, strict, owners, after.owners);
      } else {
        CrashStep(limit, codec, strict, owners, after.disk);
      }
    case Down(disk) =>
      if after.Up? {
        var io, compaction :| after.owners == Open(limit, codec, disk, io, compaction);
        OpenRefines(limit, codec, strict, disk, io, compaction);
        OpenKnown(limit, codec, disk, io, compaction);
        EvolvesSame(limit, strict, after.owners.index);
      } else {
        ReopenStep(limit, codec, strict, disk, after.disk);
      }
  }

  lemma EvolvesSame(limit: nat, strict: bool, index: Index)
    requires limit > 0
    ensures Evolves(limit, strict, index, index)
  {
  }

  lemma StoreStep(limit: nat, codec: Codec<Record>, strict: bool, owners: Owners, next: Owners)
    requires limit > 0 && codec.Faithful() && Refines(limit, codec, strict, owners)
    requires Stores(limit, codec, strict, owners, next)
    ensures Refines(limit, codec, strict, next)
    ensures Moves(limit, strict, Known(limit, codec, Up(owners)), Known(limit, codec, Up(next)))
  {
    hide Rebuilds, Acceptable, Storable;
    var record, io, compaction :| (strict ==> Storable(record)) && next == Store(limit, codec, owners, record, io, compaction);
    StoreRefines(limit, codec, strict, owners, record, io, compaction);
    match Next(owners.index, record)
    case None =>
    case Some(committed) =>
      NextIsNamed(owners.index, record);
      assert strict ==> Storable(committed) by {
        SameStorable(committed, record);
      }
  }

  lemma SameStorable(a: Record, b: Record)
    requires a.principal == b.principal && a.executionID == b.executionID
    ensures Storable(a) == Storable(b)
  {
  }

  lemma CrashStep(limit: nat, codec: Codec<Record>, strict: bool, owners: Owners, after: Disk)
    requires limit > 0 && codec.Faithful() && Refines(limit, codec, strict, owners)
    requires Left(limit, codec, strict, owners, after)
    ensures Good(limit, codec, strict, Down(after))
    ensures Moves(limit, strict, Known(limit, codec, Up(owners)), Known(limit, codec, Down(after)))
  {
    CrashAtomic(limit, codec, strict, owners, after);
    var found := Found(limit, codec, after);
    if found.Some? && found.value != owners.index && found.value != EMPTY {
      var record :| (strict ==> Storable(record)) && found.value == Apply(limit, owners.index, record);
      ApplyWellFormed(limit, owners.index, record);
      if strict {
        ApplyReplayable(limit, owners.index, record);
      }
    }
  }

  lemma OpenKnown(limit: nat, codec: Codec<Record>, disk: Disk, io: Io, compaction: Io)
    requires limit > 0
    ensures var next := Open(limit, codec, disk, io, compaction);
            !next.log.poisoned ==> Found(limit, codec, disk) == Some(next.index)
  {
    var apply := Replayer(limit, codec);
    OpenSound(disk, EMPTY, apply, io);
    if Replayed(disk, EMPTY, apply).Some? {
      FoldPrefixIsFold(EMPTY, apply, Records(disk));
    }
  }

  lemma ReopenStep(limit: nat, codec: Codec<Record>, strict: bool, disk: Disk, left: Disk)
    requires limit > 0 && codec.Faithful() && Good(limit, codec, strict, Down(disk))
    requires Step(limit, codec, strict, Down(disk), Down(left))
    ensures Good(limit, codec, strict, Down(left))
    ensures Moves(limit, strict, Found(limit, codec, disk), Found(limit, codec, left))
  {
    ReopenFound(limit, codec, disk, left);
  }

  lemma ReopenFound(limit: nat, codec: Codec<Record>, disk: Disk, left: Disk)
    requires limit > 0 && codec.Faithful() && (OpenCrash(disk, left) || exists io :: OpenCompactionCrash(limit, codec, disk, io, left))
    ensures var before, after := Found(limit, codec, disk), Found(limit, codec, left);
            after.None? || after == Some(EMPTY) || after == before
  {
    var apply := Replayer(limit, codec);
    if Silent(left) {
      SilentReplays(left, EMPTY, apply);
    } else if OpenCrash(disk, left) {
      OpenCrashAtomic(disk, left);
    } else {
      var io :| OpenCompactionCrash(limit, codec, disk, io, left);
      OpenSound(disk, EMPTY, apply, io);
      var log, index := Opened(disk, EMPTY, apply, io), Reached(disk, EMPTY, apply);
      ReachedWellFormed(limit, codec, disk);
      if Healthy(log) {
        FoldPrefixIsFold(EMPTY, apply, Records(disk));
        RewriteCrashAtomic(log, codec.EncodeAll(Compacted(index)), left);
        CompactionRebuilds(limit, codec, index);
      }
    }
  }

  /** In every state of every history a running host's index is exactly what its
      journal would rebuild, within its bounds, unless the journal holds a record
      the next incarnation refuses; in a strict history it holds none. */
  lemma {:induction false} HistoryRefines(limit: nat, codec: Codec<Record>, strict: bool, worlds: seq<World>, i: nat)
    requires limit > 0 && codec.Faithful() && Behavior(limit, codec, strict, worlds)
    requires i < |worlds|
    ensures Good(limit, codec, strict, worlds[i])
  {
    hide Step, Good;
    if i == 0 {
      EmptyIsGood(limit, codec, strict);
    } else {
      HistoryRefines(limit, codec, strict, worlds, i - 1);
      assert Step(limit, codec, strict, worlds[i - 1], worlds[i]);
      StepGood(limit, codec, strict, worlds[i - 1], worlds[i]);
    }
  }

  lemma EmptyIsGood(limit: nat, codec: Codec<Record>, strict: bool)
    requires limit > 0
    ensures Good(limit, codec, strict, Down(Disk(None, false)))
  {
  }

  /** A receipt the world can no longer authorize: nothing is, or it is ambiguous. */
  ghost predicate Withdrawn(known: Option<Index>, key: string) {
    known.Some? ==> key in known.value.values && known.value.values[key].ambiguous
  }

  /** A receipt once ambiguous is never authorized again, across any number of
      stores, crashes, restarts, refused journals and compactions, until the
      bound forgets it. */
  lemma {:induction false} AmbiguityIsForever(limit: nat, codec: Codec<Record>, strict: bool, worlds: seq<World>, i: nat, j: nat, key: string)
    requires limit > 0 && codec.Faithful() && Behavior(limit, codec, strict, worlds)
    requires i <= j < |worlds|
    requires forall k :: i <= k <= j && Known(limit, codec, worlds[k]).Some? ==> key in Known(limit, codec, worlds[k]).value.values
    requires Withdrawn(Known(limit, codec, worlds[i]), key)
    ensures Withdrawn(Known(limit, codec, worlds[j]), key)
    decreases j - i
  {
    hide Step, Good, Known, Moves, Withdrawn;
    if i < j {
      AmbiguityIsForever(limit, codec, strict, worlds, i, j - 1, key);
      HistoryRefines(limit, codec, strict, worlds, j - 1);
      assert Step(limit, codec, strict, worlds[j - 1], worlds[j]);
      StepGood(limit, codec, strict, worlds[j - 1], worlds[j]);
      KnownIsWellFormed(limit, codec, strict, worlds[j - 1]);
      StaysWithdrawn(limit, strict, Known(limit, codec, worlds[j - 1]), Known(limit, codec, worlds[j]), key);
    }
  }

  lemma KnownIsWellFormed(limit: nat, codec: Codec<Record>, strict: bool, world: World)
    requires limit > 0 && Good(limit, codec, strict, world)
    ensures Known(limit, codec, world).Some? ==> WellFormed(limit, Known(limit, codec, world).value)
  {
  }

  lemma StaysWithdrawn(limit: nat, strict: bool, before: Option<Index>, after: Option<Index>, key: string)
    requires limit > 0 && (before.Some? ==> WellFormed(limit, before.value)) && Moves(limit, strict, before, after)
    requires Withdrawn(before, key) && (after.Some? ==> key in after.value.values)
    ensures Withdrawn(after, key)
  {
    if before.Some? && after.Some? && after != before {
      var record :| (strict ==> Storable(record)) && after.value == Apply(limit, before.value, record);
      ApplyKeepsAmbiguity(limit, before.value, record, key);
    }
  }

  // ----- a principal that starts with NUL -----

  function Digits(n: nat): string {
    seq(n + 1, _ => 'x')
  }

  function Ordinary(n: nat): Record {
    Record("p", Digits(n), "process", "service", "task", false)
  }

  lemma OrdinaryKeys(n: nat)
    ensures Storable(Ordinary(n)) && |Key("p", Digits(n))| == n + 3
  {
  }

  /** Ordinary stores until one more record would compact the journal. */
  lemma {:induction false} Filled(limit: nat, codec: Codec<Record>, n: nat) returns (worlds: seq<World>, owners: Owners)
    requires limit > 0 && codec.Faithful() && n < 2 * limit
    ensures Behavior(limit, codec, true, worlds) && worlds[|worlds| - 1] == Up(owners)
    ensures Refines(limit, codec, true, owners) && !owners.log.poisoned && owners.log.lines == n
    ensures forall key :: key in owners.index.values ==> |key| < n + 3
  {
    if n == 0 {
      var start := Open(limit, codec, Disk(None, false), Done, Done);
      OpenedEmpty(limit, codec);
      OpenRefines(limit, codec, true, Disk(None, false), Done, Done);
      worlds, owners := [Down(Disk(None, false)), Up(start)], start;
      assert Step(limit, codec, true, worlds[0], worlds[1]);
    } else {
      var before, held := Filled(limit, codec, n - 1);
      owners := Store(limit, codec, held, Ordinary(n - 1), Done, Done);
      FillOne(limit, codec, held, n - 1);
      worlds := before + [Up(owners)];
      Longer(limit, codec, true, before, Up(owners));
    }
  }

  lemma OpenedEmpty(limit: nat, codec: Codec<Record>)
    requires limit > 0
    ensures Open(limit, codec, Disk(None, false), Done, Done) == Owners(EMPTY, Log(true, Disk(None, false), 0, false))
    ensures Found(limit, codec, Disk(None, false)) == Some(EMPTY)
  {
    assert Records(Disk(None, false)) == [];
  }

  lemma Longer(limit: nat, codec: Codec<Record>, strict: bool, worlds: seq<World>, next: World)
    requires limit > 0 && Behavior(limit, codec, strict, worlds) && Step(limit, codec, strict, worlds[|worlds| - 1], next)
    ensures Behavior(limit, codec, strict, worlds + [next])
  {
    hide Step;
  }

  lemma FillOne(limit: nat, codec: Codec<Record>, held: Owners, n: nat)
    requires limit > 0 && codec.Faithful() && Refines(limit, codec, true, held) && !held.log.poisoned && held.log.lines == n
    requires n + 1 < 2 * limit && forall key :: key in held.index.values ==> |key| < n + 3
    ensures var next := Store(limit, codec, held, Ordinary(n), Done, Done);
            && Refines(limit, codec, true, next) && !next.log.poisoned && next.log.lines == n + 1
            && (forall key :: key in next.index.values ==> |key| < n + 4)
            && Step(limit, codec, true, Up(held), Up(next))
  {
    OrdinaryKeys(n);
    StoreRefines(limit, codec, true, held, Ordinary(n), Done, Done);
    var next := Store(limit, codec, held, Ordinary(n), Done, Done);
    assert Stores(limit, codec, true, held, next);
  }

  /** A receipt whose principal starts with NUL passes every guard of the dispatcher and
      is committed; when that commit compacts the journal, the next incarnation refuses
      it, and with it every other receipt. */
  lemma NulPrincipalPoisons(codec: Codec<Record>) returns (worlds: seq<World>, owners: Owners)
    requires codec.Faithful()
    ensures Behavior(OWNER_LIMIT, codec, true, worlds) && worlds[|worlds| - 1] == Up(owners) && WellFormed(OWNER_LIMIT, owners.index)
    ensures var record := Record("\0p", "execution", "process", "service", "task", false);
            var stored := Store(OWNER_LIMIT, codec, owners, record, Done, Done);
            && Named(record) && !stored.log.poisoned && Key("\0p", "execution") in stored.index.values
            && Fold(EMPTY, Replayer(OWNER_LIMIT, codec), Records(stored.log.disk)).None?
  {
    worlds, owners := Filled(OWNER_LIMIT, codec, 2 * OWNER_LIMIT - 1);
    NulStore(OWNER_LIMIT, codec, owners);
  }

  lemma NulStore(limit: nat, codec: Codec<Record>, owners: Owners)
    requires limit > 0 && codec.Faithful() && Refines(limit, codec, true, owners) && !owners.log.poisoned && owners.log.lines + 1 == 2 * limit
    ensures var record := Record("\0p", "execution", "process", "service", "task", false);
            var stored := Store(limit, codec, owners, record, Done, Done);
            && !stored.log.poisoned && Key("\0p", "execution") in stored.index.values
            && Fold(EMPTY, Replayer(limit, codec), Records(stored.log.disk)).None?
  {
    var record, key := Record("\0p", "execution", "process", "service", "task", false), Key("\0p", "execution");
    NulIsNew(limit, codec, owners);
    assert Next(owners.index, record) == Some(record);
    hide Replayer, Records, Rebuilds, Acceptable, AllReplayable, Replayable, Fold;
    var kept := RetainedKeys(limit, owners.index, key);
    assert kept[|kept| - 1] == key;
    StoreRebuildsIff(limit, codec, owners, record, Done, Done);
    StoreShape(limit, codec, owners, record, Done, Done);
  }

  lemma NulIsNew(limit: nat, codec: Codec<Record>, owners: Owners)
    requires limit > 0 && Refines(limit, codec, true, owners) && !owners.log.poisoned
    ensures !Replayable(Key("\0p", "execution")) && Key("\0p", "execution") !in owners.index.values
    ensures Acceptable(codec, Records(owners.log.disk)) && Refines(limit, codec, false, owners)
  {
    ReplayableIff("\0p", "execution");
    assert Key("\0p", "execution") !in owners.index.order;
  }

  // ----- the index as the host mutates it -----

  /** processHostDurableOwners; its lock makes every method one atomic step. */
  class DurableOwners {
    const limit: nat
    const codec: Codec<Record>
    var values: map<string, Owner>
    var order: seq<string>
    const journal: JournalFile

    ghost function State(): Owners
      reads this, journal
    {
      Owners(Index(values, order), journal.State())
    }

    ghost predicate Valid()
      reads this
    {
      limit > 0 && WellFormed(limit, Index(values, order))
    }

    constructor (limit: nat, codec: Codec<Record>)
      requires limit > 0
      ensures Valid() && this.limit == limit && this.codec == codec && fresh(journal)
      ensures State() == Owners(EMPTY, Log(false, Disk(None, false), 0, false))
    {
      this.limit, this.codec := limit, codec;
      values, order := map[], [];
      journal := new JournalFile();
    }

    method CompactJournal(io: Io)
      requires Valid()
      modifies journal
      ensures State() == Compact(codec, old(State()), io)
    {
      var lines: seq<seq<Byte>> := [];
      ghost var all := codec.EncodeAll(Compacted(Index(values, order)));
      for i := 0 to |order|
        invariant unchanged(journal)
        invariant lines == all[..i]
      {
        lines := lines + [codec.enc(CompactRecord(order[i], values[order[i]]))];
      }
      assert lines == all;
      journal.RewriteLines(lines, io);
    }

    method ApplyRecord(record: Record)
      requires Valid()
      modifies this
      ensures Valid() && Index(values, order) == Apply(limit, old(Index(values, order)), record)
    {
      ApplyWellFormed(limit, Index(values, order), record);
      var key := Key(record.principal, record.executionID);
      if key in values {
        var existing := values[key];
        if record.ambiguous || existing.process != record.process || existing.service != record.service || existing.taskName != record.taskName {
          values := values[key := existing.(ambiguous := true)];
        }
        return;
      }
      if |order| >= limit {
        values := values - {order[0]};
        order := order[1..];
      }
      values := values[key := Owner(record.process, record.service, record.taskName, record.ambiguous)];
      order := order + [key];
    }

    method OpenFrom(left: Disk, io: Io, compaction: Io)
      requires Valid()
      modifies this, journal
      ensures Valid() && State() == Open(limit, codec, left, io, compaction)
    {
      ReachedWellFormed(limit, codec, left);
      var index := journal.Replay(left, EMPTY, Replayer(limit, codec), io);
      values, order := index.values, index.order;
      if journal.lines > limit {
        CompactJournal(compaction);
      }
    }

    /** The failure of a store is an unauthorized receipt, never a lost one. */
    method StoreOwner(principal: string, executionID: string, owner: Owner, io: Io, compaction: Io) returns (ok: bool)
      requires Valid()
      modifies this, journal
      ensures Valid()
      ensures State() == Store(limit, codec, old(State()),
                               Record(principal, executionID, owner.process, owner.service, owner.taskName, false), io, compaction)
      ensures ok ==> Key(principal, executionID) in values
    {
      var record := Record(principal, executionID, owner.process, owner.service, owner.taskName, false);
      var next := Next(Index(values, order), record);
      if next.None? {
        return true;
      }
      ApplyWellFormed(limit, Index(values, order), next.value);
      ok := journal.AppendLine(codec.enc(next.value), io);
      if !ok {
        return;
      }
      ApplyRecord(next.value);
      if journal.lines >= 2 * limit {
        CompactJournal(compaction);
      }
    }

    /** `available` is false when a poisoned journal authorizes nothing. */
    method LoadOwner(principal: string, executionID: string) returns (available: bool, owner: Option<Owner>)
      requires Valid()
      ensures available == !journal.poisoned
      ensures available ==> owner == Load(State(), principal, executionID)
    {
      if journal.poisoned {
        return false, None;
      }
      var key := Key(principal, executionID);
      if key in values && !values[key].ambiguous {
        return true, Some(values[key]);
      }
      return true, None;
    }
  }
}
