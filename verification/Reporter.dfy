/** The development reporter (runtime/devreport.go): producers that reserve bytes and
queue reports, and a sender that batches, posts and counts, in every interleaving. */
module Reporter {
  import opened Options

  const MAX_BATCH_REPORTS := 64
  const MAX_BATCH_BYTES := 1024 * 1024
  const MAX_ENVELOPE_BYTES := 64 * 1024
  const MAX_QUEUED_BYTES := 4 * 1024 * 1024
  const BATCH_WRAPPER_BYTES := 64
  const QUEUE_CAP := 1024

  /** One call of enqueue: its encoding's length, and whether it encodes at all. */
  datatype Report = Report(id: nat, size: nat, encodes: bool)

  /** How far a call of enqueue has come. */
  datatype Producer =
    | Offered
    | Enabled        // read disabled as false
    | Running        // read stop as open
    | Roomy          // read the queue as not full
    | Encoding       // read the bytes as below the budget
    | Waiting        // encoded; wants the admission lock
    | Locked
    | LockedEnabled
    | Loading
    | Loaded(used: int)
    | Reserved
    | Unreserved     // gave its bytes back; its drop is not yet counted

  datatype Verdict = Ok | Failed | Fatal

  /** Where the sender's loop stands. */
  datatype Sender =
    | Top
    | Filling(batch: seq<Report>)
    | Swapping(batch: seq<Report>)
    | Posting(batch: seq<Report>, drops: nat)
    | Releasing(batch: seq<Report>, drops: nat, verdict: Verdict, k: nat)
    | Disabling
    | Leaving
    | Locking
    | Closing
    | Emptying
    | Emptied(left: Report)
    | Gone

  datatype Mutex = Free | ByProducer(report: Report) | BySender

  /** The reporter's fields and the sender's variables. The last four are its history:
      the reports acknowledged, counted as dropped and refused, and the drop counts
      the server took. */
  datatype Core = Core(
    queue: seq<Report>, bytes: int, dropped: nat, disabled: bool, stopped: bool, mutex: Mutex, sender: Sender, pending: Option<Report>,
    acked: seq<Report>, counted: seq<Report>, refused: seq<Report>, delivered: nat)

  /** The reporter, its calls of enqueue under way, and the reports ever offered. */
  datatype State = State(core: Core, producers: map<Report, Producer>, offered: set<Report>)

  /** A reporter just started. */
  predicate Starts(s: State) {
    && |s.core.queue| == s.core.bytes == s.core.dropped == s.core.delivered == 0
    && !s.core.disabled && !s.core.stopped && s.core.mutex.Free? && s.core.sender.Top? && s.core.pending.None?
    && |s.core.acked| == |s.core.counted| == |s.core.refused| == 0
    && s.producers == map[] && s.offered == {}
  }

  /** A step of one call of enqueue. */
  datatype Act =
    Offer | Refuse | Advance | Overflow | Lock | Load | OverBudget | CompareAndSwap | Withdraw | Push | GiveBack | CountDrop

  /** Steps of the sender: gathering a batch, posting it, and leaving. */
  datatype Gather = TakePending | Receive | StopTop | Fill | HoldBack | FillDone

  datatype Post = SwapDropped | Posted(verdict: Verdict) | Release | Settle | GiveUp

  datatype Exit = ReleasePending | LockSender | Close | TakeLeft | SubtractLeft | Finish

  datatype Op = Gathers(gather: Gather) | Posts(post: Post) | Exits(exit: Exit)

  datatype Step = Call(report: Report, act: Act) | Loop(op: Op) | Disable | Stop

  // ----- producers -----

  function At(s: State, report: Report): Option<Producer> {
    if report in s.producers then Some(s.producers[report]) else None
  }

  /** A pass of one check of enqueue. */
  function Passed(c: Core, report: Report, at: Producer): Option<Producer> {
    match at
    case Offered => if c.disabled then None else Some(Enabled)
    case Enabled => if c.stopped then None else Some(Running)
    case Running => if |c.queue| == QUEUE_CAP then None else Some(Roomy)
    case Roomy => if c.bytes >= MAX_QUEUED_BYTES then None else Some(Encoding)
    case Encoding => if !report.encodes || report.size > MAX_ENVELOPE_BYTES then None else Some(Waiting)
    case Locked => if c.disabled then None else Some(LockedEnabled)
    case LockedEnabled => if c.stopped then None else Some(Loading)
    case _ => None
  }

  /** The calls an act may be taken by: where its call stands, and what it reads. */
  predicate ActEnabled(c: Core, r: Report, at: Producer, act: Act) {
    match act
    case Offer => false
    case Refuse => ((at.Offered? || at.Locked?) && c.disabled) || ((at.Enabled? || at.LockedEnabled?) && c.stopped)
    case Advance => Passed(c, r, at).Some?
    case Overflow =>
      || (at.Running? && |c.queue| == QUEUE_CAP)
      || (at.Roomy? && c.bytes >= MAX_QUEUED_BYTES)
      || (at.Encoding? && (!r.encodes || r.size > MAX_ENVELOPE_BYTES))
    case Lock => at.Waiting? && c.mutex == Free
    case Load => at.Loading?
    case OverBudget => at.Loaded? && at.used + r.size > MAX_QUEUED_BYTES
    case CompareAndSwap => at.Loaded? && at.used + r.size <= MAX_QUEUED_BYTES
    case Withdraw => at.Reserved? && c.stopped
    case Push => at.Reserved? && |c.queue| < QUEUE_CAP
    case GiveBack => at.Reserved? && !c.stopped && |c.queue| == QUEUE_CAP
    case CountDrop => at.Unreserved?
  }

  predicate CallEnabled(s: State, r: Report, act: Act) {
    if act.Offer? then r !in s.offered else r in s.producers && ActEnabled(s.core, r, s.producers[r], act)
  }

  /** Where an act leaves its call; None when the call returns, and with it unlocks. */
  function ActTo(c: Core, r: Report, at: Producer, act: Act): Option<Producer>
    requires ActEnabled(c, r, at, act)
  {
    match act
    case Advance => Passed(c, r, at)
    case Lock => Some(Locked)
    case Load => Some(Loaded(c.bytes))
    case CompareAndSwap => Some(if c.bytes == at.used then Reserved else Loading)
    case GiveBack => Some(Unreserved)
    case _ => None
  }

  /** What an act does to the reporter, the lock aside. */
  function ActCore(c: Core, r: Report, at: Producer, act: Act): Core
    requires ActEnabled(c, r, at, act)
  {
    match act
    case Refuse => c.(refused := c.refused + [r])
    case Overflow => c.(dropped := c.dropped + 1, counted := c.counted + [r])
    case OverBudget => c.(dropped := c.dropped + 1, counted := c.counted + [r])
    case CountDrop => c.(dropped := c.dropped + 1, counted := c.counted + [r])
    case CompareAndSwap => if c.bytes == at.used then c.(bytes := c.bytes + r.size) else c
    case Withdraw => c.(refused := c.refused + [r], bytes := c.bytes - r.size)
    case Push => c.(queue := c.queue + [r])
    case GiveBack => c.(bytes := c.bytes - r.size)
    case _ => c
  }

  function MutexAfter(mutex: Mutex, r: Report, act: Act, to: Option<Producer>): Mutex {
    if act.Lock? then ByProducer(r) else if to.None? && mutex == ByProducer(r) then Free else mutex
  }

  /** The call moves on, or returns and gives the lock up. */
  function Moved(s: State, r: Report, act: Act, d: Core, to: Option<Producer>): State {
    State(
      d.(mutex := MutexAfter(s.core.mutex, r, act, to)),
      if to.None? then s.producers - {r} else s.producers[r := to.value],
      s.offered)
  }

  function CallNext(s: State, r: Report, act: Act): State
    requires CallEnabled(s, r, act)
  {
    if act.Offer? then State(s.core, s.producers[r := Offered], s.offered + {r})
    else
      var at := s.producers[r];
      Moved(s, r, act, ActCore(s.core, r, at, act), ActTo(s.core, r, at, act))
  }

  // ----- the sender -----

  /** The bytes of some reports' encodings. */
  function Bytes(reports: seq<Report>): nat {
    if reports == [] then 0 else Bytes(reports[..|reports| - 1]) + reports[|reports| - 1].size
  }

  /** The size the drain loop keeps: the wrapper, the reports and their commas. */
  function BatchSize(batch: seq<Report>): int {
    Bytes(batch) + BATCH_WRAPPER_BYTES + |batch| - 1
  }

  predicate Fits(batch: seq<Report>, next: Report) {
    BatchSize(batch) + next.size + 1 <= MAX_BATCH_BYTES
  }

  predicate GatherEnabled(c: Core, op: Gather) {
    match op
    case TakePending => c.sender.Top? && c.pending.Some?
    case Receive => c.sender.Top? && c.pending.None? && c.queue != []
    case StopTop => c.sender.Top? && c.pending.None? && c.stopped
    case Fill => c.sender.Filling? && |c.sender.batch| < MAX_BATCH_REPORTS && c.queue != [] && Fits(c.sender.batch, c.queue[0])
    case HoldBack => c.sender.Filling? && |c.sender.batch| < MAX_BATCH_REPORTS && c.queue != [] && !Fits(c.sender.batch, c.queue[0])
    case FillDone => c.sender.Filling? && (|c.sender.batch| >= MAX_BATCH_REPORTS || c.queue == [])
  }

  function GatherNext(c: Core, op: Gather): Core
    requires GatherEnabled(c, op)
  {
    match op
    case TakePending => c.(sender := Filling([c.pending.value]), pending := None)
    case Receive => c.(sender := Filling([c.queue[0]]), queue := c.queue[1..])
    case StopTop => c.(sender := Leaving)
    case Fill => c.(sender := Filling(c.sender.batch + [c.queue[0]]), queue := c.queue[1..])
    case HoldBack => c.(sender := Swapping(c.sender.batch), pending := Some(c.queue[0]), queue := c.queue[1..])
    case FillDone => c.(sender := Swapping(c.sender.batch))
  }

  predicate PostEnabled(c: Core, op: Post) {
    match op
    case SwapDropped => c.sender.Swapping?
    case Posted(_) => c.sender.Posting?
    case Release => c.sender.Releasing? && c.sender.k < |c.sender.batch|
    case Settle => c.sender.Releasing? && c.sender.k >= |c.sender.batch|
    case GiveUp => c.sender.Disabling?
  }

  function PostNext(c: Core, op: Post): Core
    requires PostEnabled(c, op)
  {
    match op
    case SwapDropped => c.(sender := Posting(c.sender.batch, c.dropped), dropped := 0)
    case Posted(verdict) => c.(sender := Releasing(c.sender.batch, c.sender.drops, verdict, 0))
    case Release =>
      c.(sender := Releasing(c.sender.batch, c.sender.drops, c.sender.verdict, c.sender.k + 1), bytes := c.bytes - c.sender.batch[c.sender.k].size)
    case Settle => Settled(c)
    case GiveUp => c.(sender := Leaving, disabled := true)
  }

  /** After a post: its reports are acknowledged with its drop count, or all counted. */
  function Settled(c: Core): Core
    requires c.sender.Releasing?
  {
    var batch, drops := c.sender.batch, c.sender.drops;
    match c.sender.verdict
    case Ok => c.(sender := Top, acked := c.acked + batch, delivered := c.delivered + drops)
    case Failed => c.(sender := Top, dropped := c.dropped + drops + |batch|, counted := c.counted + batch)
    case Fatal => c.(sender := Disabling, dropped := c.dropped + drops + |batch|, counted := c.counted + batch)
  }

  predicate ExitEnabled(c: Core, op: Exit) {
    match op
    case ReleasePending => c.sender.Leaving?
    case LockSender => c.sender.Locking? && c.mutex == Free
    case Close => c.sender.Closing?
    case TakeLeft => c.sender.Emptying? && c.queue != []
    case SubtractLeft => c.sender.Emptied?
    case Finish => c.sender.Emptying? && c.queue == []
  }

  function ExitNext(c: Core, op: Exit): Core
    requires ExitEnabled(c, op)
  {
    match op
    case ReleasePending =>
      if c.pending.None? then c.(sender := Locking)
      else c.(sender := Locking, bytes := c.bytes - c.pending.value.size, refused := c.refused + [c.pending.value], pending := None)
    case LockSender => c.(sender := Closing, mutex := BySender)
    case Close => c.(sender := Emptying, disabled := true)
    case TakeLeft => c.(sender := Emptied(c.queue[0]), queue := c.queue[1..])
    case SubtractLeft => c.(sender := Emptying, bytes := c.bytes - c.sender.left.size, refused := c.refused + [c.sender.left])
    case Finish => c.(sender := Gone, mutex := Free)
  }

  predicate LoopEnabled(c: Core, op: Op) {
    match op
    case Gathers(gather) => GatherEnabled(c, gather)
    case Posts(post) => PostEnabled(c, post)
    case Exits(exit) => ExitEnabled(c, exit)
  }

  function LoopNext(c: Core, op: Op): Core
    requires LoopEnabled(c, op)
  {
    match op
    case Gathers(gather) => GatherNext(c, gather)
    case Posts(post) => PostNext(c, post)
    case Exits(exit) => ExitNext(c, exit)
  }

  // ----- steps -----

  predicate Possible(s: State, step: Step) {
    match step
    case Call(report, act) => CallEnabled(s, report, act)
    case Loop(op) => LoopEnabled(s.core, op)
    case Disable => true
    case Stop => true
  }

  function Next(s: State, step: Step): State
    requires Possible(s, step)
  {
    match step
    case Call(report, act) => CallNext(s, report, act)
    case Loop(op) => s.(core := LoopNext(s.core, op))
    case Disable => s.(core := s.core.(disabled := true))
    case Stop => s.(core := s.core.(stopped := true))
  }

  // ----- bytes -----

  predicate HoldsLock(p: Producer) {
    p.Locked? || p.LockedEnabled? || p.Loading? || p.Loaded? || p.Reserved? || p.Unreserved?
  }

  predicate SenderHoldsLock(sender: Sender) {
    sender.Closing? || sender.Emptying? || sender.Emptied?
  }

  /** One owner of the admission lock at a time. */
  predicate LockInv(producers: map<Report, Producer>, mutex: Mutex, sender: Sender) {
    && (forall r :: r in producers ==> (HoldsLock(producers[r]) <==> mutex == ByProducer(r)))
    && (mutex.ByProducer? ==> mutex.report in producers)
    && (mutex == BySender <==> SenderHoldsLock(sender))
  }

  predicate Closed(sender: Sender) {
    sender.Emptying? || sender.Emptied? || sender.Gone?
  }

  /** Once the sender has closed admission, no producer is past its locked check. */
  predicate ClosedInv(producers: map<Report, Producer>, sender: Sender, disabled: bool) {
    Closed(sender) ==> disabled && forall r :: r in producers && HoldsLock(producers[r]) ==> producers[r].Locked?
  }

  /** The sender leaves only once stopped or disabled, and with nothing. */
  predicate LeavingInv(c: Core) {
    && (c.sender.Leaving? || c.sender.Locking? || c.sender.Closing? ==> c.disabled || c.stopped)
    && (c.sender.Filling? || c.sender.Locking? || c.sender.Closing? || Closed(c.sender) ==> c.pending.None?)
    && (c.sender.Gone? ==> c.queue == [])
  }

  function ReservedBytes(producers: map<Report, Producer>, mutex: Mutex): nat {
    if mutex.ByProducer? && mutex.report in producers && producers[mutex.report].Reserved? then mutex.report.size else 0
  }

  function PendingBytes(pending: Option<Report>): nat {
    if pending.None? then 0 else pending.value.size
  }

  /** What the sender holds of the budget: its batch but for the reports released. */
  function SenderBytes(sender: Sender): int {
    match sender
    case Filling(batch) => Bytes(batch)
    case Swapping(batch) => Bytes(batch)
    case Posting(batch, _) => Bytes(batch)
    case Releasing(batch, _, _, k) => if k <= |batch| then Bytes(batch) - Bytes(batch[..k]) else 0
    case Emptied(left) => left.size
    case _ => 0
  }

  /** The bytes in the queue, held back and with the sender. */
  function CoreBytes(c: Core): int {
    Bytes(c.queue) + PendingBytes(c.pending) + SenderBytes(c.sender)
  }

  predicate BytesInv(s: State) {
    && s.core.bytes == CoreBytes(s.core) + ReservedBytes(s.producers, s.core.mutex) <= MAX_QUEUED_BYTES
    && Counts(s.core)
  }

  lemma {:induction false} BytesConcat(a: seq<Report>, b: seq<Report>)
    ensures Bytes(a + b) == Bytes(a) + Bytes(b)
  {
    if b == [] {
      assert a + b == a;
    } else {
      assert (a + b)[..|a + b| - 1] == a + b[..|b| - 1];
      BytesConcat(a, b[..|b| - 1]);
    }
  }

  lemma BytesOne(r: Report)
    ensures Bytes([r]) == r.size
  {
    assert [r][..0] == [];
  }

  lemma BytesFirst(queue: seq<Report>)
    requires queue != []
    ensures Bytes(queue) == queue[0].size + Bytes(queue[1..])
  {
    assert queue == [queue[0]] + queue[1..];
    BytesConcat([queue[0]], queue[1..]);
    BytesOne(queue[0]);
  }

  lemma BytesLast(queue: seq<Report>, r: Report)
    ensures Bytes(queue + [r]) == Bytes(queue) + r.size
  {
    BytesConcat(queue, [r]);
    BytesOne(r);
  }

  // ----- the lock -----

  predicate Gates(s: State) {
    && LockInv(s.producers, s.core.mutex, s.core.sender)
    && ClosedInv(s.producers, s.core.sender, s.core.disabled)
    && s.producers.Keys <= s.offered
  }

  /** What an act of a call under way does. */
  predicate Acts(c: Core, r: Report, at: Producer, act: Act, d: Core, to: Option<Producer>) {
    ActEnabled(c, r, at, act) && d == ActCore(c, r, at, act) && to == ActTo(c, r, at, act)
  }

  predicate Gathered(c: Core, op: Gather, d: Core) {
    GatherEnabled(c, op) && d == GatherNext(c, op)
  }

  predicate PostedTo(c: Core, op: Post, d: Core) {
    PostEnabled(c, op) && d == PostNext(c, op)
  }

  predicate Exiting(c: Core, op: Exit, d: Core) {
    ExitEnabled(c, op) && d == ExitNext(c, op)
  }

  lemma ActFrame(c: Core, r: Report, at: Producer, act: Act, d: Core, to: Option<Producer>)
    requires Acts(c, r, at, act, d, to)
    ensures d.sender == c.sender && d.disabled == c.disabled && d.stopped == c.stopped && d.pending == c.pending && d.mutex == c.mutex
  {
  }

  /** An act that keeps its call under way keeps the lock where it is. */
  lemma ActLock(c: Core, r: Report, at: Producer, act: Act, d: Core, to: Option<Producer>)
    requires Acts(c, r, at, act, d, to)
    ensures act.Lock? ==> c.mutex == Free && !HoldsLock(at) && to == Some(Locked)
    ensures !act.Lock? && to.Some? ==> HoldsLock(to.value) == HoldsLock(at)
    ensures c.disabled && to.Some? && HoldsLock(to.value) ==> to.value.Locked? || (HoldsLock(at) && !at.Locked?)
  {
  }

  lemma CallGates(s: State, r: Report, act: Act)
    requires Gates(s) && CallEnabled(s, r, act)
    ensures Gates(CallNext(s, r, act))
  {
    if !act.Offer? {
      var at := s.producers[r];
      var d, to := ActCore(s.core, r, at, act), ActTo(s.core, r, at, act);
      ActFrame(s.core, r, at, act, d, to);
      ActLock(s.core, r, at, act, d, to);
      MovedGates(s, r, act, d, to);
    }
  }

  lemma MovedGates(s: State, r: Report, act: Act, d: Core, to: Option<Producer>)
    requires Gates(s) && r in s.producers && d.sender == s.core.sender && d.disabled == s.core.disabled
    requires act.Lock? ==> s.core.mutex == Free && !HoldsLock(s.producers[r]) && to == Some(Locked)
    requires !act.Lock? && to.Some? ==> HoldsLock(to.value) == HoldsLock(s.producers[r])
    requires d.disabled && to.Some? && HoldsLock(to.value) ==> to.value.Locked? || (HoldsLock(s.producers[r]) && !s.producers[r].Locked?)
    ensures Gates(Moved(s, r, act, d, to))
  {
  }

  lemma GatherFrame(c: Core, op: Gather, d: Core)
    requires Gathered(c, op, d)
    ensures d.stopped == c.stopped && d.disabled == c.disabled && d.mutex == c.mutex && d.dropped == c.dropped && d.bytes == c.bytes
    ensures !SenderHoldsLock(c.sender) && !SenderHoldsLock(d.sender) && !Closed(c.sender) && !Closed(d.sender)
  {
  }

  lemma PostFrame(c: Core, op: Post, d: Core)
    requires PostedTo(c, op, d)
    ensures d.stopped == c.stopped && (c.disabled ==> d.disabled) && d.mutex == c.mutex && d.queue == c.queue && d.pending == c.pending
    ensures !SenderHoldsLock(c.sender) && !SenderHoldsLock(d.sender) && !Closed(c.sender) && !Closed(d.sender)
  {
  }

  lemma LoopGates(s: State, op: Op)
    requires Gates(s) && LoopEnabled(s.core, op)
    ensures Gates(s.(core := LoopNext(s.core, op)))
  {
    match op
    case Gathers(gather) => GatherFrame(s.core, gather, GatherNext(s.core, gather));
    case Posts(post) => PostFrame(s.core, post, PostNext(s.core, post));
    case Exits(exit) =>
  }

  // ----- the budget -----

  function HeldBy(at: Option<Producer>, r: Report): nat {
    if at.Some? && at.value.Reserved? then r.size else 0
  }

  lemma ActBytes(c: Core, r: Report, at: Producer, act: Act, d: Core, to: Option<Producer>)
    requires Acts(c, r, at, act, d, to)
    ensures d.bytes - CoreBytes(d) - HeldBy(to, r) == c.bytes - CoreBytes(c) - HeldBy(Some(at), r)
    ensures c.bytes <= MAX_QUEUED_BYTES ==> d.bytes <= MAX_QUEUED_BYTES
  {
    ActFrame(c, r, at, act, d, to);
    if act.Push? {
      BytesLast(c.queue, r);
    }
  }

  lemma MovedReserved(s: State, r: Report, act: Act, d: Core, to: Option<Producer>)
    requires Gates(s) && r in s.producers && Acts(s.core, r, s.producers[r], act, d, to)
    ensures var t := Moved(s, r, act, d, to);
            ReservedBytes(t.producers, t.core.mutex) + HeldBy(Some(s.producers[r]), r) == ReservedBytes(s.producers, s.core.mutex) + HeldBy(to, r)
  {
    ActLock(s.core, r, s.producers[r], act, d, to);
  }

  lemma CallBytes(s: State, r: Report, act: Act)
    requires Gates(s) && BytesInv(s) && CallEnabled(s, r, act)
    ensures BytesInv(CallNext(s, r, act))
  {
    if !act.Offer? {
      var at := s.producers[r];
      var d, to := ActCore(s.core, r, at, act), ActTo(s.core, r, at, act);
      ActFrame(s.core, r, at, act, d, to);
      ActBytes(s.core, r, at, act, d, to);
      MovedReserved(s, r, act, d, to);
      assert CoreBytes(d.(mutex := MutexAfter(s.core.mutex, r, act, to))) == CoreBytes(d);
    }
  }

  lemma ReleaseBytes(batch: seq<Report>, k: nat)
    requires k < |batch|
    ensures Bytes(batch[..k + 1]) == Bytes(batch[..k]) + batch[k].size
  {
    assert batch[..k + 1] == batch[..k] + [batch[k]];
    BytesLast(batch[..k], batch[k]);
  }

  predicate Counts(c: Core) {
    c.sender.Releasing? ==> c.sender.k <= |c.sender.batch|
  }

  /** A sender's step keeps the difference of the count and what it counts. */
  predicate Balanced(c: Core, d: Core) {
    d.bytes - CoreBytes(d) == c.bytes - CoreBytes(c) && d.bytes <= c.bytes && Counts(d)
  }

  lemma GatherBytes(c: Core, op: Gather, d: Core)
    requires Gathered(c, op, d) && LeavingInv(c)
    ensures Balanced(c, d)
  {
    if op.TakePending? {
      BytesOne(c.pending.value);
    } else if op.Receive? || op.Fill? || op.HoldBack? {
      BytesFirst(c.queue);
      BytesOne(c.queue[0]);
      if op.Fill? {
        BytesLast(c.sender.batch, c.queue[0]);
      }
    }
  }

  lemma PostBytes(c: Core, op: Post, d: Core)
    requires PostedTo(c, op, d) && Counts(c)
    ensures Balanced(c, d)
  {
    match op {
      case Posted(_) => assert c.sender.batch[..0] == [];
      case Release => ReleaseBytes(c.sender.batch, c.sender.k);
      case Settle => assert c.sender.batch[..|c.sender.batch|] == c.sender.batch;
      case _ =>
    }
  }

  lemma ExitBytes(c: Core, op: Exit, d: Core)
    requires Exiting(c, op, d)
    ensures Balanced(c, d)
  {
    if op.TakeLeft? {
      BytesFirst(c.queue);
    }
  }

  lemma LoopBytes(s: State, op: Op)
    requires Gates(s) && BytesInv(s) && LeavingInv(s.core) && LoopEnabled(s.core, op)
    ensures BytesInv(s.(core := LoopNext(s.core, op)))
  {
    var d := LoopNext(s.core, op);
    match op {
      case Gathers(gather) =>
        GatherBytes(s.core, gather, d);
        GatherFrame(s.core, gather, d);
      case Posts(post) =>
        PostBytes(s.core, post, d);
        PostFrame(s.core, post, d);
      case Exits(exit) =>
        ExitBytes(s.core, exit, d);
    }
    assert ReservedBytes(s.producers, d.mutex) == ReservedBytes(s.producers, s.core.mutex);
  }

  // ----- leaving -----

  lemma CallLeaving(s: State, r: Report, act: Act)
    requires Gates(s) && LeavingInv(s.core) && CallEnabled(s, r, act)
    ensures LeavingInv(CallNext(s, r, act).core)
  {
    if !act.Offer? {
      var at := s.producers[r];
      ActFrame(s.core, r, at, act, ActCore(s.core, r, at, act), ActTo(s.core, r, at, act));
      assert act.Push? ==> !Closed(s.core.sender);
    }
  }

  lemma GatherLeaving(c: Core, op: Gather, d: Core)
    requires Gathered(c, op, d) && LeavingInv(c)
    ensures LeavingInv(d)
  {
  }

  lemma PostLeaving(c: Core, op: Post, d: Core)
    requires PostedTo(c, op, d) && LeavingInv(c)
    ensures LeavingInv(d)
  {
  }

  lemma ExitLeaving(c: Core, op: Exit, d: Core)
    requires Exiting(c, op, d) && LeavingInv(c)
    ensures LeavingInv(d)
  {
  }

  lemma LoopLeaving(c: Core, op: Op)
    requires LeavingInv(c) && LoopEnabled(c, op)
    ensures LeavingInv(LoopNext(c, op))
  {
    var d := LoopNext(c, op);
    match op
    case Gathers(gather) => GatherLeaving(c, gather, d);
    case Posts(post) => PostLeaving(c, post, d);
    case Exits(exit) => ExitLeaving(c, exit, d);
  }

  // ----- batches -----

  predicate Small(r: Report) {
    r.size <= MAX_ENVELOPE_BYTES
  }

  /** A call past its size check. */
  predicate Past(at: Producer) {
    at.Waiting? || HoldsLock(at)
  }

  predicate WithinBounds(batch: seq<Report>) {
    0 < |batch| <= MAX_BATCH_REPORTS && BatchSize(batch) <= MAX_BATCH_BYTES
  }

  predicate HasBatch(sender: Sender) {
    sender.Filling? || sender.Swapping? || sender.Posting? || sender.Releasing?
  }

  predicate CoreSizes(c: Core) {
    && (forall r :: r in c.queue ==> Small(r))
    && (c.pending.Some? ==> Small(c.pending.value))
    && (HasBatch(c.sender) ==> WithinBounds(c.sender.batch))
  }

  /** What enters the queue passed the size check, so every batch keeps its bounds. */
  predicate SizesInv(s: State) {
    CoreSizes(s.core) && forall r :: r in s.producers && Past(s.producers[r]) ==> Small(r)
  }

  lemma ActSizes(c: Core, r: Report, at: Producer, act: Act, d: Core, to: Option<Producer>)
    requires Acts(c, r, at, act, d, to) && (Past(at) ==> Small(r))
    ensures to.Some? && Past(to.value) ==> Small(r)
    ensures d.queue == c.queue || (d.queue == c.queue + [r] && Small(r))
  {
  }

  lemma CallSizes(s: State, r: Report, act: Act)
    requires SizesInv(s) && CallEnabled(s, r, act)
    ensures SizesInv(CallNext(s, r, act))
  {
    if !act.Offer? {
      var at := s.producers[r];
      var d, to := ActCore(s.core, r, at, act), ActTo(s.core, r, at, act);
      ActFrame(s.core, r, at, act, d, to);
      ActSizes(s.core, r, at, act, d, to);
    }
  }

  lemma OneWithinBounds(r: Report)
    requires Small(r)
    ensures WithinBounds([r])
  {
    BytesOne(r);
  }

  lemma GatherSizes(c: Core, op: Gather, d: Core)
    requires Gathered(c, op, d) && CoreSizes(c)
    ensures CoreSizes(d)
  {
    match op {
      case TakePending => OneWithinBounds(c.pending.value);
      case Receive => OneWithinBounds(c.queue[0]);
      case Fill => BytesLast(c.sender.batch, c.queue[0]);
      case _ =>
    }
  }

  lemma PostSizes(c: Core, op: Post, d: Core)
    requires PostedTo(c, op, d) && CoreSizes(c)
    ensures CoreSizes(d)
  {
    PostFrame(c, op, d);
  }

  lemma ExitSizes(c: Core, op: Exit, d: Core)
    requires Exiting(c, op, d) && CoreSizes(c)
    ensures CoreSizes(d)
  {
  }

  lemma LoopSizes(c: Core, op: Op)
    requires CoreSizes(c) && LoopEnabled(c, op)
    ensures CoreSizes(LoopNext(c, op))
  {
    var d := LoopNext(c, op);
    match op
    case Gathers(gather) => GatherSizes(c, gather, d);
    case Posts(post) => PostSizes(c, post, d);
    case Exits(exit) => ExitSizes(c, exit, d);
  }

  // ----- conservation -----

  function Occurs(reports: seq<Report>, r: Report): nat {
    if reports == [] then 0 else Occurs(reports[..|reports| - 1], r) + Is(reports[|reports| - 1], r)
  }

  function Is(a: Report, b: Report): nat {
    if a == b then 1 else 0
  }

  lemma {:induction false} OccursConcat(a: seq<Report>, b: seq<Report>, r: Report)
    ensures Occurs(a + b, r) == Occurs(a, r) + Occurs(b, r)
  {
    if b == [] {
      assert a + b == a;
    } else {
      assert (a + b)[..|a + b| - 1] == a + b[..|b| - 1];
      OccursConcat(a, b[..|b| - 1], r);
    }
  }

  lemma OccursOne(x: Report, r: Report)
    ensures Occurs([x], r) == Is(x, r)
  {
    assert [x][..0] == [];
  }

  /** A count of reports: of one, and of a list. */
  datatype Measure = Measure(one: Report -> nat, all: seq<Report> -> nat)

  ghost predicate Additive(m: Measure) {
    && m.all([]) == 0
    && (forall r :: m.all([r]) == m.one(r))
    && (forall a, b :: m.all(a + b) == m.all(a) + m.all(b))
  }

  function Occurrences(r: Report): Measure {
    Measure(x => Is(x, r), reports => Occurs(reports, r))
  }

  lemma OccurrencesAdditive(r: Report)
    ensures Additive(Occurrences(r))
  {
    forall x
      ensures Occurs([x], r) == Is(x, r)
    {
      OccursOne(x, r);
    }
    forall a, b
      ensures Occurs(a + b, r) == Occurs(a, r) + Occurs(b, r)
    {
      OccursConcat(a, b, r);
    }
  }

  function SenderHeld(m: Measure, sender: Sender): nat {
    if HasBatch(sender) then m.all(sender.batch) else if sender.Emptied? then m.one(sender.left) else 0
  }

  /** How often a report is queued, held back or with the sender. */
  function Held(m: Measure, c: Core): nat {
    m.all(c.queue) + (if c.pending.Some? then m.one(c.pending.value) else 0) + SenderHeld(m, c.sender)
  }

  /** How often a report is acknowledged, counted as dropped, or refused. */
  function Settlements(m: Measure, c: Core): nat {
    m.all(c.acked) + m.all(c.counted) + m.all(c.refused)
  }

  function Places(m: Measure, c: Core): nat {
    Held(m, c) + Settlements(m, c)
  }

  /** A report offered is in exactly one place; any other is nowhere. */
  predicate OnceInv(s: State, r: Report) {
    (if r in s.producers then 1 else 0) + Places(Occurrences(r), s.core) == if r in s.offered then 1 else 0
  }

  lemma ActPlaces(m: Measure, c: Core, x: Report, at: Producer, act: Act, d: Core, to: Option<Producer>)
    requires Additive(m) && Acts(c, x, at, act, d, to)
    ensures Places(m, d) == Places(m, c) + if to.None? then m.one(x) else 0
  {
    ActFrame(c, x, at, act, d, to);
  }

  lemma CallOnce(s: State, x: Report, act: Act, r: Report)
    requires Gates(s) && OnceInv(s, r) && CallEnabled(s, x, act)
    ensures OnceInv(CallNext(s, x, act), r)
  {
    if !act.Offer? {
      var at := s.producers[x];
      var d, to := ActCore(s.core, x, at, act), ActTo(s.core, x, at, act);
      OccurrencesAdditive(r);
      ActPlaces(Occurrences(r), s.core, x, at, act, d, to);
      UnlockedPlaces(Occurrences(r), d, MutexAfter(s.core.mutex, x, act, to));
    }
  }

  lemma UnlockedPlaces(m: Measure, d: Core, mutex: Mutex)
    ensures Places(m, d.(mutex := mutex)) == Places(m, d)
  {
  }

  lemma GatherPlaces(m: Measure, c: Core, op: Gather, d: Core)
    requires Additive(m) && Gathered(c, op, d) && LeavingInv(c)
    ensures Places(m, d) == Places(m, c)
  {
    if c.queue != [] {
      assert c.queue == [c.queue[0]] + c.queue[1..];
    }
  }

  lemma PostPlaces(m: Measure, c: Core, op: Post, d: Core)
    requires Additive(m) && PostedTo(c, op, d)
    ensures Places(m, d) == Places(m, c)
  {
    PostFrame(c, op, d);
  }

  lemma ExitPlaces(m: Measure, c: Core, op: Exit, d: Core)
    requires Additive(m) && Exiting(c, op, d)
    ensures Places(m, d) == Places(m, c)
  {
    if c.queue != [] {
      assert c.queue == [c.queue[0]] + c.queue[1..];
    }
  }

  lemma LoopPlaces(m: Measure, c: Core, op: Op)
    requires Additive(m) && LeavingInv(c) && LoopEnabled(c, op)
    ensures Places(m, LoopNext(c, op)) == Places(m, c)
  {
    var d := LoopNext(c, op);
    match op
    case Gathers(gather) => GatherPlaces(m, c, gather, d);
    case Posts(post) => PostPlaces(m, c, post, d);
    case Exits(exit) => ExitPlaces(m, c, exit, d);
  }

  // ----- drop counts -----

  function Drops(sender: Sender): nat {
    if sender.Posting? || sender.Releasing? then sender.drops else 0
  }

  /** Every drop is in the counter, on its way to the server, or delivered; and reports
      are refused only once the reporter is stopped or disabled. */
  predicate CountInv(c: Core) {
    && |c.counted| == c.dropped + Drops(c.sender) + c.delivered
    && (c.refused != [] ==> c.disabled || c.stopped)
  }

  lemma ActCount(c: Core, r: Report, at: Producer, act: Act, d: Core, to: Option<Producer>)
    requires Acts(c, r, at, act, d, to) && CountInv(c)
    ensures CountInv(d)
  {
    ActFrame(c, r, at, act, d, to);
  }

  lemma GatherCount(c: Core, op: Gather, d: Core)
    requires Gathered(c, op, d) && CountInv(c)
    ensures CountInv(d)
  {
  }

  lemma PostCount(c: Core, op: Post, d: Core)
    requires PostedTo(c, op, d) && CountInv(c)
    ensures CountInv(d)
  {
  }

  lemma ExitCount(c: Core, op: Exit, d: Core)
    requires Exiting(c, op, d) && CountInv(c) && LeavingInv(c) && (Closed(c.sender) ==> c.disabled)
    ensures CountInv(d)
  {
  }

  lemma LoopCount(c: Core, op: Op)
    requires LoopEnabled(c, op) && CountInv(c) && LeavingInv(c) && (Closed(c.sender) ==> c.disabled)
    ensures CountInv(LoopNext(c, op))
  {
    var d := LoopNext(c, op);
    match op
    case Gathers(gather) => GatherCount(c, gather, d);
    case Posts(post) => PostCount(c, post, d);
    case Exits(exit) => ExitCount(c, exit, d);
  }

  // ----- every run -----

  ghost predicate Inv(s: State) {
    Gates(s) && LeavingInv(s.core) && BytesInv(s) && SizesInv(s) && CountInv(s.core)
  }

  lemma CallKeeps(s: State, r: Report, act: Act)
    requires Inv(s) && CallEnabled(s, r, act)
    ensures Inv(CallNext(s, r, act))
  {
    CallGates(s, r, act);
    CallLeaving(s, r, act);
    CallBytes(s, r, act);
    CallSizes(s, r, act);
    CallCount(s, r, act);
  }

  lemma CallCount(s: State, r: Report, act: Act)
    requires CountInv(s.core) && CallEnabled(s, r, act)
    ensures CountInv(CallNext(s, r, act).core)
  {
    if !act.Offer? {
      var at := s.producers[r];
      ActCount(s.core, r, at, act, ActCore(s.core, r, at, act), ActTo(s.core, r, at, act));
    }
  }

  lemma LoopKeeps(s: State, op: Op)
    requires Inv(s) && LoopEnabled(s.core, op)
    ensures Inv(s.(core := LoopNext(s.core, op)))
  {
    LoopGates(s, op);
    LoopLeaving(s.core, op);
    LoopBytes(s, op);
    LoopSizes(s.core, op);
    LoopCount(s.core, op);
  }

  lemma StepKeeps(s: State, step: Step)
    requires Inv(s) && Possible(s, step)
    ensures Inv(Next(s, step))
  {
    match step
    case Call(report, act) => CallKeeps(s, report, act);
    case Loop(op) => LoopKeeps(s, op);
    case Disable =>
    case Stop =>
  }

  lemma StepOnce(s: State, step: Step, r: Report)
    requires Inv(s) && OnceInv(s, r) && Possible(s, step)
    ensures OnceInv(Next(s, step), r)
  {
    match step
    case Call(report, act) => CallOnce(s, report, act, r);
    case Loop(op) =>
      OccurrencesAdditive(r);
      LoopPlaces(Occurrences(r), s.core, op);
    case Disable =>
    case Stop =>
  }

  /** Any interleaving of producers, the sender, and whoever stops or disables. */
  ghost predicate Run(states: seq<State>, steps: seq<Step>) {
    && |states| == |steps| + 1 && Starts(states[0])
    && (forall i, j :: 0 <= i < |steps| && j == i + 1 ==> Follows(states[i], steps[i], states[j]))
  }

  predicate Follows(s: State, step: Step, t: State) {
    Possible(s, step) && t == Next(s, step)
  }

  lemma {:induction false} Always(states: seq<State>, steps: seq<Step>, i: nat, r: Report)
    requires Run(states, steps) && i < |states|
    ensures Inv(states[i]) && OnceInv(states[i], r)
  {
    if i > 0 {
      Always(states, steps, i - 1, r);
      assert Follows(states[i - 1], steps[i - 1], states[i]);
      FollowsKeeps(states[i - 1], steps[i - 1], states[i], r);
    } else {
      StartsWell(states[0], r);
    }
  }

  lemma StartsWell(s: State, r: Report)
    requires Starts(s)
    ensures Inv(s) && OnceInv(s, r)
  {
  }

  lemma FollowsKeeps(s: State, step: Step, t: State, r: Report)
    requires Inv(s) && OnceInv(s, r) && Follows(s, step, t)
    ensures Inv(t) && OnceInv(t, r)
  {
    StepKeeps(s, step);
    StepOnce(s, step, r);
  }

  lemma {:induction false} BytesPrefix(batch: seq<Report>, k: nat)
    requires k <= |batch|
    ensures Bytes(batch[..k]) <= Bytes(batch)
  {
    assert batch == batch[..k] + batch[k..];
    BytesConcat(batch[..k], batch[k..]);
  }

  /** In every reachable state the byte count is what is reserved, queued, held back or
      still with the sender, it stays within the budget, and it is zero once the loop
      is gone; every batch posted keeps its bounds. */
  lemma BudgetHolds(states: seq<State>, steps: seq<Step>, i: nat)
    requires Run(states, steps) && i < |states|
    ensures var s := states[i];
            && s.core.bytes == Bytes(s.core.queue) + PendingBytes(s.core.pending) + SenderBytes(s.core.sender) + ReservedBytes(s.producers, s.core.mutex)
            && 0 <= s.core.bytes <= MAX_QUEUED_BYTES
            && (s.core.sender.Gone? ==> s.core.bytes == 0 && s.core.queue == [])
            && (s.core.sender.Posting? ==> 0 < |s.core.sender.batch| <= MAX_BATCH_REPORTS && BatchSize(s.core.sender.batch) <= MAX_BATCH_BYTES)
  {
    Always(states, steps, i, Report(0, 0, true));
    var s := states[i];
    if s.core.sender.Releasing? {
      BytesPrefix(s.core.sender.batch, s.core.sender.k);
    }
    if s.core.sender.Gone? && s.core.mutex.ByProducer? {
      assert !s.producers[s.core.mutex.report].Reserved?;
    }
  }

  /** In every reachable state each report ever offered is in exactly one place, and
      until the reporter is stopped or disabled that place is a call under way, the
      queue, the sender, the acknowledged or the counted reports; and the drops counted
      are those in the counter, on their way, or delivered. */
  lemma NothingIsLost(states: seq<State>, steps: seq<Step>, i: nat, r: Report)
    requires Run(states, steps) && i < |states|
    ensures var s := states[i];
            && (if r in s.producers then 1 else 0) + Held(Occurrences(r), s.core) + Occurs(s.core.acked, r) + Occurs(s.core.counted, r) + Occurs(s.core.refused, r) ==
               (if r in s.offered then 1 else 0)
            && (!s.core.disabled && !s.core.stopped ==> s.core.refused == [])
            && |s.core.counted| == s.core.dropped + Drops(s.core.sender) + s.core.delivered
  {
    Always(states, steps, i, r);
  }

  // ----- the drain loop -----

  /** The sender's drain of a queue nobody adds to meanwhile: the longest run of reports
      that fits, and the first that does not held back. */
  method GatherBatch(first: Report, queue: seq<Report>) returns (batch: seq<Report>, pending: Option<Report>, rest: seq<Report>)
    requires Small(first)
    ensures WithinBounds(batch)
    ensures [first] + queue == batch + (if pending.Some? then [pending.value] else []) + rest
    ensures pending.Some? ==> |batch| < MAX_BATCH_REPORTS && !Fits(batch, pending.value)
    ensures pending.None? ==> |batch| == MAX_BATCH_REPORTS || rest == []
  {
    batch, pending, rest := [first], None, queue;
    var size := first.size + BATCH_WRAPPER_BYTES;
    OneWithinBounds(first);
    BytesOne(first);
    while |batch| < MAX_BATCH_REPORTS && rest != []
      invariant WithinBounds(batch) && size == BatchSize(batch)
      invariant [first] + queue == batch + rest
      decreases |rest|
    {
      var next := rest[0];
      assert rest == [next] + rest[1..];
      if size + next.size + 1 > MAX_BATCH_BYTES {
        return batch, Some(next), rest[1..];
      }
      BytesLast(batch, next);
      assert batch + rest == batch + [next] + rest[1..];
      batch, rest := batch + [next], rest[1..];
      size := size + next.size + 1;
    }
  }
}
