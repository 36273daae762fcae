/** Where reports go (runtime/devreport.go): the sender takes them in the order they were
queued, and each is acknowledged, counted as dropped or refused for a reason. */
module ReporterFlow {
  import opened Options
  import opened Reporter

  function SenderLine(sender: Sender): seq<Report> {
    if HasBatch(sender) then sender.batch else if sender.Emptied? then [sender.left] else []
  }

  function PendingLine(pending: Option<Report>): seq<Report> {
    if pending.Some? then [pending.value] else []
  }

  /** The reports that wait: those the sender holds, then the one held back, then the queue. */
  function Line(c: Core): seq<Report> {
    SenderLine(c.sender) + PendingLine(c.pending) + c.queue
  }

  function TakenIn(step: Step): seq<Report> {
    if step.Call? && step.act == Push then [step.report] else []
  }

  /** What a step settles: a posted batch, the report held back, or one left in the queue. */
  function GivenOut(c: Core, step: Step): seq<Report> {
    if step == Loop(Posts(Settle)) then SenderLine(c.sender)
    else if step == Loop(Exits(ReleasePending)) then PendingLine(c.pending)
    else if step == Loop(Exits(SubtractLeft)) then SenderLine(c.sender)
    else []
  }

  lemma Regroup(a: seq<Report>, b: seq<Report>, q: seq<Report>)
    requires q != []
    ensures a + b + q == a + b + [q[0]] + q[1..] && a + [] + q == a + [q[0]] + [] + q[1..] && a + [] + q == a + [q[0]] + q[1..]
  {
    assert q == [q[0]] + q[1..];
  }

  lemma GatherLine(c: Core, op: Gather, d: Core)
    requires Gathered(c, op, d) && LeavingInv(c)
    ensures Line(d) == Line(c)
  {
    if op.Receive? || op.Fill? || op.HoldBack? {
      Regroup(SenderLine(c.sender), PendingLine(c.pending), c.queue);
    }
  }

  lemma PostLine(c: Core, op: Post, d: Core)
    requires PostedTo(c, op, d)
    ensures Line(c) == (if op.Settle? then SenderLine(c.sender) else []) + Line(d)
  {
    assert op.Settle? ==> SenderLine(d.sender) == [];
  }

  lemma ExitLine(c: Core, op: Exit, d: Core)
    requires Exiting(c, op, d) && LeavingInv(c)
    ensures Line(c) == GivenOut(c, Loop(Exits(op))) + Line(d)
  {
    hide Line;
    match op {
      case TakeLeft => LeftLine(c, d);
      case SubtractLeft => Given(c, d, SenderLine(c.sender), PendingLine(c.pending));
      case ReleasePending => Given(c, d, SenderLine(c.sender) + PendingLine(c.pending), []);
      case _ => Given(c, d, [], PendingLine(c.pending));
    }
  }

  lemma LeftLine(c: Core, d: Core)
    requires c.sender.Emptying? && c.pending.None? && c.queue != [] && d.sender == Emptied(c.queue[0]) && d.pending.None? && d.queue == c.queue[1..]
    ensures Line(c) == [] + Line(d)
  {
    assert c.queue == [c.queue[0]] + c.queue[1..];
  }

  lemma Given(c: Core, d: Core, out: seq<Report>, rest: seq<Report>)
    requires SenderLine(c.sender) + PendingLine(c.pending) == out + rest && SenderLine(d.sender) + PendingLine(d.pending) == rest && d.queue == c.queue
    ensures Line(c) == out + Line(d)
  {
  }

  lemma CallLine(s: State, r: Report, act: Act, t: State)
    requires CallEnabled(s, r, act) && t == CallNext(s, r, act)
    ensures Line(t.core) == Line(s.core) + TakenIn(Call(r, act))
  {
    if act == Push {
      assert t.core.queue == s.core.queue + [r];
    }
  }

  /** Reports are settled in the order they were queued: every step appends what it queues
      and takes what it settles from the front. */
  lemma LineIsFifo(states: seq<State>, steps: seq<Step>, i: nat)
    requires Run(states, steps) && i < |steps|
    ensures Line(states[i].core) + TakenIn(steps[i]) == GivenOut(states[i].core, steps[i]) + Line(states[i + 1].core)
  {
    var s, t := states[i], states[i + 1];
    assert Follows(s, steps[i], t);
    LeavingAlways(states, steps, i);
    match steps[i]
    case Call(r, act) => CallLine(s, r, act, t);
    case Loop(op) =>
      match op {
        case Gathers(gather) => GatherLine(s.core, gather, t.core);
        case Posts(post) => PostLine(s.core, post, t.core);
        case Exits(exit) => ExitLine(s.core, exit, t.core);
      }
    case Disable =>
    case Stop =>
  }

  lemma LeavingAlways(states: seq<State>, steps: seq<Step>, i: nat)
    requires Run(states, steps) && i < |states|
    ensures LeavingInv(states[i].core)
  {
    Always(states, steps, i, Report(0, 0, false));
  }

  // ----- fates -----

  /** Why a report is dropped: the queue or the budget is full, it cannot be encoded or is
      too large, its reservation would pass the budget, or the queue filled up meanwhile. */
  predicate Overloaded(c: Core, r: Report, at: Producer) {
    || |c.queue| == QUEUE_CAP || c.bytes >= MAX_QUEUED_BYTES
    || !r.encodes || r.size > MAX_ENVELOPE_BYTES
    || (at.Loaded? && at.used + r.size > MAX_QUEUED_BYTES)
    || at.Unreserved?
  }

  /** What a call has found when it goes on: reporting neither disabled nor stopped, room in
      the queue and the budget, and an encoding that is not too large. */
  predicate Cleared(c: Core, r: Report, at: Producer) {
    && (at.Offered? || at.Locked? ==> !c.disabled) && (at.Enabled? || at.LockedEnabled? ==> !c.stopped)
    && (at.Running? ==> |c.queue| != QUEUE_CAP) && (at.Roomy? ==> c.bytes < MAX_QUEUED_BYTES)
    && (at.Encoding? ==> r.encodes && r.size <= MAX_ENVELOPE_BYTES)
  }

  /** Nothing becomes of any report. */
  predicate NoFate(c: Core, d: Core) {
    d.acked == c.acked && d.counted == c.counted && d.refused == c.refused && d.delivered == c.delivered
  }

  predicate Dropped(c: Core, d: Core, reports: seq<Report>) {
    NoFate(c, d.(counted := c.counted)) && d.counted == c.counted + reports
  }

  predicate Refused(c: Core, d: Core, reports: seq<Report>) {
    NoFate(c, d.(refused := c.refused)) && d.refused == c.refused + reports
  }

  predicate Acknowledged(c: Core, d: Core, reports: seq<Report>, drops: nat) {
    NoFate(c, d.(acked := c.acked, delivered := c.delivered)) && d.acked == c.acked + reports && d.delivered == c.delivered + drops
  }

  /** Reports are acknowledged exactly when their batch is posted, which also delivers the
      drops counted so far; a batch that is not posted is counted as dropped; a call drops
      its report only under overload, and gives it up only once reporting is disabled or
      stopped; reports left over at the end are given up. */
  lemma FatesMean(states: seq<State>, steps: seq<Step>, i: nat)
    requires Run(states, steps) && i < |steps|
    ensures var c, d := states[i].core, states[i + 1].core;
            match steps[i]
            case Call(r, act) =>
              (if act in {Overflow, OverBudget, CountDrop} then r in states[i].producers && Overloaded(c, r, states[i].producers[r]) && Dropped(c, d, [r]) && d.dropped == c.dropped + 1
               else if act in {Refuse, Withdraw} then (c.disabled || c.stopped) && Refused(c, d, [r])
               else
                 && NoFate(c, d) && d.dropped == c.dropped
                 && (act == Advance ==> r in states[i].producers && Cleared(c, r, states[i].producers[r])))
            case Loop(Posts(Settle)) =>
              && c.sender.Releasing?
              && (if c.sender.verdict == Ok then Acknowledged(c, d, c.sender.batch, c.sender.drops) && d.dropped == c.dropped
                  else Dropped(c, d, c.sender.batch) && d.dropped == c.dropped + c.sender.drops + |c.sender.batch|)
              && (c.sender.verdict == Fatal <==> d.sender.Disabling?)
            case Loop(Posts(SwapDropped)) => NoFate(c, d) && d.sender.Posting? && d.sender.drops == c.dropped && d.dropped == 0
            case Loop(Posts(Posted(verdict))) => NoFate(c, d) && c.sender.Posting? && d.sender == Releasing(c.sender.batch, c.sender.drops, verdict, 0)
            case Loop(Exits(ReleasePending)) => Refused(c, d, PendingLine(c.pending))
            case Loop(Exits(SubtractLeft)) => Refused(c, d, SenderLine(c.sender))
            case Loop(_) => NoFate(c, d) && d.dropped == c.dropped
            case Disable => NoFate(c, d) && d.dropped == c.dropped
            case Stop => NoFate(c, d) && d.dropped == c.dropped
  {
    hide CallNext, LoopNext, CallEnabled, LoopEnabled, NoFate, Dropped, Refused, Acknowledged, Overloaded, Cleared;
    var s, t := states[i], states[i + 1];
    assert Follows(s, steps[i], t);
    match steps[i]
    case Call(r, act) => CallFate(s, r, act, t);
    case Loop(op) => LoopFate(s.core, op, t.core);
    case Disable => Unfated(s.core, t.core);
    case Stop => Unfated(s.core, t.core);
  }

  lemma Unfated(c: Core, d: Core)
    requires d == c.(disabled := d.disabled, stopped := d.stopped)
    ensures NoFate(c, d)
  {
  }

  lemma LoopFate(c: Core, op: Op, d: Core)
    requires LoopEnabled(c, op) && d == LoopNext(c, op)
    ensures match op
            case Posts(Settle) =>
              && c.sender.Releasing?
              && (if c.sender.verdict == Ok then Acknowledged(c, d, c.sender.batch, c.sender.drops) && d.dropped == c.dropped
                  else Dropped(c, d, c.sender.batch) && d.dropped == c.dropped + c.sender.drops + |c.sender.batch|)
              && (c.sender.verdict == Fatal <==> d.sender.Disabling?)
            case Posts(SwapDropped) => NoFate(c, d) && d.sender.Posting? && d.sender.drops == c.dropped && d.dropped == 0
            case Posts(Posted(verdict)) => NoFate(c, d) && c.sender.Posting? && d.sender == Releasing(c.sender.batch, c.sender.drops, verdict, 0)
            case Exits(ReleasePending) => Refused(c, d, PendingLine(c.pending))
            case Exits(SubtractLeft) => Refused(c, d, SenderLine(c.sender))
            case _ => NoFate(c, d) && d.dropped == c.dropped
  {
  }

  lemma CallFate(s: State, r: Report, act: Act, t: State)
    requires CallEnabled(s, r, act) && t == CallNext(s, r, act)
    ensures var c, d := s.core, t.core;
            if act in {Overflow, OverBudget, CountDrop} then r in s.producers && Overloaded(c, r, s.producers[r]) && Dropped(c, d, [r]) && d.dropped == c.dropped + 1
            else if act in {Refuse, Withdraw} then (c.disabled || c.stopped) && Refused(c, d, [r])
            else NoFate(c, d) && d.dropped == c.dropped && (act == Advance ==> r in s.producers && Cleared(c, r, s.producers[r]))
  {
  }
}
