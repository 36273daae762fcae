/** The overlap scheduler of a cron job (runtime/cron.go): one loop over timer and
completion events, and what each overlap policy keeps in every reachable state. */
module CronOverlap {
  import opened Options

  datatype Policy = Skip | BufferOne | BufferAll | CancelOther | AllowAll

  /** What the loop's switch makes of the declared policy. */
  function PolicyOf(text: string): Policy {
    if text == "allow_all" then AllowAll
    else if text == "cancel_other" || text == "terminate_other" then CancelOther
    else if text == "buffer_all" then BufferAll
    else if text == "buffer_one" then BufferOne
    else Skip
  }

  /** A started execution, and whether its context was cancelled. */
  datatype Execution = Execution(at: int, cancelled: bool)

  /** What became of a fired time: started, too late to start, or without an id. */
  datatype Disposition = Started(at: int, id: nat) | Expired(at: int, now: int) | Unallocated(at: int)

  /** The loop's variables, with its history: the times fired and what became of
      those that are neither queued nor skipped. */
  datatype State = State(running: map<nat, Execution>, queued: seq<int>, next: Option<int>, fired: seq<int>, handled: seq<Disposition>)

  /** What the loop selects: its timer, with the id allocated should it start; or a
      completion, with the clock's successive readings. */
  datatype Event = Timer(alloc: Option<nat>) | Done(id: nat, clock: nat -> int, alloc: Option<nat>)

  /** What the loop is given: next fires strictly later. */
  datatype Job = Job(policy: Policy, window: int, plan: int -> Option<int>)

  ghost predicate Advances(plan: int -> Option<int>) {
    forall t :: plan(t).Some? ==> plan(t).value > t
  }

  // ----- steps -----

  function Start(s: State, at: int, alloc: Option<nat>): State {
    match alloc
    case None => s.(handled := s.handled + [Unallocated(at)])
    case Some(id) => s.(running := s.running[id := Execution(at, false)], handled := s.handled + [Started(at, id)])
  }

  function Cancelled(running: map<nat, Execution>): map<nat, Execution> {
    map id | id in running :: running[id].(cancelled := true)
  }

  function OnTimer(job: Job, s: State, alloc: Option<nat>): State
    requires s.next.Some?
  {
    var at := s.next.value;
    var s := s.(next := job.plan(at), fired := s.fired + [at]);
    match job.policy
    case AllowAll => Start(s, at, alloc)
    case CancelOther => Start(s.(running := Cancelled(s.running), queued := []), at, alloc)
    case BufferAll => if s.running == map[] then Start(s, at, alloc) else s.(queued := s.queued + [at])
    case BufferOne =>
      if s.running == map[] then Start(s, at, alloc) else if s.queued == [] then s.(queued := [at]) else s
    case Skip => if s.running == map[] then Start(s, at, alloc) else s
  }

  predicate TooLate(window: int, now: int, at: int) {
    window > 0 && now - at > window
  }

  /** Drop queued times that are too late, then start the first that is not. */
  function Drain(job: Job, s: State, clock: nat -> int, k: nat, alloc: Option<nat>): State
    decreases |s.queued|
  {
    if s.queued == [] then s
    else
      var at, rest := s.queued[0], s.(queued := s.queued[1..]);
      if TooLate(job.window, clock(k), at) then Drain(job, rest.(handled := rest.handled + [Expired(at, clock(k))]), clock, k + 1, alloc)
      else Start(rest, at, alloc)
  }

  function OnDone(job: Job, s: State, id: nat, clock: nat -> int, alloc: Option<nat>): State {
    var s := s.(running := s.running - {id});
    if s.running == map[] then Drain(job, s, clock, 0, alloc) else s
  }

  /** An execution id is new when no running execution has it. */
  predicate Enabled(s: State, event: Event) {
    match event
    case Timer(alloc) => s.next.Some? && (alloc.Some? ==> alloc.value !in s.running)
    case Done(id, _, alloc) => id in s.running && (alloc.Some? ==> alloc.value !in s.running)
  }

  function Step(job: Job, s: State, event: Event): State
    requires Enabled(s, event)
  {
    match event
    case Timer(alloc) => OnTimer(job, s, alloc)
    case Done(id, clock, alloc) => OnDone(job, s, id, clock, alloc)
  }

  // ----- what every step keeps -----

  function Times(handled: seq<Disposition>): (times: seq<int>)
    ensures |times| == |handled| && forall i :: 0 <= i < |handled| ==> times[i] == handled[i].at
  {
    seq(|handled|, i requires 0 <= i < |handled| => handled[i].at)
  }

  ghost predicate Rising(times: seq<int>, below: Option<int>) {
    && (forall i, j :: 0 <= i < j < |times| ==> times[i] < times[j])
    && (below.Some? ==> forall i :: 0 <= i < |times| ==> times[i] < below.value)
  }

  function Live(running: map<nat, Execution>): set<nat> {
    set id | id in running && !running[id].cancelled
  }

  predicate Single<T(==)>(s: set<T>) {
    forall a, b :: a in s && b in s ==> a == b
  }

  lemma SingleAtMostOne<T>(s: set<T>)
    requires Single(s)
    ensures |s| <= 1
  {
    if s != {} {
      var a :| a in s;
      assert s == {a};
    }
  }

  /** What a policy keeps of the running executions and of the queue. */
  predicate Kept(policy: Policy, s: State) {
    && (s.queued != [] ==> s.running != map[])
    && (policy.Skip? || policy.BufferOne? || policy.BufferAll? ==> Single(s.running.Keys))
    && (policy.CancelOther? ==> Single(Live(s.running)))
    && (policy.BufferOne? ==> |s.queued| <= 1)
    && (policy.Skip? || policy.CancelOther? || policy.AllowAll? ==> s.queued == [])
  }

  /** Times are handled in schedule order; buffer_all handles every one fired. */
  ghost predicate InOrder(policy: Policy, s: State) {
    && Rising(s.fired, s.next)
    && Rising(Times(s.handled) + s.queued, s.next)
    && (forall t :: t in Times(s.handled) + s.queued ==> t in s.fired)
    && (policy.BufferAll? ==> Times(s.handled) + s.queued == s.fired)
  }

  /** Only times past the catch-up window are dropped. */
  predicate Honest(window: int, handled: seq<Disposition>) {
    forall d :: d in handled && d.Expired? ==> TooLate(window, d.now, d.at)
  }

  ghost predicate Inv(job: Job, s: State) {
    Kept(job.policy, s) && InOrder(job.policy, s) && Honest(job.window, s.handled)
  }

  predicate Allocates(event: Event) {
    event.alloc.Some?
  }

  lemma TimesAppend(handled: seq<Disposition>, d: Disposition)
    ensures Times(handled + [d]) == Times(handled) + [d.at]
  {
  }

  lemma RisingAppend(times: seq<int>, at: int, next: Option<int>)
    requires Rising(times, Some(at)) && (next.Some? ==> next.value > at)
    ensures Rising(times + [at], next)
  {
  }

  /** What the timer does to the history, before its policy. */
  lemma TimerFires(job: Job, s: State)
    requires Advances(job.plan) && s.next.Some? && InOrder(job.policy, s)
    ensures Rising(s.fired + [s.next.value], job.plan(s.next.value))
    ensures Rising(Times(s.handled) + s.queued, job.plan(s.next.value))
    ensures Rising(Times(s.handled) + s.queued + [s.next.value], job.plan(s.next.value))
  {
    RisingAppend(s.fired, s.next.value, job.plan(s.next.value));
    RisingAppend(Times(s.handled) + s.queued, s.next.value, job.plan(s.next.value));
    assert forall i :: 0 <= i < |Times(s.handled) + s.queued| ==> (Times(s.handled) + s.queued)[i] < s.next.value;
  }

  lemma TimerKept(job: Job, s: State, alloc: Option<nat>)
    requires Kept(job.policy, s) && s.next.Some? && alloc.Some?
    ensures Kept(job.policy, OnTimer(job, s, alloc))
  {
    var t := OnTimer(job, s, alloc);
    assert t.running != s.running ==> alloc.value in t.running;
    if job.policy.CancelOther? {
      assert Live(t.running) == {alloc.value};
    }
  }

  lemma TimerInOrder(job: Job, s: State, alloc: Option<nat>)
    requires Advances(job.plan) && Kept(job.policy, s) && InOrder(job.policy, s) && s.next.Some?
    ensures InOrder(job.policy, OnTimer(job, s, alloc))
  {
    var at := s.next.value;
    var t := OnTimer(job, s, alloc);
    TimerFires(job, s);
    if t.handled != s.handled {
      assert s.queued == [];
      var d := t.handled[|s.handled|];
      assert t.handled == s.handled + [d] && d.at == at;
      TimesAppend(s.handled, d);
      assert Times(t.handled) + t.queued == Times(s.handled) + s.queued + [at];
    } else if t.queued != s.queued {
      assert Times(t.handled) + t.queued == Times(s.handled) + s.queued + [at];
    }
  }

  lemma Dequeue(handled: seq<Disposition>, d: Disposition, queued: seq<int>)
    requires queued != [] && queued[0] == d.at
    ensures Times(handled + [d]) + queued[1..] == Times(handled) + queued
  {
    TimesAppend(handled, d);
    assert queued == [d.at] + queued[1..];
  }

  lemma {:induction false} DrainKeepsHistory(job: Job, s: State, clock: nat -> int, k: nat, alloc: Option<nat>)
    ensures var t := Drain(job, s, clock, k, alloc);
            && t.next == s.next && t.fired == s.fired
            && Times(t.handled) + t.queued == Times(s.handled) + s.queued
            && (Honest(job.window, s.handled) ==> Honest(job.window, t.handled))
            && |t.queued| <= |s.queued|
    decreases |s.queued|
  {
    if s.queued != [] {
      var at, rest := s.queued[0], s.(queued := s.queued[1..]);
      if TooLate(job.window, clock(k), at) {
        Dequeue(s.handled, Expired(at, clock(k)), s.queued);
        DrainKeepsHistory(job, rest.(handled := rest.handled + [Expired(at, clock(k))]), clock, k + 1, alloc);
      } else {
        Dequeue(s.handled, if alloc.None? then Unallocated(at) else Started(at, alloc.value), s.queued);
      }
    }
  }

  lemma {:induction false} DrainStarts(job: Job, s: State, clock: nat -> int, k: nat, alloc: Option<nat>)
    requires s.running == map[] && alloc.Some?
    ensures var t := Drain(job, s, clock, k, alloc);
            && (t.queued != [] ==> t.running != map[])
            && (t.running == map[] || t.running.Keys == {alloc.value})
    decreases |s.queued|
  {
    if s.queued != [] {
      var at, rest := s.queued[0], s.(queued := s.queued[1..]);
      if TooLate(job.window, clock(k), at) {
        DrainStarts(job, rest.(handled := rest.handled + [Expired(at, clock(k))]), clock, k + 1, alloc);
      } else {
        assert alloc.value in Drain(job, s, clock, k, alloc).running;
      }
    }
  }

  lemma DoneKept(job: Job, s: State, id: nat, clock: nat -> int, alloc: Option<nat>)
    requires Kept(job.policy, s) && id in s.running && alloc.Some?
    ensures Kept(job.policy, OnDone(job, s, id, clock, alloc))
  {
    var rest := s.(running := s.running - {id});
    var t := OnDone(job, s, id, clock, alloc);
    if rest.running == map[] {
      DrainStarts(job, rest, clock, 0, alloc);
      DrainKeepsHistory(job, rest, clock, 0, alloc);
      assert Live(t.running) <= t.running.Keys;
    } else {
      var other :| other in rest.running;
      assert other in s.running.Keys && id in s.running.Keys && other != id;
      assert Live(t.running) <= Live(s.running);
    }
  }

  lemma DoneInOrder(job: Job, s: State, id: nat, clock: nat -> int, alloc: Option<nat>)
    requires InOrder(job.policy, s) && Honest(job.window, s.handled)
    ensures InOrder(job.policy, OnDone(job, s, id, clock, alloc)) && Honest(job.window, OnDone(job, s, id, clock, alloc).handled)
  {
    DrainKeepsHistory(job, s.(running := s.running - {id}), clock, 0, alloc);
  }

  lemma StepKeepsInv(job: Job, s: State, event: Event)
    requires Advances(job.plan) && Inv(job, s) && Enabled(s, event) && Allocates(event)
    ensures Inv(job, Step(job, s, event))
  {
    match event
    case Timer(alloc) =>
      TimerKept(job, s, alloc);
      TimerInOrder(job, s, alloc);
    case Done(id, clock, alloc) =>
      DoneKept(job, s, id, clock, alloc);
      DoneInOrder(job, s, id, clock, alloc);
  }

  // ----- runs -----

  function Initial(next: Option<int>): State {
    State(map[], [], next, [], [])
  }

  /** A run of the loop in which every execution gets an id. */
  ghost predicate Run(job: Job, events: seq<Event>, states: seq<State>) {
    && |states| == |events| + 1
    && states[0] == Initial(states[0].next)
    && (forall i, j :: 0 <= i < |events| && j == i + 1 ==> Follows(job, states[i], events[i], states[j]))
  }

  ghost predicate Follows(job: Job, s: State, event: Event, t: State) {
    Enabled(s, event) && Allocates(event) && t == Step(job, s, event)
  }

  lemma {:induction false} Always(job: Job, events: seq<Event>, states: seq<State>, i: nat)
    requires Advances(job.plan) && Run(job, events, states) && i < |states|
    ensures Inv(job, states[i])
  {
    if i == 0 {
      assert Times([]) + [] == [];
    } else {
      Always(job, events, states, i - 1);
      assert Follows(job, states[i - 1], events[i - 1], states[i]);
      StepKeepsInv(job, states[i - 1], events[i - 1]);
    }
  }

  /** In every reachable state a queue waits only on a running execution; skip,
      buffer_one and buffer_all run at most one; buffer_one queues at most one;
      cancel_other leaves at most one uncancelled; only buffering queues. */
  lemma PoliciesHold(job: Job, events: seq<Event>, states: seq<State>, i: nat)
    requires Advances(job.plan) && Run(job, events, states) && i < |states|
    ensures var s := states[i];
            && (s.queued != [] ==> s.running != map[])
            && (job.policy in {Skip, BufferOne, BufferAll} ==> |s.running.Keys| <= 1)
            && (job.policy == CancelOther ==> |Live(s.running)| <= 1)
            && (job.policy == BufferOne ==> |s.queued| <= 1)
            && (job.policy !in {BufferOne, BufferAll} ==> s.queued == [])
  {
    Always(job, events, states, i);
    if job.policy in {Skip, BufferOne, BufferAll} {
      SingleAtMostOne(states[i].running.Keys);
    }
    if job.policy == CancelOther {
      SingleAtMostOne(Live(states[i].running));
    }
  }

  /** Every policy handles times in schedule order; buffer_all starts every time that
      fired, in order, but for those past the catch-up window; and when nothing is
      running and nothing more fires, nothing is left. */
  lemma BufferAllLosesOnlyTheLate(job: Job, events: seq<Event>, states: seq<State>, i: nat)
    requires Advances(job.plan) && Run(job, events, states) && i < |states|
    ensures var s := states[i];
            && Rising(Times(s.handled), None)
            && (job.policy == BufferAll ==> Times(s.handled) + s.queued == s.fired)
            && (job.policy == BufferAll && s.running == map[] ==> Times(s.handled) == s.fired)
            && (forall d :: d in s.handled && d.Expired? ==> job.window > 0 && d.now - d.at > job.window)
            && (forall d :: d in s.handled ==> !d.Unallocated?)
  {
    Always(job, events, states, i);
    AllAllocated(job, events, states, i);
    var s := states[i];
    forall a, b | 0 <= a < b < |Times(s.handled)|
      ensures Times(s.handled)[a] < Times(s.handled)[b]
    {
      assert (Times(s.handled) + s.queued)[a] < (Times(s.handled) + s.queued)[b];
    }
    assert Times(s.handled) + [] == Times(s.handled);
  }

  lemma {:induction false} DrainAllocates(job: Job, s: State, clock: nat -> int, k: nat, alloc: Option<nat>)
    requires alloc.Some? && forall d :: d in s.handled ==> !d.Unallocated?
    ensures forall d :: d in Drain(job, s, clock, k, alloc).handled ==> !d.Unallocated?
    decreases |s.queued|
  {
    if s.queued != [] && TooLate(job.window, clock(k), s.queued[0]) {
      DrainAllocates(job, s.(queued := s.queued[1..], handled := s.handled + [Expired(s.queued[0], clock(k))]), clock, k + 1, alloc);
    }
  }

  lemma {:induction false} AllAllocated(job: Job, events: seq<Event>, states: seq<State>, i: nat)
    requires Run(job, events, states) && i < |states|
    ensures forall d :: d in states[i].handled ==> !d.Unallocated?
  {
    if i > 0 {
      AllAllocated(job, events, states, i - 1);
      var s, event := states[i - 1], events[i - 1];
      assert Follows(job, s, event, states[i]);
      if event.Done? {
        DrainAllocates(job, s.(running := s.running - {event.id}), event.clock, 0, event.alloc);
      }
    }
  }

  // ----- what becomes of a fired time -----

  predicate StartsAlways(policy: Policy) {
    policy == AllowAll || policy == CancelOther
  }

  /** A fired time is started at once by allow_all and cancel_other, and by the others when
      nothing runs; otherwise buffer_all queues it last, buffer_one queues it when its queue
      is empty, and it is dropped. What runs goes on, cancelled by cancel_other alone. */
  lemma TimerMeans(job: Job, events: seq<Event>, states: seq<State>, i: nat)
    requires Run(job, events, states) && i < |events| && events[i].Timer?
    ensures var s, t, at, id := states[i], states[i + 1], states[i].next.value, events[i].alloc.value;
            var starts := StartsAlways(job.policy) || s.running == map[];
            var queues := !starts && (job.policy == BufferAll || (job.policy == BufferOne && s.queued == []));
            && t.next == job.plan(at) && t.fired == s.fired + [at]
            && t.handled == s.handled + (if starts then [Started(at, id)] else [])
            && (job.policy != CancelOther ==> t.queued == s.queued + (if queues then [at] else []))
            && t.running.Keys == s.running.Keys + (if starts then {id} else {})
            && (starts ==> t.running[id] == Execution(at, false))
            && (forall other :: other in s.running ==> t.running[other] == s.running[other].(cancelled := s.running[other].cancelled || job.policy == CancelOther))
  {
    var s, t := states[i], states[i + 1];
    assert Follows(job, s, events[i], t);
    if s.running == map[] {
      assert s.running.Keys == {};
    }
  }

  /** The first queued time that is not too late, by the successive readings of the clock. */
  ghost predicate FirstInTime(job: Job, queued: seq<int>, clock: nat -> int, from: nat, k: nat) {
    && k <= |queued| && (forall j :: 0 <= j < k ==> job.window > 0 && clock(from + j) - queued[j] > job.window)
    && (k < |queued| ==> job.window <= 0 || clock(from + k) - queued[k] <= job.window)
  }

  function Dropped(queued: seq<int>, clock: nat -> int, from: nat): seq<Disposition> {
    seq(|queued|, i requires 0 <= i < |queued| => Expired(queued[i], clock(from + i)))
  }

  /** The state once the first k queued times are dropped and the next one is started. */
  function Drained(s: State, clock: nat -> int, from: nat, id: nat, k: nat): State
    requires k <= |s.queued|
  {
    if k == |s.queued| then s.(queued := [], handled := s.handled + Dropped(s.queued, clock, from))
    else
      s.(queued := s.queued[k + 1..], running := s.running[id := Execution(s.queued[k], false)],
         handled := s.handled + Dropped(s.queued[..k], clock, from) + [Started(s.queued[k], id)])
  }

  lemma {:induction false} DrainMeans(job: Job, s: State, clock: nat -> int, from: nat, alloc: Option<nat>) returns (k: nat)
    requires alloc.Some?
    ensures FirstInTime(job, s.queued, clock, from, k) && Drain(job, s, clock, from, alloc) == Drained(s, clock, from, alloc.value, k)
    decreases |s.queued|
  {
    hide Drained, FirstInTime;
    if s.queued == [] || !TooLate(job.window, clock(from), s.queued[0]) {
      k := 0;
      InTime(job, s, clock, from, alloc);
    } else {
      var rest := s.(queued := s.queued[1..], handled := s.handled + [Expired(s.queued[0], clock(from))]);
      var n := DrainMeans(job, rest, clock, from + 1, alloc);
      k := n + 1;
      LateFirst(job, s.queued, clock, from, n);
      LateDrained(s, rest, clock, from, alloc.value, n);
    }
  }

  lemma InTime(job: Job, s: State, clock: nat -> int, from: nat, alloc: Option<nat>)
    requires alloc.Some? && (s.queued == [] || !TooLate(job.window, clock(from), s.queued[0]))
    ensures FirstInTime(job, s.queued, clock, from, 0) && Drain(job, s, clock, from, alloc) == Drained(s, clock, from, alloc.value, 0)
  {
    assert s.handled + Dropped(s.queued[..0], clock, from) == s.handled;
  }

  lemma LateFirst(job: Job, queued: seq<int>, clock: nat -> int, from: nat, n: nat)
    requires queued != [] && TooLate(job.window, clock(from), queued[0]) && FirstInTime(job, queued[1..], clock, from + 1, n)
    ensures FirstInTime(job, queued, clock, from, n + 1)
  {
    var rest := queued[1..];
    forall j | 0 <= j < n + 1
      ensures TooLate(job.window, clock(from + j), queued[j])
    {
      if j > 0 {
        assert rest[j - 1] == queued[j] && clock(from + 1 + (j - 1)) - rest[j - 1] > job.window;
      }
    }
    assert n < |rest| ==> rest[n] == queued[n + 1] && from + 1 + n == from + (n + 1);
  }

  lemma LateDrained(s: State, rest: State, clock: nat -> int, from: nat, id: nat, n: nat)
    requires s.queued != [] && n <= |s.queued| - 1
    requires rest == s.(queued := s.queued[1..], handled := s.handled + [Expired(s.queued[0], clock(from))])
    ensures Drained(rest, clock, from + 1, id, n) == Drained(s, clock, from, id, n + 1)
  {
    DropOne(s.queued, clock, from);
    DropOne(s.queued[..n + 1], clock, from);
    assert s.queued[..n + 1][1..] == rest.queued[..n];
  }

  lemma DropOne(queued: seq<int>, clock: nat -> int, from: nat)
    requires queued != []
    ensures Dropped(queued, clock, from) == [Expired(queued[0], clock(from))] + Dropped(queued[1..], clock, from + 1)
  {
  }

  /** A completion takes its execution away. While others run nothing else happens; after
      the last, the queued times past the catch-up window are dropped and the first other
      one is started. */
  lemma DoneMeans(job: Job, events: seq<Event>, states: seq<State>, i: nat) returns (k: nat)
    requires Run(job, events, states) && i < |events| && events[i].Done?
    ensures var s, t, event := states[i], states[i + 1], events[i];
            && t.next == s.next && t.fired == s.fired
            && if s.running.Keys != {event.id} then t == s.(running := s.running - {event.id})
               else
                 && FirstInTime(job, s.queued, event.clock, 0, k) && t.queued == s.queued[if k < |s.queued| then k + 1 else k..]
                 && t.running == (if k < |s.queued| then map[event.alloc.value := Execution(s.queued[k], false)] else map[])
                 && t.handled == s.handled + Dropped(s.queued[..k], event.clock, 0) +
                                 (if k < |s.queued| then [Started(s.queued[k], event.alloc.value)] else [])
  {
    var s, t, event := states[i], states[i + 1], events[i];
    assert Follows(job, s, event, t);
    var left := s.running - {event.id};
    assert left.Keys == s.running.Keys - {event.id};
    assert left == map[] <==> left.Keys == {};
    k := DrainMeans(job, s.(running := left), event.clock, 0, event.alloc);
    if k == |s.queued| {
      assert s.queued[..k] == s.queued && s.queued[k..] == [];
    }
  }

  // ----- the declared policy -----

  /** The policies by the names they are declared with. */
  lemma PolicyNames()
    ensures PolicyOf("allow_all") == AllowAll && PolicyOf("buffer_all") == BufferAll && PolicyOf("buffer_one") == BufferOne
    ensures PolicyOf("cancel_other") == CancelOther && PolicyOf("terminate_other") == CancelOther
    ensures PolicyOf("skip") == Skip && PolicyOf("") == Skip
  {
  }

  /** strings.TrimSpace(strings.ToLower(policy)) on ASCII text. */
  function Normal(text: string): string {
    TrimEnd(TrimStart(LowerCase(text)))
  }

  function LowerCase(text: string): string {
    seq(|text|, i requires 0 <= i < |text| => if 'A' <= text[i] <= 'Z' then text[i] - 'A' + 'a' else text[i])
  }

  predicate Blank(c: char) {
    c in {' ', '\t', '\n', '\r', 11 as char, 12 as char}
  }

  function TrimStart(text: string): string {
    if text != "" && Blank(text[0]) then TrimStart(text[1..]) else text
  }

  function TrimEnd(text: string): string {
    if text != "" && Blank(text[|text| - 1]) then TrimEnd(text[..|text| - 1]) else text
  }

  /** validateCronOverlapPolicy. */
  predicate Accepted(text: string) {
    Normal(text) in {"", "skip", "buffer_one", "buffer_all", "cancel_other", "terminate_other", "allow_all"}
  }

  predicate Plain(text: string) {
    forall i :: 0 <= i < |text| ==> 'a' <= text[i] <= 'z' || text[i] == '_'
  }

  lemma PlainIsTrim(text: string)
    requires Plain(text)
    ensures TrimEnd(TrimStart(text)) == text
  {
  }

  lemma PlainIsNormal(text: string)
    requires Plain(text)
    ensures Normal(text) == text
  {
    assert LowerCase(text) == text;
    PlainIsTrim(text);
  }

  lemma NamedIsNormal(text: string)
    requires PolicyOf(text) != Skip
    ensures Normal(text) == text
  {
    assert Plain(text);
    PlainIsNormal(text);
  }

  /** Validation accepts a policy in any letter case; the loop follows the one it names
      only if the text is already normal, or the policy is skip anyway. */
  lemma PolicyIsFollowedIff(text: string)
    requires Accepted(text)
    ensures PolicyOf(text) == PolicyOf(Normal(text)) <==> text == Normal(text) || PolicyOf(Normal(text)) == Skip
  {
    if PolicyOf(text) != Skip {
      NamedIsNormal(text);
    }
  }

  /** A policy that validation accepts and the loop does not follow. */
  lemma ShoutedPolicySkips()
    ensures Accepted("BUFFER_ALL") && PolicyOf("BUFFER_ALL") == Skip && PolicyOf(Normal("BUFFER_ALL")) == BufferAll
  {
    var low := LowerCase("BUFFER_ALL");
    assert low[0] == 'b' && low[1] == 'u' && low[2] == 'f' && low[3] == 'f' && low[4] == 'e' && low[5] == 'r' && low[6] == '_';
    assert low[7] == 'a' && low[8] == 'l' && low[9] == 'l';
    assert low == "buffer_all";
    PlainIsTrim("buffer_all");
  }

  // ----- the loop -----

  class JobLoop {
    const job: Job
    var running: map<nat, Execution>
    var queued: seq<int>
    var next: Option<int>
    ghost var fired: seq<int>
    ghost var handled: seq<Disposition>

    ghost function Loop(): State
      reads this
    {
      State(running, queued, next, fired, handled)
    }

    constructor (policy: string, window: int, plan: int -> Option<int>, now: int)
      ensures job == Job(PolicyOf(policy), window, plan)
      ensures Loop() == Initial(plan(now))
    {
      job := Job(PolicyOf(policy), window, plan);
      running, queued, next, fired, handled := map[], [], plan(now), [], [];
    }

    method StartRun(at: int, alloc: Option<nat>)
      modifies this`running, this`handled
      ensures Loop() == Start(old(Loop()), at, alloc)
    {
      if alloc.None? {
        handled := handled + [Unallocated(at)];
        return;
      }
      running := running[alloc.value := Execution(at, false)];
      handled := handled + [Started(at, alloc.value)];
    }

    /** stopRunning: cancels each running execution, in no fixed order. */
    method StopRunning()
      modifies this`running
      ensures running == Cancelled(old(running))
    {
      var left := running.Keys;
      while left != {}
        invariant left <= running.Keys == old(running).Keys
        invariant forall id :: id in running ==> running[id] == if id in left then old(running)[id] else old(running)[id].(cancelled := true)
        decreases |left|
      {
        var id :| id in left;
        running := running[id := running[id].(cancelled := true)];
        left := left - {id};
      }
    }

    /** The timer case of the select. */
    method TimerFired(alloc: Option<nat>)
      requires next.Some?
      modifies this
      ensures Loop() == OnTimer(job, old(Loop()), alloc)
    {
      var at := next.value;
      next := job.plan(at);
      fired := fired + [at];
      match job.policy {
        case AllowAll =>
          StartRun(at, alloc);
        case CancelOther =>
          StopRunning();
          queued := [];
          StartRun(at, alloc);
        case BufferAll =>
          if running == map[] {
            StartRun(at, alloc);
          } else {
            queued := queued + [at];
          }
        case BufferOne =>
          if running == map[] {
            StartRun(at, alloc);
          } else if queued == [] {
            queued := queued + [at];
          }
        case Skip =>
          if running == map[] {
            StartRun(at, alloc);
          }
      }
    }

    /** The completion case of the select. */
    method Completed(id: nat, clock: nat -> int, alloc: Option<nat>)
      modifies this
      ensures Loop() == OnDone(job, old(Loop()), id, clock, alloc)
    {
      running := running - {id};
      if running != map[] || queued == [] {
        return;
      }
      var k := 0;
      while queued != []
        invariant running == map[]
        invariant Drain(job, Loop(), clock, k, alloc) == OnDone(job, old(Loop()), id, clock, alloc)
        decreases |queued|
      {
        var at := queued[0];
        queued := queued[1..];
        if TooLate(job.window, clock(k), at) {
          handled := handled + [Expired(at, clock(k))];
          k := k + 1;
          continue;
        }
        StartRun(at, alloc);
        return;
      }
    }
  }
}
