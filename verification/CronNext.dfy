/** The next fire of a schedule (runtime/cron.go): the least multiple of an interval,
and the first matching minute within a horizon. */
module CronNext {
  import opened Options
  import opened CronFields

  // ----- intervals -----

  const NANOS := 1_000_000_000

  /** Go's integer division, toward zero. */
  function Truncated(a: int, b: int): int
    requires b > 0
  {
    if a >= 0 then a / b else -((-a) / b)
  }

  /** The k-th multiple of an interval, in nanoseconds since the epoch. */
  function Multiple(k: int, seconds: int): int {
    k * seconds * NANOS
  }

  /** everyCronPlan.Next, in nanoseconds since the epoch; Unix() rounds down. */
  function NextInterval(after: int, seconds: int): int
    requires seconds > 0
  {
    Multiple(Truncated(after / NANOS, seconds) + 1, seconds)
  }

  /** The least multiple of the interval strictly after an instant. */
  ghost predicate LeastAfter(next: int, after: int, seconds: int) {
    && next > after
    && (exists k :: next == Multiple(k, seconds))
    && (forall k :: Multiple(k, seconds) > after ==> next <= Multiple(k, seconds))
  }

  lemma Scale(a: int, b: int, seconds: int)
    requires seconds > 0
    ensures a <= b ==> a * seconds <= b * seconds
    ensures a < b ==> a * seconds < b * seconds
  {
    if a <= b {
      assert (b - a) * seconds >= 0;
    }
    if a < b {
      AtLeastOnce(b - a, seconds);
    }
    assert (b - a) * seconds == b * seconds - a * seconds;
  }

  /** A multiple is after an instant exactly when it is after its interval's start. */
  lemma MultipleAfter(k: int, after: int, seconds: int)
    requires seconds > 0
    ensures Multiple(k, seconds) > after <==> k > (after / NANOS) / seconds
  {
    var unix := after / NANOS;
    var f := unix / seconds;
    assert unix == f * seconds + unix % seconds;
    assert (f + 1) * seconds == f * seconds + seconds;
    Scale(k, f, seconds);
    Scale(f + 1, k, seconds);
  }

  lemma TruncatedIs(unix: int, seconds: int)
    requires seconds > 0
    ensures Truncated(unix, seconds) == if unix >= 0 || unix % seconds == 0 then unix / seconds else unix / seconds + 1
  {
    if unix < 0 {
      var f, m := unix / seconds, unix % seconds;
      assert unix == f * seconds + m;
      var p, n := (-unix) / seconds, (-unix) % seconds;
      assert -unix == p * seconds + n;
      if m == 0 {
        assert (-f) * seconds == -(f * seconds);
        SameQuotient(p, n, -f, 0, seconds);
      } else {
        assert (-f - 1) * seconds == -(f * seconds) - seconds;
        SameQuotient(p, n, -f - 1, seconds - m, seconds);
      }
    }
  }

  /** Interval Next is the least multiple after an instant if and only if the instant
      is not before the epoch, or in the first second of an interval. */
  lemma IntervalNextIff(after: int, seconds: int)
    requires seconds > 0
    ensures LeastAfter(NextInterval(after, seconds), after, seconds) <==> after / NANOS >= 0 || (after / NANOS) % seconds == 0
  {
    var unix := after / NANOS;
    var f, t := unix / seconds, Truncated(unix, seconds) + 1;
    TruncatedIs(unix, seconds);
    MultipleAfter(t, after, seconds);
    MultipleAfter(f + 1, after, seconds);
    Scale(f + 1, f + 2, seconds);
    assert NextInterval(after, seconds) == Multiple(t, seconds);
    if t == f + 1 {
      forall k | Multiple(k, seconds) > after
        ensures Multiple(t, seconds) <= Multiple(k, seconds)
      {
        MultipleAfter(k, after, seconds);
        Scale(t, k, seconds);
      }
    } else {
      assert Multiple(f + 1, seconds) > after && Multiple(f + 1, seconds) < Multiple(t, seconds);
    }
  }

  /** One second before the epoch, a minute's Next skips the epoch itself. */
  lemma BeforeTheEpochSkips()
    ensures NextInterval(-NANOS, 60) == Multiple(1, 60) && -NANOS < Multiple(0, 60) < Multiple(1, 60)
    ensures !LeastAfter(NextInterval(-NANOS, 60), -NANOS, 60)
  {
    assert (-NANOS) / NANOS == -1;
    IntervalNextIff(-NANOS, 60);
  }

  // ----- the search -----

  const HORIZON := 5 * 366 * 24 * 60

  /** The first minute from `from` up to and including `last` that matches. */
  function FirstMatch(matches: int -> bool, from: int, last: int): Option<int>
    decreases last - from
  {
    if from > last then None else if matches(from) then Some(from) else FirstMatch(matches, from + 1, last)
  }

  /** parsedCronPlan.Next over minutes of absolute time: `after` in nanoseconds, the
      zone's clock inside `matches`. */
  method NextMinute(matches: int -> bool, after: int) returns (next: Option<int>)
    ensures next == FirstMatch(matches, after / (60 * NANOS) + 1, after / (60 * NANOS) + 1 + HORIZON)
  {
    var minute := after / (60 * NANOS) + 1;
    var deadline := minute + HORIZON;
    ghost var first := minute;
    while minute <= deadline
      invariant FirstMatch(matches, first, deadline) == FirstMatch(matches, minute, deadline)
      decreases deadline - minute
    {
      if matches(minute) {
        return Some(minute);
      }
      minute := minute + 1;
    }
    return None;
  }

  /** The search finds the earliest matching minute, and fails only when none matches
      within the horizon. */
  lemma {:induction false} FirstMatchIsLeast(matches: int -> bool, from: int, last: int)
    ensures match FirstMatch(matches, from, last)
            case None => forall m :: from <= m <= last ==> !matches(m)
            case Some(found) => from <= found <= last && matches(found) && forall m :: from <= m < found ==> !matches(m)
    decreases last - from
  {
    if from <= last && !matches(from) {
      FirstMatchIsLeast(matches, from + 1, last);
    }
  }

  /** parsedCronPlan.Next answers the earliest matching minute strictly after its
      argument, and no time exactly when no minute of the horizon matches. */
  lemma NextIsEarliest(matches: int -> bool, after: int)
    ensures var first := after / (60 * NANOS) + 1;
            && (forall m :: m * 60 * NANOS > after <==> m >= first)
            && match FirstMatch(matches, first, first + HORIZON)
               case None => forall m :: first <= m <= first + HORIZON ==> !matches(m)
               case Some(found) =>
                 && matches(found) && found * 60 * NANOS > after
                 && (forall m :: m * 60 * NANOS > after && matches(m) ==> found <= m)
  {
    var first := after / (60 * NANOS) + 1;
    FirstMatchIsLeast(matches, first, first + HORIZON);
  }
}
