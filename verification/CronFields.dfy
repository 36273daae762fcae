/** Cron fields and schedules (runtime/cron.go): what a parsed field contains, and when
a schedule matches a moment. */
module CronFields {
  import opened Options

  /** A field's set of values; `any` is the bare star. */
  datatype Field = Field(any: bool, min: int, max: int, values: seq<bool>)

  predicate Sized(field: Field) {
    field.max - field.min + 1 == |field.values|
  }

  /** cronField.Has. */
  predicate Has(field: Field, value: int)
    requires Sized(field)
  {
    field.any || (field.min <= value <= field.max && field.values[value - field.min])
  }

  predicate NonEmpty(field: Field)
    requires Sized(field)
  {
    field.any || exists j :: 0 <= j < |field.values| && field.values[j]
  }

  /** One comma-separated segment, its numbers read: a star, a value or a range, each
      with a step; None when a number or the step does not parse. */
  datatype Part = Star(step: nat) | Span(start: int, end: int, step: nat)

  function StartOf(part: Part, min: int): int {
    if part.Star? then min else part.start
  }

  function EndOf(part: Part, max: int): int {
    if part.Star? then max else part.end
  }

  predicate Fits(part: Part, min: int, max: int) {
    part.step > 0 && min <= StartOf(part, min) <= EndOf(part, max) <= max
  }

  /** `value` lies whole steps after `start`. */
  predicate Reaches(start: int, value: int, step: nat)
    requires step > 0
    decreases value - start
  {
    start == value || (start < value && Reaches(start + step, value, step))
  }

  /** A value a segment names. */
  predicate Covers(part: Part, min: int, max: int, value: int)
    requires part.step > 0
  {
    value <= EndOf(part, max) && Reaches(StartOf(part, min), value, part.step)
  }

  predicate Valid(parts: seq<Option<Part>>, min: int, max: int) {
    forall i :: 0 <= i < |parts| ==> parts[i].Some? && Fits(parts[i].value, min, max)
  }

  predicate Named(parts: seq<Option<Part>>, min: int, max: int, value: int)
    requires Valid(parts, min, max)
  {
    exists i :: 0 <= i < |parts| && Covers(parts[i].value, min, max, value)
  }

  lemma AtLeastOnce(a: int, step: nat)
    requires a >= 1
    ensures a * step >= step
  {
    assert (a - 1) * step >= 0;
    assert a * step == (a - 1) * step + step;
  }

  lemma SameQuotient(p: int, m: nat, q: int, r: nat, step: nat)
    requires m < step && r < step && p * step + m == q * step + r
    ensures p == q && m == r
  {
    assert (p - q) * step == p * step - q * step;
    if p > q {
      AtLeastOnce(p - q, step);
    }
    if q > p {
      assert (q - p) * step == q * step - p * step;
      AtLeastOnce(q - p, step);
    }
  }

  lemma StepBack(x: int, step: nat)
    requires step > 0
    ensures (x - step) % step == x % step
  {
    var p, q := (x - step) / step, x / step - 1;
    assert x == (x / step) * step + x % step;
    assert q * step == (x / step) * step - step;
    assert x - step == p * step + (x - step) % step;
    SameQuotient(p, (x - step) % step, q, x % step, step);
  }

  /** Whole steps after, by arithmetic: a non-negative multiple of the step. */
  lemma {:induction false} ReachesIff(start: int, value: int, step: nat)
    requires step > 0
    ensures Reaches(start, value, step) <==> start <= value && (value - start) % step == 0
    decreases value - start
  {
    if start < value {
      ReachesIff(start + step, value, step);
      StepBack(value - start, step);
      if value < start + step {
        assert (value - start) % step == value - start;
      }
    }
  }

  /** The loop that marks one segment's values in the field's buffer. */
  method Mark(values: array<bool>, part: Part, min: int, max: int)
    requires Fits(part, min, max) && values.Length == max - min + 1
    modifies values
    ensures forall j :: 0 <= j < values.Length ==> values[j] == (old(values[j]) || Covers(part, min, max, min + j))
  {
    var end := EndOf(part, max);
    var value := StartOf(part, min);
    while value <= end
      invariant min <= value
      invariant forall j :: 0 <= j < values.Length ==>
                              (values[j] || (min + j <= end && Reaches(value, min + j, part.step)) <==> old(values[j]) || Covers(part, min, max, min + j))
    {
      values[value - min] := true;
      value := value + part.step;
    }
  }

  /** parseCronField on read segments: it fails exactly when a segment does not parse
      or leaves its range, and otherwise holds exactly the values the segments name. */
  method ParseField(star: bool, parts: seq<Option<Part>>, min: int, max: int) returns (field: Option<Field>)
    requires min <= max && |parts| > 0
    ensures field.Some? <==> star || Valid(parts, min, max)
    ensures field.Some? ==> Sized(field.value) && field.value.any == star && field.value.min == min && field.value.max == max
    ensures field.Some? ==> NonEmpty(field.value)
    ensures field.Some? ==> forall value :: Has(field.value, value) <==> star || (min <= value <= max && Named(parts, min, max, value))
  {
    var values := new bool[max - min + 1](_ => false);
    if star {
      return Some(Field(true, min, max, values[..]));
    }
    for i := 0 to |parts|
      invariant Valid(parts[..i], min, max)
      invariant forall j :: 0 <= j < values.Length ==> (values[j] <==> Named(parts[..i], min, max, min + j))
    {
      if parts[i].None? || !Fits(parts[i].value, min, max) {
        return None;
      }
      Mark(values, parts[i].value, min, max);
      forall j | 0 <= j < values.Length
        ensures values[j] <==> Named(parts[..i + 1], min, max, min + j)
      {
        NamedStep(parts, i, min, max, min + j);
      }
    }
    assert parts[..|parts|] == parts;
    var first := parts[0].value;
    assert Covers(first, min, max, StartOf(first, min));
    assert Named(parts, min, max, StartOf(first, min));
    var marked := false;
    for k := 0 to values.Length
      invariant marked <==> exists j :: 0 <= j < k && values[j]
    {
      if values[k] {
        marked := true;
        break;
      }
    }
    assert values[StartOf(first, min) - min];
    field := if marked then Some(Field(false, min, max, values[..])) else None;
    forall value
      ensures Has(field.value, value) <==> min <= value <= max && Named(parts, min, max, value)
    {
      if min <= value <= max {
        assert values[value - min] <==> Named(parts, min, max, min + (value - min));
      }
    }
  }

  lemma NamedStep(parts: seq<Option<Part>>, i: nat, min: int, max: int, v: int)
    requires i < |parts| && Valid(parts[..i + 1], min, max)
    ensures Valid(parts[..i], min, max) && parts[i].Some? && parts[i].value.step > 0
    ensures Named(parts[..i + 1], min, max, v) <==> Named(parts[..i], min, max, v) || Covers(parts[i].value, min, max, v)
  {
    var a, b := parts[..i], parts[..i + 1];
    assert b[i] == parts[i];
    assert forall k :: 0 <= k < i ==> a[k] == b[k];
  }
}
