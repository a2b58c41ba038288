/** Mapping of slider handles to half-open nanosecond windows. */
module SliderWindow {
  import opened Prelude
  import opened Arithmetic

  datatype Window = Window(start: int64, end: int64)

  /** The true position of a handle, in unbounded arithmetic. */
  function Exact(span: int, position: int, steps: int): int
    requires steps > 0
  {
    span * position / steps
  }

  /** The C++ expression equals the floor of the full product. */
  lemma SplitFloor(span: int, position: int, steps: int)
    requires steps > 0
    ensures span / steps * position + span % steps * position / steps == Exact(span, position, steps)
  {
    var q, r := span / steps, span % steps;
    assert span == q * steps + r;
    Distribute(q * steps, r, position);
    SwapFactors(q, steps, position);
    DivShift(q * position, r * position, steps);
  }

  /** Splitting the division keeps the floor of the full product, and both halves stay in int64. */
  lemma SplitDivision(span: int64, position: int32, steps: int32)
    requires span >= 0 && 0 <= position <= steps && steps > 0
    ensures span / steps * position + span % steps * position / steps == Exact(span, position, steps)
    ensures 0 <= span / steps * position <= span
    ensures 0 <= span % steps * position <= INT64_MAX
    ensures 0 <= Exact(span, position, steps) <= span
  {
    SplitFloor(span, position, steps);
    QuotientBound(span, position, steps);
    RemainderBound(span % steps, position, steps);
    ExactMonotone(span, 0, position, steps);
    ExactMonotone(span, position, steps, steps);
    DivShift(span, 0, steps);
  }

  lemma QuotientBound(span: int, position: int, steps: int)
    requires span >= 0 && 0 <= position <= steps && steps > 0
    ensures 0 <= span / steps * position <= span
  {
    var q := span / steps;
    MulMono(0, q, position);
    MulMono(position, steps, q);
    assert position * q == q * position && q * steps <= span;
  }

  lemma RemainderBound(remainder: int, position: int, steps: int)
    requires 0 <= remainder < steps && 0 <= position <= steps < 0x8000_0000
    ensures 0 <= remainder * position <= INT64_MAX
  {
    MulMono(0, remainder, position);
    MulMono(remainder, 0x7fff_ffff, position);
  }

  lemma ExactMonotone(span: int, lower: int, upper: int, steps: int)
    requires span >= 0 && lower <= upper && steps > 0
    ensures Exact(span, lower, steps) <= Exact(span, upper, steps)
  {
    MulMono(lower, upper, span);
    DivMono(span * lower, span * upper, steps);
  }

  function Offset(span: int64, position: int32, steps: int32): (r: int64)
    requires span >= 0 && 0 <= position <= steps && steps > 0
    ensures r == Exact(span, position, steps) && 0 <= r <= span
  {
    SplitDivision(span, position, steps);
    var whole: int64 := span / steps * position;
    var part: int64 := span % steps * position;
    whole + part / steps
  }

  /** Subtraction of the unsigned words is exact for an ascending pair. */
  function UnsignedDifference(max: int64, min: int64): (r: uint64)
    ensures min <= max ==> r == max - min
  {
    (ToUnsigned64(max) - ToUnsigned64(min)) % TWO_TO_THE_64
  }

  /** Succeeds exactly for valid handles whose span and upper end are representable; the window
      then runs from the floor of the exact position of `lower` to that of `upper`, and the top
      handle reaches one tick past `max`. */
  function SliderToWindow(min: int64, max: int64, lower: int32, upper: int32, steps: int32): (r: Option<Window>)
    ensures r.Some? <==> min < max && 0 < steps && 0 <= lower <= upper <= steps && max - min <= INT64_MAX
                         && !(upper == steps && max == INT64_MAX)
    ensures r.Some? ==>
              && r.value.start == min + (max - min) * lower / steps
              && r.value.end == (if upper == steps then max + 1 else min + (max - min) * upper / steps)
  {
    if max <= min || steps <= 0 || lower < 0 || upper < lower || upper > steps then None
    else
      var unsignedSpan: uint64 := UnsignedDifference(max, min);
      if unsignedSpan > INT64_MAX || (upper == steps && max == INT64_MAX) then None
      else
        var span: int64 := unsignedSpan;
        Some(Window(min + Offset(span, lower, steps),
                    if upper == steps then max + 1 else min + Offset(span, upper, steps)))
  }

  /** Handles in ascending order that start at 0 and end at `steps`. */
  predicate Partition(handles: seq<int32>, steps: int32) {
    && |handles| >= 2 && handles[0] == 0 && handles[|handles| - 1] == steps
    && forall i, j :: 0 <= i < j < |handles| ==> handles[i] < handles[j]
  }

  /** An instant in [min, max + 1) lies in exactly one of the windows of a partition. */
  lemma WindowsTile(min: int64, max: int64, handles: seq<int32>, steps: int32, t: int)
    requires min < max < INT64_MAX && max - min <= INT64_MAX
    requires steps > 0 && Partition(handles, steps)
    requires min <= t < max + 1
    ensures forall i :: 0 <= i < |handles| - 1 ==> SliderToWindow(min, max, handles[i], handles[i + 1], steps).Some?
    ensures exists i :: 0 <= i < |handles| - 1 && InWindow(min, max, handles, steps, t, i)
    ensures forall i, j :: 0 <= i < j < |handles| - 1 && InWindow(min, max, handles, steps, t, i) ==>
                             !InWindow(min, max, handles, steps, t, j)
  {
    forall i | 0 <= i < |handles| - 1
      ensures SliderToWindow(min, max, handles[i], handles[i + 1], steps).Some?
    {
      HandleBounds(handles, steps, i);
    }
    var span := max - min;
    var k := FindWindow(min, max, handles, steps, t, |handles| - 1);
    assert InWindow(min, max, handles, steps, t, k);
    forall i, j | 0 <= i < j < |handles| - 1 && InWindow(min, max, handles, steps, t, i)
      ensures !InWindow(min, max, handles, steps, t, j)
    {
      HandleBounds(handles, steps, i);
      HandleBounds(handles, steps, j);
      ExactMonotone(span, handles[i + 1], handles[j], steps);
    }
  }

  predicate InWindow(min: int64, max: int64, handles: seq<int32>, steps: int32, t: int, i: int) {
    && 0 <= i < |handles| - 1
    && SliderToWindow(min, max, handles[i], handles[i + 1], steps).Some?
    && SliderToWindow(min, max, handles[i], handles[i + 1], steps).value.start <= t
       < SliderToWindow(min, max, handles[i], handles[i + 1], steps).value.end
  }

  lemma HandleBounds(handles: seq<int32>, steps: int32, i: nat)
    requires Partition(handles, steps) && i + 1 < |handles|
    ensures 0 <= handles[i] < handles[i + 1] <= steps
    ensures handles[i + 1] == steps <==> i + 2 == |handles|
  {
    var last := |handles| - 1;
    assert i > 0 ==> handles[0] < handles[i];
    assert i + 1 < last ==> handles[i + 1] < handles[last];
  }

  /** Walks down from the right end to the window that holds `t`. */
  lemma FindWindow(min: int64, max: int64, handles: seq<int32>, steps: int32, t: int, n: nat) returns (k: nat)
    requires min < max < INT64_MAX && max - min <= INT64_MAX
    requires steps > 0 && Partition(handles, steps)
    requires 0 < n < |handles| && min <= t
    requires t < if n == |handles| - 1 then max + 1 else min + Exact(max - min, handles[n], steps)
    ensures InWindow(min, max, handles, steps, t, k)
    decreases n
  {
    HandleBounds(handles, steps, n - 1);
    assert Exact(max - min, handles[0], steps) == 0;
    if t >= min + Exact(max - min, handles[n - 1], steps) {
      k := n - 1;
    } else {
      k := FindWindow(min, max, handles, steps, t, n - 1);
    }
  }
}
