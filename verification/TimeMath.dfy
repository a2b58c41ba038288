/** Checked nanosecond arithmetic. Every intermediate of the C++ expressions is bound to an
    `int64`, so verification shows that none of them overflows. */
module TimeMath {
  import opened Prelude
  import opened Arithmetic

  const NANOS_PER_SECOND := 1_000_000_000

  datatype TimeUnit = Seconds | Milliseconds | Microseconds | Nanoseconds

  predicate InInt64(x: int) {
    INT64_MIN <= x <= INT64_MAX
  }

  function NanosecondsPer(unit: TimeUnit): int64 {
    match unit
    case Seconds => 1_000_000_000
    case Milliseconds => 1_000_000
    case Microseconds => 1_000
    case Nanoseconds => 1
  }

  /** `x > max / k` is an exact overflow test for `x * k` when `k` is positive. */
  lemma UpperQuotient(x: int, k: int, max: int)
    requires k > 0 && max >= 0
    ensures x > TruncDiv(max, k) <==> x * k > max
  {
    var q := max / k;
    assert q * k <= max < (q + 1) * k;
    if x > q {
      MulMono(q + 1, x, k);
    } else {
      MulMono(x, q, k);
    }
  }

  /** `x < min / k` is an exact underflow test for `x * k` when `k` is positive. */
  lemma LowerQuotient(x: int, k: int, min: int)
    requires k > 0 && min <= 0
    ensures x < TruncDiv(min, k) <==> x * k < min
  {
    UpperQuotient(-x, k, -min);
    NegatedProduct(x, k);
    NegatedQuotient(min, k);
  }

  lemma NegatedProduct(x: int, k: int)
    ensures -x * k == -(x * k)
  {
  }

  lemma NegatedQuotient(n: int, k: int)
    requires k > 0 && n <= 0
    ensures TruncDiv(n, k) == -TruncDiv(-n, k)
  {
    if n == 0 {
      assert 0 / k == 0;
    }
  }

  /** Returns a value exactly when the product is representable. */
  function ScaleToNanoseconds(ticks: int64, unit: TimeUnit): (r: Option<int64>)
    ensures var product := match unit
              case Seconds => ticks * 1_000_000_000
              case Milliseconds => ticks * 1_000_000
              case Microseconds => ticks * 1_000
              case Nanoseconds => ticks as int;
            r == if InInt64(product) then Some(product) else None
  {
    var scale := NanosecondsPer(unit);
    UpperQuotient(ticks, scale, INT64_MAX);
    LowerQuotient(ticks, scale, INT64_MIN);
    if scale == 0 || ticks > TruncDiv(INT64_MAX, scale) || ticks < TruncDiv(INT64_MIN, scale) then
      None
    else
      Some(ticks * scale)
  }

  /** Succeeds exactly when the nanoseconds are in range and the true sum is representable. */
  function CombineSecondsAndNanos(seconds: int64, nanos: int64): (r: Option<int64>)
    ensures r.Some? <==> 0 <= nanos < NANOS_PER_SECOND && InInt64(seconds * NANOS_PER_SECOND + nanos)
    ensures r.Some? ==> r.value == seconds * NANOS_PER_SECOND + nanos
  {
    if nanos < 0 || nanos >= NANOS_PER_SECOND then None
    else if seconds < 0 then
      // Rebased towards zero, so that the product fits whenever the sum does.
      var s: int64 := seconds + 1;
      var n: int64 := nanos - NANOS_PER_SECOND;
      var room: int64 := INT64_MIN - n;
      LowerQuotient(s, NANOS_PER_SECOND, room);
      if s < TruncDiv(room, NANOS_PER_SECOND) then None
      else
        var product: int64 := s * NANOS_PER_SECOND;
        Some(product + n)
    else
      var room: int64 := INT64_MAX - nanos;
      UpperQuotient(seconds, NANOS_PER_SECOND, room);
      if seconds > TruncDiv(room, NANOS_PER_SECOND) then None
      else
        var product: int64 := seconds * NANOS_PER_SECOND;
        Some(product + nanos)
  }

  /** The guard of SyntheticInstant on `interval * row`. */
  function OffsetOverflows(interval: int64, row: int64): bool {
    || (interval > 0 && row > TruncDiv(INT64_MAX, interval))
    || (interval < 0 && row > 0 && interval < TruncDiv(INT64_MIN, row))
  }

  lemma OffsetGuardExact(interval: int64, row: int64)
    requires row >= 0
    ensures OffsetOverflows(interval, row) <==> !InInt64(interval * row)
  {
    if interval > 0 {
      UpperQuotient(row, interval, INT64_MAX);
      MulMono(0, row, interval);
      assert interval * row == row * interval;
    } else if interval < 0 && row > 0 {
      LowerQuotient(interval, row, INT64_MIN);
      MulMono(interval, 0, row);
    } else {
      assert interval == 0 || row == 0;
      assert interval * row == 0;
    }
  }

  /** Succeeds exactly when the row is non-negative and both the offset and the sum fit. */
  function SyntheticInstant(anchor: int64, interval: int64, row: int64): (r: Option<int64>)
    ensures r.Some? <==> row >= 0 && InInt64(interval * row) && InInt64(anchor + interval * row)
    ensures r.Some? ==> r.value == anchor + interval * row
  {
    if row < 0 then None
    else
      OffsetGuardExact(interval, row);
      if OffsetOverflows(interval, row) then None
      else
        var offset: int64 := interval * row;
        if (offset > 0 && anchor > INT64_MAX - offset) || (offset < 0 && anchor < INT64_MIN - offset) then None
        else Some(anchor + offset)
  }

  function FitSyntheticInterval(first: int64, last: int64, rows: int64, fallback: int64): int64 {
    if rows < 2 || last <= first then fallback
    else
      var span: uint64 := (ToUnsigned64(last) - ToUnsigned64(first)) % TWO_TO_THE_64;
      var interval := span / (rows - 1);
      if interval > INT64_MAX then fallback else interval
  }

  /** The unsigned subtraction of two signed words is their true distance. */
  lemma UnsignedSpan(first: int64, last: int64)
    requires first <= last
    ensures (ToUnsigned64(last) - ToUnsigned64(first)) % TWO_TO_THE_64 == last - first
  {
  }

  /** An interval fitted to [first, last] keeps every row of the axis inside it, provided the last
      offset is itself an int64; that guard is the only way a fitted axis can fail. */
  lemma FittedAxisStaysInside(first: int64, last: int64, rows: int64, fallback: int64, row: int64)
    requires rows >= 2 && first < last && 0 <= row < rows
    requires (last - first) / (rows - 1) <= INT64_MAX
    ensures var step := FitSyntheticInterval(first, last, rows, fallback);
            && (SyntheticInstant(first, step, row).Some? <==> step * row <= INT64_MAX)
            && (SyntheticInstant(first, step, row).Some? ==> first <= SyntheticInstant(first, step, row).value <= last)
  {
    UnsignedSpan(first, last);
    var step := FitSyntheticInterval(first, last, rows, fallback);
    assert step == (last - first) / (rows - 1);
    StepBound(last - first, rows - 1, row, step);
  }

  lemma StepBound(span: int, gaps: int, row: int, step: int)
    requires gaps > 0 && span >= 0 && 0 <= row <= gaps && step == span / gaps
    ensures 0 <= step * row <= span
  {
    MulMono(row, gaps, step);
    MulMono(0, row, step);
    assert row * step == step * row && gaps * step <= span;
  }

  /** A fitted step is the largest with which the axis still ends by `last`, whatever the fallback. */
  lemma FittedStepIsLargest(first: int64, last: int64, rows: int64, fallback: int64, step: int)
    requires rows >= 2 && first < last && last - first < TWO_TO_THE_63 * (rows - 1)
    ensures step <= FitSyntheticInterval(first, last, rows, fallback) <==> first + step * (rows - 1) <= last
  {
    UnsignedSpan(first, last);
    QuotientFits(last - first, rows - 1);
    UpperQuotient(step, rows - 1, last - first);
  }

  lemma QuotientFits(span: nat, gaps: nat)
    requires gaps > 0
    ensures span < TWO_TO_THE_63 * gaps <==> span / gaps < TWO_TO_THE_63
  {
    UpperQuotient(TWO_TO_THE_63, gaps, span);
  }

  /** There is no fitted step with less than two rows, without a span, or if it would be no int64. */
  lemma FallbackExactly(first: int64, last: int64, rows: int64, fallback: int64)
    requires rows < 2 || last <= first || last - first >= TWO_TO_THE_63 * (rows - 1)
    ensures FitSyntheticInterval(first, last, rows, fallback) == fallback
  {
    if rows >= 2 && first < last {
      UnsignedSpan(first, last);
      QuotientFits(last - first, rows - 1);
    }
  }

  /** The fitted axis over the whole int64 range loses its last row, although the instant it
      stands for is representable. */
  lemma FittedAxisCanLoseARow()
    ensures var step := FitSyntheticInterval(INT64_MIN, INT64_MAX, 3, 1);
            && SyntheticInstant(INT64_MIN, step, 2) == None
            && InInt64(INT64_MIN + step * 2)
  {
    UnsignedSpan(INT64_MIN, INT64_MAX);
  }
}
