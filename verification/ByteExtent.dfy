/** Checked geometry of a byte-sized extent over page-rounded storage. */
module ByteExtent {
  import opened Common

  const MAX_U64: nat := 0xffff_ffff_ffff_ffff

  datatype SizeError = Invalid | LimitExceeded

  datatype Result<T> = Ok(value: T) | Err(error: SizeError)

  datatype Span = Span(start: nat, end: nat)

  datatype ResizePlan = ResizePlan(length: nat, capacity: nat, invalidate: Option<Span>, zero: Option<Span>)

  function PageCount(length: nat, pageBytes: nat): nat
    requires pageBytes > 0
  {
    length / pageBytes + (if length % pageBytes != 0 then 1 else 0)
  }

  function Capacity(length: nat, pageBytes: nat, maximumPages: nat): Result<nat> {
    if !PowerOfTwo(pageBytes) then Err(Invalid)
    else if PageCount(length, pageBytes) > MAX_U64 then Err(LimitExceeded)
    else if PageCount(length, pageBytes) > maximumPages then Err(LimitExceeded)
    else if PageCount(length, pageBytes) * pageBytes > MAX_U64 then Err(LimitExceeded)
    else Ok(PageCount(length, pageBytes) * pageBytes)
  }

  function Plan(oldLength: nat, length: nat, pageBytes: nat, maximumPages: nat): Result<ResizePlan> {
    var before := Capacity(oldLength, pageBytes, maximumPages);
    var after := Capacity(length, pageBytes, maximumPages);
    if before.Err? then Err(before.error)
    else if after.Err? then Err(after.error)
    else if length < oldLength then
      Ok(ResizePlan(length, after.value, Some(Span(length / pageBytes * pageBytes, before.value)),
                    if length < after.value then Some(Span(length, after.value)) else None))
    else if length > oldLength && oldLength < before.value then
      Ok(ResizePlan(length, after.value, Some(Span(oldLength / pageBytes * pageBytes, before.value)),
                    Some(Span(oldLength, before.value))))
    else Ok(ResizePlan(length, after.value, None, None))
  }

  // ---------------------------------------------------------------- arithmetic

  lemma {:induction false} TimesMonotone(a: nat, b: nat, unit: nat)
    requires a <= b
    ensures a * unit <= b * unit
    decreases b - a
  {
    if a < b {
      TimesMonotone(a, b - 1, unit);
      Successor(b - 1, unit);
    }
  }

  lemma Successor(n: nat, unit: nat)
    ensures (n + 1) * unit == n * unit + unit
  {
  }

  /** Quotient and remainder are determined by the product they come from. */
  lemma {:induction false} QuotientIs(x: nat, unit: nat, q: nat, r: nat)
    requires r < unit && x == q * unit + r
    ensures x / unit == q && x % unit == r
  {
    var k, m := x / unit, x % unit;
    assert x == k * unit + m;
    if k < q {
      TimesMonotone(k + 1, q, unit);
      Successor(k, unit);
    } else if q < k {
      TimesMonotone(q + 1, k, unit);
      Successor(q, unit);
    }
  }

  lemma {:induction false} CapacityArithmetic(length: nat, pageBytes: nat)
    requires pageBytes > 0
    ensures length <= PageCount(length, pageBytes) * pageBytes < length + pageBytes
    ensures PageCount(length, pageBytes) * pageBytes % pageBytes == 0
    ensures PageCount(length, pageBytes) * pageBytes / pageBytes == PageCount(length, pageBytes)
    ensures length / pageBytes * pageBytes <= length < length / pageBytes * pageBytes + pageBytes
  {
    var q := length / pageBytes;
    assert length == q * pageBytes + length % pageBytes;
    Successor(q, pageBytes);
    var n := PageCount(length, pageBytes);
    QuotientIs(n * pageBytes, pageBytes, n, 0);
  }

  // ------------------------------------------------------------------ geometry

  /** Capacity is the least whole number of pages that holds the length. */
  lemma {:induction false} CapacityIsCeiling(length: nat, pageBytes: nat, other: nat)
    requires pageBytes > 0 && length <= other * pageBytes
    ensures PageCount(length, pageBytes) <= other
    ensures length <= PageCount(length, pageBytes) * pageBytes <= other * pageBytes
  {
    CapacityArithmetic(length, pageBytes);
    var n := PageCount(length, pageBytes);
    if other < n {
      TimesMonotone(other + 1, n, pageBytes);
      Successor(other, pageBytes);
    } else {
      TimesMonotone(n, other, pageBytes);
    }
  }

  /** A power-of-two page size is refused exactly when no page count within both limits holds the length. */
  lemma {:induction false} CapacityRefusesIff(length: nat, pageBytes: nat, maximumPages: nat)
    requires length <= MAX_U64 && PowerOfTwo(pageBytes) && maximumPages <= MAX_U64
    ensures Capacity(length, pageBytes, maximumPages).Ok? <==>
      exists pages: nat :: pages <= maximumPages && length <= pages * pageBytes <= MAX_U64
  {
    CapacityArithmetic(length, pageBytes);
    var n := PageCount(length, pageBytes);
    if Capacity(length, pageBytes, maximumPages).Ok? {
      assert n <= maximumPages && length <= n * pageBytes <= MAX_U64;
    } else if pages: nat :| pages <= maximumPages && length <= pages * pageBytes <= MAX_U64 {
      CapacityIsCeiling(length, pageBytes, pages);
      assert false;
    }
  }

  ghost predicate Inside(inner: Span, outer: Span) {
    outer.start <= inner.start < inner.end <= outer.end
  }

  /** Every byte a resize rewrites or drops lies in the span whose mappings it revokes first. */
  lemma {:induction false} PlanGeometry(oldLength: nat, length: nat, pageBytes: nat, maximumPages: nat)
    requires pageBytes > 0 && Plan(oldLength, length, pageBytes, maximumPages).Ok?
    ensures var plan := Plan(oldLength, length, pageBytes, maximumPages).value;
      && plan.length == length <= plan.capacity < length + pageBytes && plan.capacity % pageBytes == 0
      && (plan.zero.Some? ==> plan.invalidate.Some? && Inside(plan.zero.value, plan.invalidate.value))
      && (plan.zero.Some? ==> plan.zero.value.end - plan.zero.value.start < pageBytes && plan.zero.value.end % pageBytes == 0)
      && (length < oldLength ==> plan.invalidate.Some? && Inside(Span(length, oldLength), plan.invalidate.value))
  {
    CapacityArithmetic(length, pageBytes);
    CapacityArithmetic(oldLength, pageBytes);
    if length < oldLength {
      CapacityIsCeiling(length, pageBytes, PageCount(oldLength, pageBytes));
    }
    hide PageCount;
  }
}
