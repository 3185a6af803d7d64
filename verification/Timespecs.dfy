/** The `struct timespec` arithmetic of main.c: multiply, divide, subtract and the comparison built on
    subtract, together with the calibration of the time unit.  The functions follow the C code, including
    C's division that truncates toward zero; the lemmas speak about total nanoseconds. */
module Timespecs {

  const BILLION: int := 1_000_000_000
  const UNIT_MEASURE_REPEAT: int := 1000

  datatype Timespec = Timespec(sec: int, nsec: int)

  /** The instant or duration a timespec denotes, in nanoseconds. */
  function Total(t: Timespec): int {
    t.sec * BILLION + t.nsec
  }

  /** The normal form that POSIX demands of a timespec. */
  predicate Normal(t: Timespec) {
    0 <= t.nsec < BILLION
  }

  function Magnitude(a: int): nat {
    if a < 0 then -a else a
  }

  /** C's `a / b`. */
  function TruncatedQuotient(a: int, b: int): int
    requires b != 0
  {
    var q := Magnitude(a) / Magnitude(b);
    if (a < 0) != (b < 0) then -q else q
  }

  /** C's `a % b`. */
  function TruncatedRemainder(a: int, b: int): int
    requires b != 0
  {
    a - b * TruncatedQuotient(a, b)
  }

  function Multiply(t: Timespec, n: int): Timespec {
    var product := t.nsec * n;
    Timespec(t.sec * n + TruncatedQuotient(product, BILLION), TruncatedRemainder(product, BILLION))
  }

  function Divide(t: Timespec, n: int): Timespec
    requires n != 0
  {
    var total := TruncatedQuotient(t.sec * BILLION + t.nsec, n);
    Timespec(TruncatedQuotient(total, BILLION), TruncatedRemainder(total, BILLION))
  }

  function Subtract(lhs: Timespec, rhs: Timespec): Timespec {
    var sec := lhs.sec - rhs.sec;
    var nsec := lhs.nsec - rhs.nsec;
    if nsec < 0 then Timespec(sec - 1, nsec + BILLION) else Timespec(sec, nsec)
  }

  /** `min_timespecp` returns one of its two pointers; this says whether it returns the left one. */
  predicate MinIsLeft(lhs: Timespec, rhs: Timespec) {
    var diff := Subtract(lhs, rhs);
    diff.sec < 0 || diff.nsec < 0
  }

  /** Normal timespecs are determined by their total. */
  lemma TotalIsInjective(s: Timespec, t: Timespec)
    requires Normal(s) && Normal(t) && Total(s) == Total(t)
    ensures s == t
  {
  }

  lemma ProductOfSum(sec: int, nsec: int, n: int)
    ensures (sec * 1_000_000_000 + nsec) * n == (sec * n) * 1_000_000_000 + nsec * n
  {
  }

  /** Multiplication is exact, and nanoseconds carry into seconds at 10^9. */
  lemma MultiplyExact(t: Timespec, n: int)
    requires 0 <= t.nsec < 1_000_000_000 && 0 <= n
    ensures var r := Multiply(t, n);
            && 0 <= r.nsec < 1_000_000_000
            && r.sec * 1_000_000_000 + r.nsec == (t.sec * 1_000_000_000 + t.nsec) * n
    ensures Normal(Multiply(t, n))
    ensures Total(Multiply(t, n)) == Total(t) * n
    ensures 0 <= t.sec ==> 0 <= Multiply(t, n).sec
  {
    var sec, nsec := t.sec * n, t.nsec * n;
    ProductMonotone(0, t.nsec, n);
    assert Multiply(t, n) == Timespec(sec + nsec / 1_000_000_000, nsec % 1_000_000_000);
    ProductOfSum(t.sec, t.nsec, n);
    if 0 <= t.sec {
      ProductMonotone(0, t.sec, n);
    }
  }

  /** Division rounds the total down, and never by a whole nanosecond. */
  lemma DivideExact(t: Timespec, n: int)
    requires 0 <= t.nsec < 1_000_000_000 && 0 <= t.sec && 0 < n
    ensures var r := Divide(t, n);
            && 0 <= r.sec && 0 <= r.nsec < 1_000_000_000
            && r.sec * 1_000_000_000 + r.nsec == (t.sec * 1_000_000_000 + t.nsec) / n
    ensures Normal(Divide(t, n)) && 0 <= Divide(t, n).sec
    ensures Total(Divide(t, n)) == Total(t) / n
    ensures 0 <= Total(t) - n * Total(Divide(t, n)) < n
  {
    var total := Total(t) / n;
    assert 0 <= Total(t);
    assert 0 <= total;
    assert TruncatedQuotient(Total(t), n) == total;
    assert TruncatedQuotient(total, BILLION) == total / BILLION;
    assert Total(t) == n * total + Total(t) % n;
  }

  lemma DivideUndoesMultiply(t: Timespec, n: int)
    requires Normal(t) && 0 <= t.sec && 0 < n
    ensures Divide(Multiply(t, n), n) == t
  {
    var m := Multiply(t, n);
    MultiplyExact(t, n);
    DivideExact(m, n);
    QuotientUnique(Total(m), n, Total(t), Total(Divide(m, n)));
    TotalIsInjective(Divide(m, n), t);
  }

  lemma QuotientUnique(a: int, n: int, q: int, r: int)
    requires 0 < n && a == q * n && 0 <= a - n * r < n
    ensures q == r
  {
    var gap := q - r;
    assert gap * n == q * n - n * r;
    if gap < 0 {
      ProductMonotone(gap, -1, n);
    } else if gap > 0 {
      ProductMonotone(1, gap, n);
    }
  }

  lemma ProductMonotone(x: int, y: int, z: int)
    requires x <= y && 0 <= z
    ensures x * z <= y * z
  {
  }

  /** Subtraction is exact and keeps the normal form for any two normal timespecs, in either order. */
  lemma SubtractExact(lhs: Timespec, rhs: Timespec)
    requires 0 <= lhs.nsec < 1_000_000_000 && 0 <= rhs.nsec < 1_000_000_000
    ensures var r := Subtract(lhs, rhs);
            && 0 <= r.nsec < 1_000_000_000
            && r.sec * 1_000_000_000 + r.nsec ==
               (lhs.sec * 1_000_000_000 + lhs.nsec) - (rhs.sec * 1_000_000_000 + rhs.nsec)
    ensures Normal(Subtract(lhs, rhs))
    ensures Total(Subtract(lhs, rhs)) == Total(lhs) - Total(rhs)
  {
  }

  /** The comparison is the strict order on totals: on a tie the right argument wins. */
  lemma MinIsLeftExactly(lhs: Timespec, rhs: Timespec)
    requires 0 <= lhs.nsec < 1_000_000_000 && 0 <= rhs.nsec < 1_000_000_000
    ensures MinIsLeft(lhs, rhs) <==>
            lhs.sec * 1_000_000_000 + lhs.nsec < rhs.sec * 1_000_000_000 + rhs.nsec
    ensures MinIsLeft(lhs, rhs) <==> Total(lhs) < Total(rhs)
  {
    SubtractExact(lhs, rhs);
  }

  /** The 64-bit product of nanoseconds and a 32-bit count never overflows, and the seconds fit exactly if the
      whole product does; a unit of up to 2^31 seconds is small enough for every count. */
  lemma MultiplyFitsInt64(t: Timespec, n: int)
    requires 0 <= t.nsec < 1_000_000_000 && 0 <= t.sec && 0 <= n <= 0x7FFF_FFFF
    ensures 0 <= t.nsec * n <= 0x7FFF_FFFF_FFFF_FFFF
    ensures t.sec * n <= 0x7FFF_FFFF_FFFF_FFFF && Multiply(t, n).sec <= 0x7FFF_FFFF_FFFF_FFFF <==>
            (t.sec * 1_000_000_000 + t.nsec) * n < 0x8000_0000_0000_0000 * 1_000_000_000
    ensures t.sec <= 0x7FFF_FFFF ==>
              t.sec * n <= 0x7FFF_FFFF_FFFF_FFFF && Multiply(t, n).sec <= 0x7FFF_FFFF_FFFF_FFFF
  {
    ProductMonotone(0, t.nsec, n);
    ProductMonotone(t.nsec, BILLION, n);
    MultiplyExact(t, n);
    if t.sec <= 0x7FFF_FFFF {
      ProductMonotone(t.sec, 0x7FFF_FFFF, n);
      QuotientFits(t.nsec * n, n);
    }
  }

  lemma QuotientFits(product: int, n: int)
    requires 0 <= product <= BILLION * n
    ensures TruncatedQuotient(product, BILLION) <= n
  {
  }

  // ---------- Multiples of one unit ----------

  /** Countdowns are multiples of the calibrated unit; on those, subtraction and comparison are the
      ones of the integers. */
  lemma MultiplesBehave(unit: Timespec, a: int, b: int)
    requires Normal(unit) && 0 < Total(unit) && 0 <= a && 0 <= b
    ensures b <= a ==> Subtract(Multiply(unit, a), Multiply(unit, b)) == Multiply(unit, a - b)
    ensures MinIsLeft(Multiply(unit, a), Multiply(unit, b)) <==> a < b
  {
    var s, t := Multiply(unit, a), Multiply(unit, b);
    MultiplyExact(unit, a);
    MultiplyExact(unit, b);
    SubtractExact(s, t);
    MinIsLeftExactly(s, t);
    DifferenceOfProducts(Total(unit), a, b);
    if b <= a {
      MultiplyExact(unit, a - b);
      TotalIsInjective(Subtract(s, t), Multiply(unit, a - b));
    }
  }

  lemma DifferenceOfProducts(u: int, a: int, b: int)
    requires 0 < u
    ensures u * a - u * b == u * (a - b)
    ensures u * a < u * b <==> a < b
  {
    if a < b {
      ProductMonotone(1, b - a, u);
    } else {
      ProductMonotone(0, a - b, u);
    }
  }

  lemma MultipleIsZero(unit: Timespec, a: int)
    requires Normal(unit) && 0 < Total(unit) && 0 <= a
    ensures Multiply(unit, a) == Timespec(0, 0) <==> a == 0
  {
    MultiplyExact(unit, a);
    if a > 0 {
      assert Total(unit) * a > 0;
    } else {
      TotalIsInjective(Multiply(unit, a), Timespec(0, 0));
    }
  }

  // ---------- Calibration ----------

  /** `measure_time_unit` after the two clock readings. */
  function MeasuredUnit(begin: Timespec, end: Timespec): Timespec {
    Divide(Subtract(end, begin), UNIT_MEASURE_REPEAT)
  }

  /** The delay computed for `a` units falls short of the ideal `a * d / 1000` nanoseconds by less than
      `a` nanoseconds (stated without division: everything is multiplied by 1000). */
  lemma CalibrationError(begin: Timespec, end: Timespec, a: int)
    requires Normal(begin) && Normal(end) && Total(begin) <= Total(end) && 0 < a
    ensures var ideal := a * (Total(end) - Total(begin));
            0 <= ideal - 1000 * Total(Multiply(MeasuredUnit(begin, end), a)) < 1000 * a
  {
    var d := Subtract(end, begin);
    SubtractExact(end, begin);
    DivideExact(d, UNIT_MEASURE_REPEAT);
    var u := MeasuredUnit(begin, end);
    MultiplyExact(u, a);
    ScaledShortfall(a, Total(d), Total(u), UNIT_MEASURE_REPEAT);
  }

  lemma ScaledShortfall(a: int, d: int, u: int, n: int)
    requires 0 < a && 0 <= d - n * u < n
    ensures 0 <= a * d - n * (u * a) < n * a
  {
    var short := d - n * u;
    assert a * short == a * d - n * (u * a);
    ProductMonotone(0, short, a);
    ProductMonotone(short, n - 1, a);
    assert (n - 1) * a == n * a - a;
  }

  function Sum(s: seq<int>): int {
    if s == [] then 0 else s[0] + Sum(s[1..])
  }

  function SumOfDelays(unit: Timespec, gaps: seq<int>): int {
    if gaps == [] then 0 else Total(Multiply(unit, gaps[0])) + SumOfDelays(unit, gaps[1..])
  }

  /** Rounding never accumulates: the delays armed gap by gap add up to the delay of the whole span. */
  lemma {:induction false} DelaysAddUp(unit: Timespec, gaps: seq<int>)
    requires Normal(unit)
    requires forall i :: 0 <= i < |gaps| ==> 0 <= gaps[i]
    ensures 0 <= Sum(gaps)
    ensures SumOfDelays(unit, gaps) == Total(Multiply(unit, Sum(gaps)))
  {
    if gaps == [] {
      MultiplyExact(unit, 0);
    } else {
      DelaysAddUp(unit, gaps[1..]);
      MultiplyExact(unit, gaps[0]);
      MultiplyExact(unit, Sum(gaps[1..]));
      MultiplyExact(unit, Sum(gaps));
      Distributes(Total(unit), gaps[0], Sum(gaps[1..]));
    }
  }

  lemma Distributes(u: int, x: int, y: int)
    ensures u * x + u * y == u * (x + y)
  {
  }
}
