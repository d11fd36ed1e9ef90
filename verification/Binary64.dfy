/** The finite values of binary64 (section 3.3 of IEEE 754-2019), and where integers stop being exact. */
module Binary64 {

  /** 2^53: a significand has 53 bits. */
  const SIGNIFICANDS := 0x20_0000_0000_0000

  function TwoTo(e: int): (r: real)
    ensures r > 0.0
    decreases if e < 0 then 0 - e else e
  {
    if e == 0 then 1.0 else if e > 0 then 2.0 * TwoTo(e - 1) else TwoTo(e + 1) / 2.0
  }

  ghost predicate Encodes(m: int, e: int, x: real)
  {
    -SIGNIFICANDS < m < SIGNIFICANDS && -1074 <= e <= 971 && x == m as real * TwoTo(e)
  }

  /** A 53-bit integer times a power of two in range. */
  ghost predicate IsDouble(x: real)
  {
    exists m: int, e: int :: Encodes(m, e, x)
  }

  /** Every integer of magnitude at most 2^53 is a double. */
  lemma {:induction false} IntegersAreDoubles(n: int)
    requires -SIGNIFICANDS <= n <= SIGNIFICANDS
    ensures IsDouble(n as real)
  {
    assert TwoTo(1) == 2.0 * TwoTo(0);
    if n == SIGNIFICANDS || n == -SIGNIFICANDS {
      assert Encodes(n / 2, 1, n as real);
    } else {
      assert Encodes(n, 0, n as real);
    }
  }

  lemma {:induction false} SmallScale(e: int)
    requires e <= 0
    ensures TwoTo(e) <= 1.0
    decreases -e
  {
    if e < 0 {
      SmallScale(e + 1);
    }
  }

  lemma {:induction false} EvenMultiple(m: int, e: int) returns (k: int)
    requires e >= 1
    ensures m as real * TwoTo(e) == (2 * k) as real
    decreases e
  {
    assert TwoTo(e) == 2.0 * TwoTo(e - 1);
    if e == 1 {
      k := m;
    } else {
      var half := EvenMultiple(m, e - 1);
      k := 2 * half;
      assert m as real * TwoTo(e) == 2.0 * (m as real * TwoTo(e - 1));
    }
  }

  lemma Shrinks(m: int, t: real)
    requires 0.0 < t <= 1.0
    ensures m >= 0 ==> 0.0 <= m as real * t <= m as real
    ensures m < 0 ==> m as real * t <= 0.0
  {
    if m >= 0 {
      assert m as real * (1.0 - t) >= 0.0;
    } else {
      assert (0 - m) as real * t >= 0.0;
    }
  }

  /** From 2^53 on, every double is an even integer. */
  lemma EvenFromBound(x: real) returns (k: int)
    requires IsDouble(x) && x >= SIGNIFICANDS as real
    ensures x == (2 * k) as real
  {
    var m: int, e: int :| Encodes(m, e, x);
    if e <= 0 {
      SmallScale(e);
      Shrinks(m, TwoTo(e));
      assert false;
    }
    k := EvenMultiple(m, e);
  }

  /** 2^53 + 1 is not a double: the bound on exact integers cannot be raised. */
  lemma {:induction false} BoundIsTight()
    ensures !IsDouble((SIGNIFICANDS + 1) as real)
  {
    if IsDouble((SIGNIFICANDS + 1) as real) {
      var k := EvenFromBound((SIGNIFICANDS + 1) as real);
      assert false;
    }
  }

  /** Magnitudes whose rounding is finite; every 64-bit integer is among them. */
  const IN_RANGE := 0x1_0000_0000_0000_0000 as real

  /** Rounding to binary64 (section 4.3 of IEEE 754-2019), in any direction: monotone, onto doubles, fixing them. */
  ghost predicate IsRounding(round: real -> real)
  {
    && (forall x: real, y: real :: x <= y ==> round(x) <= round(y))
    && (forall x: real :: IsDouble(x) ==> round(x) == x)
    && (forall x: real :: -IN_RANGE <= x <= IN_RANGE ==> IsDouble(round(x)))
  }

  /** Whatever the direction, 2^53 + 1 lands on a neighbour. */
  lemma {:induction false} NextIntegerCollapses(round: real -> real) returns (neighbour: int)
    requires IsRounding(round)
    ensures neighbour == SIGNIFICANDS || neighbour == SIGNIFICANDS + 2
    ensures IsDouble(neighbour as real) && round((SIGNIFICANDS + 1) as real) == neighbour as real
  {
    var low, mid, high := SIGNIFICANDS as real, (SIGNIFICANDS + 1) as real, (SIGNIFICANDS + 2) as real;
    IntegersAreDoubles(SIGNIFICANDS);
    assert IsDouble(high) by {
      assert TwoTo(1) == 2.0 * TwoTo(0);
      assert Encodes((SIGNIFICANDS + 2) / 2, 1, high);
    }
    assert round(low) <= round(mid) <= round(high);
    assert IsDouble(round(mid));
    var k := EvenFromBound(round(mid));
    neighbour := 2 * k;
  }

  // ---- A rounding exists

  function Times(k: int, unit: real): (r: real)
  {
    k as real * unit
  }

  /** A power of two is a whole number of any smaller one. */
  lemma {:induction false} WholePower(low: int, e: int) returns (n: int)
    requires low <= e
    ensures TwoTo(e) == Times(n, TwoTo(low))
    decreases e - low
  {
    if e == low {
      n := 1;
    } else {
      var k := WholePower(low, e - 1);
      assert TwoTo(e) == 2.0 * TwoTo(e - 1);
      n := 2 * k;
    }
  }

  /** Every double is a whole number of units. */
  ghost predicate Spaced(unit: real)
  {
    unit > 0.0 && forall x: real :: IsDouble(x) ==> IsWhole(x, unit)
  }

  ghost predicate IsWhole(x: real, unit: real)
  {
    exists k: int :: x == Times(k, unit)
  }

  lemma SpacedBy(low: int, unit: real)
    requires low == -1074 && unit == TwoTo(low)
    ensures Spaced(unit)
  {
    forall x: real | IsDouble(x)
      ensures IsWhole(x, unit)
    {
      var m, e :| Encodes(m, e, x);
      EncodedWhole(low, m, e, x);
    }
  }

  lemma EncodedWhole(low: int, m: int, e: int, x: real)
    requires low <= e && x == m as real * TwoTo(e)
    ensures IsWhole(x, TwoTo(low))
  {
    var n := WholePower(low, e);
    Regroup(m, n, TwoTo(low));
  }

  lemma Regroup(m: int, n: int, unit: real)
    ensures m as real * Times(n, unit) == Times(m * n, unit)
  {
    assert (m * n) as real == m as real * n as real;
  }

  lemma RangeIsDouble()
    ensures IsDouble(IN_RANGE) && IsDouble(-IN_RANGE)
  {
    assert TwoTo(3) == 2.0 * TwoTo(2) == 4.0 * TwoTo(1) == 8.0;
    assert TwoTo(6) == 2.0 * TwoTo(5) == 4.0 * TwoTo(4) == 8.0 * TwoTo(3);
    assert TwoTo(9) == 2.0 * TwoTo(8) == 4.0 * TwoTo(7) == 8.0 * TwoTo(6);
    assert TwoTo(12) == 2.0 * TwoTo(11) == 4.0 * TwoTo(10) == 8.0 * TwoTo(9);
    assert Encodes(0x10_0000_0000_0000, 12, IN_RANGE);
    assert Encodes(-0x10_0000_0000_0000, 12, -IN_RANGE);
  }

  /** The greatest double that is not above `x`. */
  ghost predicate GreatestBelow(x: real, d: real)
  {
    IsDouble(d) && d <= x && AtMost(x, d)
  }

  /** No double up to `x` is above `d`. */
  ghost predicate AtMost(x: real, d: real)
  {
    forall y: real :: IsDouble(y) && y <= x ==> y <= d
  }

  lemma Scaled(j: int, k: int, unit: real)
    requires unit > 0.0
    ensures Times(j, unit) <= Times(k, unit) <==> j <= k
  {
    var gap := (k - j) as real;
    assert Times(k, unit) - Times(j, unit) == gap * unit;
    assert k < j ==> gap < 0.0;
  }

  /** A bound in units that is no double itself can be lowered by a unit. */
  lemma Lowered(x: real, k: int, unit: real)
    requires Spaced(unit) && AtMost(x, Times(k, unit)) && !IsDouble(Times(k, unit))
    ensures AtMost(x, Times(k - 1, unit))
  {
    forall y: real | IsDouble(y) && y <= x
      ensures y <= Times(k - 1, unit)
    {
      assert IsWhole(y, unit);
      var j: int :| y == Times(j, unit);
      Scaled(j, k, unit);
      Scaled(j, k - 1, unit);
    }
  }

  lemma {:induction false} Descends(x: real, low: int, k: int, unit: real) returns (d: real)
    requires Spaced(unit) && low <= k && IsDouble(Times(low, unit))
    requires Times(k, unit) <= x && AtMost(x, Times(k, unit))
    ensures GreatestBelow(x, d)
    decreases k - low
  {
    d := Times(k, unit);
    if !IsDouble(d) {
      Lowered(x, k, unit);
      Scaled(k - 1, k, unit);
      d := Descends(x, low, k - 1, unit);
    }
  }

  /** The whole number of units up to `x`. */
  lemma Units(x: real, unit: real) returns (k: int)
    requires unit > 0.0
    ensures Times(k, unit) <= x < Times(k + 1, unit)
  {
    var q := x / unit;
    k := q.Floor;
    assert q * unit == x;
    assert k as real <= q < (k + 1) as real;
    Grows(k as real, q, unit);
    Grows(q, (k + 1) as real, unit);
    assert Times(k, unit) == k as real * unit && Times(k + 1, unit) == (k + 1) as real * unit;
  }

  lemma Grows(a: real, b: real, unit: real)
    requires unit > 0.0
    ensures a <= b ==> a * unit <= b * unit
    ensures a < b ==> a * unit < b * unit
  {
    var gap := b - a;
    assert b * unit - a * unit == gap * unit;
    assert gap > 0.0 ==> gap * unit > 0.0;
  }

  lemma FirstBound(x: real, k: int, unit: real)
    requires Spaced(unit) && x < Times(k + 1, unit)
    ensures AtMost(x, Times(k, unit))
  {
    forall y: real | IsDouble(y) && y <= x
      ensures y <= Times(k, unit)
    {
      assert IsWhole(y, unit);
      var j: int :| y == Times(j, unit);
      Scaled(k + 1, j, unit);
      Scaled(j, k, unit);
    }
  }

  lemma {:induction false} GreatestExists(x: real)
    requires -IN_RANGE <= x <= IN_RANGE
    ensures exists d :: GreatestBelow(x, d)
  {
    var low := -1074;
    var unit := TwoTo(low);
    SpacedBy(low, unit);
    var d := FromUnits(x, unit);
  }

  lemma FromUnits(x: real, unit: real) returns (d: real)
    requires Spaced(unit) && -IN_RANGE <= x
    ensures GreatestBelow(x, d)
  {
    RangeIsDouble();
    assert IsWhole(-IN_RANGE, unit);
    var low: int :| -IN_RANGE == Times(low, unit);
    var k := Units(x, unit);
    Scaled(k + 1, low, unit);
    FirstBound(x, k, unit);
    d := Descends(x, low, k, unit);
  }

  /** Rounding down, on the magnitudes of interest. */
  ghost function Downward(x: real): (d: real)
    ensures if -IN_RANGE <= x <= IN_RANGE then GreatestBelow(x, d) else d == x
  {
    if -IN_RANGE <= x <= IN_RANGE then
      GreatestExists(x);
      var d :| GreatestBelow(x, d);
      d
    else x
  }

  /** There is a rounding: the results about all of them are about something. */
  lemma {:induction false} RoundingExists() returns (round: real -> real)
    ensures IsRounding(round)
  {
    round := x => Downward(x);
    RangeIsDouble();
    forall x: real, y: real | x <= y
      ensures Downward(x) <= Downward(y)
    {
      Monotone(x, y);
    }
  }

  lemma Monotone(x: real, y: real)
    requires x <= y
    ensures Downward(x) <= Downward(y)
  {
    RangeIsDouble();
    assert x < -IN_RANGE <= y <= IN_RANGE ==> -IN_RANGE <= Downward(y);
  }
}
