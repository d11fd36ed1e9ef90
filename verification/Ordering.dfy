/**
 * Order comparison of an attribute against a literal: exact for integers, through `f64` otherwise,
 * and refused where `f64` could collapse two different numbers.
 */
module Ordering {
  import opened Values
  import opened Text
  import opened Rules
  import opened Binary64

  datatype OrderOp = Above | AtLeast | Below | AtMost

  /** The mathematical meaning of an order operator. */
  predicate Orders(op: OrderOp, a: real, b: real)
  {
    match op
    case Above => a > b
    case AtLeast => a >= b
    case Below => a < b
    case AtMost => a <= b
  }

  predicate Strict(op: OrderOp)
  {
    op.Above? || op.Below?
  }

  /** The largest magnitude at which every integer is a distinct `f64`; `BoundIsExact` says why. */
  const F64_EXACT_INT_BOUND := 9_007_199_254_740_992

  predicate ExactInt(n: int)
  {
    -F64_EXACT_INT_BOUND <= n <= F64_EXACT_INT_BOUND
  }

  /** `n as f64` within the bound, refused beyond it. */
  function IntAsExactReal(f: Foreign, n: int): (r: Option<real>)
  {
    if ExactInt(n) then Some(f.intAsF64(n)) else None
  }

  function FiniteReal(x: F64): (r: Option<real>)
  {
    if x.Finite? then Some(x.value) else None
  }

  /** Integer spellings go through the exact bound; any other numeric text through `f64`. */
  function CoerceString(f: Foreign, s: string): (r: Option<real>)
  {
    var t := Trim(s);
    match ParseI64(t)
    case Some(n) => IntAsExactReal(f, n)
    case None =>
      match f.parseF64(t)
      case Some(x) => FiniteReal(x)
      case None => None
  }

  function CoerceAttribute(f: Foreign, a: AttributeValue): (r: Option<real>)
  {
    match a
    case IntValue(i) => IntAsExactReal(f, i)
    case FloatValue(x) => FiniteReal(x)
    case StringValue(s) => CoerceString(f, s)
    case _ => None
  }

  function CoerceLiteral(f: Foreign, l: Literal): (r: Option<real>)
  {
    match l
    case IntLiteral(i) => IntAsExactReal(f, i)
    case FloatLiteral(x) => FiniteReal(x)
    case StringLiteral(s) => CoerceString(f, s)
    case BoolLiteral(_) => None
  }

  /** `numeric_compare`; `None` means the pair cannot be ordered. */
  function Compare(f: Foreign, a: AttributeValue, l: Literal, op: OrderOp): (r: Option<bool>)
  {
    if a.IntValue? && l.IntLiteral? then
      Some(match op
           case Above => a.i > l.i
           case AtLeast => a.i >= l.i
           case Below => a.i < l.i
           case AtMost => a.i <= l.i)
    else
      match (CoerceAttribute(f, a), CoerceLiteral(f, l))
      case (Some(x), Some(y)) => Some(Orders(op, x, y))
      case _ => None
  }

  /** What an operand denotes; `spelled` gives the number a non-integer text spells. */
  ghost function TextNumber(spelled: string -> real, s: string): (r: real)
  {
    match ParseI64(Trim(s))
    case Some(n) => n as real
    case None => spelled(Trim(s))
  }

  ghost function AttributeNumber(spelled: string -> real, a: AttributeValue): (r: real)
  {
    match a
    case IntValue(i) => i as real
    case FloatValue(Finite(x)) => x
    case StringValue(s) => TextNumber(spelled, s)
    case _ => 0.0
  }

  ghost function LiteralNumber(spelled: string -> real, l: Literal): (r: real)
  {
    match l
    case IntLiteral(i) => i as real
    case FloatLiteral(Finite(x)) => x
    case StringLiteral(s) => TextNumber(spelled, s)
    case _ => 0.0
  }

  /** Text whose number reaches the comparison unrounded. */
  predicate ExactText(s: string)
  {
    ParseI64(Trim(s)).Some?
  }

  predicate ExactPair(a: AttributeValue, l: Literal)
  {
    (a.StringValue? ==> ExactText(a.s)) && (l.StringLiteral? ==> ExactText(l.s))
  }

  /** Integer conversion returns an integer that is a double unchanged. */
  ghost predicate KeepsDoubles(f: Foreign)
  {
    forall n: int :: IsDouble(n as real) ==> f.intAsF64(n) == n as real
  }

  /** Both conversions to `f64` round, in one direction: integers as they are, text as the number it spells. */
  ghost predicate Converts(f: Foreign, spelled: string -> real, round: real -> real)
  {
    && IsRounding(round)
    && (forall n: int :: f.intAsF64(n) == round(n as real))
    && (forall s: string :: f.parseF64(s).Some? && f.parseF64(s).value.Finite? ==>
          f.parseF64(s).value.value == round(spelled(s)))
  }

  /** Such conversions exist: any reading of text as doubles, with integers rounded down, is one. */
  lemma {:induction false} ConversionExists(f: Foreign)
    returns (g: Foreign, spelled: string -> real, round: real -> real)
    requires forall s: string :: f.parseF64(s).Some? && f.parseF64(s).value.Finite? ==>
      IsDouble(f.parseF64(s).value.value)
    ensures Converts(g, spelled, round) && g.parseF64 == f.parseF64
  {
    round := RoundingExists();
    g := f.(intAsF64 := n => round(n as real));
    spelled := s => if f.parseF64(s).Some? && f.parseF64(s).value.Finite? then f.parseF64(s).value.value else 0.0;
  }

  /** Float operands are binary64 values, as the types of the program make them. */
  ghost predicate Doubles(a: AttributeValue, l: Literal)
  {
    && (a.FloatValue? && a.f.Finite? ==> IsDouble(a.f.value))
    && (l.FloatLiteral? && l.f.Finite? ==> IsDouble(l.f.value))
  }

  /** Within the bound an integer survives the conversion: the bound is no larger than 2^53. */
  lemma ExactIntConverts(f: Foreign, n: int)
    requires KeepsDoubles(f) && ExactInt(n)
    ensures IntAsExactReal(f, n) == Some(n as real)
  {
    IntegersAreDoubles(n);
  }

  /** A verdict on operands that reach the comparison unrounded is the true mathematical order. */
  lemma {:induction false} ExactVerdict(f: Foreign, spelled: string -> real, a: AttributeValue, l: Literal, op: OrderOp)
    requires KeepsDoubles(f) && ExactPair(a, l) && Compare(f, a, l, op).Some?
    ensures Compare(f, a, l, op).value <==> Orders(op, AttributeNumber(spelled, a), LiteralNumber(spelled, l))
  {
    if !(a.IntValue? && l.IntLiteral?) {
      ExactAttribute(f, spelled, a);
      ExactLiteral(f, spelled, l);
    }
  }

  lemma ExactAttribute(f: Foreign, spelled: string -> real, a: AttributeValue)
    requires KeepsDoubles(f) && (a.StringValue? ==> ExactText(a.s)) && CoerceAttribute(f, a).Some?
    ensures CoerceAttribute(f, a).value == AttributeNumber(spelled, a)
  {
    if a.IntValue? {
      ExactIntConverts(f, a.i);
    } else if a.StringValue? {
      ExactIntConverts(f, ParseI64(Trim(a.s)).value);
    }
  }

  lemma ExactLiteral(f: Foreign, spelled: string -> real, l: Literal)
    requires KeepsDoubles(f) && (l.StringLiteral? ==> ExactText(l.s)) && CoerceLiteral(f, l).Some?
    ensures CoerceLiteral(f, l).value == LiteralNumber(spelled, l)
  {
    if l.IntLiteral? {
      ExactIntConverts(f, l.i);
    } else if l.StringLiteral? {
      ExactIntConverts(f, ParseI64(Trim(l.s)).value);
    }
  }

  ghost predicate Refused(f: Foreign, a: AttributeValue, l: Literal)
  {
    forall op :: Compare(f, a, l, op) == None
  }

  /**
   * The bound is exact, under every rounding: integers within it convert unchanged, and the first one
   * beyond it converts to another integer, on which a comparison let through would answer wrongly. The
   * comparison refuses it.
   */
  lemma {:induction false} BoundIsExact(f: Foreign, spelled: string -> real, round: real -> real) returns (m: int)
    requires Converts(f, spelled, round)
    ensures forall n :: ExactInt(n) ==> IntAsExactReal(f, n) == Some(n as real)
    ensures var n := F64_EXACT_INT_BOUND + 1;
      && m != n && IsDouble(m as real) && f.intAsF64(n) == m as real
      && (forall op :: Orders(op, f.intAsF64(n), m as real) <==> !Strict(op))
      && Refused(f, IntValue(n), FloatLiteral(Finite(m as real)))
  {
    assert KeepsDoubles(f);
    forall n | ExactInt(n) ensures IntAsExactReal(f, n) == Some(n as real) {
      ExactIntConverts(f, n);
    }
    m := NextIntegerCollapses(round);
  }

  lemma CoercionRounds(f: Foreign, spelled: string -> real, round: real -> real, a: AttributeValue, l: Literal)
    requires Converts(f, spelled, round) && Doubles(a, l)
    ensures CoerceAttribute(f, a).Some? ==> CoerceAttribute(f, a).value == round(AttributeNumber(spelled, a))
    ensures CoerceLiteral(f, l).Some? ==> CoerceLiteral(f, l).value == round(LiteralNumber(spelled, l))
  {
  }

  /** Under any monotone rounding a strict `true` and a non-strict `false` are still correct. */
  lemma {:induction false} RoundedVerdict(
    f: Foreign, spelled: string -> real, round: real -> real, a: AttributeValue, l: Literal, op: OrderOp)
    requires Converts(f, spelled, round) && Doubles(a, l) && Compare(f, a, l, op).Some?
    ensures var truth := Orders(op, AttributeNumber(spelled, a), LiteralNumber(spelled, l));
      && (Strict(op) && Compare(f, a, l, op).value ==> truth)
      && (!Strict(op) && !Compare(f, a, l, op).value ==> !truth)
  {
    CoercionRounds(f, spelled, round, a, l);
    ghost var x, y := AttributeNumber(spelled, a), LiteralNumber(spelled, l);
    assert x <= y ==> round(x) <= round(y);
    assert y <= x ==> round(y) <= round(x);
  }

  /** The comparison answers all four operators as mathematics does. */
  ghost predicate AllVerdictsTrue(f: Foreign, spelled: string -> real, a: AttributeValue, l: Literal)
  {
    forall op :: Compare(f, a, l, op) == Some(Orders(op, AttributeNumber(spelled, a), LiteralNumber(spelled, l)))
  }

  /** Rounding misleads an operator exactly when two different numbers land on one double. */
  lemma {:induction false} RoundedVerdictsTrueIff(
    f: Foreign, spelled: string -> real, round: real -> real, a: AttributeValue, l: Literal)
    requires Converts(f, spelled, round) && Doubles(a, l)
    requires !(a.IntValue? && l.IntLiteral?)
    requires CoerceAttribute(f, a).Some? && CoerceLiteral(f, l).Some?
    ensures AllVerdictsTrue(f, spelled, a, l) <==>
      || CoerceAttribute(f, a) != CoerceLiteral(f, l)
      || AttributeNumber(spelled, a) == LiteralNumber(spelled, l)
  {
    CoercionRounds(f, spelled, round, a, l);
    ghost var x, y := AttributeNumber(spelled, a), LiteralNumber(spelled, l);
    assert x <= y ==> round(x) <= round(y);
    assert y <= x ==> round(y) <= round(x);
    if CoerceAttribute(f, a) == CoerceLiteral(f, l) && x != y {
      assert Compare(f, a, l, AtLeast) == Some(true) && Compare(f, a, l, AtMost) == Some(true);
      assert !Orders(AtLeast, x, y) || !Orders(AtMost, x, y);
    }
  }
}
