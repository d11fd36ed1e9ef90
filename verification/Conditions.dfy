/** What each leaf of a predicate asks of the bag, in terms of the values the bag holds. */
module Conditions {
  import opened Values
  import opened Text
  import opened Attributes
  import opened Rules
  import opened Predicates
  import Ordering

  // ---- Numbers

  /** Every integer of this magnitude is exact in binary64. */
  const EXACT := 0x20_0000_0000_0000

  /** The text, trimmed, is an `i64` spelling of `n`. */
  predicate SpellsInt(s: string, n: int)
  {
    ParseI64(Trim(s)) == Some(n)
  }

  /** The attribute is, or spells, exactly the number `x`. */
  predicate IsNumber(a: AttributeValue, x: real)
  {
    || (a.IntValue? && a.i as real == x)
    || a == FloatValue(Finite(x))
    || (a.StringValue? && x == x.Floor as real && SpellsInt(a.s, x.Floor))
  }

  predicate IsLiteralNumber(l: Literal, y: real)
  {
    || (l.IntLiteral? && l.i as real == y)
    || l == FloatLiteral(Finite(y))
    || (l.StringLiteral? && y == y.Floor as real && SpellsInt(l.s, y.Floor))
  }

  /** The number reaches a mixed comparison unrounded: a float as it is, an integer within the bound. */
  predicate Exactly(isFloat: bool, x: real)
  {
    isFloat || -(EXACT as real) <= x <= EXACT as real
  }

  predicate ExactOperands(a: AttributeValue, x: real, l: Literal, y: real)
  {
    || (a.IntValue? && l.IntLiteral?)
    || (Exactly(a.FloatValue?, x) && Exactly(l.FloatLiteral?, y))
  }

  lemma AttributeCoerces(f: Foreign, a: AttributeValue, x: real)
    requires Ordering.KeepsDoubles(f) && IsNumber(a, x) && Exactly(a.FloatValue?, x)
    ensures Ordering.CoerceAttribute(f, a) == Some(x)
  {
    if !a.FloatValue? {
      assert x == x.Floor as real;
      Ordering.ExactIntConverts(f, x.Floor);
    }
  }

  lemma LiteralCoerces(f: Foreign, l: Literal, y: real)
    requires Ordering.KeepsDoubles(f) && IsLiteralNumber(l, y) && Exactly(l.FloatLiteral?, y)
    ensures Ordering.CoerceLiteral(f, l) == Some(y)
  {
    if !l.FloatLiteral? {
      assert y == y.Floor as real;
      Ordering.ExactIntConverts(f, y.Floor);
    }
  }

  /** The order operators mean the mathematical order of the two numbers. */
  lemma {:induction false} OrderMeans(f: Foreign, bag: Bag, key: string, k: string, x: real, l: Literal, y: real)
    requires Ordering.KeepsDoubles(f) && ResolveKey(f, bag, key) == Some(k) && k in bag
    requires IsNumber(bag[k], x) && IsLiteralNumber(l, y) && ExactOperands(bag[k], x, l, y)
    ensures Eval(f, Cond(Comparison(key, Gt, l)), bag) == Definite(x > y)
    ensures Eval(f, Cond(Comparison(key, GtEq, l)), bag) == Definite(x >= y)
    ensures Eval(f, Cond(Comparison(key, Lt, l)), bag) == Definite(x < y)
    ensures Eval(f, Cond(Comparison(key, LtEq, l)), bag) == Definite(x <= y)
  {
    if !(bag[k].IntValue? && l.IntLiteral?) {
      AttributeCoerces(f, bag[k], x);
      LiteralCoerces(f, l, y);
    }
  }

  /** Text that is no finite number, or an integer too large for binary64. */
  predicate UnreadableText(f: Foreign, s: string)
  {
    match ParseI64(Trim(s))
    case Some(n) => !(-EXACT <= n <= EXACT)
    case None => f.parseF64(Trim(s)).None? || !f.parseF64(Trim(s)).value.Finite?
  }

  predicate Unreadable(f: Foreign, a: AttributeValue)
  {
    || a.BoolValue? || a.StringSetValue? || a.NonScalar?
    || (a.IntValue? && !(-EXACT <= a.i <= EXACT))
    || (a.FloatValue? && !a.f.Finite?)
    || (a.StringValue? && UnreadableText(f, a.s))
  }

  predicate UnreadableLiteral(f: Foreign, l: Literal)
  {
    || l.BoolLiteral?
    || (l.IntLiteral? && !(-EXACT <= l.i <= EXACT))
    || (l.FloatLiteral? && !l.f.Finite?)
    || (l.StringLiteral? && UnreadableText(f, l.s))
  }

  /** An order operator has no answer exactly when an operand of a present key cannot be read as a number. */
  lemma {:induction false} OrderRefusedExactly(f: Foreign, bag: Bag, key: string, op: CompareOp, l: Literal, k: string)
    requires op.Gt? || op.GtEq? || op.Lt? || op.LtEq?
    requires ResolveKey(f, bag, key) == Some(k) && k in bag
    ensures var v := Eval(f, Cond(Comparison(key, op, l)), bag);
      if !(bag[k].IntValue? && l.IntLiteral?) && (Unreadable(f, bag[k]) || UnreadableLiteral(f, l))
      then v == Unorderable(k) else v.Definite?
  {
  }

  // ---- Equality

  predicate IsNumeric(a: AttributeValue)
  {
    a.IntValue? || a.FloatValue?
  }

  /** Numbers are equal by value, whichever of the two carries the point; text never equals a number. */
  lemma {:induction false} NumbersEqual(f: Foreign, bag: Bag, key: string, k: string, x: real, l: Literal, y: real)
    requires Ordering.KeepsDoubles(f) && ResolveKey(f, bag, key) == Some(k) && k in bag
    requires IsNumber(bag[k], x) && IsLiteralNumber(l, y) && ExactOperands(bag[k], x, l, y)
    requires IsNumeric(bag[k]) && !l.StringLiteral?
    ensures Eval(f, Cond(Comparison(key, Eq, l)), bag) == Definite(x == y)
    ensures Eval(f, Cond(Comparison(key, NotEq, l)), bag) == Definite(x != y)
  {
    if bag[k].IntValue? && l.FloatLiteral? {
      AttributeCoerces(f, bag[k], x);
    } else if bag[k].FloatValue? && l.IntLiteral? {
      LiteralCoerces(f, l, y);
    }
  }

  /** Booleans, text and infinities equal only themselves; other kinds never meet, and NaN equals nothing. */
  lemma {:induction false} KindsEqual(f: Foreign, bag: Bag, key: string, k: string, l: Literal)
    requires ResolveKey(f, bag, key) == Some(k) && k in bag
    requires l.BoolLiteral? || l.StringLiteral? || (l.FloatLiteral? && !l.f.Finite?)
      || !IsNumeric(bag[k]) || (bag[k].FloatValue? && !bag[k].f.Finite?)
    ensures var same :=
        || (l.BoolLiteral? && bag[k] == BoolValue(l.b))
        || (l.StringLiteral? && bag[k] == StringValue(l.s))
        || (l.FloatLiteral? && l.f.Infinity? && bag[k] == FloatValue(l.f));
      && Eval(f, Cond(Comparison(key, Eq, l)), bag) == Definite(same)
      && Eval(f, Cond(Comparison(key, NotEq, l)), bag) == Definite(!same)
  {
  }

  // ---- Missing keys, presence and membership

  /** Nothing is under the key, or the key itself does not resolve. */
  predicate Missing(f: Foreign, bag: Bag, key: string)
  {
    match ResolveKey(f, bag, key) case Some(k) => k !in bag case None => true
  }

  /** A missing key differs from everything and is otherwise as good as false. */
  lemma {:induction false} MissingMeans(f: Foreign, bag: Bag, key: string, op: CompareOp, l: Literal)
    requires Missing(f, bag, key)
    ensures Eval(f, Cond(Comparison(key, op, l)), bag) == Definite(op == NotEq)
    ensures Eval(f, Cond(Exists(key)), bag) == Definite(false)
    ensures Eval(f, Cond(IsTrue(key)), bag) == Definite(false)
    ensures Eval(f, Cond(IsFalse(key)), bag) == Definite(true)
  {
  }

  /** A present key exists whatever it holds, and is true only when it holds the boolean true. */
  lemma {:induction false} PresentMeans(f: Foreign, bag: Bag, key: string, k: string)
    requires ResolveKey(f, bag, key) == Some(k) && k in bag
    ensures Eval(f, Cond(Exists(key)), bag) == Definite(true)
    ensures Eval(f, Cond(IsTrue(key)), bag) == Definite(bag[k] == BoolValue(true))
    ensures Eval(f, Cond(IsFalse(key)), bag) == Definite(bag[k] != BoolValue(true))
  {
  }

  /** `contains` holds exactly of a set that has the text as a member. */
  lemma {:induction false} ContainsMeans(f: Foreign, bag: Bag, key: string, k: string, l: Literal)
    requires ResolveKey(f, bag, key) == Some(k) && k in bag
    ensures Eval(f, Cond(Comparison(key, Contains, l)), bag) ==
      Definite(exists members, text :: l == StringLiteral(text) && bag[k] == StringSetValue(members) && text in members)
  {
    if l.StringLiteral? && bag[k].StringSetValue? && l.s in bag[k].members {
      assert l == StringLiteral(l.s) && bag[k] == StringSetValue(bag[k].members);
    }
  }

  /** The value key leads to text that is a member of the set the set key leads to. */
  ghost predicate InBag(f: Foreign, bag: Bag, valueKey: string, setKey: string)
  {
    exists v, s, text, members ::
      && ResolveKey(f, bag, valueKey) == Some(v) && v in bag && bag[v] == StringValue(text)
      && ResolveKey(f, bag, setKey) == Some(s) && s in bag && bag[s] == StringSetValue(members) && text in members
  }

  /** `in` and `not in` are membership and its denial; a missing or misshapen operand is no member. */
  lemma {:induction false} InMeans(f: Foreign, bag: Bag, valueKey: string, setKey: string)
    ensures Eval(f, Cond(InSet(valueKey, setKey, false)), bag) == Definite(InBag(f, bag, valueKey, setKey))
    ensures Eval(f, Cond(InSet(valueKey, setKey, true)), bag) == Definite(!InBag(f, bag, valueKey, setKey))
  {
    if Member(f, valueKey, setKey, bag) {
      var v, s := ResolveKey(f, bag, valueKey).value, ResolveKey(f, bag, setKey).value;
      assert bag[v] == StringValue(bag[v].s) && bag[s] == StringSetValue(bag[s].members);
    }
  }
}
