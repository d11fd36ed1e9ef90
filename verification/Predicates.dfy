/** Three-valued evaluation of predicates, and negation pushed to the leaves. */
module Predicates {
  import opened Values
  import opened Attributes
  import opened Rules
  import Ordering

  /** A boolean, or the key of an order comparison that has no boolean. */
  datatype Verdict = Definite(value: bool) | Unorderable(key: string)

  function Negate(v: Verdict): (r: Verdict)
  {
    if v.Definite? then Definite(!v.value) else v
  }

  /** IEEE equality: NaN equals nothing. */
  predicate FloatEq(a: F64, b: F64)
  {
    !a.NaN? && a == b
  }

  predicate ValuesEq(f: Foreign, a: AttributeValue, l: Literal)
  {
    match (a, l)
    case (BoolValue(x), BoolLiteral(y)) => x == y
    case (IntValue(x), IntLiteral(y)) => x == y
    case (FloatValue(x), FloatLiteral(y)) => FloatEq(x, y)
    case (StringValue(x), StringLiteral(y)) => x == y
    case (IntValue(x), FloatLiteral(y)) => FloatEq(Finite(f.intAsF64(x)), y)
    case (FloatValue(x), IntLiteral(y)) => FloatEq(x, Finite(f.intAsF64(y)))
    case _ => false
  }

  function EvalOrder(f: Foreign, key: string, a: AttributeValue, l: Literal, op: Ordering.OrderOp): (v: Verdict)
  {
    match Ordering.Compare(f, a, l, op)
    case Some(b) => Definite(b)
    case None => Unorderable(key)
  }

  /** A missing key answers `false` to every operator but `!=`. */
  function EvalComparison(f: Foreign, key: string, op: CompareOp, l: Literal, bag: Bag): (v: Verdict)
  {
    match Get(bag, key)
    case None => Definite(op.NotEq?)
    case Some(a) =>
      match op
      case Contains => Definite(a.StringSetValue? && l.StringLiteral? && l.s in a.members)
      case Eq => Definite(ValuesEq(f, a, l))
      case NotEq => Definite(!ValuesEq(f, a, l))
      case Gt => EvalOrder(f, key, a, l, Ordering.Above)
      case GtEq => EvalOrder(f, key, a, l, Ordering.AtLeast)
      case Lt => EvalOrder(f, key, a, l, Ordering.Below)
      case LtEq => EvalOrder(f, key, a, l, Ordering.AtMost)
  }

  /** Whether the scalar at one key is a member of the set at another. */
  predicate Member(f: Foreign, valueKey: string, setKey: string, bag: Bag)
  {
    match (ResolveKey(f, bag, valueKey), ResolveKey(f, bag, setKey))
    case (Some(vk), Some(sk)) =>
      (match (GetString(bag, vk), GetStringSet(bag, sk))
       case (Some(s), Some(members)) => s in members
       case _ => false)
    case _ => false
  }

  function EvalCondition(f: Foreign, c: Condition, bag: Bag): (v: Verdict)
  {
    match c
    case IsTrue(key) =>
      var k := ResolveKey(f, bag, key);
      Definite(k.Some? && GetBool(bag, k.value) == Some(true))
    case IsFalse(key) =>
      var k := ResolveKey(f, bag, key);
      Definite(k.None? || GetBool(bag, k.value) != Some(true))
    case Exists(key) =>
      var k := ResolveKey(f, bag, key);
      Definite(k.Some? && k.value in bag)
    case Comparison(key, op, value) =>
      (match ResolveKey(f, bag, key)
       case Some(k) => EvalComparison(f, k, op, value, bag)
       case None => Definite(op.NotEq?))
    case InSet(valueKey, setKey, negate) =>
      Definite(Member(f, valueKey, setKey, bag) != negate)
  }

  /** The first unorderable verdict, or `otherwise` when every verdict is definite. */
  function FirstUnknown(vs: seq<Verdict>, otherwise: Verdict): (v: Verdict)
  {
    if vs == [] then otherwise
    else if vs[0].Unorderable? then vs[0]
    else FirstUnknown(vs[1..], otherwise)
  }

  /** Conjunction: one false settles it; otherwise the first unknown does; otherwise it holds. */
  function Conjoin(vs: seq<Verdict>): (v: Verdict)
  {
    if Definite(false) in vs then Definite(false) else FirstUnknown(vs, Definite(true))
  }

  function Disjoin(vs: seq<Verdict>): (v: Verdict)
  {
    if Definite(true) in vs then Definite(true) else FirstUnknown(vs, Definite(false))
  }

  function Eval(f: Foreign, e: Expression, bag: Bag): (v: Verdict)
    decreases e, 1
  {
    match e
    case Cond(c) => EvalCondition(f, c, bag)
    case And(parts) => Conjoin(EvalAll(f, parts, bag))
    case Or(parts) => Disjoin(EvalAll(f, parts, bag))
    case Not(inner) => Negate(Eval(f, inner, bag))
    case Always => Definite(true)
  }

  function EvalAll(f: Foreign, parts: seq<Expression>, bag: Bag): (vs: seq<Verdict>)
    ensures |vs| == |parts|
    ensures forall i :: 0 <= i < |vs| ==> vs[i] == Eval(f, parts[i], bag)
    decreases parts, 0
  {
    if parts == [] then [] else [Eval(f, parts[0], bag)] + EvalAll(f, parts[1..], bag)
  }

  /** The operator that asks the opposite question. */
  function Complement(op: CompareOp): (r: CompareOp)
    requires !op.Contains?
  {
    match op
    case Eq => NotEq
    case NotEq => Eq
    case Gt => LtEq
    case LtEq => Gt
    case Lt => GtEq
    case GtEq => Lt
  }

  /**
   * `==` and `!=` negate each other on every bag. The order operators do so exactly when the key is
   * present: a missing key answers false to both.
   */
  lemma {:induction false} ComplementsExactly(f: Foreign, key: string, op: CompareOp, l: Literal, bag: Bag)
    requires !op.Contains?
    ensures EvalComparison(f, key, Complement(op), l, bag) == Negate(EvalComparison(f, key, op, l, bag)) <==>
      op.Eq? || op.NotEq? || key in bag
  {
    if key in bag && !op.Eq? && !op.NotEq? {
      var a := bag[key];
      assert Ordering.Compare(f, a, l, Ordering.Above).Some? <==> Ordering.Compare(f, a, l, Ordering.AtMost).Some?;
      assert Ordering.Compare(f, a, l, Ordering.Below).Some? <==> Ordering.Compare(f, a, l, Ordering.AtLeast).Some?;
    }
  }

  lemma {:induction false} FirstUnknownSnoc(vs: seq<Verdict>, v: Verdict, otherwise: Verdict)
    requires otherwise.Definite?
    ensures FirstUnknown(vs + [v], otherwise) ==
      (if FirstUnknown(vs, otherwise).Definite? && v.Unorderable? then v else FirstUnknown(vs, otherwise))
  {
    if vs != [] {
      assert (vs + [v])[1..] == vs[1..] + [v];
      FirstUnknownSnoc(vs[1..], v, otherwise);
    }
  }

  /** How a scan looking for `!holds` stands after `i` verdicts: none found, and what is pending. */
  ghost predicate Scanned(vs: seq<Verdict>, i: nat, holds: bool, pending: Option<string>)
    requires i <= |vs|
  {
    && Definite(!holds) !in vs[..i]
    && FirstUnknown(vs[..i], Definite(holds)) == Pending(pending, holds)
  }

  function Pending(pending: Option<string>, holds: bool): (v: Verdict)
  {
    if pending.Some? then Unorderable(pending.value) else Definite(holds)
  }

  lemma ScanStep(vs: seq<Verdict>, i: nat, holds: bool, pending: Option<string>)
    requires i < |vs| && Scanned(vs, i, holds, pending) && vs[i] != Definite(!holds)
    ensures Scanned(vs, i + 1, holds, if vs[i].Unorderable? && pending.None? then Some(vs[i].key) else pending)
  {
    assert vs[..i + 1] == vs[..i] + [vs[i]];
    FirstUnknownSnoc(vs[..i], vs[i], Definite(holds));
  }

  lemma ScanSettles(vs: seq<Verdict>, i: nat, holds: bool)
    requires i < |vs| && vs[i] == Definite(!holds)
    ensures (if holds then Conjoin(vs) else Disjoin(vs)) == Definite(!holds)
  {
  }

  lemma ScanEnds(vs: seq<Verdict>, holds: bool, pending: Option<string>)
    requires Scanned(vs, |vs|, holds, pending)
    ensures (if holds then Conjoin(vs) else Disjoin(vs)) == Pending(pending, holds)
  {
    assert vs[..|vs|] == vs;
  }

  method EvalExpression(f: Foreign, e: Expression, bag: Bag) returns (v: Verdict)
    ensures v == Eval(f, e, bag)
    decreases e, 1
  {
    match e
    case Cond(c) => v := EvalCondition(f, c, bag);
    case And(parts) => v := EvalAnd(f, parts, bag);
    case Or(parts) => v := EvalOr(f, parts, bag);
    case Not(inner) =>
      v := EvalExpression(f, inner, bag);
      v := Negate(v);
    case Always => v := Definite(true);
  }

  method EvalAnd(f: Foreign, parts: seq<Expression>, bag: Bag) returns (v: Verdict)
    ensures v == Conjoin(EvalAll(f, parts, bag))
    decreases parts, 0
  {
    ghost var vs := EvalAll(f, parts, bag);
    var pending: Option<string> := None;
    for i := 0 to |parts|
      invariant Scanned(vs, i, true, pending)
    {
      var part := EvalExpression(f, parts[i], bag);
      if part == Definite(false) {
        ScanSettles(vs, i, true);
        return Definite(false);
      }
      ScanStep(vs, i, true, pending);
      if part.Unorderable? && pending.None? {
        pending := Some(part.key);
      }
    }
    ScanEnds(vs, true, pending);
    return if pending.Some? then Unorderable(pending.value) else Definite(true);
  }

  method EvalOr(f: Foreign, parts: seq<Expression>, bag: Bag) returns (v: Verdict)
    ensures v == Disjoin(EvalAll(f, parts, bag))
    decreases parts, 0
  {
    ghost var vs := EvalAll(f, parts, bag);
    var pending: Option<string> := None;
    for i := 0 to |parts|
      invariant Scanned(vs, i, false, pending)
    {
      var part := EvalExpression(f, parts[i], bag);
      if part == Definite(true) {
        ScanSettles(vs, i, false);
        return Definite(true);
      }
      ScanStep(vs, i, false, pending);
      if part.Unorderable? && pending.None? {
        pending := Some(part.key);
      }
    }
    ScanEnds(vs, false, pending);
    return if pending.Some? then Unorderable(pending.value) else Definite(false);
  }

  // ----- Strong Kleene logic -----

  predicate SameClass(a: Verdict, b: Verdict)
  {
    a == b || (a.Unorderable? && b.Unorderable?)
  }

  predicate HasUnknown(vs: seq<Verdict>)
  {
    exists i :: 0 <= i < |vs| && vs[i].Unorderable?
  }

  lemma {:induction false} FirstUnknownClass(vs: seq<Verdict>, otherwise: Verdict)
    requires otherwise.Definite?
    ensures FirstUnknown(vs, otherwise).Unorderable? <==> HasUnknown(vs)
    ensures !HasUnknown(vs) ==> FirstUnknown(vs, otherwise) == otherwise
  {
    if vs != [] {
      FirstUnknownClass(vs[1..], otherwise);
      assert HasUnknown(vs[1..]) ==> HasUnknown(vs) by {
        if HasUnknown(vs[1..]) {
          var i :| 0 <= i < |vs[1..]| && vs[1..][i].Unorderable?;
          assert vs[i + 1].Unorderable?;
        }
      }
      if HasUnknown(vs) && !vs[0].Unorderable? {
        var i :| 0 <= i < |vs| && vs[i].Unorderable?;
        assert vs[1..][i - 1].Unorderable?;
      }
    }
  }

  /** Reordering operands keeps which verdicts occur. */
  lemma PermutedVerdicts(f: Foreign, ps: seq<Expression>, qs: seq<Expression>, bag: Bag)
    requires multiset(ps) == multiset(qs)
    ensures forall v :: v in EvalAll(f, ps, bag) <==> v in EvalAll(f, qs, bag)
  {
    forall v | v in EvalAll(f, ps, bag) ensures v in EvalAll(f, qs, bag) {
      VerdictSurvives(f, ps, qs, bag, v);
    }
    forall v | v in EvalAll(f, qs, bag) ensures v in EvalAll(f, ps, bag) {
      VerdictSurvives(f, qs, ps, bag, v);
    }
  }

  lemma VerdictSurvives(f: Foreign, ps: seq<Expression>, qs: seq<Expression>, bag: Bag, v: Verdict)
    requires multiset(ps) == multiset(qs) && v in EvalAll(f, ps, bag)
    ensures v in EvalAll(f, qs, bag)
  {
    var i :| 0 <= i < |ps| && EvalAll(f, ps, bag)[i] == v;
    assert ps[i] in multiset(ps);
    assert ps[i] in qs;
    var j :| 0 <= j < |qs| && qs[j] == ps[i];
    assert EvalAll(f, qs, bag)[j] == v;
  }

  /** Permuting the operands of `&` or `|` never changes the verdict class. */
  lemma {:induction false} OperandOrderIrrelevant(f: Foreign, ps: seq<Expression>, qs: seq<Expression>, bag: Bag)
    requires multiset(ps) == multiset(qs)
    ensures SameClass(Eval(f, And(ps), bag), Eval(f, And(qs), bag))
    ensures SameClass(Eval(f, Or(ps), bag), Eval(f, Or(qs), bag))
  {
    PermutedVerdicts(f, ps, qs, bag);
    var vs, ws := EvalAll(f, ps, bag), EvalAll(f, qs, bag);
    UnknownSurvives(vs, ws);
    UnknownSurvives(ws, vs);
    FirstUnknownClass(vs, Definite(true));
    FirstUnknownClass(ws, Definite(true));
    FirstUnknownClass(vs, Definite(false));
    FirstUnknownClass(ws, Definite(false));
  }

  lemma UnknownSurvives(vs: seq<Verdict>, ws: seq<Verdict>)
    requires forall v :: v in vs ==> v in ws
    ensures HasUnknown(vs) ==> HasUnknown(ws)
  {
    if HasUnknown(vs) {
      var i :| 0 <= i < |vs| && vs[i].Unorderable?;
      assert vs[i] in ws;
    }
  }

  // ----- Negation pushed to the leaves -----

  /** `normalize_not`: the negation of an expression by De Morgan, as `require(...)` desugars. */
  function NormalizeNot(e: Expression): (r: Expression)
    decreases e, 1
  {
    match e
    case Cond(IsTrue(key)) => Cond(IsFalse(key))
    case Cond(IsFalse(key)) => Cond(IsTrue(key))
    case And(parts) => Or(NormalizeNotAll(parts))
    case Or(parts) => And(NormalizeNotAll(parts))
    case Not(inner) => inner
    case _ => Not(e)
  }

  function NormalizeNotAll(es: seq<Expression>): (rs: seq<Expression>)
    ensures |rs| == |es|
    ensures forall i :: 0 <= i < |es| ==> rs[i] == NormalizeNot(es[i])
    decreases es, 0
  {
    if es == [] then [] else [NormalizeNot(es[0])] + NormalizeNotAll(es[1..])
  }

  function NegateAll(vs: seq<Verdict>): (ws: seq<Verdict>)
  {
    seq(|vs|, i requires 0 <= i < |vs| => Negate(vs[i]))
  }

  lemma {:induction false} FirstUnknownNegated(vs: seq<Verdict>, otherwise: Verdict)
    ensures FirstUnknown(NegateAll(vs), Negate(otherwise)) == Negate(FirstUnknown(vs, otherwise))
  {
    if vs != [] {
      assert NegateAll(vs)[1..] == NegateAll(vs[1..]);
      FirstUnknownNegated(vs[1..], otherwise);
    }
  }

  lemma NegatedMember(vs: seq<Verdict>, b: bool)
    ensures Definite(b) in NegateAll(vs) <==> Definite(!b) in vs
  {
    if Definite(b) in NegateAll(vs) {
      var i :| 0 <= i < |vs| && NegateAll(vs)[i] == Definite(b);
      assert vs[i] == Definite(!b);
    }
    if Definite(!b) in vs {
      var i :| 0 <= i < |vs| && vs[i] == Definite(!b);
      assert NegateAll(vs)[i] == Definite(b);
    }
  }

  lemma DeMorgan(vs: seq<Verdict>)
    ensures Disjoin(NegateAll(vs)) == Negate(Conjoin(vs))
    ensures Conjoin(NegateAll(vs)) == Negate(Disjoin(vs))
  {
    NegatedMember(vs, true);
    NegatedMember(vs, false);
    FirstUnknownNegated(vs, Definite(true));
    FirstUnknownNegated(vs, Definite(false));
  }

  /** `normalize_not` is exact three-valued negation, down to the key reported unorderable. */
  lemma {:induction false} NormalizeNotNegates(f: Foreign, e: Expression, bag: Bag)
    ensures Eval(f, NormalizeNot(e), bag) == Negate(Eval(f, e, bag))
    decreases e
  {
    match e
    case Cond(_) =>
    case Always =>
    case Not(inner) =>
    case And(parts) =>
      NormalizeNotAllNegates(f, parts, bag, e);
      DeMorgan(EvalAll(f, parts, bag));
    case Or(parts) =>
      NormalizeNotAllNegates(f, parts, bag, e);
      DeMorgan(EvalAll(f, parts, bag));
  }

  /** Negation stands only where it cannot be pushed further: over a comparison, `exists`, `in` or `always`. */
  predicate Pushed(e: Expression)
    decreases e
  {
    match e
    case And(parts) => forall p :: p in parts ==> Pushed(p)
    case Or(parts) => forall p :: p in parts ==> Pushed(p)
    case Not(inner) => inner.Always? || (inner.Cond? && !inner.condition.IsTrue? && !inner.condition.IsFalse?)
    case _ => true
  }

  /** `normalize_not` keeps negation pushed to the leaves. */
  lemma {:induction false} NormalizeNotPushes(e: Expression)
    requires Pushed(e)
    ensures Pushed(NormalizeNot(e))
    decreases e
  {
    if e.And? || e.Or? {
      var parts := NormalizeNotAll(e.parts);
      forall p | p in parts
        ensures Pushed(p)
      {
        var i :| 0 <= i < |parts| && parts[i] == p;
        assert e.parts[i] in e.parts;
        NormalizeNotPushes(e.parts[i]);
      }
    }
  }

  lemma {:induction false} NormalizeNotAllNegates(f: Foreign, parts: seq<Expression>, bag: Bag, whole: Expression)
    requires forall p :: p in parts ==> p < whole
    ensures EvalAll(f, NormalizeNotAll(parts), bag) == NegateAll(EvalAll(f, parts, bag))
    decreases whole, 0
  {
    forall i | 0 <= i < |parts|
      ensures EvalAll(f, NormalizeNotAll(parts), bag)[i] == NegateAll(EvalAll(f, parts, bag))[i]
    {
      assert parts[i] in parts;
      NormalizeNotNegates(f, parts[i], bag);
    }
  }
}
