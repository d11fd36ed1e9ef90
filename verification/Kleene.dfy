/** The evaluator's verdicts are those of strong Kleene logic. */
module Kleene {
  import opened Values
  import opened Attributes
  import opened Rules
  import opened Predicates

  // ---- Answers occurrence by occurrence

  /** Two-valued evaluation in which `guess` answers each comparison without an order, by where it stands. */
  ghost function Guessed(f: Foreign, e: Expression, bag: Bag, guess: seq<nat> -> bool, path: seq<nat>): (b: bool)
    decreases e
  {
    match e
    case Cond(c) => (match EvalCondition(f, c, bag) case Definite(b) => b case Unorderable(_) => guess(path))
    case And(parts) => forall i :: 0 <= i < |parts| ==> Guessed(f, parts[i], bag, guess, path + [i])
    case Or(parts) => exists i :: 0 <= i < |parts| && Guessed(f, parts[i], bag, guess, path + [i])
    case Not(inner) => !Guessed(f, inner, bag, guess, path + [0])
    case Always => true
  }

  /** Two-valued evaluation that answers each comparison without an order so as to push the whole to `want`. */
  ghost function Extreme(f: Foreign, e: Expression, bag: Bag, want: bool): (b: bool)
    decreases e
  {
    match e
    case Cond(c) => (match EvalCondition(f, c, bag) case Definite(b) => b case Unorderable(_) => want)
    case And(parts) => forall i :: 0 <= i < |parts| ==> Extreme(f, parts[i], bag, want)
    case Or(parts) => exists i :: 0 <= i < |parts| && Extreme(f, parts[i], bag, want)
    case Not(inner) => !Extreme(f, inner, bag, !want)
    case Always => true
  }

  /** A verdict bounds both extremes: it is their common value when definite, and they part when it is not. */
  ghost predicate Bounds(f: Foreign, e: Expression, bag: Bag, v: Verdict)
  {
    && Extreme(f, e, bag, true) == (v.Definite? ==> v.value)
    && Extreme(f, e, bag, false) == (v.Definite? && v.value)
  }

  lemma {:induction false} VerdictBounds(f: Foreign, e: Expression, bag: Bag)
    ensures Bounds(f, e, bag, Eval(f, e, bag))
    decreases e
  {
    match e
    case Cond(_) =>
    case Always =>
    case Not(inner) => VerdictBounds(f, inner, bag);
    case And(parts) =>
      forall i | 0 <= i < |parts| ensures Bounds(f, parts[i], bag, Eval(f, parts[i], bag)) {
        VerdictBounds(f, parts[i], bag);
      }
      AndBounds(f, parts, bag, EvalAll(f, parts, bag));
    case Or(parts) =>
      forall i | 0 <= i < |parts| ensures Bounds(f, parts[i], bag, Eval(f, parts[i], bag)) {
        VerdictBounds(f, parts[i], bag);
      }
      OrBounds(f, parts, bag, EvalAll(f, parts, bag));
  }

  lemma AndBounds(f: Foreign, parts: seq<Expression>, bag: Bag, vs: seq<Verdict>)
    requires |vs| == |parts| && forall i :: 0 <= i < |parts| ==> Bounds(f, parts[i], bag, vs[i])
    ensures Bounds(f, And(parts), bag, Conjoin(vs))
  {
    FirstUnknownClass(vs, Definite(true));
    if Definite(false) in vs {
      var i :| 0 <= i < |vs| && vs[i] == Definite(false);
      assert Bounds(f, parts[i], bag, vs[i]);
    } else if HasUnknown(vs) {
      var i :| 0 <= i < |vs| && vs[i].Unorderable?;
      assert Bounds(f, parts[i], bag, vs[i]);
      assert forall k :: 0 <= k < |vs| ==> vs[k] in vs;
    } else {
      assert forall k :: 0 <= k < |vs| ==> vs[k] in vs;
    }
  }

  lemma OrBounds(f: Foreign, parts: seq<Expression>, bag: Bag, vs: seq<Verdict>)
    requires |vs| == |parts| && forall i :: 0 <= i < |parts| ==> Bounds(f, parts[i], bag, vs[i])
    ensures Bounds(f, Or(parts), bag, Disjoin(vs))
  {
    FirstUnknownClass(vs, Definite(false));
    if Definite(true) in vs {
      var i :| 0 <= i < |vs| && vs[i] == Definite(true);
      assert Bounds(f, parts[i], bag, vs[i]);
    } else if HasUnknown(vs) {
      var i :| 0 <= i < |vs| && vs[i].Unorderable?;
      assert Bounds(f, parts[i], bag, vs[i]);
      assert forall k :: 0 <= k < |vs| ==> vs[k] in vs;
    } else {
      assert forall k :: 0 <= k < |vs| ==> vs[k] in vs;
    }
  }

  /** Every way of answering lies between the two extremes. */
  lemma {:induction false} GuessBetween(f: Foreign, e: Expression, bag: Bag, guess: seq<nat> -> bool, path: seq<nat>)
    ensures Extreme(f, e, bag, false) ==> Guessed(f, e, bag, guess, path)
    ensures Guessed(f, e, bag, guess, path) ==> Extreme(f, e, bag, true)
    decreases e
  {
    match e
    case Cond(_) =>
    case Always =>
    case Not(inner) => GuessBetween(f, inner, bag, guess, path + [0]);
    case And(parts) =>
      forall i | 0 <= i < |parts|
        ensures Extreme(f, parts[i], bag, false) ==> Guessed(f, parts[i], bag, guess, path + [i])
        ensures Guessed(f, parts[i], bag, guess, path + [i]) ==> Extreme(f, parts[i], bag, true)
      {
        GuessBetween(f, parts[i], bag, guess, path + [i]);
      }
    case Or(parts) =>
      forall i | 0 <= i < |parts|
        ensures Extreme(f, parts[i], bag, false) ==> Guessed(f, parts[i], bag, guess, path + [i])
        ensures Guessed(f, parts[i], bag, guess, path + [i]) ==> Extreme(f, parts[i], bag, true)
      {
        GuessBetween(f, parts[i], bag, guess, path + [i]);
      }
  }

  /** The answer at a path that pushes the whole to `want`: `want`, turned over by each `!` above it. */
  ghost function WantAt(e: Expression, path: seq<nat>, want: bool): (b: bool)
    decreases |path|
  {
    if path == [] then want
    else
      match e
      case And(parts) => if path[0] < |parts| then WantAt(parts[path[0]], path[1..], want) else want
      case Or(parts) => if path[0] < |parts| then WantAt(parts[path[0]], path[1..], want) else want
      case Not(inner) => WantAt(inner, path[1..], !want)
      case _ => want
  }

  ghost predicate Pushes(e: Expression, guess: seq<nat> -> bool, path: seq<nat>, want: bool)
  {
    forall q: seq<nat> :: guess(path + q) == WantAt(e, q, want)
  }

  lemma PushesChild(e: Expression, guess: seq<nat> -> bool, path: seq<nat>, want: bool, i: nat, child: Expression,
                    w: bool)
    requires Pushes(e, guess, path, want)
    requires forall q: seq<nat> :: WantAt(e, [i] + q, want) == WantAt(child, q, w)
    ensures Pushes(child, guess, path + [i], w)
  {
    forall q: seq<nat>
      ensures guess(path + [i] + q) == WantAt(child, q, w)
    {
      assert path + [i] + q == path + ([i] + q);
      assert guess(path + ([i] + q)) == WantAt(e, [i] + q, want);
    }
  }

  lemma {:induction false} ExtremeReached(f: Foreign, e: Expression, bag: Bag, guess: seq<nat> -> bool,
                                          path: seq<nat>, want: bool)
    requires Pushes(e, guess, path, want)
    ensures Guessed(f, e, bag, guess, path) == Extreme(f, e, bag, want)
    decreases e
  {
    match e
    case Cond(_) =>
      assert guess(path + []) == WantAt(e, [], want);
      assert path + [] == path;
    case Always =>
    case Not(inner) =>
      forall q: seq<nat> ensures WantAt(e, [0] + q, want) == WantAt(inner, q, !want) {
        assert ([0] + q)[1..] == q;
      }
      PushesChild(e, guess, path, want, 0, inner, !want);
      ExtremeReached(f, inner, bag, guess, path + [0], !want);
    case And(parts) =>
      forall i: nat | i < |parts|
        ensures Guessed(f, parts[i], bag, guess, path + [i]) == Extreme(f, parts[i], bag, want)
      {
        PartReached(e, parts, guess, path, want, i);
        ExtremeReached(f, parts[i], bag, guess, path + [i], want);
      }
    case Or(parts) =>
      forall i: nat | i < |parts|
        ensures Guessed(f, parts[i], bag, guess, path + [i]) == Extreme(f, parts[i], bag, want)
      {
        PartReached(e, parts, guess, path, want, i);
        ExtremeReached(f, parts[i], bag, guess, path + [i], want);
      }
  }

  lemma PartReached(e: Expression, parts: seq<Expression>, guess: seq<nat> -> bool, path: seq<nat>, want: bool, i: nat)
    requires (e == And(parts) || e == Or(parts)) && i < |parts| && Pushes(e, guess, path, want)
    ensures Pushes(parts[i], guess, path + [i], want)
  {
    forall q: seq<nat> ensures WantAt(e, [i] + q, want) == WantAt(parts[i], q, want) {
      assert ([i] + q)[1..] == q;
    }
    PushesChild(e, guess, path, want, i, parts[i], want);
  }

  /** Each extreme is one of the ways of answering. */
  lemma ExtremeIsGuess(f: Foreign, e: Expression, bag: Bag, want: bool) returns (guess: seq<nat> -> bool)
    ensures Guessed(f, e, bag, guess, []) == Extreme(f, e, bag, want)
  {
    guess := (q: seq<nat>) => WantAt(e, q, want);
    assert forall q: seq<nat> :: [] + q == q;
    ExtremeReached(f, e, bag, guess, [], want);
  }

  /** The value of the expression is `b` however the comparisons that could not be made are answered. */
  ghost predicate Unanimous(f: Foreign, e: Expression, bag: Bag, b: bool)
  {
    forall guess: seq<nat> -> bool :: Guessed(f, e, bag, guess, []) == b
  }

  lemma ExtremesAgree(f: Foreign, e: Expression, bag: Bag, b: bool)
    ensures Unanimous(f, e, bag, b) <==> Extreme(f, e, bag, true) == b && Extreme(f, e, bag, false) == b
  {
    var low := ExtremeIsGuess(f, e, bag, false);
    var high := ExtremeIsGuess(f, e, bag, true);
    forall guess: seq<nat> -> bool
      ensures Extreme(f, e, bag, false) ==> Guessed(f, e, bag, guess, [])
      ensures Guessed(f, e, bag, guess, []) ==> Extreme(f, e, bag, true)
    {
      GuessBetween(f, e, bag, guess, []);
    }
  }

  /**
   * Strong Kleene logic, exactly: a verdict is definite, with value `b`, precisely when every way of
   * answering the comparisons that could not be made, each occurrence on its own, gives `b`.
   */
  lemma {:induction false} KleeneExactly(f: Foreign, e: Expression, bag: Bag, b: bool)
    ensures Eval(f, e, bag) == Definite(b) <==> Unanimous(f, e, bag, b)
  {
    VerdictBounds(f, e, bag);
    ExtremesAgree(f, e, bag, b);
  }

  // ---- Which key is reported

  /** The first part without an order, no part settling the whole against `settles`. */
  ghost predicate FirstWithout(f: Foreign, parts: seq<Expression>, bag: Bag, settles: bool, i: int, key: string)
  {
    && 0 <= i < |parts| && Eval(f, parts[i], bag) == Unorderable(key)
    && (forall j :: 0 <= j < i ==> Eval(f, parts[j], bag).Definite?)
    && (forall j :: 0 <= j < |parts| ==> Eval(f, parts[j], bag) != Definite(settles))
  }

  lemma {:induction false} FirstUnknownIs(vs: seq<Verdict>, otherwise: Verdict, key: string) returns (i: nat)
    requires FirstUnknown(vs, otherwise) == Unorderable(key) && otherwise.Definite?
    ensures i < |vs| && vs[i] == Unorderable(key) && forall j :: 0 <= j < i ==> vs[j].Definite?
  {
    if vs[0].Unorderable? {
      i := 0;
    } else {
      i := FirstUnknownIs(vs[1..], otherwise, key);
      assert forall j :: 0 <= j < i ==> vs[1..][j] == vs[j + 1];
      i := i + 1;
    }
  }

  lemma {:induction false} FirstUnknownAt(vs: seq<Verdict>, otherwise: Verdict, i: nat)
    requires i < |vs| && vs[i].Unorderable? && forall j :: 0 <= j < i ==> vs[j].Definite?
    ensures FirstUnknown(vs, otherwise) == vs[i]
  {
    if i > 0 {
      assert forall j :: 0 <= j < i - 1 ==> vs[1..][j] == vs[j + 1];
      FirstUnknownAt(vs[1..], otherwise, i - 1);
    }
  }

  /** A conjunction or disjunction without an order reports the key of its first part without one. */
  lemma {:induction false} KeyReported(f: Foreign, parts: seq<Expression>, bag: Bag, key: string)
    ensures Eval(f, And(parts), bag) == Unorderable(key) <==> exists i :: FirstWithout(f, parts, bag, false, i, key)
    ensures Eval(f, Or(parts), bag) == Unorderable(key) <==> exists i :: FirstWithout(f, parts, bag, true, i, key)
  {
    var vs := EvalAll(f, parts, bag);
    assert forall j :: 0 <= j < |vs| ==> vs[j] in vs;
    if Eval(f, And(parts), bag) == Unorderable(key) {
      var i := FirstUnknownIs(vs, Definite(true), key);
      assert FirstWithout(f, parts, bag, false, i, key);
    }
    if Eval(f, Or(parts), bag) == Unorderable(key) {
      var i := FirstUnknownIs(vs, Definite(false), key);
      assert FirstWithout(f, parts, bag, true, i, key);
    }
    if i :| FirstWithout(f, parts, bag, false, i, key) {
      FirstUnknownAt(vs, Definite(true), i);
    }
    if i :| FirstWithout(f, parts, bag, true, i, key) {
      FirstUnknownAt(vs, Definite(false), i);
    }
  }

  // ---- Operand order, at any depth

  /** `b` is `a` with the operands of any of its connectives, at any depth, in another order. */
  ghost predicate Reordered(a: Expression, b: Expression)
    decreases a, 1
  {
    match a
    case And(ps) => b.And? && exists rs :: Pointwise(ps, rs) && multiset(rs) == multiset(b.parts)
    case Or(ps) => b.Or? && exists rs :: Pointwise(ps, rs) && multiset(rs) == multiset(b.parts)
    case Not(inner) => b.Not? && Reordered(inner, b.inner)
    case _ => a == b
  }

  ghost predicate Pointwise(ps: seq<Expression>, rs: seq<Expression>)
    decreases ps, 0
  {
    |ps| == |rs| && (ps != [] ==> Reordered(ps[0], rs[0]) && Pointwise(ps[1..], rs[1..]))
  }

  predicate SameClasses(vs: seq<Verdict>, ws: seq<Verdict>)
  {
    |vs| == |ws| && forall i :: 0 <= i < |vs| ==> SameClass(vs[i], ws[i])
  }

  lemma SameClassesAgree(vs: seq<Verdict>, ws: seq<Verdict>)
    requires SameClasses(vs, ws)
    ensures SameClass(Conjoin(vs), Conjoin(ws)) && SameClass(Disjoin(vs), Disjoin(ws))
  {
    FirstUnknownClass(vs, Definite(true));
    FirstUnknownClass(ws, Definite(true));
    FirstUnknownClass(vs, Definite(false));
    FirstUnknownClass(ws, Definite(false));
    Occurs(vs, ws);
    Occurs(ws, vs);
  }

  lemma Occurs(vs: seq<Verdict>, ws: seq<Verdict>)
    requires SameClasses(vs, ws)
    ensures HasUnknown(vs) ==> HasUnknown(ws)
    ensures forall b :: Definite(b) in vs ==> Definite(b) in ws
  {
    if HasUnknown(vs) {
      var i :| 0 <= i < |vs| && vs[i].Unorderable?;
      assert SameClass(vs[i], ws[i]);
    }
    forall b | Definite(b) in vs
      ensures Definite(b) in ws
    {
      var i :| 0 <= i < |vs| && vs[i] == Definite(b);
      assert SameClass(vs[i], ws[i]);
    }
  }

  lemma SameClassChain(a: Verdict, b: Verdict, c: Verdict)
    requires SameClass(a, b) && SameClass(b, c)
    ensures SameClass(a, c)
  {
  }

  /** Reordering operands anywhere in an expression never changes its verdict class. */
  lemma {:induction false} ReorderingIrrelevant(f: Foreign, a: Expression, b: Expression, bag: Bag)
    requires Reordered(a, b)
    ensures SameClass(Eval(f, a, bag), Eval(f, b, bag))
    decreases a, 1
  {
    match a
    case And(ps) =>
      var rs :| Pointwise(ps, rs) && multiset(rs) == multiset(b.parts);
      PointwiseClasses(f, ps, rs, bag);
      SameClassesAgree(EvalAll(f, ps, bag), EvalAll(f, rs, bag));
      OperandOrderIrrelevant(f, rs, b.parts, bag);
      SameClassChain(Eval(f, a, bag), Eval(f, And(rs), bag), Eval(f, b, bag));
    case Or(ps) =>
      var rs :| Pointwise(ps, rs) && multiset(rs) == multiset(b.parts);
      PointwiseClasses(f, ps, rs, bag);
      SameClassesAgree(EvalAll(f, ps, bag), EvalAll(f, rs, bag));
      OperandOrderIrrelevant(f, rs, b.parts, bag);
      SameClassChain(Eval(f, a, bag), Eval(f, Or(rs), bag), Eval(f, b, bag));
    case Not(inner) => ReorderingIrrelevant(f, inner, b.inner, bag);
    case _ =>
  }

  lemma {:induction false} PointwiseClasses(f: Foreign, ps: seq<Expression>, rs: seq<Expression>, bag: Bag)
    requires Pointwise(ps, rs)
    ensures SameClasses(EvalAll(f, ps, bag), EvalAll(f, rs, bag))
    decreases ps, 0
  {
    if ps != [] {
      ReorderingIrrelevant(f, ps[0], rs[0], bag);
      PointwiseClasses(f, ps[1..], rs[1..], bag);
      forall i | 0 <= i < |ps|
        ensures SameClass(EvalAll(f, ps, bag)[i], EvalAll(f, rs, bag)[i])
      {
        if i > 0 {
          assert SameClass(EvalAll(f, ps[1..], bag)[i - 1], EvalAll(f, rs[1..], bag)[i - 1]);
          assert ps[1..][i - 1] == ps[i] && rs[1..][i - 1] == rs[i];
        }
      }
    }
  }
}
