/** The evaluator's language filled in with the real predicate functions, and what `require(...)` means. */
module Requirements {
  import opened Values
  import Attributes
  import opened Rules
  import opened Predicates
  import opened Lexer
  import opened PredicateParser
  import opened PredicateSyntax
  import opened PredicatePrinter
  import opened PredicateText
  import Constraints
  import Hosts
  import FastPath

  /** The policy language: three-valued evaluation, fail-closed restriction, the predicate parser. */
  function StandardLanguage(f: Foreign): (l: Hosts.Language)
  {
    Hosts.Language(
      (e: Expression, bag: Attributes.Bag) => Eval(f, e, bag),
      (s: RestrictSpec, bag: Attributes.Bag) => Constraints.Resolve(f, bag, s),
      (src: string) => if ParsePredicate(f, src).Ok? then Some(ParsePredicate(f, src).value) else None)
  }

  /** `require(P1, ..., Pn)` as a sentence. */
  function Requirement(ps: seq<Expression>): (s: Sentence)
    requires ps != [] && AllPrintable(ps)
  {
    Require(seq(|ps|, i requires 0 <= i < |ps| => Printed(ps[i])))
  }

  function RequireText(floats: F64 -> string, ps: seq<Expression>): (s: string)
    requires ps != [] && AllPrintable(ps)
  {
    Spoken(floats, Requirement(ps))
  }

  ghost predicate AllExpressible(f: Foreign, floats: F64 -> string, ps: seq<Expression>)
  {
    forall i :: 0 <= i < |ps| ==> Expressible(f, floats, ps[i])
  }

  lemma RequirementSays(f: Foreign, floats: F64 -> string, ps: seq<Expression>)
    requires ps != [] && AllPrintable(ps) && AllExpressible(f, floats, ps)
    ensures Grammatical(Requirement(ps)) && Utterable(f, floats, Requirement(ps))
    ensures Meanings(Requirement(ps).parts) == ps
  {
    forall i | 0 <= i < |ps|
      ensures Grammatical(Printed(ps[i])) && Utterable(f, floats, Printed(ps[i])) && Meaning(Printed(ps[i])) == ps[i]
    {
      PrintedMeans(ps[i]);
      PrintedUtterable(f, floats, ps[i]);
    }
  }

  /** The parts as one conjunction: a single part stands alone. */
  function AllOf(ps: seq<Expression>): (e: Expression)
    requires ps != []
  {
    if |ps| == 1 then ps[0] else And(ps)
  }

  lemma OneVerdict(vs: seq<Verdict>)
    requires |vs| == 1
    ensures Conjoin(vs) == vs[0]
  {
    assert vs[1..] == [];
    assert FirstUnknown(vs[1..], Definite(true)) == Definite(true);
    if Definite(false) in vs {
      assert vs[0] == Definite(false);
    } else {
      assert vs[0] in vs;
    }
  }

  lemma AllOfMeans(f: Foreign, ps: seq<Expression>, bag: Attributes.Bag)
    requires ps != []
    ensures Eval(f, AllOf(ps), bag) == Eval(f, And(ps), bag)
  {
    if |ps| == 1 {
      var vs := EvalAll(f, ps, bag);
      OneVerdict(vs);
      assert vs[0] == Eval(f, ps[0], bag);
    }
  }

  /** The text `require(P1, ..., Pn)` parses to a tree that is exactly the negation of "P1 and ... and Pn". */
  lemma {:induction false} RequireTextParses(f: Foreign, floats: F64 -> string, ps: seq<Expression>,
                                             bag: Attributes.Bag)
    requires ps != [] && AllPrintable(ps) && AllExpressible(f, floats, ps)
    ensures ParsePredicate(f, RequireText(floats, ps)).Ok?
    ensures Eval(f, ParsePredicate(f, RequireText(floats, ps)).value, bag) == Negate(Eval(f, And(ps), bag))
  {
    RequirementSays(f, floats, ps);
    SentenceParses(f, floats, Requirement(ps));
    assert Meaning(Requirement(ps)) == NormalizeNot(AllOf(ps));
    NormalizeNotNegates(f, AllOf(ps), bag);
    AllOfMeans(f, ps, bag);
  }

  /** A rule `require(P1, ..., Pn)` lets a request through exactly when every Pi is definitely true. */
  lemma {:induction false} RequireAllowsExactly(f: Foreign, floats: F64 -> string, ps: seq<Expression>,
                                                reason: Option<string>, code: Option<string>, source: string,
                                                bag: Attributes.Bag)
    requires ps != [] && AllPrintable(ps) && AllExpressible(f, floats, ps)
    ensures var guard := ParsePredicate(f, RequireText(floats, ps));
      && guard.Ok?
      && var rule := Rule(guard.value, [Deny(reason, code)], source);
         (FastPath.DecideRules(StandardLanguage(f), [rule], bag) == Hosts.Allowed <==>
          forall i :: 0 <= i < |ps| ==> Eval(f, ps[i], bag) == Definite(true))
  {
    RequireTextParses(f, floats, ps, bag);
    RequireRule(f, ParsePredicate(f, RequireText(floats, ps)).value, reason, code, source, bag);
    AllTrue(f, ps, bag);
  }

  lemma AllTrue(f: Foreign, ps: seq<Expression>, bag: Attributes.Bag)
    ensures Eval(f, And(ps), bag) == Definite(true) <==>
      forall i :: 0 <= i < |ps| ==> Eval(f, ps[i], bag) == Definite(true)
  {
    var vs := EvalAll(f, ps, bag);
    FirstUnknownClass(vs, Definite(true));
    assert forall i :: 0 <= i < |vs| ==> vs[i] in vs;
  }

  lemma RequireRule(f: Foreign, guard: Expression, reason: Option<string>, code: Option<string>, source: string,
                    bag: Attributes.Bag)
    ensures var rule := Rule(guard, [Deny(reason, code)], source);
      FastPath.DecideRules(StandardLanguage(f), [rule], bag) == Hosts.Allowed <==>
      Eval(f, guard, bag) == Definite(false)
  {
    var rule := Rule(guard, [Deny(reason, code)], source);
    assert StandardLanguage(f).eval(guard, bag) == Eval(f, guard, bag);
    assert [rule][1..] == [];
    assert FastPath.FirstDeny(rule.effects, source).Some?;
  }
}
