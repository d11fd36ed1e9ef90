/** A printer for predicates, and the proof that parsing undoes it: the token half. */
module PredicatePrinter {
  import opened Values
  import opened Rules
  import opened Lexer
  import opened PredicateParser
  import opened PredicateSyntax

  /** Expressions with a spelling: no `Always`, and connectives of at least two parts. */
  predicate Printable(e: Expression)
  {
    match e
    case Cond(_) => true
    case And(parts) => |parts| >= 2 && forall i :: 0 <= i < |parts| ==> Printable(parts[i])
    case Or(parts) => |parts| >= 2 && forall i :: 0 <= i < |parts| ==> Printable(parts[i])
    case Not(inner) => Printable(inner)
    case Always => false
  }

  ghost predicate AllPrintable(parts: seq<Expression>)
  {
    forall k :: 0 <= k < |parts| ==> Printable(parts[k])
  }

  /** The sentence a tree is printed as; a negated leaf is written `require(key)`. */
  function Printed(e: Expression): (s: Sentence)
    requires Printable(e)
    decreases e, 1
  {
    match e
    case Cond(IsFalse(key)) => Require([Atom(IsTrue(key))])
    case Cond(c) => Atom(c)
    case Not(inner) => Bang(PrintedOperand(inner))
    case And(parts) => Ands(PrintedParts(parts))
    case Or(parts) => Ors(PrintedParts(parts))
  }

  /** Every connective operand of `!`, `&` or `|` is parenthesized. */
  function PrintedOperand(e: Expression): (s: Sentence)
    requires Printable(e)
    decreases e, 2
  {
    if e.And? || e.Or? then Group(Printed(e)) else Printed(e)
  }

  function PrintedParts(parts: seq<Expression>): (r: seq<Sentence>)
    requires forall i :: 0 <= i < |parts| ==> Printable(parts[i])
    ensures |r| == |parts| && forall i :: 0 <= i < |parts| ==> r[i] == PrintedOperand(parts[i])
    decreases parts, 0
  {
    if parts == [] then [] else [PrintedOperand(parts[0])] + PrintedParts(parts[1..])
  }

  function Toks(e: Expression): (ts: seq<Tok>)
    requires Printable(e)
  {
    Written(Printed(e))
  }

  /** The printed sentence is grammatical and means the tree. */
  lemma {:induction false} PrintedMeans(e: Expression)
    requires Printable(e)
    ensures Grammatical(Printed(e)) && Meaning(Printed(e)) == e && (Tight(Printed(e)) <==> !e.And? && !e.Or?)
    decreases e, 1
  {
    match e
    case Cond(IsFalse(key)) => assert Meanings([Atom(IsTrue(key))]) == [Cond(IsTrue(key))];
    case Cond(_) =>
    case Not(inner) => OperandMeans(inner);
    case And(parts) => PartsMean(parts, e);
    case Or(parts) => PartsMean(parts, e);
  }

  lemma {:induction false} OperandMeans(e: Expression)
    requires Printable(e)
    ensures Grammatical(PrintedOperand(e)) && Tight(PrintedOperand(e)) && Meaning(PrintedOperand(e)) == e
    decreases e, 2
  {
    PrintedMeans(e);
  }

  lemma {:induction false} PartsMean(parts: seq<Expression>, whole: Expression)
    requires AllPrintable(parts) && (whole == And(parts) || whole == Or(parts))
    ensures AllGrammatical(PrintedParts(parts)) && AllTight(PrintedParts(parts))
    ensures Meanings(PrintedParts(parts)) == parts
    decreases whole, 0
  {
    forall i | 0 <= i < |parts|
      ensures Grammatical(PrintedParts(parts)[i]) && Tight(PrintedParts(parts)[i])
      ensures Meanings(PrintedParts(parts))[i] == parts[i]
    {
      OperandMeans(parts[i]);
    }
  }

  /** A printed predicate, wherever it stands, parses back to the identical tree. */
  lemma {:induction false} PredicateParses(ts: seq<Tok>, i: nat, e: Expression)
    requires Printable(e) && Holds(ts, i, Toks(e)) && EndsPredicate(ts, i + |Toks(e)|)
    ensures ParseOr(ts, i) == Ok(Parsed(e, i + |Toks(e)|))
  {
    PrintedMeans(e);
    WholeParses(ts, i, Printed(e), i + |Toks(e)|);
  }
}
