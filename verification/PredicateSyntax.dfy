/**
 * The concrete syntax of predicates, and the proof that the parser accepts exactly it: a token list parses to
 * a tree precisely when it spells one of the sentences that mean the tree.
 */
module PredicateSyntax {
  import opened Values
  import opened Rules
  import opened Lexer
  import opened Predicates
  import opened PredicateParser

  // ----- Sentences -----

  function OperatorTok(op: CompareOp): (t: Tok)
  {
    match op
    case Eq => EqTok
    case NotEq => NotEqTok
    case Gt => GtTok
    case GtEq => GtEqTok
    case Lt => LtTok
    case LtEq => LtEqTok
    case Contains => ContainsTok
  }

  function LiteralTok(l: Literal): (t: Tok)
  {
    match l
    case BoolLiteral(b) => BoolTok(b)
    case IntLiteral(n) => IntTok(n)
    case FloatLiteral(x) => FloatTok(x)
    case StringLiteral(s) => StringTok(s)
  }

  function ConditionToks(c: Condition): (ts: seq<Tok>)
  {
    match c
    case Comparison(key, op, value) => [Ident(key), OperatorTok(op), LiteralTok(value)]
    case IsTrue(key) => [Ident(key)]
    case IsFalse(key) => [RequireTok, LParen, Ident(key), RParen]
    case Exists(key) => [ExistsTok, LParen, Ident(key), RParen]
    case InSet(valueKey, setKey, negate) =>
      if negate then [Ident(valueKey), NotWord, InTok, Ident(setKey)] else [Ident(valueKey), InTok, Ident(setKey)]
  }

  /** A predicate as written, with its parentheses and `require(...)` lists. */
  datatype Sentence =
    | Atom(condition: Condition)
    | Group(inner: Sentence)
    | Bang(inner: Sentence)
    | Ands(parts: seq<Sentence>)
    | Ors(parts: seq<Sentence>)
    | Require(parts: seq<Sentence>)

  /** What may stand on its own under `!` and between `&`. */
  predicate Tight(s: Sentence)
  {
    s.Atom? || s.Group? || s.Bang? || s.Require?
  }

  /** `!` binds tighter than `&`, and `&` tighter than `|`; connectives join at least two parts. */
  predicate Grammatical(s: Sentence)
  {
    match s
    case Atom(c) => !c.IsFalse?
    case Group(inner) => Grammatical(inner)
    case Bang(inner) => Tight(inner) && Grammatical(inner)
    case Ands(parts) =>
      |parts| >= 2 && forall i :: 0 <= i < |parts| ==> Tight(parts[i]) && Grammatical(parts[i])
    case Ors(parts) =>
      |parts| >= 2 && forall i :: 0 <= i < |parts| ==> !parts[i].Ors? && Grammatical(parts[i])
    case Require(parts) =>
      |parts| >= 1 && forall i :: 0 <= i < |parts| ==> Grammatical(parts[i])
  }

  /** The tokens a sentence is written with. */
  function Written(s: Sentence): (ts: seq<Tok>)
    decreases s, 1
  {
    match s
    case Atom(c) => ConditionToks(c)
    case Group(inner) => [LParen] + Written(inner) + [RParen]
    case Bang(inner) => [NotTok] + Written(inner)
    case Ands(parts) => Joined(parts, AndTok)
    case Ors(parts) => Joined(parts, OrTok)
    case Require(parts) => [RequireTok, LParen] + Joined(parts, Comma) + [RParen]
  }

  function Joined(parts: seq<Sentence>, separator: Tok): (ts: seq<Tok>)
    decreases parts, 0
  {
    if parts == [] then []
    else if |parts| == 1 then Written(parts[0])
    else Written(parts[0]) + [separator] + Joined(parts[1..], separator)
  }

  /** The tree a sentence means; `require(...)` denies unless all its parts hold. */
  function Meaning(s: Sentence): (e: Expression)
    decreases s, 1
  {
    match s
    case Atom(c) => Cond(c)
    case Group(inner) => Meaning(inner)
    case Bang(inner) => Not(Meaning(inner))
    case Ands(parts) => And(Meanings(parts))
    case Ors(parts) => Or(Meanings(parts))
    case Require(parts) =>
      if |parts| == 1 then NormalizeNot(Meaning(parts[0])) else NormalizeNot(And(Meanings(parts)))
  }

  function Meanings(parts: seq<Sentence>): (es: seq<Expression>)
    ensures |es| == |parts|
    ensures forall i :: 0 <= i < |parts| ==> es[i] == Meaning(parts[i])
    decreases parts, 0
  {
    if parts == [] then [] else [Meaning(parts[0])] + Meanings(parts[1..])
  }

  // ----- Tokens in place -----

  /** `ts` holds `part` at `i`. */
  predicate Holds(ts: seq<Tok>, i: nat, part: seq<Tok>)
  {
    i + |part| <= |ts| && forall k :: 0 <= k < |part| ==> ts[i + k] == part[k]
  }

  /** What may follow an operand, and a whole predicate. */
  predicate EndsOperand(ts: seq<Tok>, i: nat)
  {
    EndsPredicate(ts, i) || Next(ts, i, AndTok) || Next(ts, i, OrTok)
  }

  predicate EndsPredicate(ts: seq<Tok>, i: nat)
  {
    i == |ts| || Next(ts, i, RParen) || Next(ts, i, Comma)
  }

  lemma HoldsSplit(ts: seq<Tok>, i: nat, a: seq<Tok>, b: seq<Tok>)
    requires Holds(ts, i, a + b)
    ensures Holds(ts, i, a) && Holds(ts, i + |a|, b)
  {
    forall k | 0 <= k < |a| ensures ts[i + k] == a[k] {
      assert (a + b)[k] == a[k];
    }
    forall k | 0 <= k < |b| ensures ts[i + |a| + k] == b[k] {
      assert (a + b)[|a| + k] == b[k];
    }
  }

  lemma HoldsAt(ts: seq<Tok>, i: nat, part: seq<Tok>, k: nat)
    requires Holds(ts, i, part) && k < |part|
    ensures ts[i + k] == part[k]
  {
  }

  /** Where a conjunction may end. */
  predicate EndsConjunction(ts: seq<Tok>, i: nat)
  {
    EndsPredicate(ts, i) || Next(ts, i, OrTok)
  }

  lemma FourToks(ts: seq<Tok>, i: nat, a: Tok, b: Tok, c: Tok, d: Tok)
    requires Holds(ts, i, [a, b, c, d])
    ensures i + 4 <= |ts| && ts[i] == a && ts[i + 1] == b && ts[i + 2] == c && ts[i + 3] == d
  {
    HoldsAt(ts, i, [a, b, c, d], 0);
    HoldsAt(ts, i, [a, b, c, d], 1);
    HoldsAt(ts, i, [a, b, c, d], 2);
    HoldsAt(ts, i, [a, b, c, d], 3);
  }

  lemma ThreeToks(ts: seq<Tok>, i: nat, a: Tok, b: Tok, c: Tok)
    requires Holds(ts, i, [a, b, c])
    ensures i + 3 <= |ts| && ts[i] == a && ts[i + 1] == b && ts[i + 2] == c
  {
    HoldsAt(ts, i, [a, b, c], 0);
    HoldsAt(ts, i, [a, b, c], 1);
    HoldsAt(ts, i, [a, b, c], 2);
  }

  lemma BareParses(ts: seq<Tok>, i: nat, key: string)
    requires Holds(ts, i, [Ident(key)]) && EndsOperand(ts, i + 1)
    ensures ParseUnary(ts, i) == Ok(Parsed(Cond(IsTrue(key)), i + 1))
  {
    HoldsAt(ts, i, [Ident(key)], 0);
  }

  lemma OperandsInvert(op: CompareOp, value: Literal)
    ensures OperatorOf(OperatorTok(op)) == Some(op) && LiteralOf(LiteralTok(value)) == Some(value)
    ensures OperatorTok(op) != InTok && OperatorTok(op) != NotWord && !LiteralTok(value).Ident?
  {
  }

  lemma ComparisonParses(ts: seq<Tok>, i: nat, key: string, op: CompareOp, value: Literal)
    requires Holds(ts, i, [Ident(key), OperatorTok(op), LiteralTok(value)])
    ensures ParseUnary(ts, i) == Ok(Parsed(Cond(Comparison(key, op, value)), i + 3))
  {
    ThreeToks(ts, i, Ident(key), OperatorTok(op), LiteralTok(value));
    OperandsInvert(op, value);
  }

  lemma ExistsParses(ts: seq<Tok>, i: nat, key: string)
    requires Holds(ts, i, [ExistsTok, LParen, Ident(key), RParen])
    ensures ParseUnary(ts, i) == Ok(Parsed(Cond(Exists(key)), i + 4))
  {
    FourToks(ts, i, ExistsTok, LParen, Ident(key), RParen);
  }

  lemma InParses(ts: seq<Tok>, i: nat, valueKey: string, setKey: string)
    requires Holds(ts, i, [Ident(valueKey), InTok, Ident(setKey)])
    ensures ParseUnary(ts, i) == Ok(Parsed(Cond(InSet(valueKey, setKey, false)), i + 3))
  {
    ThreeToks(ts, i, Ident(valueKey), InTok, Ident(setKey));
  }

  lemma NotInParses(ts: seq<Tok>, i: nat, valueKey: string, setKey: string)
    requires Holds(ts, i, [Ident(valueKey), NotWord, InTok, Ident(setKey)])
    ensures ParseUnary(ts, i) == Ok(Parsed(Cond(InSet(valueKey, setKey, true)), i + 4))
  {
    FourToks(ts, i, Ident(valueKey), NotWord, InTok, Ident(setKey));
  }

  // ----- One step of the parser at a time -----

  lemma ParenStep(ts: seq<Tok>, i: nat, e: Expression, next: nat)
    requires Next(ts, i, LParen) && ParseOr(ts, i + 1) == Ok(Parsed(e, next)) && Next(ts, next, RParen)
    ensures ParseUnary(ts, i) == Ok(Parsed(e, next + 1))
  {
  }

  lemma NotStep(ts: seq<Tok>, i: nat, e: Expression, next: nat)
    requires Next(ts, i, NotTok) && ParseUnary(ts, i + 1) == Ok(Parsed(e, next))
    ensures ParseUnary(ts, i) == Ok(Parsed(Not(e), next))
  {
  }

  lemma AndStep(ts: seq<Tok>, i: nat, done: seq<Expression>, e: Expression, next: nat)
    requires done != [] && Next(ts, i, AndTok) && ParseUnary(ts, i + 1) == Ok(Parsed(e, next)) && next <= |ts|
    ensures AndRest(ts, i, done) == AndRest(ts, next, done + [e])
  {
  }

  lemma OrStep(ts: seq<Tok>, i: nat, done: seq<Expression>, e: Expression, next: nat)
    requires done != [] && Next(ts, i, OrTok) && ParseAnd(ts, i + 1) == Ok(Parsed(e, next)) && next <= |ts|
    ensures OrRest(ts, i, done) == OrRest(ts, next, done + [e])
  {
  }

  lemma AndStop(ts: seq<Tok>, i: nat, done: seq<Expression>)
    requires i <= |ts| && done != [] && !Next(ts, i, AndTok)
    ensures AndRest(ts, i, done) == Ok(Parsed(Connect(done, false), i))
  {
  }

  lemma OrStop(ts: seq<Tok>, i: nat, done: seq<Expression>)
    requires i <= |ts| && done != [] && !Next(ts, i, OrTok)
    ensures OrRest(ts, i, done) == Ok(Parsed(Connect(done, true), i))
  {
  }

  lemma AndStart(ts: seq<Tok>, i: nat, e: Expression, next: nat)
    requires i <= next <= |ts| && ParseUnary(ts, i) == Ok(Parsed(e, next))
    ensures ParseAnd(ts, i) == AndRest(ts, next, [e])
  {
  }

  lemma OrStart(ts: seq<Tok>, i: nat, e: Expression, next: nat)
    requires i <= next <= |ts| && ParseAnd(ts, i) == Ok(Parsed(e, next))
    ensures ParseOr(ts, i) == OrRest(ts, next, [e])
  {
  }

  lemma AndSingle(ts: seq<Tok>, i: nat, e: Expression, next: nat)
    requires i <= next <= |ts| && ParseUnary(ts, i) == Ok(Parsed(e, next)) && !Next(ts, next, AndTok)
    ensures ParseAnd(ts, i) == Ok(Parsed(e, next))
  {
    AndStart(ts, i, e, next);
    AndStop(ts, next, [e]);
  }

  /** From `i` to `end`, each part parses as a unary behind its own `&`. */
  ghost predicate AndLinks(ts: seq<Tok>, i: nat, parts: seq<Expression>, end: nat)
    decreases |parts|
  {
    if parts == [] then i == end
    else
      && Next(ts, i, AndTok)
      && (match ParseUnary(ts, i + 1)
          case Ok(p) => p.expr == parts[0] && AndLinks(ts, p.next, parts[1..], end)
          case Err(_) => false)
  }

  ghost predicate OrLinks(ts: seq<Tok>, i: nat, parts: seq<Expression>, end: nat)
    decreases |parts|
  {
    if parts == [] then i == end
    else
      && Next(ts, i, OrTok)
      && (match ParseAnd(ts, i + 1)
          case Ok(p) => p.expr == parts[0] && OrLinks(ts, p.next, parts[1..], end)
          case Err(_) => false)
  }

  lemma {:induction false} AndChain(ts: seq<Tok>, i: nat, done: seq<Expression>, parts: seq<Expression>, end: nat)
    requires done != [] && i <= |ts| && AndLinks(ts, i, parts, end) && !Next(ts, end, AndTok)
    ensures AndRest(ts, i, done) == Ok(Parsed(Connect(done + parts, false), end))
    decreases |parts|
  {
    if parts == [] {
      assert done + parts == done;
      AndStop(ts, i, done);
    } else {
      var p := ParseUnary(ts, i + 1).value;
      AndStep(ts, i, done, p.expr, p.next);
      AndChain(ts, p.next, done + [p.expr], parts[1..], end);
      assert done + [p.expr] + parts[1..] == done + parts;
    }
  }

  lemma {:induction false} OrChain(ts: seq<Tok>, i: nat, done: seq<Expression>, parts: seq<Expression>, end: nat)
    requires done != [] && i <= |ts| && OrLinks(ts, i, parts, end) && !Next(ts, end, OrTok)
    ensures OrRest(ts, i, done) == Ok(Parsed(Connect(done + parts, true), end))
    decreases |parts|
  {
    if parts == [] {
      assert done + parts == done;
      OrStop(ts, i, done);
    } else {
      var p := ParseAnd(ts, i + 1).value;
      OrStep(ts, i, done, p.expr, p.next);
      OrChain(ts, p.next, done + [p.expr], parts[1..], end);
      assert done + [p.expr] + parts[1..] == done + parts;
    }
  }

  // ----- Every sentence parses to what it means -----

  lemma AtomParses(ts: seq<Tok>, i: nat, c: Condition)
    requires !c.IsFalse? && Holds(ts, i, ConditionToks(c)) && EndsOperand(ts, i + |ConditionToks(c)|)
    ensures ParseUnary(ts, i) == Ok(Parsed(Cond(c), i + |ConditionToks(c)|))
  {
    match c
    case IsTrue(key) => BareParses(ts, i, key);
    case Comparison(key, op, value) => ComparisonParses(ts, i, key, op, value);
    case Exists(key) => ExistsParses(ts, i, key);
    case InSet(valueKey, setKey, negate) =>
      if negate {
        NotInParses(ts, i, valueKey, setKey);
      } else {
        InParses(ts, i, valueKey, setKey);
      }
  }

  lemma Between(ts: seq<Tok>, i: nat, open: seq<Tok>, inner: seq<Tok>, close: Tok)
    requires Holds(ts, i, open + inner + [close])
    ensures Holds(ts, i, open) && Holds(ts, i + |open|, inner) && Next(ts, i + |open| + |inner|, close)
  {
    HoldsSplit(ts, i, open + inner, [close]);
    HoldsSplit(ts, i, open, inner);
    HoldsAt(ts, i + |open| + |inner|, [close], 0);
  }

  lemma Separated(ts: seq<Tok>, i: nat, first: seq<Tok>, separator: Tok, rest: seq<Tok>)
    requires Holds(ts, i, first + [separator] + rest)
    ensures Holds(ts, i, first) && Next(ts, i + |first|, separator) && Holds(ts, i + |first| + 1, rest)
  {
    HoldsSplit(ts, i, first + [separator], rest);
    HoldsSplit(ts, i, first, [separator]);
    HoldsAt(ts, i + |first|, [separator], 0);
  }

  predicate AllGrammatical(parts: seq<Sentence>)
  {
    forall i :: 0 <= i < |parts| ==> Grammatical(parts[i])
  }

  predicate AllTight(parts: seq<Sentence>)
  {
    forall i :: 0 <= i < |parts| ==> Tight(parts[i])
  }

  predicate NoneOrs(parts: seq<Sentence>)
  {
    forall i :: 0 <= i < |parts| ==> !parts[i].Ors?
  }

  /** `s` stands in `ts` from `i` to `end`. */
  ghost predicate Stands(ts: seq<Tok>, i: nat, s: Sentence, end: nat)
  {
    end == i + |Written(s)| && Holds(ts, i, Written(s))
  }

  ghost predicate StandJoined(ts: seq<Tok>, i: nat, parts: seq<Sentence>, separator: Tok, end: nat)
  {
    end == i + |Joined(parts, separator)| && Holds(ts, i, Joined(parts, separator))
  }

  lemma JoinedSplit(ts: seq<Tok>, i: nat, parts: seq<Sentence>, separator: Tok, end: nat) returns (next: nat)
    requires |parts| > 1 && StandJoined(ts, i, parts, separator, end)
    ensures Stands(ts, i, parts[0], next) && Next(ts, next, separator)
    ensures StandJoined(ts, next + 1, parts[1..], separator, end)
  {
    next := i + |Written(parts[0])|;
    Separated(ts, i, Written(parts[0]), separator, Joined(parts[1..], separator));
  }

  lemma JoinedOne(ts: seq<Tok>, i: nat, parts: seq<Sentence>, separator: Tok, end: nat)
    requires |parts| == 1 && StandJoined(ts, i, parts, separator, end)
    ensures Stands(ts, i, parts[0], end)
  {
  }

  lemma {:induction false} TightParses(ts: seq<Tok>, i: nat, s: Sentence, end: nat)
    requires Tight(s) && Grammatical(s) && Stands(ts, i, s, end) && EndsOperand(ts, end)
    ensures ParseUnary(ts, i) == Ok(Parsed(Meaning(s), end))
    decreases s, 0
  {
    match s
    case Atom(c) => AtomParses(ts, i, c);
    case Group(inner) => GroupParses(ts, i, inner, end);
    case Bang(inner) => BangParses(ts, i, inner, end);
    case Require(parts) => RequireParses(ts, i, parts, s, end);
  }

  lemma {:induction false} GroupParses(ts: seq<Tok>, i: nat, inner: Sentence, end: nat)
    requires Grammatical(inner) && Stands(ts, i, Group(inner), end)
    ensures ParseUnary(ts, i) == Ok(Parsed(Meaning(inner), end))
    decreases inner, 4
  {
    Between(ts, i, [LParen], Written(inner), RParen);
    HoldsAt(ts, i, [LParen], 0);
    WholeParses(ts, i + 1, inner, end - 1);
    ParenStep(ts, i, Meaning(inner), end - 1);
  }

  lemma {:induction false} BangParses(ts: seq<Tok>, i: nat, inner: Sentence, end: nat)
    requires Tight(inner) && Grammatical(inner) && Stands(ts, i, Bang(inner), end) && EndsOperand(ts, end)
    ensures ParseUnary(ts, i) == Ok(Parsed(Not(Meaning(inner)), end))
    decreases inner, 4
  {
    HoldsSplit(ts, i, [NotTok], Written(inner));
    HoldsAt(ts, i, [NotTok], 0);
    TightParses(ts, i + 1, inner, end);
    NotStep(ts, i, Meaning(inner), end);
  }

  lemma {:induction false} RequireParses(ts: seq<Tok>, i: nat, parts: seq<Sentence>, whole: Sentence, end: nat)
    requires parts != [] && AllGrammatical(parts) && whole == Require(parts) && Stands(ts, i, whole, end)
    ensures ParseUnary(ts, i) == Ok(Parsed(Meaning(whole), end))
    decreases parts, 4
  {
    Between(ts, i, [RequireTok, LParen], Joined(parts, Comma), RParen);
    HoldsAt(ts, i, [RequireTok, LParen], 0);
    HoldsAt(ts, i, [RequireTok, LParen], 1);
    ArgsParse(ts, i + 2, [], parts, end - 1);
    assert [] + Meanings(parts) == Meanings(parts);
    RequireStep(ts, i, NormalizeNot(Connect(Meanings(parts), false)), end);
  }

  lemma RequireStep(ts: seq<Tok>, i: nat, e: Expression, end: nat)
    requires Next(ts, i, RequireTok) && Next(ts, i + 1, LParen) && i + 2 <= |ts|
    requires RequireRest(ts, i + 2, []) == Ok(Parsed(e, end))
    ensures ParseUnary(ts, i) == Ok(Parsed(e, end))
  {
  }

  lemma LastArg(ts: seq<Tok>, i: nat, done: seq<Expression>, p: Expression, next: nat)
    requires i <= next && Next(ts, next, RParen) && ParseOr(ts, i) == Ok(Parsed(p, next))
    ensures RequireRest(ts, i, done) == Ok(Parsed(NormalizeNot(Connect(done + [p], false)), next + 1))
  {
  }

  lemma MoreArgs(ts: seq<Tok>, i: nat, done: seq<Expression>, p: Expression, next: nat)
    requires i <= next && Next(ts, next, Comma) && ParseOr(ts, i) == Ok(Parsed(p, next))
    ensures RequireRest(ts, i, done) == RequireRest(ts, next + 1, done + [p])
  {
  }

  lemma Regrouped(done: seq<Expression>, first: Expression, rest: seq<Expression>)
    ensures done + [first] + rest == done + ([first] + rest)
    ensures rest == [] ==> done + [first] == done + ([first] + rest)
    ensures [] + ([first] + rest) == [first] + rest
  {
  }

  lemma MeaningsSplit(done: seq<Expression>, parts: seq<Sentence>)
    requires parts != []
    ensures done + [Meaning(parts[0])] + Meanings(parts[1..]) == done + Meanings(parts)
    ensures |parts| == 1 ==> done + [Meaning(parts[0])] == done + Meanings(parts)
  {
    Regrouped(done, Meaning(parts[0]), Meanings(parts[1..]));
  }

  lemma {:induction false} ArgsParse(ts: seq<Tok>, i: nat, done: seq<Expression>, parts: seq<Sentence>, end: nat)
    requires parts != [] && AllGrammatical(parts) && StandJoined(ts, i, parts, Comma, end) && Next(ts, end, RParen)
    ensures RequireRest(ts, i, done) == Ok(Parsed(NormalizeNot(Connect(done + Meanings(parts), false)), end + 1))
    decreases parts, 3
  {
    MeaningsSplit(done, parts);
    if |parts| == 1 {
      JoinedOne(ts, i, parts, Comma, end);
      WholeParses(ts, i, parts[0], end);
      LastArg(ts, i, done, Meaning(parts[0]), end);
    } else {
      var next := JoinedSplit(ts, i, parts, Comma, end);
      WholeParses(ts, i, parts[0], next);
      MoreArgs(ts, i, done, Meaning(parts[0]), next);
      ArgsParse(ts, next + 1, done + [Meaning(parts[0])], parts[1..], end);
    }
  }

  lemma {:induction false} ConjunctionParses(ts: seq<Tok>, i: nat, s: Sentence, end: nat)
    requires !s.Ors? && Grammatical(s) && Stands(ts, i, s, end) && EndsConjunction(ts, end)
    ensures ParseAnd(ts, i) == Ok(Parsed(Meaning(s), end))
    decreases s, 1
  {
    if s.Ands? {
      AndsParse(ts, i, s.parts, end);
    } else {
      TightParses(ts, i, s, end);
      AndSingle(ts, i, Meaning(s), end);
    }
  }

  lemma {:induction false} AndsParse(ts: seq<Tok>, i: nat, parts: seq<Sentence>, end: nat)
    requires |parts| >= 2 && AllGrammatical(parts) && AllTight(parts)
    requires StandJoined(ts, i, parts, AndTok, end) && EndsConjunction(ts, end)
    ensures ParseAnd(ts, i) == Ok(Parsed(And(Meanings(parts)), end))
    decreases parts, 4
  {
    var next := JoinedSplit(ts, i, parts, AndTok, end);
    TightParses(ts, i, parts[0], next);
    AndsLink(ts, next, parts[1..], end);
    AndStart(ts, i, Meaning(parts[0]), next);
    AndChain(ts, next, [Meaning(parts[0])], Meanings(parts[1..]), end);
    MeaningsSplit([], parts);
    assert [Meaning(parts[0])] + Meanings(parts[1..]) == Meanings(parts);
  }

  lemma {:induction false} AndsLink(ts: seq<Tok>, i: nat, parts: seq<Sentence>, end: nat)
    requires parts != [] && AllGrammatical(parts) && AllTight(parts)
    requires Next(ts, i, AndTok) && StandJoined(ts, i + 1, parts, AndTok, end) && EndsConjunction(ts, end)
    ensures AndLinks(ts, i, Meanings(parts), end)
    decreases parts, 3
  {
    var es := Meanings(parts);
    assert es[0] == Meaning(parts[0]) && es[1..] == Meanings(parts[1..]);
    if |parts| == 1 {
      JoinedOne(ts, i + 1, parts, AndTok, end);
      TightParses(ts, i + 1, parts[0], end);
      AndLink(ts, i, es, end, end);
    } else {
      var next := JoinedSplit(ts, i + 1, parts, AndTok, end);
      TightParses(ts, i + 1, parts[0], next);
      AndsLink(ts, next, parts[1..], end);
      AndLink(ts, i, es, next, end);
    }
  }

  lemma AndLink(ts: seq<Tok>, i: nat, parts: seq<Expression>, next: nat, end: nat)
    requires parts != [] && Next(ts, i, AndTok) && ParseUnary(ts, i + 1) == Ok(Parsed(parts[0], next))
    requires AndLinks(ts, next, parts[1..], end)
    ensures AndLinks(ts, i, parts, end)
  {
  }

  lemma OrLink(ts: seq<Tok>, i: nat, parts: seq<Expression>, next: nat, end: nat)
    requires parts != [] && Next(ts, i, OrTok) && ParseAnd(ts, i + 1) == Ok(Parsed(parts[0], next))
    requires OrLinks(ts, next, parts[1..], end)
    ensures OrLinks(ts, i, parts, end)
  {
  }

  /** Wherever a sentence stands, the parser reads it and stops at its end. */
  lemma {:induction false} WholeParses(ts: seq<Tok>, i: nat, s: Sentence, end: nat)
    requires Grammatical(s) && Stands(ts, i, s, end) && EndsPredicate(ts, end)
    ensures ParseOr(ts, i) == Ok(Parsed(Meaning(s), end))
    decreases s, 2
  {
    if s.Ors? {
      OrsParse(ts, i, s.parts, end);
    } else {
      ConjunctionParses(ts, i, s, end);
      OrStart(ts, i, Meaning(s), end);
      OrStop(ts, end, [Meaning(s)]);
    }
  }

  lemma {:induction false} OrsParse(ts: seq<Tok>, i: nat, parts: seq<Sentence>, end: nat)
    requires |parts| >= 2 && AllGrammatical(parts) && NoneOrs(parts)
    requires StandJoined(ts, i, parts, OrTok, end) && EndsPredicate(ts, end)
    ensures ParseOr(ts, i) == Ok(Parsed(Or(Meanings(parts)), end))
    decreases parts, 4
  {
    var next := JoinedSplit(ts, i, parts, OrTok, end);
    ConjunctionParses(ts, i, parts[0], next);
    OrsLink(ts, next, parts[1..], end);
    OrStart(ts, i, Meaning(parts[0]), next);
    OrChain(ts, next, [Meaning(parts[0])], Meanings(parts[1..]), end);
    MeaningsSplit([], parts);
    assert [Meaning(parts[0])] + Meanings(parts[1..]) == Meanings(parts);
  }

  lemma {:induction false} OrsLink(ts: seq<Tok>, i: nat, parts: seq<Sentence>, end: nat)
    requires parts != [] && AllGrammatical(parts) && NoneOrs(parts)
    requires Next(ts, i, OrTok) && StandJoined(ts, i + 1, parts, OrTok, end) && EndsPredicate(ts, end)
    ensures OrLinks(ts, i, Meanings(parts), end)
    decreases parts, 3
  {
    var es := Meanings(parts);
    assert es[0] == Meaning(parts[0]) && es[1..] == Meanings(parts[1..]);
    if |parts| == 1 {
      JoinedOne(ts, i + 1, parts, OrTok, end);
      ConjunctionParses(ts, i + 1, parts[0], end);
      OrLink(ts, i, es, end, end);
    } else {
      var next := JoinedSplit(ts, i + 1, parts, OrTok, end);
      ConjunctionParses(ts, i + 1, parts[0], next);
      OrsLink(ts, next, parts[1..], end);
      OrLink(ts, i, es, next, end);
    }
  }

  // ----- Whatever parses is a sentence -----

  lemma HoldsJoin(ts: seq<Tok>, i: nat, a: seq<Tok>, b: seq<Tok>)
    requires Holds(ts, i, a) && Holds(ts, i + |a|, b)
    ensures Holds(ts, i, a + b)
  {
  }

  lemma HoldsOne(ts: seq<Tok>, i: nat, t: Tok)
    requires Next(ts, i, t)
    ensures Holds(ts, i, [t])
  {
  }

  lemma Wrapped(ts: seq<Tok>, i: nat, open: seq<Tok>, inner: seq<Tok>, close: Tok)
    requires Holds(ts, i, open) && Holds(ts, i + |open|, inner) && Next(ts, i + |open| + |inner|, close)
    ensures Holds(ts, i, open + inner + [close])
  {
    HoldsJoin(ts, i, open, inner);
    HoldsOne(ts, i + |open| + |inner|, close);
    HoldsJoin(ts, i, open + inner, [close]);
  }

  lemma Appended(ts: seq<Tok>, i: nat, first: seq<Tok>, separator: Tok, rest: seq<Tok>)
    requires Holds(ts, i, first) && Next(ts, i + |first|, separator) && Holds(ts, i + |first| + 1, rest)
    ensures Holds(ts, i, first + [separator] + rest)
  {
    HoldsOne(ts, i + |first|, separator);
    HoldsJoin(ts, i, first, [separator]);
    HoldsJoin(ts, i, first + [separator], rest);
  }

  lemma Reassociate(a: seq<Tok>, separator: Tok, b: seq<Tok>, c: seq<Tok>)
    ensures a + [separator] + (b + [separator] + c) == (a + [separator] + b) + [separator] + c
  {
  }

  lemma {:induction false} JoinedSnoc(parts: seq<Sentence>, s: Sentence, separator: Tok)
    requires parts != []
    ensures Joined(parts + [s], separator) == Joined(parts, separator) + [separator] + Written(s)
    decreases |parts|
  {
    var all := parts + [s];
    assert all[0] == parts[0] && all[1..] == parts[1..] + [s];
    if |parts| == 1 {
      assert all[1..] == [s];
    } else {
      JoinedSnoc(parts[1..], s, separator);
      Reassociate(Written(parts[0]), separator, Joined(parts[1..], separator), Written(s));
    }
  }

  lemma {:induction false} MeaningsSnoc(parts: seq<Sentence>, s: Sentence)
    ensures Meanings(parts + [s]) == Meanings(parts) + [Meaning(s)]
  {
    var all := parts + [s];
    forall i | 0 <= i < |all|
      ensures Meanings(all)[i] == (Meanings(parts) + [Meaning(s)])[i]
    {
      assert all[i] == if i < |parts| then parts[i] else s;
    }
  }

  /** One part more, behind a separator. */
  lemma StandSnoc(ts: seq<Tok>, start: nat, parts: seq<Sentence>, separator: Tok, i: nat, s: Sentence, end: nat)
    requires parts != [] && StandJoined(ts, start, parts, separator, i) && Next(ts, i, separator)
    requires Stands(ts, i + 1, s, end)
    ensures StandJoined(ts, start, parts + [s], separator, end)
    ensures Meanings(parts + [s]) == Meanings(parts) + [Meaning(s)]
  {
    Appended(ts, start, Joined(parts, separator), separator, Written(s));
    JoinedSnoc(parts, s, separator);
    MeaningsSnoc(parts, s);
  }

  lemma StandFirst(ts: seq<Tok>, start: nat, separator: Tok, s: Sentence, end: nat)
    requires Stands(ts, start, s, end)
    ensures StandJoined(ts, start, [s], separator, end) && Meanings([s]) == [Meaning(s)]
  {
  }

  lemma KeyedSound(ts: seq<Tok>, i: nat, key: string, p: Parsed) returns (c: Condition)
    requires i < |ts| && ts[i] == Ident(key) && ParseKeyed(ts, i + 1, key) == Ok(p)
    ensures !c.IsFalse? && p.expr == Cond(c) && p.next == i + |ConditionToks(c)| && Holds(ts, i, ConditionToks(c))
  {
    c := p.expr.condition;
    if c.Comparison? {
      assert OperatorTok(c.op) == ts[i + 1] && LiteralTok(c.value) == ts[i + 2];
    }
  }

  lemma ExistsSound(ts: seq<Tok>, i: nat, p: Parsed) returns (c: Condition)
    requires Next(ts, i, ExistsTok) && ParseExists(ts, i + 1) == Ok(p)
    ensures !c.IsFalse? && p.expr == Cond(c) && p.next == i + |ConditionToks(c)| && Holds(ts, i, ConditionToks(c))
  {
    c := p.expr.condition;
  }

  lemma {:induction false} AtomSound(ts: seq<Tok>, i: nat, p: Parsed) returns (s: Sentence)
    requires i <= |ts| && ParseAtom(ts, i) == Ok(p)
    ensures Tight(s) && Grammatical(s) && Stands(ts, i, s, p.next) && Meaning(s) == p.expr
    decreases |ts| - i, 0
  {
    if ts[i] == LParen {
      var inner := ParseOr(ts, i + 1).value;
      var g := OrSound(ts, i + 1, inner);
      HoldsOne(ts, i, LParen);
      Wrapped(ts, i, [LParen], Written(g), RParen);
      s := Group(g);
    } else if ts[i] == RequireTok {
      s := RequireSound(ts, i, p);
    } else if ts[i] == ExistsTok {
      var c := ExistsSound(ts, i, p);
      s := Atom(c);
    } else {
      var c := KeyedSound(ts, i, ts[i].name, p);
      s := Atom(c);
    }
  }

  lemma {:induction false} RequireSound(ts: seq<Tok>, i: nat, p: Parsed) returns (s: Sentence)
    requires Next(ts, i, RequireTok) && ParseAtom(ts, i) == Ok(p)
    ensures s.Require? && Grammatical(s) && Stands(ts, i, s, p.next) && Meaning(s) == p.expr
    decreases |ts| - i - 1, 8
  {
    RequireUnfold(ts, i, p);
    var parts := ArgsSound(ts, i + 2, i + 2, [], p);
    s := Require(parts);
    RequireStands(ts, i, parts, p.next);
    ConnectMeans(parts);
  }

  lemma RequireUnfold(ts: seq<Tok>, i: nat, p: Parsed)
    requires Next(ts, i, RequireTok) && ParseAtom(ts, i) == Ok(p)
    ensures Next(ts, i + 1, LParen) && RequireRest(ts, i + 2, Meanings([])) == Ok(p)
  {
  }

  lemma RequireStands(ts: seq<Tok>, i: nat, parts: seq<Sentence>, end: nat)
    requires Next(ts, i, RequireTok) && Next(ts, i + 1, LParen) && end > 0 && Next(ts, end - 1, RParen)
    requires StandJoined(ts, i + 2, parts, Comma, end - 1)
    ensures Stands(ts, i, Require(parts), end)
  {
    assert Holds(ts, i, [RequireTok, LParen]);
    Wrapped(ts, i, [RequireTok, LParen], Joined(parts, Comma), RParen);
  }

  lemma ConnectMeans(parts: seq<Sentence>)
    requires parts != []
    ensures Meaning(Require(parts)) == NormalizeNot(Connect(Meanings(parts), false))
  {
  }

  /** The requirements read so far, and the comma behind them, if any. */
  ghost predicate ArgsSoFar(ts: seq<Tok>, start: nat, i: nat, done: seq<Sentence>)
  {
    if done == [] then i == start
    else i > 0 && StandJoined(ts, start, done, Comma, i - 1) && Next(ts, i - 1, Comma)
  }

  lemma {:induction false} ArgsSound(ts: seq<Tok>, start: nat, i: nat, done: seq<Sentence>, p: Parsed)
    returns (parts: seq<Sentence>)
    requires i <= |ts| && AllGrammatical(done) && ArgsSoFar(ts, start, i, done)
    requires RequireRest(ts, i, Meanings(done)) == Ok(p)
    ensures parts != [] && AllGrammatical(parts) && p.next > 0 && Next(ts, p.next - 1, RParen)
    ensures StandJoined(ts, start, parts, Comma, p.next - 1)
    ensures p.expr == NormalizeNot(Connect(Meanings(parts), false))
    decreases |ts| - i, 6
  {
    var part := ArgsUnfold(ts, i, Meanings(done), p);
    var g := OrSound(ts, i, part);
    parts := done + [g];
    ArgsMore(ts, start, i, done, g, part.next);
    if Next(ts, part.next, Comma) {
      parts := ArgsSound(ts, start, part.next + 1, parts, p);
    }
  }

  lemma ArgsUnfold(ts: seq<Tok>, i: nat, es: seq<Expression>, p: Parsed) returns (part: Parsed)
    requires i <= |ts| && RequireRest(ts, i, es) == Ok(p)
    ensures ParseOr(ts, i) == Ok(part) && i < part.next <= |ts|
    ensures Next(ts, part.next, Comma) ==> RequireRest(ts, part.next + 1, es + [part.expr]) == Ok(p)
    ensures !Next(ts, part.next, Comma) ==>
      Next(ts, part.next, RParen) && p == Parsed(NormalizeNot(Connect(es + [part.expr], false)), part.next + 1)
  {
    part := ParseOr(ts, i).value;
  }

  lemma ArgsMore(ts: seq<Tok>, start: nat, i: nat, done: seq<Sentence>, g: Sentence, end: nat)
    requires ArgsSoFar(ts, start, i, done) && Stands(ts, i, g, end)
    requires AllGrammatical(done) && Grammatical(g)
    ensures StandJoined(ts, start, done + [g], Comma, end) && Meanings(done + [g]) == Meanings(done) + [Meaning(g)]
    ensures AllGrammatical(done + [g]) && (Next(ts, end, Comma) ==> ArgsSoFar(ts, start, end + 1, done + [g]))
  {
    if done == [] {
      StandFirst(ts, start, Comma, g, end);
      assert done + [g] == [g] && Meanings(done) + [Meaning(g)] == [Meaning(g)];
    } else {
      StandSnoc(ts, start, done, Comma, i - 1, g, end);
    }
  }

  lemma {:induction false} UnarySound(ts: seq<Tok>, i: nat, p: Parsed) returns (s: Sentence)
    requires i <= |ts| && ParseUnary(ts, i) == Ok(p)
    ensures Tight(s) && Grammatical(s) && Stands(ts, i, s, p.next) && Meaning(s) == p.expr
    decreases |ts| - i, 1
  {
    if Next(ts, i, NotTok) {
      var inner := UnarySound(ts, i + 1, ParseUnary(ts, i + 1).value);
      HoldsOne(ts, i, NotTok);
      HoldsJoin(ts, i, [NotTok], Written(inner));
      s := Bang(inner);
    } else {
      s := AtomSound(ts, i, p);
    }
  }

  lemma {:induction false} AndSound(ts: seq<Tok>, i: nat, p: Parsed) returns (s: Sentence)
    requires i <= |ts| && ParseAnd(ts, i) == Ok(p)
    ensures !s.Ors? && Grammatical(s) && Stands(ts, i, s, p.next) && Meaning(s) == p.expr
    decreases |ts| - i, 3
  {
    var first := ParseUnary(ts, i).value;
    var u := UnarySound(ts, i, first);
    StandFirst(ts, i, AndTok, u, first.next);
    s := AndRestSound(ts, i, first.next, [u], p);
  }

  lemma {:induction false} AndRestSound(ts: seq<Tok>, start: nat, i: nat, done: seq<Sentence>, p: Parsed)
    returns (s: Sentence)
    requires i <= |ts| && done != [] && AllGrammatical(done) && AllTight(done)
    requires StandJoined(ts, start, done, AndTok, i) && AndRest(ts, i, Meanings(done)) == Ok(p)
    ensures !s.Ors? && Grammatical(s) && Stands(ts, start, s, p.next) && Meaning(s) == p.expr
    decreases |ts| - i, 2
  {
    if Next(ts, i, AndTok) {
      var part := ParseUnary(ts, i + 1).value;
      var u := UnarySound(ts, i + 1, part);
      StandSnoc(ts, start, done, AndTok, i, u, part.next);
      s := AndRestSound(ts, start, part.next, done + [u], p);
    } else {
      s := if |done| == 1 then done[0] else Ands(done);
    }
  }

  /** Whatever the parser reads from a place is a sentence that stands there and means the tree returned. */
  lemma {:induction false} OrSound(ts: seq<Tok>, i: nat, p: Parsed) returns (s: Sentence)
    requires i <= |ts| && ParseOr(ts, i) == Ok(p)
    ensures Grammatical(s) && Stands(ts, i, s, p.next) && Meaning(s) == p.expr
    decreases |ts| - i, 5
  {
    var first := ParseAnd(ts, i).value;
    var u := AndSound(ts, i, first);
    StandFirst(ts, i, OrTok, u, first.next);
    s := OrRestSound(ts, i, first.next, [u], p);
  }

  lemma {:induction false} OrRestSound(ts: seq<Tok>, start: nat, i: nat, done: seq<Sentence>, p: Parsed)
    returns (s: Sentence)
    requires i <= |ts| && done != [] && AllGrammatical(done) && NoneOrs(done)
    requires StandJoined(ts, start, done, OrTok, i) && OrRest(ts, i, Meanings(done)) == Ok(p)
    ensures Grammatical(s) && Stands(ts, start, s, p.next) && Meaning(s) == p.expr
    decreases |ts| - i, 4
  {
    if Next(ts, i, OrTok) {
      var part := ParseAnd(ts, i + 1).value;
      var u := AndSound(ts, i + 1, part);
      StandSnoc(ts, start, done, OrTok, i, u, part.next);
      s := OrRestSound(ts, start, part.next, done + [u], p);
    } else {
      s := if |done| == 1 then done[0] else Ors(done);
    }
  }

  // ----- The language of the parser -----

  /** The tokens are those of a sentence that means the tree. */
  ghost predicate Says(ts: seq<Tok>, e: Expression)
  {
    exists s :: Grammatical(s) && Written(s) == ts && Meaning(s) == e
  }

  lemma WholeStands(ts: seq<Tok>, s: Sentence)
    ensures Stands(ts, 0, s, |ts|) <==> Written(s) == ts
  {
  }

  /** A token list parses to a tree exactly when it spells a sentence that means it. */
  lemma {:induction false} ParsesExactly(ts: seq<Tok>, e: Expression)
    ensures ParseTokens(ts) == Ok(e) <==> Says(ts, e)
  {
    if ParseTokens(ts) == Ok(e) {
      var p := ParseOr(ts, 0).value;
      var s := OrSound(ts, 0, p);
      WholeStands(ts, s);
    }
    if Says(ts, e) {
      var s :| Grammatical(s) && Written(s) == ts && Meaning(s) == e;
      WholeStands(ts, s);
      WholeParses(ts, 0, s, |ts|);
    }
  }

  /** The grammar is unambiguous: sentences written alike mean the same. */
  lemma {:induction false} Unambiguous(s: Sentence, t: Sentence)
    requires Grammatical(s) && Grammatical(t) && Written(s) == Written(t)
    ensures Meaning(s) == Meaning(t)
  {
    ParsesExactly(Written(s), Meaning(s));
    ParsesExactly(Written(t), Meaning(t));
  }
}
