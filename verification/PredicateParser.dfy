/** Tokens to predicates, by precedence: `|` below `&` below `!`. */
module PredicateParser {
  import opened Values
  import opened Text
  import opened Rules
  import opened Lexer
  import opened Predicates

  datatype Fault =
    | Lexing(lexing: Lexer.Fault)
    | ExpectedClose
    | RequireOpen
    | RequireSeparator
    | ExistsOpen
    | ExistsKey
    | ExistsClose
    | NotIsReserved
    | LiteralFirst
    | ExpectedAtom
    | IdentifierOperand
    | ExpectedLiteral
    | ExpectedSet
    | TrailingTokens

  /** An expression and the index of the first token after it. */
  datatype Parsed = Parsed(expr: Expression, next: nat)

  type ParseResult = Result<Parsed, Fault>

  predicate Next(ts: seq<Tok>, i: nat, t: Tok)
  {
    i < |ts| && ts[i] == t
  }

  /** A single part stands alone; more make a connective. */
  function Connect(parts: seq<Expression>, disjunction: bool): (e: Expression)
    requires parts != []
  {
    if |parts| == 1 then parts[0] else if disjunction then Or(parts) else And(parts)
  }

  ghost predicate Advances(ts: seq<Tok>, i: nat, r: ParseResult)
  {
    r.Ok? ==> i < r.value.next <= |ts|
  }

  function ParseOr(ts: seq<Tok>, i: nat): (r: ParseResult)
    requires i <= |ts|
    ensures Advances(ts, i, r)
    decreases |ts| - i, 5
  {
    match ParseAnd(ts, i)
    case Err(e) => Err(e)
    case Ok(first) => OrRest(ts, first.next, [first.expr])
  }

  function OrRest(ts: seq<Tok>, i: nat, parts: seq<Expression>): (r: ParseResult)
    requires i <= |ts| && parts != []
    ensures r.Ok? ==> i <= r.value.next <= |ts|
    decreases |ts| - i, 4
  {
    if Next(ts, i, OrTok) then
      match ParseAnd(ts, i + 1)
      case Err(e) => Err(e)
      case Ok(part) => OrRest(ts, part.next, parts + [part.expr])
    else Ok(Parsed(Connect(parts, true), i))
  }

  function ParseAnd(ts: seq<Tok>, i: nat): (r: ParseResult)
    requires i <= |ts|
    ensures Advances(ts, i, r)
    decreases |ts| - i, 3
  {
    match ParseUnary(ts, i)
    case Err(e) => Err(e)
    case Ok(first) => AndRest(ts, first.next, [first.expr])
  }

  function AndRest(ts: seq<Tok>, i: nat, parts: seq<Expression>): (r: ParseResult)
    requires i <= |ts| && parts != []
    ensures r.Ok? ==> i <= r.value.next <= |ts|
    decreases |ts| - i, 2
  {
    if Next(ts, i, AndTok) then
      match ParseUnary(ts, i + 1)
      case Err(e) => Err(e)
      case Ok(part) => AndRest(ts, part.next, parts + [part.expr])
    else Ok(Parsed(Connect(parts, false), i))
  }

  function ParseUnary(ts: seq<Tok>, i: nat): (r: ParseResult)
    requires i <= |ts|
    ensures Advances(ts, i, r)
    decreases |ts| - i, 1
  {
    if Next(ts, i, NotTok) then
      match ParseUnary(ts, i + 1)
      case Err(e) => Err(e)
      case Ok(inner) => Ok(Parsed(Not(inner.expr), inner.next))
    else ParseAtom(ts, i)
  }

  function ParseAtom(ts: seq<Tok>, i: nat): (r: ParseResult)
    requires i <= |ts|
    ensures Advances(ts, i, r)
    decreases |ts| - i, 0
  {
    if i == |ts| then Err(ExpectedAtom)
    else
      match ts[i]
      case LParen =>
        (match ParseOr(ts, i + 1)
         case Err(e) => Err(e)
         case Ok(inner) =>
           if Next(ts, inner.next, RParen) then Ok(Parsed(inner.expr, inner.next + 1)) else Err(ExpectedClose))
      case RequireTok => if Next(ts, i + 1, LParen) then RequireRest(ts, i + 2, []) else Err(RequireOpen)
      case ExistsTok => ParseExists(ts, i + 1)
      case Ident(key) => ParseKeyed(ts, i + 1, key)
      case NotWord => Err(NotIsReserved)
      case StringTok(_) => Err(LiteralFirst)
      case IntTok(_) => Err(LiteralFirst)
      case FloatTok(_) => Err(LiteralFirst)
      case BoolTok(_) => Err(LiteralFirst)
      case _ => Err(ExpectedAtom)
  }

  /** The comma-separated requirements of `require(...)`, which stands for their negated conjunction. */
  function RequireRest(ts: seq<Tok>, i: nat, parts: seq<Expression>): (r: ParseResult)
    requires i <= |ts|
    ensures Advances(ts, i, r)
    decreases |ts| - i, 6
  {
    match ParseOr(ts, i)
    case Err(e) => Err(e)
    case Ok(part) =>
      var all := parts + [part.expr];
      if Next(ts, part.next, Comma) then RequireRest(ts, part.next + 1, all)
      else if Next(ts, part.next, RParen) then Ok(Parsed(NormalizeNot(Connect(all, false)), part.next + 1))
      else Err(RequireSeparator)
  }

  function ParseExists(ts: seq<Tok>, i: nat): (r: ParseResult)
    ensures Advances(ts, i, r)
  {
    if !Next(ts, i, LParen) then Err(ExistsOpen)
    else if !(i + 1 < |ts| && ts[i + 1].Ident?) then Err(ExistsKey)
    else if !Next(ts, i + 2, RParen) then Err(ExistsClose)
    else Ok(Parsed(Cond(Exists(ts[i + 1].name)), i + 3))
  }

  function OperatorOf(t: Tok): (op: Option<CompareOp>)
  {
    match t
    case EqTok => Some(Eq)
    case NotEqTok => Some(NotEq)
    case GtTok => Some(Gt)
    case GtEqTok => Some(GtEq)
    case LtTok => Some(Lt)
    case LtEqTok => Some(LtEq)
    case ContainsTok => Some(Contains)
    case _ => None
  }

  function LiteralOf(t: Tok): (l: Option<Literal>)
  {
    match t
    case StringTok(s) => Some(StringLiteral(s))
    case IntTok(n) => Some(IntLiteral(n))
    case FloatTok(x) => Some(FloatLiteral(x))
    case BoolTok(b) => Some(BoolLiteral(b))
    case _ => None
  }

  function FinishInSet(ts: seq<Tok>, i: nat, valueKey: string, negate: bool): (r: ParseResult)
    ensures Advances(ts, i, r)
  {
    if i < |ts| && ts[i].Ident? then Ok(Parsed(Cond(InSet(valueKey, ts[i].name, negate)), i + 1))
    else Err(ExpectedSet)
  }

  /** What follows an attribute at the start of a predicate. */
  function ParseKeyed(ts: seq<Tok>, i: nat, key: string): (r: ParseResult)
    requires i <= |ts|
    ensures r.Ok? ==> i <= r.value.next <= |ts|
  {
    if Next(ts, i, InTok) then FinishInSet(ts, i + 1, key, false)
    else if Next(ts, i, NotWord) then
      if Next(ts, i + 1, InTok) then FinishInSet(ts, i + 2, key, true) else Err(NotIsReserved)
    else if i == |ts| || OperatorOf(ts[i]).None? then Ok(Parsed(Cond(IsTrue(key)), i))
    else if i + 1 == |ts| then Err(ExpectedLiteral)
    else if ts[i + 1].Ident? then Err(IdentifierOperand)
    else
      match LiteralOf(ts[i + 1])
      case Some(l) => Ok(Parsed(Cond(Comparison(key, OperatorOf(ts[i]).value, l)), i + 2))
      case None => Err(ExpectedLiteral)
  }

  /** A complete token list as one predicate. */
  function ParseTokens(ts: seq<Tok>): (r: Result<Expression, Fault>)
  {
    match ParseOr(ts, 0)
    case Err(e) => Err(e)
    case Ok(p) => if p.next < |ts| then Err(TrailingTokens) else Ok(p.expr)
  }

  /** `parse_predicate`: trim, lex, parse. */
  function ParsePredicate(f: Foreign, src: string): (r: Result<Expression, Fault>)
  {
    match Tokenize(f, Trim(src), 0)
    case Err(e) => Err(Lexing(e))
    case Ok(ts) => ParseTokens(ts)
  }

  /** The cursor-driven parser. */
  class Cursor {
    const toks: seq<Tok>
    var pos: nat

    constructor (ts: seq<Tok>)
      ensures toks == ts && pos == 0
    {
      toks, pos := ts, 0;
    }

    ghost predicate Valid()
      reads this
    {
      pos <= |toks|
    }

    /** The cursor and `r` agree with a specified result. */
    ghost predicate Meets(r: Result<Expression, Fault>, spec: ParseResult)
      reads this
    {
      match spec
      case Ok(p) => r == Ok(p.expr) && pos == p.next
      case Err(e) => r == Err(e)
    }

    method Disjunction() returns (r: Result<Expression, Fault>)
      requires Valid()
      modifies this
      ensures Valid() && Meets(r, ParseOr(toks, old(pos)))
      decreases |toks| - pos, 5
    {
      ghost var start, spec := pos, ParseOr(toks, pos);
      r := Conjunction();
      if r.Err? {
        return;
      }
      var parts := [r.value];
      while Next(toks, pos, OrTok)
        invariant start < pos <= |toks| && parts != [] && spec == OrRest(toks, pos, parts)
        decreases |toks| - pos
      {
        pos := pos + 1;
        r := Conjunction();
        if r.Err? {
          return;
        }
        parts := parts + [r.value];
      }
      r := Ok(Connect(parts, true));
    }

    method Conjunction() returns (r: Result<Expression, Fault>)
      requires Valid()
      modifies this
      ensures Valid() && Meets(r, ParseAnd(toks, old(pos)))
      decreases |toks| - pos, 3
    {
      ghost var start, spec := pos, ParseAnd(toks, pos);
      r := Unary();
      if r.Err? {
        return;
      }
      var parts := [r.value];
      while Next(toks, pos, AndTok)
        invariant start < pos <= |toks| && parts != [] && spec == AndRest(toks, pos, parts)
        decreases |toks| - pos
      {
        pos := pos + 1;
        r := Unary();
        if r.Err? {
          return;
        }
        parts := parts + [r.value];
      }
      r := Ok(Connect(parts, false));
    }

    method Unary() returns (r: Result<Expression, Fault>)
      requires Valid()
      modifies this
      ensures Valid() && Meets(r, ParseUnary(toks, old(pos)))
      decreases |toks| - pos, 1
    {
      if Next(toks, pos, NotTok) {
        pos := pos + 1;
        r := Unary();
        if r.Ok? {
          r := Ok(Not(r.value));
        }
      } else {
        r := Atom();
      }
    }

    method Atom() returns (r: Result<Expression, Fault>)
      requires Valid()
      modifies this
      ensures Valid() && Meets(r, ParseAtom(toks, old(pos)))
      decreases |toks| - pos, 0
    {
      if Next(toks, pos, LParen) {
        pos := pos + 1;
        r := Disjunction();
        if r.Ok? {
          if Next(toks, pos, RParen) {
            pos := pos + 1;
          } else {
            r := Err(ExpectedClose);
          }
        }
      } else if Next(toks, pos, RequireTok) {
        pos := pos + 1;
        if !Next(toks, pos, LParen) {
          return Err(RequireOpen);
        }
        pos := pos + 1;
        r := Requirements();
      } else {
        r := Leaf();
      }
    }

    /** The token at the cursor, stepped over. */
    method Bump() returns (t: Option<Tok>)
      requires Valid()
      modifies this
      ensures Valid()
      ensures if old(pos) < |toks| then t == Some(toks[old(pos)]) && pos == old(pos) + 1
              else t == None && pos == old(pos)
    {
      if pos == |toks| {
        return None;
      }
      pos := pos + 1;
      return Some(toks[pos - 1]);
    }

    method Existence() returns (r: Result<Expression, Fault>)
      requires Valid()
      modifies this
      ensures Valid() && Meets(r, ParseExists(toks, old(pos)))
    {
      var t := Bump();
      if t != Some(LParen) {
        return Err(ExistsOpen);
      }
      t := Bump();
      if !(t.Some? && t.value.Ident?) {
        return Err(ExistsKey);
      }
      var key := t.value.name;
      t := Bump();
      if t != Some(RParen) {
        return Err(ExistsClose);
      }
      return Ok(Cond(Exists(key)));
    }

    method Membership(key: string, negate: bool) returns (r: Result<Expression, Fault>)
      requires Valid()
      modifies this
      ensures Valid() && Meets(r, FinishInSet(toks, old(pos), key, negate))
    {
      var t := Bump();
      if !(t.Some? && t.value.Ident?) {
        return Err(ExpectedSet);
      }
      return Ok(Cond(InSet(key, t.value.name, negate)));
    }

    /** What follows the attribute `key`: membership, a comparison, or nothing. */
    method Keyed(key: string) returns (r: Result<Expression, Fault>)
      requires Valid()
      modifies this
      ensures Valid() && Meets(r, ParseKeyed(toks, old(pos), key))
    {
      if Next(toks, pos, InTok) {
        pos := pos + 1;
        r := Membership(key, false);
        return;
      }
      if Next(toks, pos, NotWord) {
        pos := pos + 1;
        if Next(toks, pos, InTok) {
          pos := pos + 1;
          r := Membership(key, true);
          return;
        }
        return Err(NotIsReserved);
      }
      var op := if pos < |toks| then OperatorOf(toks[pos]) else None;
      if op.None? {
        return Ok(Cond(IsTrue(key)));
      }
      pos := pos + 1;
      var t := Bump();
      if t.None? {
        return Err(ExpectedLiteral);
      }
      match t.value {
        case StringTok(s) => return Ok(Cond(Comparison(key, op.value, StringLiteral(s))));
        case IntTok(n) => return Ok(Cond(Comparison(key, op.value, IntLiteral(n))));
        case FloatTok(x) => return Ok(Cond(Comparison(key, op.value, FloatLiteral(x))));
        case BoolTok(b) => return Ok(Cond(Comparison(key, op.value, BoolLiteral(b))));
        case Ident(_) => return Err(IdentifierOperand);
        case _ => return Err(ExpectedLiteral);
      }
    }

    /** Atoms that hold no nested predicate. */
    method Leaf() returns (r: Result<Expression, Fault>)
      requires Valid() && !Next(toks, pos, LParen) && !Next(toks, pos, RequireTok)
      modifies this
      ensures Valid() && Meets(r, ParseAtom(toks, old(pos)))
    {
      if pos == |toks| {
        return Err(ExpectedAtom);
      }
      match toks[pos] {
        case ExistsTok =>
          pos := pos + 1;
          r := Existence();
        case Ident(key) =>
          pos := pos + 1;
          r := Keyed(key);
        case NotWord => r := Err(NotIsReserved);
        case StringTok(_) => r := Err(LiteralFirst);
        case IntTok(_) => r := Err(LiteralFirst);
        case FloatTok(_) => r := Err(LiteralFirst);
        case BoolTok(_) => r := Err(LiteralFirst);
        case _ => r := Err(ExpectedAtom);
      }
    }

    method Requirements() returns (r: Result<Expression, Fault>)
      requires Valid()
      modifies this
      ensures Valid() && Meets(r, RequireRest(toks, old(pos), []))
      decreases |toks| - pos, 6
    {
      ghost var start, spec := pos, RequireRest(toks, pos, []);
      var parts := [];
      while true
        invariant start <= pos <= |toks| && spec == RequireRest(toks, pos, parts)
        decreases |toks| - pos
      {
        r := Disjunction();
        if r.Err? {
          return;
        }
        parts := parts + [r.value];
        if Next(toks, pos, RParen) {
          pos := pos + 1;
          return Ok(NormalizeNot(Connect(parts, false)));
        }
        if !Next(toks, pos, Comma) {
          return Err(RequireSeparator);
        }
        pos := pos + 1;
      }
    }
  }

  /** `parse_predicate` as written: lex with a cursor, then parse with one. */
  method Parse(f: Foreign, src: string) returns (r: Result<Expression, Fault>)
    ensures r == ParsePredicate(f, src)
  {
    var lexer := new Lexer.Cursor(f, Trim(src));
    var toks := lexer.TokenizeAll();
    if toks.Err? {
      return Err(Lexing(toks.error));
    }
    var parser := new Cursor(toks.value);
    r := parser.Disjunction();
    if r.Ok? && parser.pos < |parser.toks| {
      r := Err(TrailingTokens);
    }
  }
}
