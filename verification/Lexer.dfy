/** Predicate text to tokens. */
module Lexer {
  import opened Values
  import opened Text
  import Lexical

  datatype Tok =
    | Ident(name: string)
    | StringTok(s: string)
    | IntTok(i: i64)
    | FloatTok(x: F64)
    | BoolTok(b: bool)
    | EqTok | NotEqTok | GtTok | GtEqTok | LtTok | LtEqTok
    | AndTok | OrTok | NotTok
    | NotWord
    | LParen | RParen | Comma
    | ContainsTok | RequireTok | ExistsTok | InTok

  /** Why text does not lex, and the character offset reported. */
  datatype Fault =
    | DoubledOperator(at: nat)
    | LoneEquals(at: nat)
    | BadLiteral(literal: Lexical.Fault)
    | NumberShape(at: nat)
    | BadNumber(at: nat)
    | EmptySegment(at: nat)
    | ReservedSegment(at: nat)
    | ReservedNot(at: nat)
    | NestedSubscript(at: nat)
    | SubscriptChar(at: nat)
    | UnterminatedSubscript(at: nat)
    | EmptySubscript(at: nat)
    | SubscriptSegment(at: nat)
    | UnexpectedChar(at: nat)

  /** A token and the index just past it. */
  datatype Lexeme = Lexeme(tok: Tok, end: nat)

  predicate IsIdentStart(c: char)
  {
    IsAsciiAlpha(c) || c == '_'
  }

  predicate IsSegmentChar(c: char)
  {
    IsAsciiAlpha(c) || IsDigit(c) || c == '_'
  }

  predicate IsSubscriptChar(c: char)
  {
    IsSegmentChar(c) || c == '.'
  }

  /** The character classes the lexer scans runs of. */
  datatype Class = Space | Digit | SegmentClass | SubscriptClass

  predicate In(c: char, k: Class)
  {
    match k
    case Space => IsAsciiSpace(c)
    case Digit => IsDigit(c)
    case SegmentClass => IsSegmentChar(c)
    case SubscriptClass => IsSubscriptChar(c)
  }

  /** The end of the run of characters of class `k` that starts at `i`. */
  function SpanEnd(s: string, i: nat, k: Class): (end: nat)
    requires i <= |s|
    ensures i <= end <= |s|
    decreases |s| - i
  {
    if i < |s| && In(s[i], k) then SpanEnd(s, i + 1, k) else i
  }

  /** A run holds only its class and stops at the first character outside it. */
  lemma {:induction false} SpanShape(s: string, i: nat, k: Class)
    requires i <= |s|
    ensures forall j :: i <= j < SpanEnd(s, i, k) ==> In(s[j], k)
    ensures SpanEnd(s, i, k) < |s| ==> !In(s[SpanEnd(s, i, k)], k)
    decreases |s| - i
  {
    if i < |s| && In(s[i], k) {
      SpanShape(s, i + 1, k);
    }
  }

  predicate At(s: string, i: nat, c: char)
  {
    i < |s| && s[i] == c
  }

  /** An optional `-`, digits, and optionally `.` and digits; no exponent. */
  function LexNumber(f: Foreign, s: string, start: nat): (r: Result<Lexeme, Fault>)
    requires start < |s|
    ensures r.Ok? ==> start < r.value.end <= |s|
  {
    var intStart := if s[start] == '-' then start + 1 else start;
    var intEnd := SpanEnd(s, intStart, Digit);
    if intEnd == intStart then Err(NumberShape(start))
    else
      var isFloat := At(s, intEnd, '.');
      var end := if isFloat then SpanEnd(s, intEnd + 1, Digit) else intEnd;
      if isFloat && end == intEnd + 1 then Err(NumberShape(start))
      else if At(s, end, 'e') || At(s, end, 'E') then Err(NumberShape(start))
      else if isFloat then
        match f.parseF64(s[start..end])
        case Some(x) => Ok(Lexeme(FloatTok(x), end))
        case None => Err(BadNumber(end))
      else
        match ParseI64(s[start..end])
        case Some(n) => Ok(Lexeme(IntTok(n), end))
        case None => Err(BadNumber(end))
  }

  /** `..` occurs at or after `i`. */
  predicate DoubleDot(s: string, i: nat)
    decreases |s| - i
  {
    i + 1 < |s| && ((s[i] == '.' && s[i + 1] == '.') || DoubleDot(s, i + 1))
  }

  predicate HasEmptySegment(inner: string)
  {
    inner != [] && (inner[0] == '.' || inner[|inner| - 1] == '.' || DoubleDot(inner, 0))
  }

  /** One `[...]` group; the result is the index just past its `]`. */
  function LexSubscript(s: string, open: nat): (r: Result<nat, Fault>)
    requires open < |s|
    ensures r.Ok? ==> open < r.value <= |s|
  {
    var end := SpanEnd(s, open + 1, SubscriptClass);
    if end == |s| then Err(UnterminatedSubscript(open))
    else if s[end] == '[' then Err(NestedSubscript(end))
    else if s[end] != ']' then Err(SubscriptChar(end))
    else if end == open + 1 then Err(EmptySubscript(open))
    else if HasEmptySegment(s[open + 1..end]) then Err(SubscriptSegment(open + 1))
    else Ok(end + 1)
  }

  datatype PathEnd = PathEnd(end: nat, bracketed: bool)

  /** One segment: names, optionally after `$`, optionally with one group. */
  function LexSegment(s: string, i: nat, first: bool): (r: Result<PathEnd, Fault>)
    requires i <= |s|
    ensures r.Ok? ==> i < r.value.end <= |s|
  {
    var dollar := !first && At(s, i, '$');
    if dollar && !(i + 1 < |s| && IsIdentStart(s[i + 1])) then Err(ReservedSegment(i))
    else
      var end := SpanEnd(s, if dollar then i + 1 else i, SegmentClass);
      if end == i then Err(EmptySegment(i))
      else if At(s, end, '[') then
        match LexSubscript(s, end)
        case Ok(after) => Ok(PathEnd(after, true))
        case Err(e) => Err(e)
      else Ok(PathEnd(end, false))
  }

  /** The dot-separated segments of an attribute path from `i` on. */
  function LexPath(s: string, i: nat, first: bool): (r: Result<PathEnd, Fault>)
    requires i <= |s|
    ensures r.Ok? ==> i < r.value.end <= |s|
    decreases |s| - i
  {
    match LexSegment(s, i, first)
    case Err(e) => Err(e)
    case Ok(segment) =>
      if At(s, segment.end, '.') then Bracketed(segment.bracketed, LexPath(s, segment.end + 1, false))
      else Ok(segment)
  }

  /** A path result that also records a group seen before it. */
  function Bracketed(seen: bool, r: Result<PathEnd, Fault>): (b: Result<PathEnd, Fault>)
  {
    match r
    case Ok(path) => Ok(PathEnd(path.end, seen || path.bracketed))
    case Err(e) => Err(e)
  }

  function Keyword(word: string): (t: Tok)
  {
    if word == "true" then BoolTok(true)
    else if word == "false" then BoolTok(false)
    else if word == "contains" then ContainsTok
    else if word == "require" then RequireTok
    else if word == "exists" then ExistsTok
    else if word == "in" then InTok
    else if word == "not" then NotWord
    else Ident(word)
  }

  function LexWord(s: string, start: nat): (r: Result<Lexeme, Fault>)
    requires start < |s|
    ensures r.Ok? ==> start < r.value.end <= |s|
  {
    match LexPath(s, start, true)
    case Err(e) => Err(e)
    case Ok(path) =>
      var word := s[start..path.end];
      if StartsWith(word, "not.") then Err(ReservedNot(start))
      else if path.bracketed then Ok(Lexeme(Ident(word), path.end))
      else Ok(Lexeme(Keyword(word), path.end))
  }

  function LexString(s: string, open: nat): (r: Result<Lexeme, Fault>)
    ensures r.Ok? ==> open < r.value.end <= |s|
  {
    match Lexical.ReadLiteral(s, open)
    case Ok(q) => Ok(Lexeme(StringTok(q.value), q.end))
    case Err(e) => Err(BadLiteral(e))
  }

  /** `long` when `=` follows, `short` otherwise. */
  function Either(s: string, i: nat, long: Tok, short: Tok): (r: Result<Lexeme, Fault>)
  {
    Ok(if At(s, i + 1, '=') then Lexeme(long, i + 2) else Lexeme(short, i + 1))
  }

  /** The token at a character that is not white space. */
  function LexOne(f: Foreign, s: string, i: nat): (r: Result<Lexeme, Fault>)
    requires i < |s|
    ensures r.Ok? ==> i < r.value.end <= |s|
  {
    var c := s[i];
    if c == '(' then Ok(Lexeme(LParen, i + 1))
    else if c == ')' then Ok(Lexeme(RParen, i + 1))
    else if c == ',' then Ok(Lexeme(Comma, i + 1))
    else if c == '&' then if At(s, i + 1, '&') then Err(DoubledOperator(i)) else Ok(Lexeme(AndTok, i + 1))
    else if c == '|' then if At(s, i + 1, '|') then Err(DoubledOperator(i)) else Ok(Lexeme(OrTok, i + 1))
    else if c == '=' then if At(s, i + 1, '=') then Ok(Lexeme(EqTok, i + 2)) else Err(LoneEquals(i + 1))
    else if c == '!' then Either(s, i, NotEqTok, NotTok)
    else if c == '>' then Either(s, i, GtEqTok, GtTok)
    else if c == '<' then Either(s, i, LtEqTok, LtTok)
    else if Lexical.IsQuote(c) then LexString(s, i)
    else if c == '-' || IsDigit(c) then LexNumber(f, s, i)
    else if c == '.' then if i + 1 < |s| && IsDigit(s[i + 1]) then Err(NumberShape(i)) else Err(EmptySegment(i))
    else if IsIdentStart(c) then LexWord(s, i)
    else Err(UnexpectedChar(i))
  }

  function Prepend(t: Tok, rest: Result<seq<Tok>, Fault>): (r: Result<seq<Tok>, Fault>)
  {
    match rest
    case Ok(ts) => Ok([t] + ts)
    case Err(e) => Err(e)
  }

  /** All tokens of `s` from `i` on, or the first fault. */
  function Tokenize(f: Foreign, s: string, i: nat): (r: Result<seq<Tok>, Fault>)
    requires i <= |s|
    decreases |s| - i
  {
    var start := SpanEnd(s, i, Space);
    if start == |s| then Ok([])
    else
      match LexOne(f, s, start)
      case Err(e) => Err(e)
      case Ok(lexeme) => Prepend(lexeme.tok, Tokenize(f, s, lexeme.end))
  }

  function Append(done: seq<Tok>, rest: Result<seq<Tok>, Fault>): (r: Result<seq<Tok>, Fault>)
  {
    match rest
    case Ok(ts) => Ok(done + ts)
    case Err(e) => Err(e)
  }

  lemma AppendSnoc(done: seq<Tok>, t: Tok, rest: Result<seq<Tok>, Fault>)
    ensures Append(done, Prepend(t, rest)) == Append(done + [t], rest)
    ensures Append([], rest) == rest
  {
    if rest.Ok? {
      assert done + ([t] + rest.value) == done + [t] + rest.value;
      assert [] + rest.value == rest.value;
    }
  }

  lemma TokenStep(f: Foreign, s: string, i: nat)
    requires i <= |s|
    ensures var start := SpanEnd(s, i, Space);
      if start == |s| then Tokenize(f, s, i) == Ok([])
      else match LexOne(f, s, start)
           case Err(e) => Tokenize(f, s, i) == Err(e)
           case Ok(lexeme) => Tokenize(f, s, i) == Prepend(lexeme.tok, Tokenize(f, s, lexeme.end))
  {
  }

  lemma PathStep(s: string, i: nat, first: bool, seen: bool)
    requires i <= |s|
    ensures match LexSegment(s, i, first)
      case Err(e) => Bracketed(seen, LexPath(s, i, first)) == Err(e)
      case Ok(segment) =>
        if At(s, segment.end, '.') then
          Bracketed(seen, LexPath(s, i, first)) ==
          Bracketed(seen || segment.bracketed, LexPath(s, segment.end + 1, false))
        else Bracketed(seen, LexPath(s, i, first)) == Ok(PathEnd(segment.end, seen || segment.bracketed))
  {
  }

  /** The cursor-driven lexer. */
  class Cursor {
    const src: string
    const foreign: Foreign
    var pos: nat

    constructor (f: Foreign, s: string)
      ensures src == s && foreign == f && pos == 0
    {
      src, foreign, pos := s, f, 0;
    }

    ghost predicate Valid()
      reads this
    {
      pos <= |src|
    }

    method SkipSpace()
      requires Valid()
      modifies this
      ensures Valid() && pos == SpanEnd(src, old(pos), Space)
    {
      while pos < |src| && IsAsciiSpace(src[pos])
        invariant Valid() && SpanEnd(src, pos, Space) == SpanEnd(src, old(pos), Space)
        decreases |src| - pos
      {
        pos := pos + 1;
      }
    }

    method EatDigits()
      requires Valid()
      modifies this
      ensures Valid() && pos == SpanEnd(src, old(pos), Digit)
    {
      while pos < |src| && IsDigit(src[pos])
        invariant Valid() && SpanEnd(src, pos, Digit) == SpanEnd(src, old(pos), Digit)
        decreases |src| - pos
      {
        pos := pos + 1;
      }
    }

    method Number() returns (r: Result<Tok, Fault>)
      requires Valid() && pos < |src|
      modifies this
      ensures Valid()
      ensures match LexNumber(foreign, src, old(pos))
        case Ok(lexeme) => r == Ok(lexeme.tok) && pos == lexeme.end
        case Err(e) => r == Err(e)
    {
      var start := pos;
      if src[pos] == '-' {
        pos := pos + 1;
      }
      var intStart := pos;
      EatDigits();
      if pos == intStart {
        return Err(NumberShape(start));
      }
      var isFloat := false;
      if At(src, pos, '.') {
        isFloat := true;
        pos := pos + 1;
        var fracStart := pos;
        EatDigits();
        if pos == fracStart {
          return Err(NumberShape(start));
        }
      }
      if At(src, pos, 'e') || At(src, pos, 'E') {
        return Err(NumberShape(start));
      }
      if isFloat {
        var x := foreign.parseF64(src[start..pos]);
        return if x.Some? then Ok(FloatTok(x.value)) else Err(BadNumber(pos));
      } else {
        var n := ParseI64(src[start..pos]);
        return if n.Some? then Ok(IntTok(n.value)) else Err(BadNumber(pos));
      }
    }

    method Subscript() returns (fault: Option<Fault>)
      requires Valid() && pos < |src|
      modifies this
      ensures Valid()
      ensures match LexSubscript(src, old(pos))
        case Ok(end) => fault == None && pos == end
        case Err(e) => fault == Some(e)
    {
      var open := pos;
      pos := pos + 1;
      while pos < |src| && src[pos] != ']'
        invariant open < pos <= |src|
        invariant SpanEnd(src, pos, SubscriptClass) == SpanEnd(src, open + 1, SubscriptClass)
        decreases |src| - pos
      {
        if src[pos] == '[' {
          return Some(NestedSubscript(pos));
        }
        if !IsSubscriptChar(src[pos]) {
          return Some(SubscriptChar(pos));
        }
        pos := pos + 1;
      }
      if pos == |src| {
        return Some(UnterminatedSubscript(open));
      }
      if pos == open + 1 {
        return Some(EmptySubscript(open));
      }
      if HasEmptySegment(src[open + 1..pos]) {
        return Some(SubscriptSegment(open + 1));
      }
      pos := pos + 1;
      return None;
    }

    /** Consume one segment; the answer says whether it carried a group. */
    method Segment(first: bool) returns (r: Result<bool, Fault>)
      requires Valid()
      modifies this
      ensures Valid()
      ensures match LexSegment(src, old(pos), first)
        case Ok(segment) => r == Ok(segment.bracketed) && pos == segment.end
        case Err(e) => r == Err(e)
    {
      var start := pos;
      if !first && At(src, pos, '$') {
        pos := pos + 1;
        if !(pos < |src| && IsIdentStart(src[pos])) {
          return Err(ReservedSegment(start));
        }
      }
      var body := pos;
      while pos < |src| && IsSegmentChar(src[pos])
        invariant body <= pos <= |src|
        invariant SpanEnd(src, pos, SegmentClass) == SpanEnd(src, body, SegmentClass)
        decreases |src| - pos
      {
        pos := pos + 1;
      }
      if pos == start {
        return Err(EmptySegment(start));
      }
      if At(src, pos, '[') {
        var fault := Subscript();
        return if fault.Some? then Err(fault.value) else Ok(true);
      }
      return Ok(false);
    }

    /** One turn of the path loop: a segment, and the dot that announces another. */
    method Turn(first: bool, seen: bool) returns (r: Result<bool, Fault>, more: bool)
      requires Valid()
      modifies this
      ensures Valid() && (r.Ok? ==> pos > old(pos))
      ensures var path := Bracketed(seen, LexPath(src, old(pos), first));
        && (r.Err? ==> path == Err(r.error))
        && (r.Ok? && !more ==> path == Ok(PathEnd(pos, r.value)))
        && (r.Ok? && more ==> path == Bracketed(r.value, LexPath(src, pos, false)))
    {
      PathStep(src, pos, first, seen);
      r := Segment(first);
      more := r.Ok? && At(src, pos, '.');
      if r.Ok? {
        r := Ok(seen || r.value);
      }
      if more {
        pos := pos + 1;
      }
    }

    /** Walk the segments of a path; the answer says whether any carried a group. */
    method Path() returns (r: Result<bool, Fault>)
      requires Valid()
      modifies this
      ensures Valid()
      ensures match LexPath(src, old(pos), true)
        case Ok(path) => r == Ok(path.bracketed) && pos == path.end
        case Err(e) => r == Err(e)
    {
      ghost var whole := LexPath(src, pos, true);
      var more;
      r, more := Turn(true, false);
      while r.Ok? && more
        invariant Valid()
        invariant r.Err? ==> whole == Err(r.error)
        invariant r.Ok? && !more ==> whole == Ok(PathEnd(pos, r.value))
        invariant r.Ok? && more ==> whole == Bracketed(r.value, LexPath(src, pos, false))
        decreases r.Ok?, |src| - pos
      {
        r, more := Turn(false, r.value);
      }
    }

    method Word() returns (r: Result<Tok, Fault>)
      requires Valid() && pos < |src|
      modifies this
      ensures Valid()
      ensures match LexWord(src, old(pos))
        case Ok(lexeme) => r == Ok(lexeme.tok) && pos == lexeme.end
        case Err(e) => r == Err(e)
    {
      var start := pos;
      var path := Path();
      if path.Err? {
        return Err(path.error);
      }
      var word := src[start..pos];
      if StartsWith(word, "not.") {
        return Err(ReservedNot(start));
      }
      return Ok(if path.value then Ident(word) else Keyword(word));
    }

    /** A quoted literal, by the shared reader. */
    method Quoted() returns (r: Result<Tok, Fault>)
      requires Valid() && pos < |src|
      modifies this
      ensures Valid()
      ensures match LexString(src, old(pos))
        case Ok(lexeme) => r == Ok(lexeme.tok) && pos == lexeme.end
        case Err(e) => r == Err(e)
    {
      var literal := Lexical.ReadLiteral(src, pos);
      if literal.Err? {
        return Err(BadLiteral(literal.error));
      }
      pos := literal.value.end;
      return Ok(StringTok(literal.value.value));
    }

    /** Step over `c` if it stands at the cursor. */
    method Eat(c: char) returns (eaten: bool)
      requires Valid()
      modifies this
      ensures Valid() && eaten == At(src, old(pos), c) && pos == old(pos) + if eaten then 1 else 0
    {
      eaten := pos < |src| && src[pos] == c;
      if eaten {
        pos := pos + 1;
      }
    }

    static predicate IsSymbol(c: char)
    {
      c in {'(', ')', ',', '&', '|', '=', '!', '>', '<'}
    }

    /** A parenthesis, a comma or an operator. */
    method Symbol() returns (r: Result<Tok, Fault>)
      requires Valid() && pos < |src| && IsSymbol(src[pos])
      modifies this
      ensures Valid()
      ensures match LexOne(foreign, src, old(pos))
        case Ok(lexeme) => r == Ok(lexeme.tok) && pos == lexeme.end
        case Err(e) => r == Err(e)
    {
      var c := src[pos];
      pos := pos + 1;
      if c == '(' {
        return Ok(LParen);
      } else if c == ')' {
        return Ok(RParen);
      } else if c == ',' {
        return Ok(Comma);
      } else if c == '&' || c == '|' {
        if At(src, pos, c) {
          return Err(DoubledOperator(pos - 1));
        }
        return Ok(if c == '&' then AndTok else OrTok);
      }
      var equals := Eat('=');
      if c == '=' {
        return if equals then Ok(EqTok) else Err(LoneEquals(pos));
      } else if c == '!' {
        return Ok(if equals then NotEqTok else NotTok);
      } else if c == '>' {
        return Ok(if equals then GtEqTok else GtTok);
      }
      return Ok(if equals then LtEqTok else LtTok);
    }

    /** The token at the cursor. */
    method One() returns (r: Result<Tok, Fault>)
      requires Valid() && pos < |src|
      modifies this
      ensures Valid()
      ensures match LexOne(foreign, src, old(pos))
        case Ok(lexeme) => r == Ok(lexeme.tok) && pos == lexeme.end
        case Err(e) => r == Err(e)
    {
      var c := src[pos];
      if IsSymbol(c) {
        r := Symbol();
      } else if Lexical.IsQuote(c) {
        r := Quoted();
      } else if c == '-' || IsDigit(c) {
        r := Number();
      } else if c == '.' {
        r := Err(if pos + 1 < |src| && IsDigit(src[pos + 1]) then NumberShape(pos) else EmptySegment(pos));
      } else if IsIdentStart(c) {
        r := Word();
      } else {
        r := Err(UnexpectedChar(pos));
      }
    }

    /** Every token of the text, or the first fault. */
    method TokenizeAll() returns (r: Result<seq<Tok>, Fault>)
      requires Valid()
      modifies this
      ensures Valid() && r == Tokenize(foreign, src, old(pos))
    {
      var out := [];
      ghost var whole := Tokenize(foreign, src, pos);
      AppendSnoc([], Comma, whole);
      while true
        invariant Valid() && whole == Append(out, Tokenize(foreign, src, pos))
        decreases |src| - pos
      {
        TokenStep(foreign, src, pos);
        SkipSpace();
        if pos == |src| {
          assert out + [] == out;
          return Ok(out);
        }
        var tok := One();
        if tok.Err? {
          return Err(tok.error);
        }
        AppendSnoc(out, tok.value, Tokenize(foreign, src, pos));
        out := out + [tok.value];
      }
    }
  }
}
