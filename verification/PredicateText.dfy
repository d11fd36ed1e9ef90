/** The text half of the predicate round trip: printed tokens lex back to themselves. */
module PredicateText {
  import opened Values
  import opened Text
  import opened Rules
  import opened Lexer
  import opened AttributePaths
  import opened PredicateParser
  import opened PredicateSyntax
  import opened PredicatePrinter
  import Lexical

  /** An optional `-`, digits, a dot at `dot`, digits. */
  predicate IsDecimalAt(s: string, dot: nat)
  {
    var start := if s != [] && s[0] == '-' then 1 else 0;
    && start < dot < |s| - 1 && s[dot] == '.'
    && AllDigits(s[start..dot]) && AllDigits(s[dot + 1..])
  }

  /** `text` is a decimal spelling that float parsing reads as `x`. */
  ghost predicate SpellsFloat(f: Foreign, text: string, x: F64)
  {
    f.parseF64(text) == Some(x) && exists dot: nat :: IsDecimalAt(text, dot)
  }

  /** Printing a float is the caller's: `floats` must give a decimal that parses back. */
  ghost predicate Spellable(f: Foreign, floats: F64 -> string, t: Tok)
  {
    match t
    case Ident(name) => IsPath(name)
    case FloatTok(x) => SpellsFloat(f, floats(x), x)
    case _ => true
  }

  function TokText(floats: F64 -> string, t: Tok): (s: string)
  {
    match t
    case Ident(name) => name
    case StringTok(s) => Lexical.Spell(s, '"')
    case IntTok(n) => IntText(n)
    case FloatTok(x) => floats(x)
    case BoolTok(b) => if b then "true" else "false"
    case EqTok => "=="
    case NotEqTok => "!="
    case GtTok => ">"
    case GtEqTok => ">="
    case LtTok => "<"
    case LtEqTok => "<="
    case AndTok => "&"
    case OrTok => "|"
    case NotTok => "!"
    case NotWord => "not"
    case LParen => "("
    case RParen => ")"
    case Comma => ","
    case ContainsTok => "contains"
    case RequireTok => "require"
    case ExistsTok => "exists"
    case InTok => "in"
  }

  function Render(floats: F64 -> string, ts: seq<Tok>): (s: string)
  {
    if ts == [] then ""
    else if |ts| == 1 then TokText(floats, ts[0])
    else TokText(floats, ts[0]) + " " + Render(floats, ts[1..])
  }

  predicate EndsToken(s: string, i: nat)
  {
    i == |s| || At(s, i, ' ')
  }

  // ----- One token at a time -----

  predicate IsWord(t: Tok)
  {
    t.BoolTok? || t in {NotWord, ContainsTok, RequireTok, ExistsTok, InTok}
  }

  lemma WordCase(f: Foreign, s: string, i: nat)
    requires i < |s| && IsIdentStart(s[i])
    ensures LexOne(f, s, i) == LexWord(s, i)
  {
  }

  /** The spelling of a keyword is a name the lexer maps to that keyword. */
  lemma KeywordSpelling(floats: F64 -> string, t: Tok)
    requires IsWord(t)
    ensures var word := TokText(floats, t);
      IsName(word) && IsIdentStart(word[0]) && !StartsWith(word, "not.") && Keyword(word) == t
  {
  }

  lemma PlainWordPath(s: string, i: nat, word: string, r: Result<PathEnd, Lexer.Fault>)
    requires IsName(word) && IsIdentStart(word[0]) && Has(s, i, word) && EndsToken(s, i + |word|)
    requires r == LexPath(s, i, true)
    ensures r == Ok(PathEnd(i + |word|, false))
  {
    var g := Segment(false, word, []);
    PlainText(word, g);
    LastSegmentLexes(s, i, g, true, r);
  }

  lemma PlainText(word: string, g: Segment)
    requires g == Segment(false, word, []) && IsName(word) && IsIdentStart(word[0])
    ensures SegmentText(g) == word && IsSegment(g, true)
  {
  }

  lemma WordLexes(f: Foreign, floats: F64 -> string, t: Tok, s: string, i: nat)
    requires IsWord(t) && Has(s, i, TokText(floats, t)) && EndsToken(s, i + |TokText(floats, t)|)
    ensures i < |s| && LexOne(f, s, i) == Ok(Lexeme(t, i + |TokText(floats, t)|))
  {
    var word := TokText(floats, t);
    KeywordSpelling(floats, t);
    HasAt(s, i, word, 0);
    PlainWordPath(s, i, word, LexPath(s, i, true));
    HasSlice(s, i, word);
    WordCase(f, s, i);
  }

  lemma IdentLexes(f: Foreign, s: string, i: nat, name: string)
    requires IsPath(name) && Has(s, i, name) && EndsToken(s, i + |name|)
    ensures i < |s| && LexOne(f, s, i) == Ok(Lexeme(Ident(name), i + |name|))
  {
    var gs :| Spells(gs, name);
    PathIsIdent(s, i, gs, name);
    assert IsIdentStart(s[i]) by {
      PathStarts(gs, true);
      HasAt(s, i, name, 0);
    }
    WordCase(f, s, i);
  }

  lemma PathStarts(gs: seq<Segment>, first: bool)
    requires ArePath(gs, first)
    ensures PathText(gs) != []
    ensures first ==> IsIdentStart(PathText(gs)[0])
  {
    assert SegmentText(gs[0]) != [];
    assert first ==> SegmentText(gs[0])[0] == gs[0].name[0];
  }

  lemma StringLexes(f: Foreign, s: string, i: nat, value: string)
    requires Has(s, i, Lexical.Spell(value, '"'))
    ensures i < |s| && LexOne(f, s, i) == Ok(Lexeme(StringTok(value), i + |Lexical.Spell(value, '"')|))
  {
    var spelled := Lexical.Spell(value, '"');
    HasSlice(s, i, spelled);
    assert s == s[..i] + spelled + s[i + |spelled|..];
    HasAt(s, i, spelled, 0);
    Lexical.LiteralRoundTrip(s[..i], value, '"', s[i + |spelled|..]);
  }

  lemma DigitsSpan(s: string, i: nat, end: nat)
    requires i <= end <= |s| && AllDigits(s[i..end]) && (end < |s| ==> !IsDigit(s[end]))
    ensures SpanEnd(s, i, Digit) == end
  {
    forall j | i <= j < end ensures In(s[j], Digit) {
      assert s[j] == s[i..end][j - i];
    }
    SpanExact(s, i, end, Digit);
  }

  lemma IntCase(f: Foreign, s: string, i: nat, digits: nat, end: nat)
    requires i < |s| && (s[i] == '-' || IsDigit(s[i])) && digits == (if s[i] == '-' then i + 1 else i)
    requires digits < end <= |s| && SpanEnd(s, digits, Digit) == end && EndsToken(s, end)
    ensures LexOne(f, s, i) ==
      (match ParseI64(s[i..end]) case Some(n) => Ok(Lexeme(IntTok(n), end)) case None => Err(BadNumber(end)))
  {
  }

  lemma FloatCase(f: Foreign, s: string, i: nat, digits: nat, dot: nat, end: nat)
    requires i < |s| && (s[i] == '-' || IsDigit(s[i])) && digits == (if s[i] == '-' then i + 1 else i)
    requires digits < dot && dot + 1 < end <= |s| && s[dot] == '.' && EndsToken(s, end)
    requires SpanEnd(s, digits, Digit) == dot && SpanEnd(s, dot + 1, Digit) == end
    ensures LexOne(f, s, i) ==
      (match f.parseF64(s[i..end]) case Some(x) => Ok(Lexeme(FloatTok(x), end)) case None => Err(BadNumber(end)))
  {
  }

  lemma IntTextShape(n: int)
    ensures var text := IntText(n);
      && text != [] && (text[0] == '-' <==> n < 0)
      && (n < 0 ==> |text| > 1 && AllDigits(text[1..])) && (n >= 0 ==> AllDigits(text))
  {
    if n < 0 {
      assert IntText(n)[1..] == NatText(-n);
    }
  }

  lemma IntLexes(f: Foreign, s: string, i: nat, n: i64)
    requires Has(s, i, IntText(n)) && EndsToken(s, i + |IntText(n)|)
    ensures i < |s| && LexOne(f, s, i) == Ok(Lexeme(IntTok(n), i + |IntText(n)|))
  {
    var text := IntText(n);
    var end := i + |text|;
    IntTextShape(n);
    HasSlice(s, i, text);
    HasAt(s, i, text, 0);
    var skip := if n < 0 then 1 else 0;
    assert text[0] != '-' ==> IsDigit(text[0]);
    assert s[i + skip..end] == text[skip..];
    assert text[skip..] == if n < 0 then text[1..] else text;
    DigitsSpan(s, i + skip, end);
    IntCase(f, s, i, i + skip, end);
    IntTextRoundTrip(n);
  }

  lemma FloatLexes(f: Foreign, s: string, i: nat, text: string, x: F64)
    requires SpellsFloat(f, text, x) && Has(s, i, text) && EndsToken(s, i + |text|)
    ensures i < |s| && LexOne(f, s, i) == Ok(Lexeme(FloatTok(x), i + |text|))
  {
    var dot: nat :| IsDecimalAt(text, dot);
    FloatSpans(s, i, text, dot);
    FloatCase(f, s, i, if text[0] == '-' then i + 1 else i, i + dot, i + |text|);
    HasSlice(s, i, text);
  }

  /** Where the two digit runs of a decimal lie. */
  lemma FloatSpans(s: string, i: nat, text: string, dot: nat)
    requires IsDecimalAt(text, dot) && Has(s, i, text) && EndsToken(s, i + |text|)
    ensures i < |s| && s[i] == text[0] && (s[i] == '-' || IsDigit(s[i])) && s[i + dot] == '.'
    ensures SpanEnd(s, if text[0] == '-' then i + 1 else i, Digit) == i + dot
    ensures SpanEnd(s, i + dot + 1, Digit) == i + |text|
  {
    var start := if text[0] == '-' then 1 else 0;
    HasAt(s, i, text, 0);
    HasAt(s, i, text, dot);
    HasSlice(s, i, text);
    assert text[start..dot][0] == text[start];
    assert s[i + start..i + dot] == text[start..dot];
    DigitsSpan(s, i + start, i + dot);
    assert s[i + dot + 1..i + |text|] == text[dot + 1..];
    DigitsSpan(s, i + dot + 1, i + |text|);
  }

  lemma SymbolLexes(f: Foreign, floats: F64 -> string, t: Tok, s: string, i: nat)
    requires !IsWord(t) && !t.Ident? && !t.StringTok? && !t.IntTok? && !t.FloatTok?
    requires Has(s, i, TokText(floats, t)) && EndsToken(s, i + |TokText(floats, t)|)
    ensures i < |s| && LexOne(f, s, i) == Ok(Lexeme(t, i + |TokText(floats, t)|))
  {
    var text := TokText(floats, t);
    HasAt(s, i, text, 0);
    if |text| > 1 {
      HasAt(s, i, text, 1);
    }
  }

  lemma FixedLexes(f: Foreign, floats: F64 -> string, t: Tok, s: string, i: nat)
    requires !t.Ident? && !t.StringTok? && !t.IntTok? && !t.FloatTok?
    requires Has(s, i, TokText(floats, t)) && EndsToken(s, i + |TokText(floats, t)|)
    ensures i < |s| && LexOne(f, s, i) == Ok(Lexeme(t, i + |TokText(floats, t)|))
  {
    if IsWord(t) {
      WordLexes(f, floats, t, s, i);
    } else {
      SymbolLexes(f, floats, t, s, i);
    }
  }

  lemma IntTokenLexes(f: Foreign, floats: F64 -> string, t: Tok, s: string, i: nat, text: string)
    requires t.IntTok? && text == TokText(floats, t) && Spellable(f, floats, t)
    requires Has(s, i, text) && EndsToken(s, i + |text|)
    ensures i < |s| && LexOne(f, s, i) == Ok(Lexeme(t, i + |text|))
  {
    IntLexes(f, s, i, t.i);
  }

  lemma FloatTokenLexes(f: Foreign, floats: F64 -> string, t: Tok, s: string, i: nat, text: string)
    requires t.FloatTok? && text == TokText(floats, t) && Spellable(f, floats, t)
    requires Has(s, i, text) && EndsToken(s, i + |text|)
    ensures i < |s| && LexOne(f, s, i) == Ok(Lexeme(t, i + |text|))
  {
    FloatLexes(f, s, i, floats(t.x), t.x);
  }

  lemma NameLexes(f: Foreign, floats: F64 -> string, t: Tok, s: string, i: nat, text: string)
    requires t.Ident? && text == TokText(floats, t) && Spellable(f, floats, t)
    requires Has(s, i, text) && EndsToken(s, i + |text|)
    ensures i < |s| && LexOne(f, s, i) == Ok(Lexeme(t, i + |text|))
  {
    IdentLexes(f, s, i, t.name);
  }

  lemma QuotedLexes(f: Foreign, floats: F64 -> string, t: Tok, s: string, i: nat, text: string)
    requires t.StringTok? && text == TokText(floats, t) && Has(s, i, text)
    ensures i < |s| && LexOne(f, s, i) == Ok(Lexeme(t, i + |text|))
  {
    StringLexes(f, s, i, t.s);
  }

  /** Every spellable token lexes back to itself. */
  lemma TokenLexes(f: Foreign, floats: F64 -> string, t: Tok, s: string, i: nat, text: string)
    requires text == TokText(floats, t) && Spellable(f, floats, t) && Has(s, i, text) && EndsToken(s, i + |text|)
    ensures i < |s| && LexOne(f, s, i) == Ok(Lexeme(t, i + |text|))
  {
    if t.Ident? {
      NameLexes(f, floats, t, s, i, text);
    } else if t.StringTok? {
      QuotedLexes(f, floats, t, s, i, text);
    } else if t.IntTok? {
      IntTokenLexes(f, floats, t, s, i, text);
    } else if t.FloatTok? {
      FloatTokenLexes(f, floats, t, s, i, text);
    } else {
      FixedLexes(f, floats, t, s, i);
    }
  }

  // ----- A token list -----

  ghost predicate AllSpellable(f: Foreign, floats: F64 -> string, ts: seq<Tok>)
  {
    forall k :: 0 <= k < |ts| ==> Spellable(f, floats, ts[k])
  }

  /** No token starts with a space the lexer would skip. */
  lemma TokenStart(f: Foreign, s: string, i: nat)
    requires i < |s| && LexOne(f, s, i).Ok?
    ensures SpanEnd(s, i, Space) == i
  {
  }

  lemma SpaceSkipped(f: Foreign, s: string, i: nat)
    requires At(s, i, ' ')
    ensures Tokenize(f, s, i) == Tokenize(f, s, i + 1)
  {
    assert SpanEnd(s, i, Space) == SpanEnd(s, i + 1, Space);
    TokenStep(f, s, i);
    TokenStep(f, s, i + 1);
  }

  lemma TokenUnfold(f: Foreign, s: string, i: nat, t: Tok, end: nat)
    requires i < |s| && LexOne(f, s, i) == Ok(Lexeme(t, end)) && end <= |s|
    ensures Tokenize(f, s, i) == Prepend(t, Tokenize(f, s, end))
  {
    TokenStart(f, s, i);
    TokenStep(f, s, i);
  }

  lemma LastToken(f: Foreign, s: string, i: nat, t: Tok)
    requires i < |s| && LexOne(f, s, i) == Ok(Lexeme(t, |s|))
    ensures Tokenize(f, s, i) == Ok([t])
  {
    TokenUnfold(f, s, i, t, |s|);
    TokenStep(f, s, |s|);
    assert [t] + [] == [t];
  }

  lemma TokenThenSpace(f: Foreign, s: string, i: nat, t: Tok, end: nat)
    requires i < |s| && LexOne(f, s, i) == Ok(Lexeme(t, end)) && At(s, end, ' ')
    ensures Tokenize(f, s, i) == Prepend(t, Tokenize(f, s, end + 1))
  {
    TokenUnfold(f, s, i, t, end);
    SpaceSkipped(f, s, end);
  }

  lemma SpacedLayout(s: string, i: nat, text: string, rest: string)
    requires Has(s, i, text + " " + rest)
    ensures Has(s, i, text) && At(s, i + |text|, ' ') && Has(s, i + |text| + 1, rest)
  {
    HasSplit(s, i, text + " ", rest);
    HasSplit(s, i, text, " ");
    HasAt(s, i + |text|, " ", 0);
  }

  lemma HeadTokenLexes(f: Foreign, floats: F64 -> string, t: Tok, s: string, i: nat, text: string, rest: string)
    requires text == TokText(floats, t) && Spellable(f, floats, t) && Has(s, i, text + " " + rest)
    ensures Has(s, i + |text| + 1, rest)
    ensures Tokenize(f, s, i) == Prepend(t, Tokenize(f, s, i + |text| + 1))
  {
    SpacedLayout(s, i, text, rest);
    TokenLexes(f, floats, t, s, i, text);
    TokenThenSpace(f, s, i, t, i + |text|);
  }

  lemma LastTokenLexes(f: Foreign, floats: F64 -> string, t: Tok, s: string, i: nat, text: string)
    requires text == TokText(floats, t) && Spellable(f, floats, t) && Has(s, i, text) && i + |text| == |s|
    ensures Tokenize(f, s, i) == Ok([t])
  {
    TokenLexes(f, floats, t, s, i, text);
    LastToken(f, s, i, t);
  }

  lemma PrependOk(ts: seq<Tok>, tail: Result<seq<Tok>, Lexer.Fault>)
    requires ts != [] && tail == Ok(ts[1..])
    ensures Prepend(ts[0], tail) == Ok(ts)
  {
    assert ts == [ts[0]] + ts[1..];
  }

  lemma RenderUnfold(floats: F64 -> string, ts: seq<Tok>, text: string, rest: string)
    requires |ts| > 1 && text == TokText(floats, ts[0]) && rest == Render(floats, ts[1..])
    ensures Render(floats, ts) == text + " " + rest && |Render(floats, ts)| == |text| + 1 + |rest|
  {
  }

  lemma {:induction false} RenderLexes(
    f: Foreign, floats: F64 -> string, ts: seq<Tok>, s: string, i: nat, whole: string,
    r: Result<seq<Tok>, Lexer.Fault>)
    requires ts != [] && AllSpellable(f, floats, ts) && whole == Render(floats, ts)
    requires Has(s, i, whole) && i + |whole| == |s| && r == Tokenize(f, s, i)
    ensures r == Ok(ts)
    decreases |ts|
  {
    var text := TokText(floats, ts[0]);
    if |ts| == 1 {
      LastTokenLexes(f, floats, ts[0], s, i, text);
      assert ts == [ts[0]];
    } else {
      var rest := Render(floats, ts[1..]);
      RenderUnfold(floats, ts, text, rest);
      var tail := RenderStep(f, floats, ts[0], s, i, text, rest, r);
      RenderLexes(f, floats, ts[1..], s, i + |text| + 1, rest, tail);
      PrependOk(ts, tail);
    }
  }

  lemma RenderStep(
    f: Foreign, floats: F64 -> string, t: Tok, s: string, i: nat, text: string, rest: string,
    r: Result<seq<Tok>, Lexer.Fault>) returns (tail: Result<seq<Tok>, Lexer.Fault>)
    requires text == TokText(floats, t) && Spellable(f, floats, t)
    requires Has(s, i, text + " " + rest) && r == Tokenize(f, s, i)
    ensures Has(s, i + |text| + 1, rest) && tail == Tokenize(f, s, i + |text| + 1) && r == Prepend(t, tail)
  {
    HeadTokenLexes(f, floats, t, s, i, text, rest);
    tail := Tokenize(f, s, i + |text| + 1);
  }

  // ----- A printed predicate has nothing to trim -----

  predicate Solid(s: string)
  {
    s != [] && !IsWhitespace(s[0]) && !IsWhitespace(s[|s| - 1])
  }

  lemma SolidJoin(a: string, mid: string, b: string)
    requires Solid(a) && Solid(b)
    ensures Solid(a + mid + b)
  {
  }

  lemma NameSolid(name: string)
    requires IsName(name)
    ensures Solid(name)
  {
    assert IsSegmentChar(name[0]) && IsSegmentChar(name[|name| - 1]);
  }

  lemma SegmentSolid(g: Segment, first: bool)
    requires IsSegment(g, first)
    ensures Solid(SegmentText(g))
  {
    NameSolid(g.name);
    var text := SegmentText(g);
    if g.group != [] {
      assert text[|text| - 1] == ']';
    } else {
      assert text[|text| - 1] == g.name[|g.name| - 1];
    }
  }

  lemma {:induction false} PathSolid(gs: seq<Segment>, first: bool)
    requires ArePath(gs, first)
    ensures Solid(PathText(gs))
    decreases |gs|
  {
    SegmentSolid(gs[0], first);
    if |gs| > 1 {
      PathSolid(gs[1..], false);
      SolidJoin(SegmentText(gs[0]), ".", PathText(gs[1..]));
    }
  }

  lemma IdentSolid(name: string)
    requires IsPath(name)
    ensures Solid(name)
  {
    var gs :| Spells(gs, name);
    PathSolid(gs, true);
  }

  lemma IntSolid(n: int)
    ensures Solid(IntText(n))
  {
    IntTextShape(n);
    var text := IntText(n);
    if n < 0 {
      assert text[1..][|text| - 2] == text[|text| - 1];
    }
  }

  lemma FloatSolid(f: Foreign, text: string, x: F64)
    requires SpellsFloat(f, text, x)
    ensures Solid(text)
  {
    var dot: nat :| IsDecimalAt(text, dot);
    assert text[dot + 1..][|text| - dot - 2] == text[|text| - 1];
    assert text[0] != '-' ==> text[0..dot][0] == text[0];
  }

  lemma TokenSolid(f: Foreign, floats: F64 -> string, t: Tok)
    requires Spellable(f, floats, t)
    ensures Solid(TokText(floats, t))
  {
    match t
    case Ident(name) => IdentSolid(name);
    case IntTok(n) => IntSolid(n);
    case FloatTok(x) => FloatSolid(f, floats(x), x);
    case _ =>
  }

  lemma {:induction false} RenderSolid(f: Foreign, floats: F64 -> string, ts: seq<Tok>)
    requires ts != [] && AllSpellable(f, floats, ts)
    ensures Solid(Render(floats, ts))
    decreases |ts|
  {
    TokenSolid(f, floats, ts[0]);
    if |ts| > 1 {
      RenderSolid(f, floats, ts[1..]);
      SolidJoin(TokText(floats, ts[0]), " ", Render(floats, ts[1..]));
    }
  }

  // ----- The round trip -----

  /** Every key of the expression is a legal path and every float literal has a decimal spelling. */
  ghost predicate Expressible(f: Foreign, floats: F64 -> string, e: Expression)
  {
    match e
    case Cond(c) => AllSpellable(f, floats, ConditionToks(c))
    case And(parts) => forall k :: 0 <= k < |parts| ==> Expressible(f, floats, parts[k])
    case Or(parts) => forall k :: 0 <= k < |parts| ==> Expressible(f, floats, parts[k])
    case Not(inner) => Expressible(f, floats, inner)
    case Always => true
  }

  lemma AllSpellableConcat(f: Foreign, floats: F64 -> string, a: seq<Tok>, b: seq<Tok>)
    requires AllSpellable(f, floats, a) && AllSpellable(f, floats, b)
    ensures AllSpellable(f, floats, a + b)
  {
  }

  /** Every atom of the sentence has legal paths and a spellable literal. */
  ghost predicate Utterable(f: Foreign, floats: F64 -> string, s: Sentence)
  {
    match s
    case Atom(c) => AllSpellable(f, floats, ConditionToks(c))
    case Group(inner) => Utterable(f, floats, inner)
    case Bang(inner) => Utterable(f, floats, inner)
    case Ands(parts) => forall k :: 0 <= k < |parts| ==> Utterable(f, floats, parts[k])
    case Ors(parts) => forall k :: 0 <= k < |parts| ==> Utterable(f, floats, parts[k])
    case Require(parts) => forall k :: 0 <= k < |parts| ==> Utterable(f, floats, parts[k])
  }

  ghost predicate AllUtterable(f: Foreign, floats: F64 -> string, parts: seq<Sentence>)
  {
    forall k :: 0 <= k < |parts| ==> Utterable(f, floats, parts[k])
  }

  lemma {:induction false} WrittenSpellable(f: Foreign, floats: F64 -> string, s: Sentence)
    requires Utterable(f, floats, s) && Grammatical(s)
    ensures Written(s) != [] && AllSpellable(f, floats, Written(s))
    decreases s, 1
  {
    match s
    case Atom(_) =>
    case Group(inner) =>
      WrittenSpellable(f, floats, inner);
      AllSpellableConcat(f, floats, [LParen], Written(inner));
      AllSpellableConcat(f, floats, [LParen] + Written(inner), [RParen]);
    case Bang(inner) =>
      WrittenSpellable(f, floats, inner);
      AllSpellableConcat(f, floats, [NotTok], Written(inner));
    case Ands(parts) => JoinedSpellable(f, floats, parts, AndTok);
    case Ors(parts) => JoinedSpellable(f, floats, parts, OrTok);
    case Require(parts) =>
      JoinedSpellable(f, floats, parts, Comma);
      AllSpellableConcat(f, floats, [RequireTok, LParen], Joined(parts, Comma));
      AllSpellableConcat(f, floats, [RequireTok, LParen] + Joined(parts, Comma), [RParen]);
  }

  lemma {:induction false} JoinedSpellable(f: Foreign, floats: F64 -> string, parts: seq<Sentence>, separator: Tok)
    requires parts != [] && AllUtterable(f, floats, parts) && AllGrammatical(parts)
    requires separator == AndTok || separator == OrTok || separator == Comma
    ensures Joined(parts, separator) != [] && AllSpellable(f, floats, Joined(parts, separator))
    decreases parts, 0
  {
    WrittenSpellable(f, floats, parts[0]);
    if |parts| > 1 {
      JoinedSpellable(f, floats, parts[1..], separator);
      AllSpellableConcat(f, floats, Written(parts[0]), [separator]);
      AllSpellableConcat(f, floats, Written(parts[0]) + [separator], Joined(parts[1..], separator));
    }
  }

  lemma {:induction false} PrintedUtterable(f: Foreign, floats: F64 -> string, e: Expression)
    requires Printable(e) && Expressible(f, floats, e)
    ensures Utterable(f, floats, Printed(e))
    decreases e, 1
  {
    match e
    case Cond(IsFalse(key)) => assert ConditionToks(IsFalse(key))[2] == Ident(key);
    case Cond(_) =>
    case Not(inner) => OperandUtterable(f, floats, inner);
    case And(parts) =>
      forall k | 0 <= k < |parts| ensures Utterable(f, floats, PrintedParts(parts)[k]) {
        OperandUtterable(f, floats, parts[k]);
      }
    case Or(parts) =>
      forall k | 0 <= k < |parts| ensures Utterable(f, floats, PrintedParts(parts)[k]) {
        OperandUtterable(f, floats, parts[k]);
      }
  }

  lemma {:induction false} OperandUtterable(f: Foreign, floats: F64 -> string, e: Expression)
    requires Printable(e) && Expressible(f, floats, e)
    ensures Utterable(f, floats, PrintedOperand(e))
    decreases e, 2
  {
    PrintedUtterable(f, floats, e);
  }

  /** The printed form of a predicate. */
  function Print(floats: F64 -> string, e: Expression): (s: string)
    requires Printable(e)
  {
    Render(floats, Toks(e))
  }

  /** Rendered tokens parse as those tokens. */
  lemma TextParses(f: Foreign, floats: F64 -> string, ts: seq<Tok>)
    requires ts != [] && AllSpellable(f, floats, ts)
    ensures ParsePredicate(f, Render(floats, ts)) == ParseTokens(ts)
  {
    var s := Render(floats, ts);
    RenderSolid(f, floats, ts);
    TrimIsTrimmed(s);
    RenderLexes(f, floats, ts, s, 0, s, Tokenize(f, s, 0));
  }

  /** The text of a sentence. */
  function Spoken(floats: F64 -> string, s: Sentence): (text: string)
  {
    Render(floats, Written(s))
  }

  /** The text of any sentence, whatever its parentheses and `require(...)` lists, parses to what it means. */
  lemma {:induction false} SentenceParses(f: Foreign, floats: F64 -> string, s: Sentence)
    requires Grammatical(s) && Utterable(f, floats, s)
    ensures ParsePredicate(f, Spoken(floats, s)) == Ok(Meaning(s))
  {
    WrittenSpellable(f, floats, s);
    TextParses(f, floats, Written(s));
    ParsesExactly(Written(s), Meaning(s));
  }

  /**
   * Printing a predicate and parsing the text returns the identical tree, for every expression with
   * legal attribute paths, no `Always`, and connectives of at least two parts.
   */
  lemma {:induction false} PredicateRoundTrip(f: Foreign, floats: F64 -> string, e: Expression)
    requires Printable(e) && Expressible(f, floats, e)
    ensures ParsePredicate(f, Print(floats, e)) == Ok(e)
  {
    PrintedMeans(e);
    PrintedUtterable(f, floats, e);
    SentenceParses(f, floats, Printed(e));
  }
}
