/** What the lexer accepts, read off the text: literals, tokens and the white space between them. */
module LexerLaws {
  import opened Values
  import opened Text
  import opened Lexer
  import opened PredicateText
  import opened PredicateRange
  import AttributePaths
  import Lexical

  // ---- Literals

  /** `body`, between quotes `q`, spells `value`: a backslash only before a backslash or a quote, no bare `q`. */
  predicate SpellsText(body: string, q: char, value: string)
    decreases |body|
  {
    if body == [] then value == []
    else if body[0] == '\\' then
      |body| >= 2 && body[1] in {'\\', '"', '\''} && value != [] && value[0] == body[1] &&
      SpellsText(body[2..], q, value[1..])
    else body[0] != q && value != [] && value[0] == body[0] && SpellsText(body[1..], q, value[1..])
  }

  lemma {:induction false} BodyReads(s: string, open: nat, i: nat, done: string, value: string, end: nat)
    requires open < i <= end && end < |s| && Lexical.IsQuote(s[open]) && s[end] == s[open]
    requires SpellsText(s[i..end], s[open], value)
    ensures Lexical.ReadBody(s, open, i, done) == Ok(Lexical.Quoted(done + value, end + 1))
    decreases end - i
  {
    var body := s[i..end];
    if body == [] {
      assert done + value == done;
    } else if body[0] == '\\' {
      assert s[i] == body[0] && s[i + 1] == body[1] && body[2..] == s[i + 2..end];
      BodyReads(s, open, i + 2, done + [body[1]], value[1..], end);
      assert done + [value[0]] + value[1..] == done + value;
    } else {
      assert s[i] == body[0] && body[1..] == s[i + 1..end];
      BodyReads(s, open, i + 1, done + [body[0]], value[1..], end);
      assert done + [value[0]] + value[1..] == done + value;
    }
  }

  lemma {:induction false} BodySpells(s: string, open: nat, i: nat, done: string, r: Lexical.Quoted)
    returns (value: string)
    requires open < i && open < |s| && Lexical.IsQuote(s[open]) && Lexical.ReadBody(s, open, i, done) == Ok(r)
    ensures r.value == done + value && s[r.end - 1] == s[open] && SpellsText(s[i..r.end - 1], s[open], value)
    decreases |s| - i
  {
    var body := s[i..r.end - 1];
    if s[i] == s[open] {
      value := [];
    } else if s[i] == '\\' {
      var rest := BodySpells(s, open, i + 2, done + [s[i + 1]], r);
      value := [s[i + 1]] + rest;
      assert body[2..] == s[i + 2..r.end - 1] && value[1..] == rest;
    } else {
      var rest := BodySpells(s, open, i + 1, done + [s[i]], r);
      value := [s[i]] + rest;
      assert body[1..] == s[i + 1..r.end - 1] && value[1..] == rest;
    }
  }

  /** A literal is read exactly where a quote, a spelled text and the same quote stand, and reads as that text. */
  lemma {:induction false} LiteralExactly(s: string, open: nat, value: string, end: nat)
    ensures Lexical.ReadLiteral(s, open) == Ok(Lexical.Quoted(value, end)) <==>
      && open + 1 < end <= |s| && Lexical.IsQuote(s[open]) && s[end - 1] == s[open]
      && SpellsText(s[open + 1..end - 1], s[open], value)
  {
    if Lexical.ReadLiteral(s, open) == Ok(Lexical.Quoted(value, end)) {
      var v := BodySpells(s, open, open + 1, "", Lexical.Quoted(value, end));
      assert "" + v == v;
    }
    if open + 1 < end <= |s| && Lexical.IsQuote(s[open]) && s[end - 1] == s[open]
       && SpellsText(s[open + 1..end - 1], s[open], value) {
      BodyReads(s, open, open + 1, "", value, end - 1);
      assert "" + value == value;
    }
  }

  /** A text is one literal exactly when, trimmed, it is a quote, a spelled text and the same quote. */
  lemma {:induction false} WholeExactly(s: string, value: string)
    ensures Lexical.ReadWhole(s) == Ok(None) <==> Trim(s) == [] || !Lexical.IsQuote(Trim(s)[0])
    ensures Lexical.ReadWhole(s) == Ok(Some(value)) <==>
      var t := Trim(s);
      |t| >= 2 && Lexical.IsQuote(t[0]) && t[|t| - 1] == t[0] && SpellsText(t[1..|t| - 1], t[0], value)
  {
    LiteralExactly(Trim(s), 0, value, |Trim(s)|);
  }

  lemma {:induction false} BodyFaults(s: string, open: nat, i: nat, value: string)
    requires open < i && open < |s| && Lexical.ReadBody(s, open, i, value).Err?
    ensures match Lexical.ReadBody(s, open, i, value).error
      case Unterminated(at) => at == open
      case BadEscape(at) => at + 1 < |s| && s[at] == '\\' && !Lexical.IsEscapable(s[at + 1])
      case _ => false
    decreases |s| - i
  {
    if i < |s| && s[i] != s[open] {
      if s[i] != '\\' {
        BodyFaults(s, open, i + 1, value + [s[i]]);
      } else if i + 1 < |s| && Lexical.IsEscapable(s[i + 1]) {
        BodyFaults(s, open, i + 2, value + [s[i + 1]]);
      }
    }
  }

  /** A refusal names the place in the text as it was given: the quote, the backslash, or the text behind. */
  lemma {:induction false} WholeFaultPoints(s: string)
    requires Lexical.ReadWhole(s).Err?
    ensures match Lexical.ReadWhole(s).error
      case Unterminated(at) => at < |s| && AllWhitespace(s[..at]) && Lexical.IsQuote(s[at])
      case BadEscape(at) => at + 1 < |s| && s[at] == '\\' && !Lexical.IsEscapable(s[at + 1])
      case TrailingText(at) => 0 < at < |s| && Lexical.IsQuote(s[at - 1])
      case NotALiteral(_) => false
  {
    var t, lead := Trim(s), |s| - |TrimStart(s)|;
    TrimAt(s);
    match Lexical.ReadLiteral(t, 0)
    case Ok(q) => LiteralExactly(t, 0, q.value, q.end);
    case Err(_) => BodyFaults(t, 0, 1, "");
  }

  // ---- Tokens

  /** The text is a spelling of the token. */
  ghost predicate SpellsTok(f: Foreign, text: string, t: Tok)
  {
    match t
    case Ident(name) => text == name && AttributePaths.IsPath(name)
    case StringTok(value) =>
      && |text| >= 2 && Lexical.IsQuote(text[0]) && text[|text| - 1] == text[0]
      && SpellsText(text[1..|text| - 1], text[0], value)
    case IntTok(n) => ParseI64(text) == Some(n)
    case FloatTok(x) => SpellsFloat(f, text, x)
    case _ => forall floats :: text == TokText(floats, t)
  }

  lemma StringSpelled(f: Foreign, s: string, i: nat)
    requires i < |s| && LexString(s, i).Ok?
    ensures SpellsTok(f, s[i..LexString(s, i).value.end], LexString(s, i).value.tok)
  {
    var l := LexString(s, i).value;
    LiteralExactly(s, i, l.tok.s, l.end);
    var text := s[i..l.end];
    assert text[0] == s[i] && text[|text| - 1] == s[l.end - 1] && text[1..|text| - 1] == s[i + 1..l.end - 1];
  }

  lemma WordSpelled(f: Foreign, s: string, i: nat)
    requires i < |s| && IsIdentStart(s[i]) && LexWord(s, i).Ok?
    ensures SpellsTok(f, s[i..LexWord(s, i).value.end], LexWord(s, i).value.tok)
  {
    var l := LexWord(s, i).value;
    if l.tok.Ident? {
      AttributePaths.IdentIsPath(s, i);
    } else {
      KeywordSpelled(s[i..l.end]);
    }
  }

  lemma KeywordSpelled(word: string)
    requires !Keyword(word).Ident?
    ensures forall floats :: TokText(floats, Keyword(word)) == word
  {
  }

  lemma NumberSpelled(f: Foreign, s: string, i: nat)
    requires i < |s| && LexNumber(f, s, i).Ok?
    ensures SpellsTok(f, s[i..LexNumber(f, s, i).value.end], LexNumber(f, s, i).value.tok)
  {
    if LexNumber(f, s, i).value.tok.FloatTok? {
      FloatSpelled(f, s, i);
    }
  }

  /** Every token is spelled by the text it was read from. */
  lemma {:induction false} TokenSpelled(f: Foreign, s: string, i: nat)
    requires i < |s| && LexOne(f, s, i).Ok?
    ensures SpellsTok(f, s[i..LexOne(f, s, i).value.end], LexOne(f, s, i).value.tok)
  {
    var c := s[i];
    if Lexical.IsQuote(c) {
      StringSpelled(f, s, i);
    } else if c == '-' || IsDigit(c) {
      NumberSpelled(f, s, i);
    } else if IsIdentStart(c) {
      WordSpelled(f, s, i);
    } else {
      SymbolSpelled(f, s, i);
    }
  }

  lemma SymbolSpelled(f: Foreign, s: string, i: nat)
    requires i < |s| && LexOne(f, s, i).Ok?
    requires !Lexical.IsQuote(s[i]) && s[i] != '-' && !IsDigit(s[i]) && !IsIdentStart(s[i])
    ensures SpellsTok(f, s[i..LexOne(f, s, i).value.end], LexOne(f, s, i).value.tok)
  {
    var l := LexOne(f, s, i).value;
    assert s[i..i + 1] == [s[i]];
    if l.end == i + 2 {
      assert s[i..i + 2] == [s[i], s[i + 1]];
    }
  }

  /**
   * Tokens are read as far as they go: no digit follows a number, nor an exponent, which is refused, and
   * nothing that would continue a word follows a word.
   */
  lemma {:induction false} TokenEnds(f: Foreign, s: string, i: nat)
    requires i < |s| && LexOne(f, s, i).Ok? && LexOne(f, s, i).value.end < |s|
    ensures var l := LexOne(f, s, i).value;
      && (l.tok.IntTok? ==> !IsDigit(s[l.end]) && s[l.end] !in {'.', 'e', 'E'})
      && (l.tok.FloatTok? ==> !IsDigit(s[l.end]) && s[l.end] !in {'e', 'E'})
      && (IsIdentStart(s[i]) ==> s[l.end] != '.' && ('[' !in s[i..l.end] ==> !IsSegmentChar(s[l.end])))
  {
    var c := s[i];
    if c == '-' || IsDigit(c) {
      NumberEnds(f, s, i);
    } else if IsIdentStart(c) {
      PathStops(s, i, true);
      if LexPath(s, i, true).value.bracketed {
        BracketedShows(s, i, true);
      }
    }
  }

  lemma {:induction false} BracketedShows(s: string, i: nat, first: bool)
    requires i <= |s| && LexPath(s, i, first).Ok? && LexPath(s, i, first).value.bracketed
    ensures '[' in s[i..LexPath(s, i, first).value.end]
    decreases |s| - i
  {
    var segment := LexSegment(s, i, first).value;
    var end := LexPath(s, i, first).value.end;
    if segment.bracketed {
      var open := SpanEnd(s, if !first && At(s, i, '$') then i + 1 else i, SegmentClass);
      assert s[i..end][open - i] == '[';
    } else {
      BracketedShows(s, segment.end + 1, false);
      var k :| 0 <= k < |s[segment.end + 1..end]| && s[segment.end + 1..end][k] == '[';
      assert s[i..end][segment.end + 1 - i + k] == '[';
    }
  }

  lemma NumberEnds(f: Foreign, s: string, i: nat)
    requires i < |s| && LexNumber(f, s, i).Ok? && LexNumber(f, s, i).value.end < |s|
    ensures var l := LexNumber(f, s, i).value;
      !IsDigit(s[l.end]) && s[l.end] !in {'e', 'E'} && (l.tok.IntTok? ==> s[l.end] != '.')
  {
    var intStart := if s[i] == '-' then i + 1 else i;
    SpanShape(s, intStart, Digit);
    var intEnd := SpanEnd(s, intStart, Digit);
    if At(s, intEnd, '.') {
      SpanShape(s, intEnd + 1, Digit);
    }
  }

  lemma SegmentStops(s: string, i: nat, first: bool)
    requires i <= |s| && LexSegment(s, i, first).Ok? && LexSegment(s, i, first).value.end < |s|
    ensures !LexSegment(s, i, first).value.bracketed ==> !IsSegmentChar(s[LexSegment(s, i, first).value.end])
  {
    SpanShape(s, if !first && At(s, i, '$') then i + 1 else i, SegmentClass);
  }

  lemma {:induction false} PathStops(s: string, i: nat, first: bool)
    requires i <= |s| && LexPath(s, i, first).Ok? && LexPath(s, i, first).value.end < |s|
    ensures s[LexPath(s, i, first).value.end] != '.'
    ensures !LexPath(s, i, first).value.bracketed ==> !IsSegmentChar(s[LexPath(s, i, first).value.end])
    decreases |s| - i
  {
    var segment := LexSegment(s, i, first).value;
    if At(s, segment.end, '.') {
      PathStops(s, segment.end + 1, false);
    } else {
      SegmentStops(s, i, first);
    }
  }

  /** The text from `i` on is white space and spellings of these tokens, in this order, and nothing else. */
  ghost predicate Spelled(f: Foreign, s: string, i: nat, ts: seq<Tok>)
    requires i <= |s|
    decreases |ts|
  {
    exists start: nat ::
      && i <= start <= |s| && AllSpace(s[i..start])
      && if ts == [] then start == |s|
         else exists end: nat :: start < end <= |s| && SpellsTok(f, s[start..end], ts[0]) && Spelled(f, s, end, ts[1..])
  }

  predicate AllSpace(s: string)
  {
    forall k :: 0 <= k < |s| ==> IsAsciiSpace(s[k])
  }

  lemma SpaceBetween(s: string, i: nat, start: nat)
    requires i <= |s| && start == SpanEnd(s, i, Space)
    ensures AllSpace(s[i..start])
  {
    SpanShape(s, i, Space);
    forall k | 0 <= k < |s[i..start]|
      ensures IsAsciiSpace(s[i..start][k])
    {
      assert In(s[i + k], Space);
    }
  }

  /** Lexing skips nothing but white space: a text that lexes is spelled by its tokens. */
  lemma {:induction false} TokensSpell(f: Foreign, s: string, i: nat, ts: seq<Tok>)
    requires i <= |s| && Tokenize(f, s, i) == Ok(ts)
    ensures Spelled(f, s, i, ts)
    decreases |s| - i
  {
    TokenStep(f, s, i);
    var start := SpanEnd(s, i, Space);
    SpaceBetween(s, i, start);
    if start < |s| {
      var l := LexOne(f, s, start).value;
      TokenSpelled(f, s, start);
      TokensSpell(f, s, l.end, ts[1..]);
      assert start < l.end <= |s| && SpellsTok(f, s[start..l.end], ts[0]) && Spelled(f, s, l.end, ts[1..]);
    }
  }
}
