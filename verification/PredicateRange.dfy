/** What parsing can return: exactly the trees that have a printed form. */
module PredicateRange {
  import opened Values
  import opened Text
  import opened Rules
  import opened Lexer
  import opened Predicates
  import opened AttributePaths
  import opened PredicateParser
  import opened PredicateSyntax
  import opened PredicatePrinter
  import opened PredicateText

  // ---- Tokens the lexer produces

  /** A decimal that float parsing reads as `x`, where there is one. */
  ghost function Decimal(f: Foreign, x: F64): (s: string)
    ensures (exists text :: SpellsFloat(f, text, x)) ==> SpellsFloat(f, s, x)
  {
    if text :| SpellsFloat(f, text, x) then text else ""
  }

  ghost function Decimals(f: Foreign): (floats: F64 -> string)
    ensures forall x :: floats(x) == Decimal(f, x)
  {
    x => Decimal(f, x)
  }

  lemma DigitsBetween(s: string, i: nat, end: nat)
    requires i <= |s| && end == SpanEnd(s, i, Digit)
    ensures AllDigits(s[i..end])
  {
    SpanShape(s, i, Digit);
    forall k | 0 <= k < |s[i..end]|
      ensures IsDigit(s[i..end][k])
    {
      assert In(s[i + k], Digit);
    }
  }

  /** A float literal is spelled by the decimal it was read from. */
  lemma FloatSpelled(f: Foreign, s: string, start: nat)
    requires start < |s| && LexNumber(f, s, start).Ok? && LexNumber(f, s, start).value.tok.FloatTok?
    ensures var l := LexNumber(f, s, start).value; SpellsFloat(f, s[start..l.end], l.tok.x)
  {
    var intStart := if s[start] == '-' then start + 1 else start;
    var intEnd := SpanEnd(s, intStart, Digit);
    var end := SpanEnd(s, intEnd + 1, Digit);
    DigitsBetween(s, intStart, intEnd);
    DigitsBetween(s, intEnd + 1, end);
    DecimalBetween(s, start, intStart, intEnd, end);
  }

  lemma DecimalBetween(s: string, start: nat, intStart: nat, dot: nat, end: nat)
    requires start < |s| && intStart == if s[start] == '-' then start + 1 else start
    requires intStart < dot && dot + 1 < end <= |s| && s[dot] == '.'
    requires AllDigits(s[intStart..dot]) && AllDigits(s[dot + 1..end])
    ensures exists d: nat :: IsDecimalAt(s[start..end], d)
  {
    var text, d := s[start..end], dot - start;
    assert text[0] == s[start] && text[d] == '.';
    SliceOfSlice(s, start, end, intStart, dot);
    SliceOfSlice(s, start, end, dot + 1, end);
    assert IsDecimalAt(text, d);
  }

  lemma SliceOfSlice(s: string, a: nat, b: nat, c: nat, d: nat)
    requires a <= c <= d <= b <= |s|
    ensures s[a..b][c - a..d - a] == s[c..d]
    ensures d == b ==> s[a..b][c - a..] == s[c..d]
  {
    var t := s[a..b][c - a..d - a];
    assert forall k :: 0 <= k < |t| ==> t[k] == s[c + k];
    assert d == b ==> s[a..b][c - a..] == t;
  }

  lemma LexedSpellable(f: Foreign, s: string, i: nat)
    requires i < |s| && LexOne(f, s, i).Ok?
    ensures Spellable(f, Decimals(f), LexOne(f, s, i).value.tok)
  {
    var t := LexOne(f, s, i).value.tok;
    if t.Ident? {
      IdentIsPath(s, i);
    } else if t.FloatTok? {
      FloatSpelled(f, s, i);
    }
  }

  lemma {:induction false} TokenizedSpellable(f: Foreign, s: string, i: nat, r: Result<seq<Tok>, Lexer.Fault>)
    requires i <= |s| && r == Tokenize(f, s, i) && r.Ok?
    ensures AllSpellable(f, Decimals(f), r.value)
    decreases |s| - i
  {
    TokenStep(f, s, i);
    var start := SpanEnd(s, i, Space);
    if start < |s| {
      var l := LexOne(f, s, start).value;
      LexedSpellable(f, s, start);
      TokenizedSpellable(f, s, l.end, Tokenize(f, s, l.end));
    }
  }

  // ---- Trees sentences mean

  /** The tree has a printed form. */
  ghost predicate Sayable(f: Foreign, floats: F64 -> string, e: Expression)
  {
    Printable(e) && Expressible(f, floats, e)
  }

  lemma SpellableParts(f: Foreign, floats: F64 -> string, a: seq<Tok>, b: seq<Tok>)
    requires AllSpellable(f, floats, a + b)
    ensures AllSpellable(f, floats, a) && AllSpellable(f, floats, b)
  {
    forall k | 0 <= k < |a| ensures Spellable(f, floats, a[k]) {
      assert (a + b)[k] == a[k];
    }
    forall k | 0 <= k < |b| ensures Spellable(f, floats, b[k]) {
      assert (a + b)[|a| + k] == b[k];
    }
  }

  lemma {:induction false} NegationSayable(f: Foreign, floats: F64 -> string, e: Expression)
    requires Sayable(f, floats, e)
    ensures Sayable(f, floats, NormalizeNot(e))
    decreases e
  {
    match e
    case Cond(IsTrue(key)) => KeySayable(f, floats, key);
    case Cond(IsFalse(key)) => KeySayable(f, floats, key);
    case And(parts) =>
      forall k | 0 <= k < |parts|
        ensures Sayable(f, floats, NormalizeNotAll(parts)[k])
      {
        NegationSayable(f, floats, parts[k]);
      }
    case Or(parts) =>
      forall k | 0 <= k < |parts|
        ensures Sayable(f, floats, NormalizeNotAll(parts)[k])
      {
        NegationSayable(f, floats, parts[k]);
      }
    case _ =>
  }

  lemma KeySayable(f: Foreign, floats: F64 -> string, key: string)
    ensures Sayable(f, floats, Cond(IsTrue(key))) <==> Sayable(f, floats, Cond(IsFalse(key)))
  {
    assert ConditionToks(IsTrue(key))[0] == Ident(key);
    assert ConditionToks(IsFalse(key))[2] == Ident(key);
  }

  /** A sentence of spellable tokens means a tree with a printed form. */
  lemma {:induction false} SentenceSayable(f: Foreign, floats: F64 -> string, s: Sentence)
    requires Grammatical(s) && AllSpellable(f, floats, Written(s))
    ensures Sayable(f, floats, Meaning(s))
    decreases s, 1
  {
    match s
    case Atom(_) =>
    case Group(inner) =>
      SpellableParts(f, floats, [LParen] + Written(inner), [RParen]);
      SpellableParts(f, floats, [LParen], Written(inner));
      SentenceSayable(f, floats, inner);
    case Bang(inner) =>
      SpellableParts(f, floats, [NotTok], Written(inner));
      SentenceSayable(f, floats, inner);
    case Ands(parts) => PartsSayable(f, floats, parts, AndTok);
    case Ors(parts) => PartsSayable(f, floats, parts, OrTok);
    case Require(parts) =>
      SpellableParts(f, floats, [RequireTok, LParen] + Joined(parts, Comma), [RParen]);
      SpellableParts(f, floats, [RequireTok, LParen], Joined(parts, Comma));
      PartsSayable(f, floats, parts, Comma);
      assert Meanings(parts)[0] == Meaning(parts[0]);
      if |parts| == 1 {
        NegationSayable(f, floats, Meaning(parts[0]));
      } else {
        NegationSayable(f, floats, And(Meanings(parts)));
      }
  }

  lemma {:induction false} PartsSayable(f: Foreign, floats: F64 -> string, parts: seq<Sentence>, separator: Tok)
    requires parts != [] && AllGrammatical(parts) && AllSpellable(f, floats, Joined(parts, separator))
    ensures forall k :: 0 <= k < |parts| ==> Sayable(f, floats, Meanings(parts)[k])
    decreases parts, 0
  {
    if |parts| > 1 {
      SpellableParts(f, floats, Written(parts[0]) + [separator], Joined(parts[1..], separator));
      SpellableParts(f, floats, Written(parts[0]), [separator]);
      PartsSayable(f, floats, parts[1..], separator);
      assert forall k :: 1 <= k < |parts| ==> Meanings(parts)[k] == Meanings(parts[1..])[k - 1];
    }
    SentenceSayable(f, floats, parts[0]);
  }

  // ---- The range of the parser

  /** Some text parses to the tree. */
  ghost predicate Parses(f: Foreign, e: Expression)
  {
    exists src :: ParsePredicate(f, src) == Ok(e)
  }

  /** Every tree parsed from any text has a printed form. */
  lemma {:induction false} ParsedSayable(f: Foreign, src: string)
    requires ParsePredicate(f, src).Ok?
    ensures Sayable(f, Decimals(f), ParsePredicate(f, src).value)
  {
    var r := Tokenize(f, Trim(src), 0);
    TokenizedSpellable(f, Trim(src), 0, r);
    var e := ParseTokens(r.value).value;
    ParsesExactly(r.value, e);
    var s :| Grammatical(s) && Written(s) == r.value && Meaning(s) == e;
    SentenceSayable(f, Decimals(f), s);
  }

  /**
   * The round trip covers the whole range of the parser: a tree comes from some text exactly when it has
   * a printed form, that is no `Always`, connectives of at least two parts, legal paths, and floats some
   * decimal is read as.
   */
  lemma {:induction false} RangeExactly(f: Foreign, e: Expression)
    ensures Parses(f, e) <==> exists floats :: Sayable(f, floats, e)
  {
    if Parses(f, e) {
      var src :| ParsePredicate(f, src) == Ok(e);
      ParsedSayable(f, src);
    }
    if floats :| Sayable(f, floats, e) {
      PredicateRoundTrip(f, floats, e);
    }
  }

  /** Printing what was parsed, from any text, and parsing it again gives the same tree. */
  lemma {:induction false} ReprintParses(f: Foreign, src: string, floats: F64 -> string)
    requires ParsePredicate(f, src).Ok? && floats == Decimals(f)
    ensures var e := ParsePredicate(f, src).value;
      Printable(e) && ParsePredicate(f, Print(floats, e)) == Ok(e)
  {
    ParsedSayable(f, src);
    PredicateRoundTrip(f, floats, ParsePredicate(f, src).value);
  }
}
