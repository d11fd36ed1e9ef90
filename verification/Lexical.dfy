/** The one reader for a quoted literal, and the one rule for a backslash inside it. */
module Lexical {
  import opened Values
  import opened Text
  import opened Utf8

  /** What was refused. Positions are character offsets. */
  datatype Fault =
    | NotALiteral(at: nat)
    | Unterminated(at: nat)
    | BadEscape(at: nat)
    | TrailingText(at: nat)

  /** The content with escapes resolved, and the index just past the closing quote. */
  datatype Quoted = Quoted(value: string, end: nat)

  predicate IsQuote(c: char)
  {
    c == '"' || c == '\''
  }

  predicate IsEscapable(c: char)
  {
    c == '\\' || IsQuote(c)
  }

  /** `read_literal` on characters. */
  function ReadLiteral(s: string, open: nat): (r: Result<Quoted, Fault>)
    ensures r.Ok? ==> open + 1 < r.value.end <= |s| && IsQuote(s[open])
  {
    if open < |s| && IsQuote(s[open]) then ReadBody(s, open, open + 1, "") else Err(NotALiteral(open))
  }

  function ReadBody(s: string, open: nat, i: nat, value: string): (r: Result<Quoted, Fault>)
    requires open < i && open < |s|
    ensures r.Ok? ==> i < r.value.end <= |s|
    decreases |s| - i
  {
    if i >= |s| then Err(Unterminated(open))
    else if s[i] == s[open] then Ok(Quoted(value, i + 1))
    else if s[i] == '\\' then
      if i + 1 >= |s| then Err(Unterminated(open))
      else if IsEscapable(s[i + 1]) then ReadBody(s, open, i + 2, value + [s[i + 1]])
      else Err(BadEscape(i))
    else ReadBody(s, open, i + 1, value + [s[i]])
  }

  /** `skip_literal`: the index just past the literal, or nothing. */
  function SkipLiteral(s: string, open: nat): (r: Option<nat>)
    ensures r.Some? ==> open + 1 < r.value <= |s|
  {
    match ReadLiteral(s, open)
    case Ok(q) => Some(q.end)
    case Err(_) => None
  }

  /** `read_whole_literal`: exactly one literal, or a bare word. */
  function ReadWhole(s: string): (r: Result<Option<string>, Fault>)
  {
    var t := Trim(s);
    var lead := |s| - |TrimStart(s)|;
    if t == [] || !IsQuote(t[0]) then Ok(None)
    else
      match ReadLiteral(t, 0)
      case Err(NotALiteral(at)) => Err(NotALiteral(at + lead))
      case Err(Unterminated(at)) => Err(Unterminated(at + lead))
      case Err(BadEscape(at)) => Err(BadEscape(at + lead))
      case Err(TrailingText(at)) => Err(TrailingText(at + lead))
      case Ok(q) => if q.end != |t| then Err(TrailingText(lead + q.end)) else Ok(Some(q.value))
  }

  // ----- The escaped spelling -----

  function Escape(value: string, quote: char): (s: string)
  {
    if value == [] then []
    else (if value[0] == '\\' || value[0] == quote then ['\\', value[0]] else [value[0]]) + Escape(value[1..], quote)
  }

  function Spell(value: string, quote: char): (s: string)
  {
    [quote] + Escape(value, quote) + [quote]
  }

  lemma {:induction false} ReadBodyOfEscape(s: string, open: nat, i: nat, done: string, value: string)
    requires open < i && open < |s| && IsQuote(s[open])
    requires i + |Escape(value, s[open])| < |s|
    requires s[i..i + |Escape(value, s[open])|] == Escape(value, s[open])
    requires s[i + |Escape(value, s[open])|] == s[open]
    ensures ReadBody(s, open, i, done) == Ok(Quoted(done + value, i + |Escape(value, s[open])| + 1))
    decreases |value|
  {
    var spelled := Escape(value, s[open]);
    if value == [] {
      assert done + value == done;
    } else {
      var step := if value[0] == '\\' || value[0] == s[open] then 2 else 1;
      var rest := Escape(value[1..], s[open]);
      assert spelled[step..] == rest;
      assert s[i] == spelled[0] && (step == 2 ==> s[i + 1] == spelled[1]);
      assert s[i + step..i + step + |rest|] == rest by {
        assert s[i + step..i + |spelled|] == s[i..i + |spelled|][step..];
      }
      ReadBodyOfEscape(s, open, i + step, done + [value[0]], value[1..]);
      assert done + [value[0]] + value[1..] == done + value;
    }
  }

  /** Reading an escaped spelling inside any text gives the value back and stops just past it. */
  lemma {:induction false} LiteralRoundTrip(before: string, value: string, quote: char, after: string)
    requires IsQuote(quote)
    ensures ReadLiteral(before + Spell(value, quote) + after, |before|)
      == Ok(Quoted(value, |before| + |Spell(value, quote)|))
  {
    var s, open := before + Spell(value, quote) + after, |before|;
    var spelled := Escape(value, quote);
    assert s[open] == quote;
    assert s[open + 1..open + 1 + |spelled|] == spelled;
    assert s[open + 1 + |spelled|] == quote;
    ReadBodyOfEscape(s, open, open + 1, "", value);
    assert "" + value == value;
  }

  /** A whole-string read of a spelling returns its value, whatever white space surrounds it. */
  lemma {:induction false} WholeLiteralRoundTrip(before: string, value: string, quote: char, after: string)
    requires IsQuote(quote) && AllWhitespace(before) && AllWhitespace(after)
    ensures ReadWhole(before + Spell(value, quote) + after) == Ok(Some(value))
  {
    var s := Spell(value, quote);
    TrimSurrounded(before, s, after);
    LiteralRoundTrip("", value, quote, "");
    assert "" + s + "" == s;
  }

  /** A read depends only on the text from the opening quote on, so it may be shifted. */
  lemma {:induction false} ReadBodyShift(s: string, t: string, d: nat, open: nat, i: nat, value: string)
    requires d <= |s| && s[d..] == t && open < i && open < |t|
    ensures ReadBody(s, d + open, d + i, value).Ok? <==> ReadBody(t, open, i, value).Ok?
    ensures ReadBody(t, open, i, value).Ok? ==>
      ReadBody(s, d + open, d + i, value).value ==
        Quoted(ReadBody(t, open, i, value).value.value, d + ReadBody(t, open, i, value).value.end)
    decreases |t| - i
  {
    assert t[open] == s[d + open];
    if i < |t| {
      assert t[i] == s[d + i];
      if t[i] == '\\' && i + 1 < |t| {
        assert t[i + 1] == s[d + i + 1];
        if IsEscapable(t[i + 1]) && t[i] != t[open] {
          ReadBodyShift(s, t, d, open, i + 2, value + [t[i + 1]]);
        }
      } else if t[i] != t[open] && t[i] != '\\' {
        ReadBodyShift(s, t, d, open, i + 1, value + [t[i]]);
      }
    }
  }

  lemma SkipShift(s: string, t: string, d: nat, open: nat)
    requires d <= |s| && s[d..] == t && open < |t|
    ensures SkipLiteral(s, d + open) ==
      (if SkipLiteral(t, open).Some? then Some(d + SkipLiteral(t, open).value) else None)
  {
    assert t[open] == s[d + open];
    if IsQuote(t[open]) {
      ReadBodyShift(s, t, d, open, open + 1, "");
    }
  }

  lemma {:induction false} BodyInPrefix(s: string, k: nat, open: nat, i: nat, value: string)
    requires open < i && open < k <= |s|
    ensures ReadBody(s[..k], open, i, value).Ok? ==> ReadBody(s, open, i, value) == ReadBody(s[..k], open, i, value)
    ensures ReadBody(s, open, i, value).Ok? && ReadBody(s, open, i, value).value.end <= k ==>
      ReadBody(s[..k], open, i, value) == ReadBody(s, open, i, value)
    decreases |s| - i
  {
    var p := s[..k];
    if i < k {
      assert p[i] == s[i] && p[open] == s[open];
      if s[i] != s[open] {
        if s[i] == '\\' {
          if i + 1 < k {
            assert p[i + 1] == s[i + 1];
          }
          if i + 1 < |s| && IsEscapable(s[i + 1]) {
            BodyInPrefix(s, k, open, i + 2, value + [s[i + 1]]);
          }
        } else {
          BodyInPrefix(s, k, open, i + 1, value + [s[i]]);
        }
      }
    }
  }

  lemma SkipInPrefix(s: string, k: nat, open: nat)
    requires open < k <= |s|
    ensures SkipLiteral(s[..k], open).Some? ==> SkipLiteral(s, open) == SkipLiteral(s[..k], open)
    ensures SkipLiteral(s, open).Some? && SkipLiteral(s, open).value <= k ==>
      SkipLiteral(s[..k], open) == SkipLiteral(s, open)
  {
    assert s[..k][open] == s[open];
    if IsQuote(s[open]) {
      BodyInPrefix(s, k, open, open + 1, "");
    }
  }

  lemma {:induction false} BodyCloses(s: string, open: nat, i: nat, value: string)
    requires open < i && open < |s| && ReadBody(s, open, i, value).Ok?
    ensures s[ReadBody(s, open, i, value).value.end - 1] == s[open]
    decreases |s| - i
  {
    if s[i] != s[open] {
      if s[i] == '\\' {
        BodyCloses(s, open, i + 2, value + [s[i + 1]]);
      } else {
        BodyCloses(s, open, i + 1, value + [s[i]]);
      }
    }
  }

  /** A literal ends with the quote that opened it. */
  lemma LiteralCloses(s: string, open: nat)
    requires SkipLiteral(s, open).Some?
    ensures IsQuote(s[SkipLiteral(s, open).value - 1])
  {
    BodyCloses(s, open, open + 1, "");
  }

  // ----- Reading by bytes -----

  /** `char_offset`: the characters before byte `at`, or `at` itself where a character is cut. */
  function CharOffset(src: seq<byte>, at: nat): (n: nat)
  {
    if at <= |src| && IsBoundary(src, at) then LeadBytes(src[..at]) else at
  }

  /** `chars().count()`: every byte that is not a continuation starts a character. */
  function LeadBytes(bs: seq<byte>): (n: nat)
  {
    if bs == [] then 0 else LeadBytes(bs[..|bs| - 1]) + (if IsContinuation(bs[|bs| - 1]) then 0 else 1)
  }

  lemma {:induction false} LeadBytesAppend(a: seq<byte>, b: seq<byte>)
    ensures LeadBytes(a + b) == LeadBytes(a) + LeadBytes(b)
  {
    if b == [] {
      assert a + b == a;
    } else {
      assert (a + b)[..|a + b| - 1] == a + b[..|b| - 1];
      LeadBytesAppend(a, b[..|b| - 1]);
    }
  }

  lemma {:induction false} LeadBytesOfEncode(s: string)
    ensures LeadBytes(Encode(s)) == |s|
  {
    if s != [] {
      var code := EncodeChar(s[0]);
      CodePoint(s[0]);
      LeadBytesAppend(code, Encode(s[1..]));
      LeadBytesOfEncode(s[1..]);
      assert LeadBytes(code) == 1 by {
        assert code == code[..1] + code[1..];
        LeadBytesAppend(code[..1], code[1..]);
        NoLeadBytes(code[1..]);
        assert code[..1][..0] == [];
      }
    }
  }

  lemma {:induction false} NoLeadBytes(bs: seq<byte>)
    requires forall j :: 0 <= j < |bs| ==> IsContinuation(bs[j])
    ensures LeadBytes(bs) == 0
  {
    if bs != [] {
      NoLeadBytes(bs[..|bs| - 1]);
    }
  }

  /** A reported position counts characters, not bytes. */
  lemma {:induction false} CharOffsetIsIndex(s: string, k: nat)
    requires k <= |s|
    ensures CharOffset(Encode(s), Offset(s, k)) == k
  {
    assert s == s[..k] + s[k..];
    EncodeAppend(s[..k], s[k..]);
    assert Encode(s)[..Offset(s, k)] == Encode(s[..k]);
    LeadBytesOfEncode(s[..k]);
    if k < |s| {
      DecodeAtOffset(s, k);
    } else {
      OffsetEnd(s);
    }
  }

  lemma OffsetsAscend(s: string, j: nat, k: nat)
    requires j < k <= |s|
    ensures Offset(s, j) < Offset(s, k)
    decreases k - j
  {
    CharAtOffset(s, k - 1);
    if j < k - 1 {
      OffsetsAscend(s, j, k - 1);
    }
  }

  /** A character-level result as byte indices. */
  ghost function ByteResult(s: string, r: Result<Quoted, Fault>): (b: Result<Quoted, Fault>)
    requires r.Ok? ==> r.value.end <= |s|
  {
    match r
    case Ok(q) => Ok(Quoted(q.value, Offset(s, q.end)))
    case Err(e) => Err(e)
  }

  predicate IsQuoteByte(b: byte)
  {
    b == 34 || b == 39
  }

  /** One iteration's view of the cursor: byte `i` is the offset of character `j`. */
  lemma CursorStep(s: string, j: nat)
    requires j < |s|
    ensures Offset(s, j) < |Encode(s)| && IsBoundary(Encode(s), Offset(s, j))
    ensures DecodeAt(Encode(s), Offset(s, j)) == Some(s[j])
    ensures Offset(s, j + 1) == Offset(s, j) + |EncodeChar(s[j])| <= |Encode(s)|
    ensures Encode(s)[Offset(s, j)] == 34 <==> s[j] == '"'
    ensures Encode(s)[Offset(s, j)] == 39 <==> s[j] == '\''
    ensures Encode(s)[Offset(s, j)] == 92 <==> s[j] == '\\'
    ensures IsEscapable(s[j]) ==> Offset(s, j + 1) == Offset(s, j) + 1
  {
    CharAtOffset(s, j);
    DecodeAtOffset(s, j);
  }

  /** A backslash and the character after it, seen from the cursor. */
  lemma EscapeStep(s: string, j: nat)
    requires j < |s| && s[j] == '\\'
    ensures Offset(s, j) + 1 < |Encode(s)| <==> j + 1 < |s|
    ensures j + 1 < |s| ==>
      var b := Encode(s)[Offset(s, j) + 1];
      && (b == 34 <==> s[j + 1] == '"')
      && (b == 39 <==> s[j + 1] == '\'')
      && (b == 92 <==> s[j + 1] == '\\')
      && (IsEscapable(s[j + 1]) ==> Offset(s, j + 2) == Offset(s, j) + 2 <= |Encode(s)|)
  {
    CursorStep(s, j);
    if j + 1 < |s| {
      CursorStep(s, j + 1);
      assert j + 1 + 1 == j + 2;
    } else {
      OffsetEnd(s);
    }
  }

  /**
   * `read_literal` as written, over the bytes of the text `s`: it reads exactly what the
   * character-level reader reads, and never finds the cursor inside a character.
   */
  method ReadLiteralBytes(src: seq<byte>, open: nat, ghost s: string) returns (r: Result<Quoted, Fault>)
    requires src == Encode(s)
    ensures forall k :: 0 <= k < |s| && open == Offset(s, k) ==> r == ByteResult(s, ReadLiteral(s, k))
    ensures (forall k :: 0 <= k < |s| ==> open != Offset(s, k)) ==> r == Err(NotALiteral(CharOffset(src, open)))
  {
    if open >= |src| || !IsQuoteByte(src[open]) {
      r := Err(NotALiteral(CharOffset(src, open)));
      forall k | 0 <= k < |s| && open == Offset(s, k) ensures r == ByteResult(s, ReadLiteral(s, k)) {
        CursorStep(s, k);
        CharOffsetIsIndex(s, k);
      }
      return;
    }
    ghost var k0 := AsciiByteIsChar(s, open);
    r := ReadBodyBytes(src, open, s, k0);
    forall k | 0 <= k < |s| && open == Offset(s, k) ensures k == k0 {
      if k < k0 {
        OffsetsAscend(s, k, k0);
      } else if k0 < k {
        OffsetsAscend(s, k0, k);
      }
    }
  }

  method ReadBodyBytes(src: seq<byte>, open: nat, ghost s: string, ghost k0: nat) returns (r: Result<Quoted, Fault>)
    requires src == Encode(s) && k0 < |s| && open == Offset(s, k0) && open < |src| && IsQuoteByte(src[open])
    ensures r == ByteResult(s, ReadLiteral(s, k0))
  {
    CursorStep(s, k0);
    CharOffsetIsIndex(s, k0);
    OffsetEnd(s);
    var quote := src[open];
    var value := "";
    var i := open + 1;
    ghost var j := k0 + 1;
    while i < |src|
      invariant k0 < j <= |s| && i == Offset(s, j) <= |src|
      invariant ReadLiteral(s, k0) == ReadBody(s, k0, j, value)
      decreases |s| - j
    {
      if j == |s| {
        assert false;
      }
      CursorStep(s, j);
      var b := src[i];
      if b == quote {
        return Ok(Quoted(value, i + 1));
      }
      if b == 92 {
        EscapeStep(s, j);
        if i + 1 >= |src| {
          return Err(Unterminated(CharOffset(src, open)));
        }
        var escaped := src[i + 1];
        if escaped == 92 {
          value := value + ['\\'];
        } else if escaped == 39 {
          value := value + ['\''];
        } else if escaped == 34 {
          value := value + ['"'];
        } else {
          CharOffsetIsIndex(s, j);
          return Err(BadEscape(CharOffset(src, i)));
        }
        i := i + 2;
        j := j + 2;
      } else {
        // The source reports a cut character or a missing one here; neither can happen.
        if !IsBoundary(src, i) {
          assert false;
        }
        var c := DecodeAt(src, i);
        if c.None? {
          assert false;
        }
        value := value + [c.value];
        i := i + |EncodeChar(c.value)|;
        j := j + 1;
      }
    }
    assert j == |s| by {
      if j < |s| {
        CursorStep(s, j);
      }
    }
    return Err(Unterminated(CharOffset(src, open)));
  }
}
