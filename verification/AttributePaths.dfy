/** The grammar of attribute paths, and the proof that the lexer accepts exactly it. */
module AttributePaths {
  import opened Values
  import opened Text
  import opened Lexer

  /** One path segment: a name, optionally reserved by `$`, and the names of its `[...]` group, if any. */
  datatype Segment = Segment(dollar: bool, name: string, group: seq<string>)

  predicate IsName(name: string)
  {
    name != [] && forall k :: 0 <= k < |name| ==> IsSegmentChar(name[k])
  }

  predicate AreNames(names: seq<string>)
  {
    names != [] ==> IsName(names[0]) && AreNames(names[1..])
  }

  predicate IsSegment(g: Segment, first: bool)
  {
    && IsName(g.name)
    && (g.dollar || first ==> IsIdentStart(g.name[0]))
    && !(g.dollar && first)
    && AreNames(g.group)
  }

  predicate ArePath(gs: seq<Segment>, first: bool)
  {
    gs != [] && IsSegment(gs[0], first) && (|gs| > 1 ==> ArePath(gs[1..], false))
  }

  function Dotted(names: seq<string>): (s: string)
  {
    if names == [] then "" else if |names| == 1 then names[0] else names[0] + "." + Dotted(names[1..])
  }

  function GroupText(names: seq<string>): (s: string)
  {
    if names == [] then "" else "[" + Dotted(names) + "]"
  }

  function SegmentText(g: Segment): (s: string)
  {
    (if g.dollar then "$" else "") + g.name + GroupText(g.group)
  }

  function PathText(gs: seq<Segment>): (s: string)
  {
    if gs == [] then "" else if |gs| == 1 then SegmentText(gs[0]) else SegmentText(gs[0]) + "." + PathText(gs[1..])
  }

  predicate HasGroup(gs: seq<Segment>)
  {
    gs != [] && (gs[0].group != [] || HasGroup(gs[1..]))
  }

  predicate IsReserved(word: string)
  {
    word in {"true", "false", "contains", "require", "exists", "in", "not"}
  }

  /** `key` is spelled by the path `gs` and is not reserved. */
  predicate Spells(gs: seq<Segment>, key: string)
  {
    && ArePath(gs, true) && PathText(gs) == key
    && !StartsWith(key, "not.") && (IsReserved(key) ==> HasGroup(gs))
  }

  ghost predicate IsPath(key: string)
  {
    exists gs :: Spells(gs, key)
  }

  /** `s` holds `part` at `i`. */
  predicate Has(s: string, i: nat, part: string)
  {
    i + |part| <= |s| && forall k :: 0 <= k < |part| ==> s[i + k] == part[k]
  }

  /** Nothing at `i` continues a path. */
  predicate EndsPath(s: string, i: nat)
  {
    i == |s| || (i < |s| && !IsSegmentChar(s[i]) && s[i] != '[' && s[i] != '.')
  }

  lemma HasSplit(s: string, i: nat, a: string, b: string)
    requires Has(s, i, a + b)
    ensures Has(s, i, a) && Has(s, i + |a|, b)
  {
    forall k | 0 <= k < |a| ensures s[i + k] == a[k] {
      assert (a + b)[k] == a[k];
    }
    forall k | 0 <= k < |b| ensures s[i + |a| + k] == b[k] {
      assert (a + b)[|a| + k] == b[k];
    }
  }

  lemma HasAt(s: string, i: nat, part: string, k: nat)
    requires Has(s, i, part) && k < |part|
    ensures s[i + k] == part[k]
  {
  }

  lemma HasSlice(s: string, i: nat, part: string)
    requires Has(s, i, part)
    ensures s[i..i + |part|] == part
  {
  }

  /** A run ends where its class does. */
  lemma {:induction false} SpanExact(s: string, i: nat, end: nat, k: Class)
    requires i <= end <= |s| && (end < |s| ==> !In(s[end], k))
    requires forall j :: i <= j < end ==> In(s[j], k)
    ensures SpanEnd(s, i, k) == end
    decreases end - i
  {
    if i < end {
      SpanExact(s, i + 1, end, k);
    }
  }

  lemma {:induction false} NoDoubleDot(s: string, i: nat)
    ensures !DoubleDot(s, i) <==> forall k :: i <= k < |s| - 1 ==> !(s[k] == '.' && s[k + 1] == '.')
    decreases |s| - i
  {
    if i + 1 < |s| {
      NoDoubleDot(s, i + 1);
    }
  }

  // ----- Accepting: a spelled path lexes -----

  lemma {:induction false} DottedShape(names: seq<string>)
    requires names != [] && AreNames(names)
    ensures var d := Dotted(names);
      && d != [] && d[0] != '.' && d[|d| - 1] != '.'
      && (forall k :: 0 <= k < |d| ==> IsSubscriptChar(d[k]))
      && (forall k :: 0 <= k < |d| - 1 ==> !(d[k] == '.' && d[k + 1] == '.'))
  {
    if |names| > 1 {
      DottedShape(names[1..]);
      var n, rest := names[0], Dotted(names[1..]);
      var d := Dotted(names);
      assert d == n + "." + rest;
      forall k | 0 <= k < |d| - 1 ensures !(d[k] == '.' && d[k + 1] == '.') {
        if k < |n| {
          assert d[k] == n[k];
        } else if k == |n| {
          assert d[k + 1] == rest[0];
        } else {
          assert d[k] == rest[k - |n| - 1] && d[k + 1] == rest[k - |n|];
        }
      }
    }
  }

  lemma DottedIsClean(names: seq<string>)
    requires names != [] && AreNames(names)
    ensures var d := Dotted(names);
      d != [] && !HasEmptySegment(d) && forall k :: 0 <= k < |d| ==> IsSubscriptChar(d[k])
  {
    DottedShape(names);
    NoDoubleDot(Dotted(names), 0);
  }

  lemma GroupLayout(s: string, open: nat, d: string)
    requires Has(s, open, "[" + d + "]")
    ensures Has(s, open + 1, d) && At(s, open + 1 + |d|, ']')
  {
    HasSplit(s, open, "[" + d, "]");
    HasSplit(s, open, "[", d);
    HasAt(s, open + 1 + |d|, "]", 0);
  }

  lemma GroupSpan(s: string, i: nat, d: string)
    requires Has(s, i, d) && At(s, i + |d|, ']') && forall k :: 0 <= k < |d| ==> IsSubscriptChar(d[k])
    ensures SpanEnd(s, i, SubscriptClass) == i + |d|
  {
    forall j | i <= j < i + |d| ensures In(s[j], SubscriptClass) {
      HasAt(s, i, d, j - i);
    }
    SpanExact(s, i, i + |d|, SubscriptClass);
  }

  lemma GroupLexes(s: string, open: nat, names: seq<string>)
    requires names != [] && AreNames(names) && Has(s, open, GroupText(names))
    ensures LexSubscript(s, open) == Ok(open + |GroupText(names)|)
  {
    DottedIsClean(names);
    GroupTextLexes(s, open, Dotted(names));
  }

  lemma GroupTextLexes(s: string, open: nat, d: string)
    requires Has(s, open, "[" + d + "]") && d != [] && !HasEmptySegment(d)
    requires forall k :: 0 <= k < |d| ==> IsSubscriptChar(d[k])
    ensures LexSubscript(s, open) == Ok(open + |d| + 2)
  {
    GroupLayout(s, open, d);
    assert SpanEnd(s, open + 1, SubscriptClass) == open + 1 + |d| by {
      GroupSpan(s, open + 1, d);
    }
    assert s[open + 1..open + 1 + |d|] == d by {
      HasSlice(s, open + 1, d);
    }
    SubscriptCloses(s, open, d);
  }

  lemma SubscriptCloses(s: string, open: nat, d: string)
    requires open + |d| + 1 < |s| && s[open + |d| + 1] == ']' && s[open + 1..open + 1 + |d|] == d
    requires d != [] && !HasEmptySegment(d) && SpanEnd(s, open + 1, SubscriptClass) == open + 1 + |d|
    ensures LexSubscript(s, open) == Ok(open + |d| + 2)
  {
  }

  lemma NameSpan(s: string, i: nat, name: string)
    requires IsName(name) && Has(s, i, name)
    requires i + |name| < |s| ==> !IsSegmentChar(s[i + |name|])
    ensures SpanEnd(s, i, SegmentClass) == i + |name|
  {
    forall j | i <= j < i + |name| ensures In(s[j], SegmentClass) {
      HasAt(s, i, name, j - i);
    }
    SpanExact(s, i, i + |name|, SegmentClass);
  }

  lemma SegmentStep(s: string, i: nat, first: bool, dollar: bool, end: nat)
    requires i <= |s| && dollar == (!first && At(s, i, '$'))
    requires dollar ==> i + 1 < |s| && IsIdentStart(s[i + 1])
    requires end == SpanEnd(s, if dollar then i + 1 else i, SegmentClass) && end > i
    ensures LexSegment(s, i, first) ==
      (if At(s, end, '[') then
         match LexSubscript(s, end) case Ok(after) => Ok(PathEnd(after, true)) case Err(e) => Err(e)
       else Ok(PathEnd(end, false)))
  {
  }

  /** Where the pieces of a spelled segment sit. */
  lemma SegmentLayout(s: string, i: nat, g: Segment)
    requires IsName(g.name) && AreNames(g.group) && Has(s, i, SegmentText(g))
    ensures var body := if g.dollar then i + 1 else i;
      var end := body + |g.name|;
      && (g.dollar ==> At(s, i, '$'))
      && Has(s, body, g.name) && s[body] == g.name[0]
      && (g.group != [] ==> At(s, end, '[') && Has(s, end, GroupText(g.group)))
      && i + |SegmentText(g)| == end + |GroupText(g.group)|
  {
    var rest := g.name + GroupText(g.group);
    if g.dollar {
      assert SegmentText(g) == "$" + rest;
      HasSplit(s, i, "$", rest);
      HasAt(s, i, "$", 0);
    } else {
      assert SegmentText(g) == rest;
    }
    var body := if g.dollar then i + 1 else i;
    HasSplit(s, body, g.name, GroupText(g.group));
    HasAt(s, body, g.name, 0);
    if g.group != [] {
      HasAt(s, body + |g.name|, GroupText(g.group), 0);
    }
  }

  lemma SegmentLexes(s: string, i: nat, g: Segment, first: bool)
    requires IsSegment(g, first) && Has(s, i, SegmentText(g))
    requires var end := i + |SegmentText(g)|; EndsPath(s, end) || At(s, end, '.')
    ensures LexSegment(s, i, first) == Ok(PathEnd(i + |SegmentText(g)|, g.group != []))
  {
    SegmentLayout(s, i, g);
    var body := if g.dollar then i + 1 else i;
    var end := body + |g.name|;
    NameSpan(s, body, g.name);
    SegmentStep(s, i, first, g.dollar, end);
    if g.group != [] {
      GroupLexes(s, end, g.group);
    }
  }

  lemma PathUnfold(s: string, i: nat, first: bool, end: nat, bracketed: bool)
    requires i <= |s| && LexSegment(s, i, first) == Ok(PathEnd(end, bracketed))
    ensures At(s, end, '.') ==> LexPath(s, i, first) == Bracketed(bracketed, LexPath(s, end + 1, false))
    ensures !At(s, end, '.') ==> LexPath(s, i, first) == Ok(PathEnd(end, bracketed))
  {
  }

  /** Where the head and the rest of a spelled path sit. */
  lemma PathLayout(s: string, i: nat, head: string, rest: string)
    requires Has(s, i, head + "." + rest)
    ensures Has(s, i, head) && At(s, i + |head|, '.') && Has(s, i + |head| + 1, rest)
  {
    HasSplit(s, i, head + ".", rest);
    HasSplit(s, i, head, ".");
    HasAt(s, i + |head|, ".", 0);
  }

  lemma LastSegmentLexes(s: string, i: nat, g: Segment, first: bool, r: Result<PathEnd, Fault>)
    requires IsSegment(g, first) && Has(s, i, SegmentText(g)) && EndsPath(s, i + |SegmentText(g)|)
    requires r == LexPath(s, i, first)
    ensures r == Ok(PathEnd(i + |SegmentText(g)|, g.group != []))
  {
    SegmentLexes(s, i, g, first);
    PathUnfold(s, i, first, i + |SegmentText(g)|, g.group != []);
  }

  lemma HeadSegmentLexes(s: string, i: nat, g: Segment, first: bool, rest: string)
    requires IsSegment(g, first) && Has(s, i, SegmentText(g) + "." + rest)
    ensures var dot := i + |SegmentText(g)|;
      && Has(s, dot + 1, rest)
      && LexPath(s, i, first) == Bracketed(g.group != [], LexPath(s, dot + 1, false))
  {
    PathLayout(s, i, SegmentText(g), rest);
    SegmentLexes(s, i, g, first);
    PathUnfold(s, i, first, i + |SegmentText(g)|, g.group != []);
  }

  lemma {:induction false} PathLexes(
    s: string, i: nat, gs: seq<Segment>, first: bool, end: nat, r: Result<PathEnd, Fault>)
    requires ArePath(gs, first) && Has(s, i, PathText(gs)) && end == i + |PathText(gs)| && EndsPath(s, end)
    requires r == LexPath(s, i, first)
    ensures r == Ok(PathEnd(end, HasGroup(gs)))
    decreases |gs|
  {
    if |gs| == 1 {
      LastSegmentLexes(s, i, gs[0], first, r);
    } else {
      HeadSegmentLexes(s, i, gs[0], first, PathText(gs[1..]));
      var next := i + |SegmentText(gs[0])| + 1;
      PathLexes(s, next, gs[1..], false, end, LexPath(s, next, false));
    }
  }

  /** A legal path lexes as one identifier, wherever it stands. */
  lemma {:induction false} PathIsIdent(s: string, i: nat, gs: seq<Segment>, key: string)
    requires Spells(gs, key) && Has(s, i, key) && EndsPath(s, i + |key|)
    ensures i < |s| && LexWord(s, i) == Ok(Lexeme(Ident(key), i + |key|))
  {
    var end := i + |key|;
    PathLexesAt(s, i, gs, key, end);
    HasSlice(s, i, key);
    WordOfPath(s, i, key, HasGroup(gs));
  }

  lemma PathLexesAt(s: string, i: nat, gs: seq<Segment>, key: string, end: nat)
    requires ArePath(gs, true) && PathText(gs) == key && Has(s, i, key) && end == i + |key| && EndsPath(s, end)
    ensures i < end <= |s| && LexPath(s, i, true) == Ok(PathEnd(end, HasGroup(gs)))
  {
    PathLexes(s, i, gs, true, end, LexPath(s, i, true));
  }

  lemma WordOfPath(s: string, i: nat, key: string, grouped: bool)
    requires i + |key| <= |s| && key != [] && s[i..i + |key|] == key
    requires LexPath(s, i, true) == Ok(PathEnd(i + |key|, grouped))
    requires !StartsWith(key, "not.") && (IsReserved(key) ==> grouped)
    ensures LexWord(s, i) == Ok(Lexeme(Ident(key), i + |key|))
  {
  }

  // ----- Accepting nothing else -----

  /** Any text is some list of dot-free pieces, joined by dots. */
  lemma {:induction false} DottedPieces(d: string) returns (names: seq<string>)
    ensures names != [] && Dotted(names) == d
    ensures forall k :: 0 <= k < |names| ==> '.' !in names[k]
  {
    if d == [] {
      names := [""];
    } else {
      var rest := DottedPieces(d[1..]);
      if d[0] == '.' {
        names := [""] + rest;
        assert names[1..] == rest;
        assert Dotted(names) == "" + "." + Dotted(rest);
      } else {
        names := [[d[0]] + rest[0]] + rest[1..];
        assert names[1..] == rest[1..];
      }
    }
  }

  /** Text without an empty segment is a list of names. */
  lemma {:induction false} PiecesAreNames(d: string, names: seq<string>)
    requires names != [] && Dotted(names) == d
    requires forall k :: 0 <= k < |names| ==> '.' !in names[k]
    requires d != [] && !HasEmptySegment(d) && forall k :: 0 <= k < |d| ==> IsSubscriptChar(d[k])
    ensures AreNames(names)
    decreases |names|
  {
    var n := names[0];
    NoDoubleDot(d, 0);
    assert n <= d;
    assert forall k :: 0 <= k < |n| ==> n[k] == d[k] && n[k] in n;
    if |names| > 1 {
      var rest := Dotted(names[1..]);
      assert d == n + "." + rest;
      assert n != [];
      assert d[|n|] == '.';
      assert rest != [] && d[|n| + 1] == rest[0];
      assert forall k :: 0 <= k < |rest| ==> rest[k] == d[|n| + 1 + k];
      forall k | 0 <= k < |rest| - 1 ensures !(rest[k] == '.' && rest[k + 1] == '.') {
        assert rest[k] == d[|n| + 1 + k] && rest[k + 1] == d[|n| + 1 + k + 1];
      }
      NoDoubleDot(rest, 0);
      PiecesAreNames(rest, names[1..]);
    }
  }

  lemma SubscriptSound(s: string, open: nat) returns (names: seq<string>)
    requires At(s, open, '[') && LexSubscript(s, open).Ok?
    ensures names != [] && AreNames(names) && s[open..LexSubscript(s, open).value] == GroupText(names)
  {
    var end := SpanEnd(s, open + 1, SubscriptClass);
    var d := s[open + 1..end];
    SpanShape(s, open + 1, SubscriptClass);
    assert forall k :: 0 <= k < |d| ==> In(s[open + 1 + k], SubscriptClass) && d[k] == s[open + 1 + k];
    names := DottedPieces(d);
    PiecesAreNames(d, names);
    assert s[open..end + 1] == "[" + d + "]";
  }

  lemma SegmentShape(s: string, i: nat, first: bool, r: Result<PathEnd, Fault>)
    requires i <= |s| && r == LexSegment(s, i, first) && r.Ok?
    ensures var dollar := !first && At(s, i, '$');
      var body := if dollar then i + 1 else i;
      var end := SpanEnd(s, body, SegmentClass);
      && i < end && body < end && (dollar ==> IsIdentStart(s[body]))
      && (At(s, end, '[') ==>
            LexSubscript(s, end).Ok? && r == Ok(PathEnd(LexSubscript(s, end).value, true)))
      && (!At(s, end, '[') ==> r == Ok(PathEnd(end, false)))
  {
  }

  lemma SpanIsName(s: string, i: nat)
    requires i <= |s| && i < SpanEnd(s, i, SegmentClass)
    ensures IsName(s[i..SpanEnd(s, i, SegmentClass)])
  {
    SpanShape(s, i, SegmentClass);
    var name := s[i..SpanEnd(s, i, SegmentClass)];
    forall k | 0 <= k < |name| ensures IsSegmentChar(name[k]) {
      assert In(s[i + k], SegmentClass);
    }
  }

  lemma SegmentAssembles(s: string, i: nat, body: nat, end: nat, after: nat, g: Segment)
    requires i <= body <= end <= after <= |s| && g.name == s[body..end]
    requires if g.dollar then body == i + 1 && s[i] == '$' else body == i
    requires if g.group == [] then after == end else s[end..after] == GroupText(g.group)
    ensures SegmentText(g) == s[i..after]
  {
    SlicesJoin(s, i, body, end, after);
    assert s[i..body] == if g.dollar then "$" else "";
    assert s[end..after] == GroupText(g.group);
  }

  lemma GroupSound(s: string, end: nat) returns (group: seq<string>, after: nat)
    requires end <= |s| && (At(s, end, '[') ==> LexSubscript(s, end).Ok?)
    ensures end <= after <= |s| && AreNames(group) && (group != [] <==> At(s, end, '['))
    ensures if group == [] then after == end else
      after == LexSubscript(s, end).value && s[end..after] == GroupText(group)
  {
    group, after := [], end;
    if At(s, end, '[') {
      group := SubscriptSound(s, end);
      after := LexSubscript(s, end).value;
    }
  }

  lemma SegmentSound(s: string, i: nat, first: bool, r: Result<PathEnd, Fault>) returns (g: Segment)
    requires i <= |s| && r == LexSegment(s, i, first) && r.Ok? && (first ==> i < |s| && IsIdentStart(s[i]))
    ensures IsSegment(g, first) && r.value.end <= |s| && i <= r.value.end && SegmentText(g) == s[i..r.value.end]
    ensures (g.group != []) == r.value.bracketed
  {
    SegmentShape(s, i, first, r);
    var dollar := !first && At(s, i, '$');
    var body := if dollar then i + 1 else i;
    var end := SpanEnd(s, body, SegmentClass);
    var group, after := GroupSound(s, end);
    g := SegmentBuilt(s, i, first, body, end, group, after);
  }

  lemma SegmentBuilt(s: string, i: nat, first: bool, body: nat, end: nat, group: seq<string>, after: nat)
    returns (g: Segment)
    requires body <= |s| && end == SpanEnd(s, body, SegmentClass) && body < end <= after <= |s| && AreNames(group)
    requires if !first && At(s, i, '$') then body == i + 1 else body == i
    requires first || body != i ==> IsIdentStart(s[body])
    requires if group == [] then after == end else s[end..after] == GroupText(group)
    ensures IsSegment(g, first) && SegmentText(g) == s[i..after] && g.group == group
  {
    SpanIsName(s, body);
    g := Segment(body != i, s[body..end], group);
    assert g.name[0] == s[body];
    SegmentAssembles(s, i, body, end, after, g);
  }

  lemma SlicesJoin(s: string, i: nat, j: nat, k: nat, l: nat)
    requires i <= j <= k <= l <= |s|
    ensures s[i..l] == s[i..j] + s[j..k] + s[k..l]
  {
  }

  lemma PathCons(g: Segment, rest: seq<Segment>, first: bool)
    requires IsSegment(g, first) && ArePath(rest, false)
    ensures ArePath([g] + rest, first)
    ensures PathText([g] + rest) == SegmentText(g) + "." + PathText(rest)
    ensures HasGroup([g] + rest) <==> g.group != [] || HasGroup(rest)
  {
    var gs := [g] + rest;
    assert gs[1..] == rest;
  }

  lemma PathOne(g: Segment, first: bool)
    requires IsSegment(g, first)
    ensures ArePath([g], first) && PathText([g]) == SegmentText(g) && (HasGroup([g]) <==> g.group != [])
  {
  }

  lemma SlicesDot(s: string, i: nat, dot: nat, end: nat)
    requires i <= dot < end <= |s| && s[dot] == '.'
    ensures s[i..end] == s[i..dot] + "." + s[dot + 1..end]
  {
  }

  lemma {:induction false} PathSound(s: string, i: nat, first: bool, r: PathEnd) returns (gs: seq<Segment>)
    requires i <= |s| && LexPath(s, i, first) == Ok(r) && (first ==> i < |s| && IsIdentStart(s[i]))
    ensures ArePath(gs, first) && r.end <= |s| && PathText(gs) == s[i..r.end] && HasGroup(gs) == r.bracketed
    decreases |s| - i, 0
  {
    var segment := LexSegment(s, i, first).value;
    var g := SegmentSound(s, i, first, LexSegment(s, i, first));
    PathUnfold(s, i, first, segment.end, segment.bracketed);
    if At(s, segment.end, '.') {
      var rest := RestSound(s, segment.end + 1, LexPath(s, segment.end + 1, false).value);
      gs := [g] + rest;
      PathExtends(s, i, segment.end, r.end, g, rest, first);
    } else {
      gs := [g];
      PathOne(g, first);
    }
  }

  lemma PathExtends(s: string, i: nat, dot: nat, end: nat, g: Segment, rest: seq<Segment>, first: bool)
    requires i <= dot < end <= |s| && s[dot] == '.' && IsSegment(g, first) && ArePath(rest, false)
    requires SegmentText(g) == s[i..dot] && PathText(rest) == s[dot + 1..end]
    ensures ArePath([g] + rest, first) && PathText([g] + rest) == s[i..end]
    ensures HasGroup([g] + rest) <==> g.group != [] || HasGroup(rest)
  {
    PathCons(g, rest, first);
    SlicesDot(s, i, dot, end);
  }

  /** The induction step of `PathSound`: segments after the first. */
  lemma {:induction false} RestSound(s: string, i: nat, r: PathEnd) returns (gs: seq<Segment>)
    requires i <= |s| && LexPath(s, i, false) == Ok(r)
    ensures ArePath(gs, false) && i < r.end <= |s| && PathText(gs) == s[i..r.end] && HasGroup(gs) == r.bracketed
    decreases |s| - i, 1
  {
    gs := PathSound(s, i, false, r);
  }

  /** Every identifier the lexer produces is a legal path, spelled by the text it consumed. */
  lemma {:induction false} IdentIsPath(s: string, i: nat)
    requires i < |s| && IsIdentStart(s[i]) && LexWord(s, i).Ok? && LexWord(s, i).value.tok.Ident?
    ensures var l := LexWord(s, i).value; IsPath(l.tok.name) && l.tok.name == s[i..l.end]
  {
    var gs := PathSound(s, i, true, LexPath(s, i, true).value);
    assert Spells(gs, LexWord(s, i).value.tok.name);
  }
}
