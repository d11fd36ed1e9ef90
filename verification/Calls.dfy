/** Reading a call `name(args)`: two scanners that must agree on where the argument ends. */
module Calls {
  import opened Values
  import opened Text
  import opened Lexical

  /** The `)` that closes depth one; an unterminated quote counts as an ordinary character. */
  function CloseAt(s: string, i: nat, depth: int): (r: Option<nat>)
    ensures r.Some? ==> i <= r.value < |s| && s[r.value] == ')'
    decreases |s| - i
  {
    if i >= |s| then None
    else if IsQuote(s[i]) then CloseAt(s, if SkipLiteral(s, i).Some? then SkipLiteral(s, i).value else i + 1, depth)
    else if s[i] == '(' then CloseAt(s, i + 1, depth + 1)
    else if s[i] == ')' then if depth == 1 then Some(i) else CloseAt(s, i + 1, depth - 1)
    else CloseAt(s, i + 1, depth)
  }

  /** The loop both scanners share. */
  method FindClose(s: string, from: nat) returns (close: Option<nat>)
    ensures close == CloseAt(s, from, 0)
  {
    var depth, i := 0, from;
    while i < |s|
      invariant CloseAt(s, from, 0) == CloseAt(s, i, depth)
    {
      if IsQuote(s[i]) {
        var end := SkipLiteral(s, i);
        i := if end.Some? then end.value else i + 1;
        continue;
      }
      if s[i] == '(' {
        depth := depth + 1;
      } else if s[i] == ')' {
        depth := depth - 1;
        if depth == 0 {
          return Some(i);
        }
      }
      i := i + 1;
    }
    return None;
  }

  predicate Blank(s: string)
  {
    Trim(s) == []
  }

  /** The argument of the call that opens at `open`, when nothing but white space follows its close. */
  function Enclosed(s: string, open: nat): (r: Option<string>)
    requires open < |s| && s[open] == '('
  {
    match CloseAt(s, open, 0)
    case None => None
    case Some(close) => if Blank(s[close + 1..]) then Some(s[open + 1..close]) else None
  }

  /** `extract_call_args` as a specification. */
  function CallArgs(line: string, name: string): (r: Option<string>)
  {
    var t := Trim(line);
    if !(name <= t) then None
    else
      var after := t[|name|..];
      if after == [] || after[0] != '(' then None else Enclosed(after, 0)
  }

  method ExtractEnclosed(s: string, open: nat) returns (r: Option<string>)
    requires open < |s| && s[open] == '('
    ensures r == Enclosed(s, open)
  {
    var close := FindClose(s, open);
    if close.None? {
      return None;
    }
    if Blank(s[close.value + 1..]) {
      return Some(s[open + 1..close.value]);
    }
    return None;
  }

  method ExtractCallArgs(line: string, name: string) returns (r: Option<string>)
    ensures r == CallArgs(line, name)
  {
    var t := Trim(line);
    if !(name <= t) {
      return None;
    }
    var after := t[|name|..];
    if after == [] || after[0] != '(' {
      return None;
    }
    r := ExtractEnclosed(after, 0);
  }

  function FirstOpen(s: string, i: nat): (r: Option<nat>)
    requires i <= |s|
    ensures r.Some? ==> i <= r.value < |s| && s[r.value] == '('
    ensures r.Some? ==> forall k :: i <= k < r.value ==> s[k] != '('
    ensures r.None? ==> forall k :: i <= k < |s| ==> s[k] != '('
    decreases |s| - i
  {
    if i == |s| then None else if s[i] == '(' then Some(i) else FirstOpen(s, i + 1)
  }

  /** `split_head_args` as a specification. */
  function HeadArgs(s: string): (r: Option<(string, Option<string>)>)
  {
    match FirstOpen(s, 0)
    case None => if Blank(s) then None else Some((Trim(s), None))
    case Some(open) =>
      match Enclosed(s, open)
      case None => None
      case Some(args) => if Blank(s[..open]) then None else Some((Trim(s[..open]), Some(args)))
  }

  method SplitHeadArgs(s: string) returns (r: Option<(string, Option<string>)>)
    ensures r == HeadArgs(s)
  {
    var open := FirstOpen(s, 0);
    if open.None? {
      return if Blank(s) then None else Some((Trim(s), None));
    }
    var close := FindClose(s, open.value);
    if close.None? {
      return None;
    }
    var head := Trim(s[..open.value]);
    if head == [] {
      return None;
    }
    if Blank(s[close.value + 1..]) {
      return Some((head, Some(s[open.value + 1..close.value])));
    }
    return None;
  }

  // ---- Agreement

  lemma {:induction false} CloseShift(s: string, d: nat, i: nat, depth: int)
    requires d <= |s|
    ensures CloseAt(s, d + i, depth) ==
      var r := CloseAt(s[d..], i, depth); if r.Some? then Some(d + r.value) else None
    decreases |s| - i
  {
    var t := s[d..];
    if i < |t| {
      assert t[i] == s[d + i];
      if IsQuote(t[i]) {
        SkipShift(s, t, d, i);
        CloseShift(s, d, if SkipLiteral(t, i).Some? then SkipLiteral(t, i).value else i + 1, depth);
      } else {
        CloseShift(s, d, i + 1, if t[i] == '(' then depth + 1 else if t[i] == ')' then depth - 1 else depth);
      }
    }
  }

  /** A non-empty text that ends a trimmed one is not blank. */
  lemma TrimmedTail(t: string, k: nat)
    requires Trimmed(t) && k <= |t|
    ensures Blank(t[k..]) <==> k == |t|
  {
    if k < |t| {
      var tail := t[k..];
      assert tail[|tail| - 1] == t[|t| - 1];
      TrimKeepsLast(tail);
    }
  }

  lemma TrimKeepsLast(s: string)
    requires s != [] && !IsWhitespace(s[|s| - 1])
    ensures Trim(s) != []
  {
    TrimStartKeeps(s);
    TrimStartShape(s);
    var rest := TrimStart(s);
    assert rest[|rest| - 1] == s[|s| - 1];
  }

  lemma {:induction false} TrimStartKeeps(s: string)
    requires s != [] && !IsWhitespace(s[|s| - 1])
    ensures TrimStart(s) != []
    decreases |s|
  {
    if IsWhitespace(s[0]) {
      TrimStartKeeps(s[1..]);
    }
  }

  predicate IsName(name: string)
  {
    name != [] && Trimmed(name) && '(' !in name
  }

  /** Wrapping the extracted argument again gives back the trimmed call. */
  lemma {:induction false} CallRewraps(line: string, name: string)
    requires CallArgs(line, name).Some?
    ensures name + "(" + CallArgs(line, name).value + ")" == Trim(line)
  {
    var t := Trim(line);
    TrimIsTrimmed(line);
    var after := t[|name|..];
    var close := CloseAt(after, 0, 0).value;
    assert after[close + 1..] == t[|name| + close + 1..];
    TrimmedTail(t, |name| + close + 1);
    assert after == ['('] + after[1..close] + [')'] by {
      assert after[close] == ')';
    }
    assert t == name + after;
  }

  lemma EnclosedShift(s: string, d: nat)
    requires d < |s| && s[d] == '('
    ensures Enclosed(s, d) == Enclosed(s[d..], 0)
  {
    var t := s[d..];
    CloseShift(s, d, 0, 0);
    var close := CloseAt(t, 0, 0);
    if close.Some? {
      assert t[close.value + 1..] == s[d + close.value + 1..];
      assert t[1..close.value] == s[d + 1..d + close.value];
    }
  }

  // ---- White space around the call

  lemma {:induction false} OpenSkipsLead(s: string, i: nat, k: nat)
    requires i <= k <= |s| && forall j :: i <= j < k ==> s[j] != '('
    ensures FirstOpen(s, i) == FirstOpen(s, k)
    decreases k - i
  {
    if i < k {
      OpenSkipsLead(s, i + 1, k);
    }
  }

  lemma {:induction false} OpenShift(s: string, d: nat, i: nat)
    requires d + i <= |s|
    ensures FirstOpen(s, d + i) ==
      var r := FirstOpen(s[d..], i); if r.Some? then Some(d + r.value) else None
    decreases |s| - i
  {
    if d + i < |s| {
      assert s[d..][i] == s[d + i];
      OpenShift(s, d, i + 1);
    }
  }

  lemma {:induction false} OpenIgnoresTail(t: string, after: string, i: nat)
    requires AllWhitespace(after) && i <= |t|
    ensures FirstOpen(t + after, i) == FirstOpen(t, i)
    decreases |t| - i
  {
    var s := t + after;
    if i < |t| {
      assert s[i] == t[i];
      OpenIgnoresTail(t, after, i + 1);
    } else {
      assert forall j :: |t| <= j < |s| ==> s[j] == after[j - |t|];
      OpenSkipsLead(s, i, |s|);
    }
  }

  lemma {:induction false} CloseInBlank(s: string, i: nat, depth: int)
    requires i <= |s| && AllWhitespace(s[i..])
    ensures CloseAt(s, i, depth) == None
    decreases |s| - i
  {
    if i < |s| {
      assert s[i..][0] == s[i] && IsWhitespace(s[i]);
      assert s[i..][1..] == s[i + 1..];
      CloseInBlank(s, i + 1, depth);
    }
  }

  lemma SkipIgnoresTail(t: string, after: string, i: nat)
    requires AllWhitespace(after) && i < |t|
    ensures SkipLiteral(t + after, i) == SkipLiteral(t, i)
  {
    var s := t + after;
    assert s[..|t|] == t;
    SkipInPrefix(s, |t|, i);
    if SkipLiteral(s, i).Some? {
      LiteralCloses(s, i);
      assert forall j :: |t| <= j < |s| ==> s[j] == after[j - |t|];
      assert SkipLiteral(s, i).value <= |t|;
    }
  }

  lemma {:induction false} CloseIgnoresTail(t: string, after: string, i: nat, depth: int)
    requires AllWhitespace(after) && i <= |t|
    ensures CloseAt(t + after, i, depth) == CloseAt(t, i, depth)
    decreases |t| - i
  {
    var s := t + after;
    if i == |t| {
      assert s[i..] == after;
      CloseInBlank(s, i, depth);
    } else {
      assert s[i] == t[i];
      if IsQuote(t[i]) {
        SkipIgnoresTail(t, after, i);
        CloseIgnoresTail(t, after, if SkipLiteral(t, i).Some? then SkipLiteral(t, i).value else i + 1, depth);
      } else {
        CloseIgnoresTail(t, after, i + 1, if t[i] == '(' then depth + 1 else if t[i] == ')' then depth - 1 else depth);
      }
    }
  }

  lemma EnclosedIgnoresTail(t: string, after: string, open: nat)
    requires AllWhitespace(after) && open < |t| && t[open] == '('
    ensures (t + after)[open] == '(' && Enclosed(t + after, open) == Enclosed(t, open)
  {
    var s := t + after;
    CloseIgnoresTail(t, after, open, 0);
    var close := CloseAt(t, open, 0);
    if close.Some? {
      var rest := t[close.value + 1..];
      assert s[close.value + 1..] == rest + after;
      assert s[open + 1..close.value] == t[open + 1..close.value];
      BlankExactly(rest);
      BlankExactly(rest + after);
      assert AllWhitespace(rest + after) ==> AllWhitespace(rest) by {
        assert forall i :: 0 <= i < |rest| ==> (rest + after)[i] == rest[i];
      }
    }
  }

  lemma HeadArgsTail(t: string, after: string)
    requires Trimmed(t) && AllWhitespace(after) && t != []
    ensures HeadArgs(t + after) == HeadArgs(t)
  {
    OpenIgnoresTail(t, after, 0);
    TrimSurrounded("", t, after);
    assert "" + t + after == t + after;
    TrimOfTrimmed(t);
    var open := FirstOpen(t, 0);
    if open.Some? {
      EnclosedIgnoresTail(t, after, open.value);
      assert (t + after)[..open.value] == t[..open.value];
    }
  }

  lemma HeadArgsLead(before: string, x: string)
    requires AllWhitespace(before)
    ensures HeadArgs(before + x) == HeadArgs(x)
  {
    var s, n := before + x, |before|;
    assert s[n..] == x;
    assert forall j :: 0 <= j < n ==> s[j] == before[j];
    OpenSkipsLead(s, 0, n);
    OpenShift(s, n, 0);
    TrimSkipsLead(before, x);
    var open := FirstOpen(x, 0);
    if open.Some? {
      LeadEnclosed(before, x, open.value);
      assert s[..n + open.value] == before + x[..open.value];
      TrimSkipsLead(before, x[..open.value]);
    }
  }

  lemma LeadEnclosed(before: string, x: string, open: nat)
    requires open < |x| && x[open] == '('
    ensures Enclosed(before + x, |before| + open) == Enclosed(x, open)
  {
    var s := before + x;
    EnclosedShift(s, |before| + open);
    EnclosedShift(x, open);
    assert s[|before| + open..] == x[open..];
  }

  /** The stage reader does not mind white space around what it reads. */
  lemma {:induction false} HeadArgsTrims(line: string)
    ensures HeadArgs(line) == HeadArgs(Trim(line))
  {
    var t := Trim(line);
    var before, after := TrimParts(line);
    TrimIsTrimmed(line);
    if t == [] {
      assert line == (before + after) + [];
      HeadArgsLead(before + after, []);
    } else {
      assert line == before + (t + after);
      HeadArgsLead(before, t + after);
      HeadArgsTail(t, after);
    }
  }

  /**
   * On any line that, trimmed, writes `name(`, the two readers accept the same calls and return the
   * same argument.
   */
  lemma {:induction false} ReadersAgree(line: string, name: string, args: string)
    requires IsName(name)
    ensures CallArgs(line, name) == Some(args) <==>
      name + "(" <= Trim(line) && HeadArgs(line) == Some((name, Some(args)))
  {
    var t := Trim(line);
    HeadArgsTrims(line);
    TrimIsTrimmed(line);
    TrimmedReadersAgree(t, name, args);
    TrimOfTrimmed(t);
  }

  lemma TrimmedReadersAgree(t: string, name: string, args: string)
    requires Trimmed(t) && IsName(name)
    ensures CallArgs(t, name) == Some(args) <==>
      name + "(" <= t && HeadArgs(t) == Some((name, Some(args)))
  {
    TrimOfTrimmed(t);
    CallPrefix(t, name);
    if name + "(" <= t {
      FirstOpenIs(t, name);
      TrimOfTrimmed(name);
      EnclosedShift(t, |name|);
    }
  }

  lemma CallPrefix(t: string, name: string)
    ensures name + "(" <= t <==> |name| < |t| && t[..|name|] == name && t[|name|] == '('
  {
    if |name| < |t| && t[..|name|] == name && t[|name|] == '(' {
      assert t[..|name| + 1] == name + "(";
    }
  }

  lemma FirstOpenIs(t: string, name: string)
    requires '(' !in name && |name| < |t| && t[..|name|] == name && t[|name|] == '('
    ensures FirstOpen(t, 0) == Some(|name|)
  {
    forall k | 0 <= k < |name|
      ensures t[k] != '('
    {
      assert t[k] == t[..|name|][k];
    }
  }

  lemma TrimOfTrimmed(t: string)
    requires Trimmed(t)
    ensures Trim(t) == t
  {
    TrimIsTrimmed(t);
  }
}
