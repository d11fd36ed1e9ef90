/** Where the colon and comma scanners cut: at the characters that stand outside literals and brackets. */
module ScanLaws {
  import opened Values
  import opened Lexical
  import opened Text
  import opened Scanners
  import opened Calls

  // ---- The colon of a rule

  /** The open parentheses and brackets on arriving at `k` from `i`; nothing if `k` is inside a literal. */
  function OpenAt(s: string, i: nat, parens: int, brackets: int, k: nat): (r: Option<(int, int)>)
    decreases |s| - i
  {
    if i == k then Some((parens, brackets))
    else if i > k || i >= |s| then None
    else if IsQuote(s[i]) then
      match SkipLiteral(s, i)
      case Some(end) => OpenAt(s, end, parens, brackets, k)
      case None => None
    else
      OpenAt(s, i + 1,
             parens + (if s[i] == '(' then 1 else if s[i] == ')' then -1 else 0),
             brackets + (if s[i] == '[' then 1 else if s[i] == ']' then -1 else 0), k)
  }

  /** A colon stands at `k`, outside literals, with neither parentheses nor brackets open. */
  predicate ColonAt(s: string, i: nat, parens: int, brackets: int, k: nat)
  {
    k < |s| && s[k] == ':' && OpenAt(s, i, parens, brackets, k) == Some((0, 0))
  }

  lemma ColonLater(s: string, i: nat, parens: int, brackets: int, k: nat)
    ensures ColonAt(s, i, parens, brackets, k) ==> i <= k
  {
  }

  /** The scan from `i` ends on the last such colon, or on `last` when there is none. */
  lemma {:induction false} LastColonFrom(s: string, i: nat, parens: int, brackets: int, last: Option<nat>)
    ensures var r := LastColon(s, i, parens, brackets, last);
      || (r.Some? && ColonAt(s, i, parens, brackets, r.value)
          && forall k :: k > r.value ==> !ColonAt(s, i, parens, brackets, k))
      || (r == last && forall k :: !ColonAt(s, i, parens, brackets, k))
    decreases |s| - i
  {
    if i < |s| {
      if IsQuote(s[i]) {
        if SkipLiteral(s, i).Some? {
          var end := SkipLiteral(s, i).value;
          LastColonFrom(s, end, parens, brackets, last);
          forall k
            ensures ColonAt(s, i, parens, brackets, k) <==> ColonAt(s, end, parens, brackets, k)
          {
            ColonLater(s, end, parens, brackets, k);
          }
        }
      } else {
        var p := parens + (if s[i] == '(' then 1 else if s[i] == ')' then -1 else 0);
        var b := brackets + (if s[i] == '[' then 1 else if s[i] == ']' then -1 else 0);
        var here := if s[i] == ':' && parens == 0 && brackets == 0 then Some(i) else last;
        LastColonFrom(s, i + 1, p, b, here);
        forall k
          ensures ColonAt(s, i, parens, brackets, k) <==> (k == i && here == Some(i) && s[i] == ':' && parens == 0
                                                           && brackets == 0) || ColonAt(s, i + 1, p, b, k)
        {
          ColonLater(s, i + 1, p, b, k);
        }
      }
    }
  }

  /** A rule is split at its last colon outside literals, parentheses and brackets, if it has one. */
  lemma {:induction false} LastColonExactly(s: string, c: nat)
    ensures LastColon(s, 0, 0, 0, None) == Some(c) <==>
      ColonAt(s, 0, 0, 0, c) && forall k :: k > c ==> !ColonAt(s, 0, 0, 0, k)
    ensures LastColon(s, 0, 0, 0, None).None? <==> forall k :: !ColonAt(s, 0, 0, 0, k)
  {
    LastColonFrom(s, 0, 0, 0, None);
  }

  // ---- The commas of keyword arguments

  /** The signed depth on arriving at `k` from `i`, all three brackets counted alike. */
  function DepthAt(s: string, i: nat, depth: int, k: nat): (r: Option<int>)
    decreases |s| - i
  {
    if i == k then Some(depth)
    else if i > k || i >= |s| then None
    else if IsQuote(s[i]) then
      match SkipLiteral(s, i)
      case Some(end) => DepthAt(s, end, depth, k)
      case None => None
    else DepthAt(s, i + 1, depth + Turn(s[i]), k)
  }

  function Turn(c: char): (r: int)
  {
    if c in {'(', '[', '{'} then 1 else if c in {')', ']', '}'} then -1 else 0
  }

  /** Nowhere does a bracket close that was not opened. */
  ghost predicate NeverBelow(s: string, i: nat, depth: int)
  {
    forall k: nat :: DepthAt(s, i, depth, k).Some? ==> DepthAt(s, i, depth, k).value >= 0
  }

  lemma DepthLater(s: string, i: nat, depth: int, k: nat)
    ensures DepthAt(s, i, depth, k).Some? ==> i <= k
  {
  }

  /** A scan that goes on from `next` at depth `d` arrives wherever the scan from there does. */
  ghost predicate GoesOn(s: string, i: nat, depth: int, next: nat, d: int)
  {
    && (forall k: nat :: DepthAt(s, next, d, k).Some? ==> DepthAt(s, i, depth, k) == DepthAt(s, next, d, k))
    && (forall k: nat :: DepthAt(s, i, depth, k).Some? ==> k == i || DepthAt(s, next, d, k) == DepthAt(s, i, depth, k))
  }

  lemma BelowOn(s: string, i: nat, depth: int, next: nat, d: int)
    requires GoesOn(s, i, depth, next, d)
    ensures NeverBelow(s, i, depth) <==> depth >= 0 && NeverBelow(s, next, d)
  {
    assert DepthAt(s, i, depth, i) == Some(depth);
    if NeverBelow(s, i, depth) {
      forall k: nat | DepthAt(s, next, d, k).Some?
        ensures DepthAt(s, next, d, k).value >= 0
      {
        assert DepthAt(s, i, depth, k).value >= 0;
      }
    }
  }

  lemma BelowStep(s: string, i: nat, depth: int)
    requires i < |s|
    ensures IsQuote(s[i]) && SkipLiteral(s, i).Some? ==>
      (NeverBelow(s, i, depth) <==> depth >= 0 && NeverBelow(s, SkipLiteral(s, i).value, depth))
    ensures IsQuote(s[i]) && SkipLiteral(s, i).None? ==> (NeverBelow(s, i, depth) <==> depth >= 0)
    ensures !IsQuote(s[i]) ==> (NeverBelow(s, i, depth) <==> depth >= 0 && NeverBelow(s, i + 1, depth + Turn(s[i])))
  {
    assert DepthAt(s, i, depth, i) == Some(depth);
    if !IsQuote(s[i]) || SkipLiteral(s, i).Some? {
      var next := if IsQuote(s[i]) then SkipLiteral(s, i).value else i + 1;
      var d := if IsQuote(s[i]) then depth else depth + Turn(s[i]);
      forall k: nat
        ensures DepthAt(s, next, d, k).Some? ==> DepthAt(s, i, depth, k) == DepthAt(s, next, d, k)
        ensures DepthAt(s, i, depth, k).Some? ==> k == i || DepthAt(s, next, d, k) == DepthAt(s, i, depth, k)
      {
        DepthLater(s, next, d, k);
      }
      BelowOn(s, i, depth, next, d);
    }
  }

  /** A comma at `k` that stands at depth zero, outside literals. */
  predicate CommaAt(s: string, i: nat, depth: int, k: nat)
  {
    k < |s| && s[k] == ',' && DepthAt(s, i, depth, k) == Some(0)
  }

  /** How the scan from `i` ends: with the cuts, or with the fault the depths tell. */
  ghost predicate CommasFrom(s: string, i: nat, depth: nat)
    requires i <= |s|
  {
    match CommaCuts(s, i, depth)
    case Ok(cuts) =>
      && NeverBelow(s, i, depth) && DepthAt(s, i, depth, |s|) == Some(0)
      && forall k :: k in cuts <==> CommaAt(s, i, depth, k)
    case Err(UnmatchedClose(_)) => !NeverBelow(s, i, depth)
    case Err(BadLiteral) => NeverBelow(s, i, depth) && DepthAt(s, i, depth, |s|).None?
    case Err(Unbalanced) => NeverBelow(s, i, depth) && DepthAt(s, i, depth, |s|).Some?
                            && DepthAt(s, i, depth, |s|).value != 0
  }

  lemma CutsStep(s: string, i: nat, depth: nat, cuts: seq<nat>)
    requires i < |s| && !IsQuote(s[i])
    requires forall k :: k in cuts <==> CommaAt(s, i + 1, depth + Turn(s[i]), k)
    ensures forall k :: k in (if s[i] == ',' && depth == 0 then [i] + cuts else cuts) <==> CommaAt(s, i, depth, k)
  {
    forall k
      ensures k in (if s[i] == ',' && depth == 0 then [i] + cuts else cuts) <==> CommaAt(s, i, depth, k)
    {
      if k >= 0 {
        DepthLater(s, i + 1, depth + Turn(s[i]), k);
      }
    }
  }

  lemma {:induction false} CommasStep(s: string, i: nat, depth: nat)
    requires i <= |s|
    ensures CommasFrom(s, i, depth)
    decreases |s| - i
  {
    if i == |s| {
      forall k: nat | DepthAt(s, i, depth, k).Some?
        ensures DepthAt(s, i, depth, k).value >= 0
      {
      }
    } else {
      BelowStep(s, i, depth);
      if IsQuote(s[i]) {
        QuotedCommas(s, i, depth);
      } else if ClosesAny(s[i]) && depth == 0 {
        assert DepthAt(s, i + 1, -1, i + 1) == Some(-1);
      } else {
        CommasStep(s, i + 1, depth + Turn(s[i]));
        if CommaCuts(s, i + 1, depth + Turn(s[i])).Ok? {
          CutsStep(s, i, depth, CommaCuts(s, i + 1, depth + Turn(s[i])).value);
        }
      }
    }
  }

  lemma {:induction false} QuotedCommas(s: string, i: nat, depth: nat)
    requires i < |s| && IsQuote(s[i])
    ensures CommasFrom(s, i, depth)
    decreases |s| - i, 0
  {
    BelowStep(s, i, depth);
    if SkipLiteral(s, i).Some? {
      var end := SkipLiteral(s, i).value;
      CommasStep(s, end, depth);
      forall k
        ensures CommaAt(s, i, depth, k) <==> CommaAt(s, end, depth, k)
      {
        if k >= 0 {
          DepthLater(s, end, depth, k);
        }
      }
    }
  }

  /**
   * Keyword arguments split exactly when every literal ends and the brackets, whatever their kind, open
   * before they close and all close; then the cuts are exactly the commas at depth zero.
   */
  lemma {:induction false} CommaSplitExactly(s: string)
    ensures CommaSplit(s).Ok? <==> NeverBelow(s, 0, 0) && DepthAt(s, 0, 0, |s|) == Some(0)
    ensures CommaSplit(s).Ok? ==>
      && Ordered(s, ',', 0, CommaCuts(s, 0, 0).value)
      && CommaSplit(s).value == Pieces(s, ',', 0, CommaCuts(s, 0, 0).value)
      && forall k :: k in CommaCuts(s, 0, 0).value <==> CommaAt(s, 0, 0, k)
    ensures CommaSplit(s).Err? ==>
      && (CommaSplit(s).error.UnmatchedClose? <==> !NeverBelow(s, 0, 0))
      && (CommaSplit(s).error.BadLiteral? <==> NeverBelow(s, 0, 0) && DepthAt(s, 0, 0, |s|).None?)
  {
    CommasStep(s, 0, 0);
    if CommaCuts(s, 0, 0).Ok? {
      CommaCutsOrdered(s, 0, 0);
    }
  }

  // ---- The first pipe

  /** How many pipes stand right before `c`. */
  function PipesBefore(s: string, c: nat): (n: nat)
    requires c <= |s|
  {
    if c == 0 || s[c - 1] != '|' then 0 else 1 + PipesBefore(s, c - 1)
  }

  /** The pipe is not one of a pair, pairs taken from the left. */
  predicate Lone(s: string, c: nat)
  {
    c < |s| && !Doubled(s, c) && PipesBefore(s, c) % 2 == 0
  }

  function FirstLone(s: string, cuts: seq<nat>): (r: Option<nat>)
  {
    if cuts == [] then None else if Lone(s, cuts[0]) then Some(cuts[0]) else FirstLone(s, cuts[1..])
  }

  lemma {:induction false} FindPipeFrom(s: string, i: nat, depth: int)
    requires i <= |s| && (depth == 0 ==> PipesBefore(s, i) % 2 == 0)
    ensures FindPipe(s, i, depth) == FirstLone(s, Cuts(s, '|', i, depth))
    decreases |s| - i
  {
    if i < |s| {
      if IsQuote(s[i]) {
        if SkipLiteral(s, i).Some? {
          LiteralCloses(s, i);
          FindPipeFrom(s, SkipLiteral(s, i).value, depth);
        }
      } else if s[i] == '|' && depth == 0 {
        var rest := Cuts(s, '|', i + 1, 0);
        assert ([i] + rest)[1..] == rest;
        if Doubled(s, i) {
          assert PipesBefore(s, i + 1) == PipesBefore(s, i) + 1 && PipesBefore(s, i + 2) == PipesBefore(s, i) + 2;
          assert rest == [i + 1] + Cuts(s, '|', i + 2, 0);
          assert rest[1..] == Cuts(s, '|', i + 2, 0);
          FindPipeFrom(s, i + 2, 0);
        }
      } else {
        FindPipeFrom(s, i + 1, if Opens(s[i]) then depth + 1 else if Closes(s[i]) then depth - 1 else depth);
      }
    }
  }

  lemma {:induction false} FirstLoneIs(s: string, cuts: seq<nat>, start: nat, c: nat)
    requires Ordered(s, '|', start, cuts)
    ensures FirstLone(s, cuts) == Some(c) <==>
      c in cuts && Lone(s, c) && forall d :: d in cuts && d < c ==> !Lone(s, d)
    decreases |cuts|
  {
    if cuts != [] {
      FirstLoneIs(s, cuts[1..], cuts[0] + 1, c);
      OrderedAfter(s, cuts[1..], cuts[0] + 1);
      assert cuts[0] in cuts;
      forall d
        ensures d in cuts <==> d == cuts[0] || d in cuts[1..]
      {
        assert cuts == [cuts[0]] + cuts[1..];
      }
      if Lone(s, cuts[0]) {
        assert c in cuts[1..] ==> cuts[0] < c;
      }
    }
  }

  lemma {:induction false} OrderedAfter(s: string, cuts: seq<nat>, start: nat)
    requires Ordered(s, '|', start, cuts)
    ensures forall d :: d in cuts ==> start <= d
    decreases |cuts|
  {
    if cuts != [] {
      OrderedAfter(s, cuts[1..], cuts[0] + 1);
      assert cuts == [cuts[0]] + cuts[1..];
    }
  }

  /** A pipeline starts at the first top-level pipe that is not one of a `||`. */
  lemma {:induction false} FindPipeIsFirstLone(s: string, c: nat)
    ensures FindPipe(s, 0, 0) == Some(c) <==>
      && c in Cuts(s, '|', 0, 0) && Lone(s, c)
      && forall d :: d in Cuts(s, '|', 0, 0) && d < c ==> !Lone(s, d)
  {
    FindPipeFrom(s, 0, 0);
    CutsOrdered(s, '|', 0, 0);
    FirstLoneIs(s, Cuts(s, '|', 0, 0), 0, c);
  }

  // ---- The parenthesis that closes a call

  /** The depth of parentheses on arriving at `k`; an unterminated quote is an ordinary character. */
  function ParensAt(s: string, i: nat, depth: int, k: nat): (r: Option<int>)
    decreases |s| - i
  {
    if i == k then Some(depth)
    else if i > k || i >= |s| then None
    else if IsQuote(s[i]) && SkipLiteral(s, i).Some? then ParensAt(s, SkipLiteral(s, i).value, depth, k)
    else ParensAt(s, i + 1, depth + (if s[i] == '(' then 1 else if s[i] == ')' then -1 else 0), k)
  }

  /** The last open parenthesis closes at `k`. */
  predicate ClosesAt(s: string, i: nat, depth: int, k: nat)
  {
    k < |s| && s[k] == ')' && ParensAt(s, i, depth, k) == Some(1)
  }

  lemma ParensLater(s: string, i: nat, depth: int, k: nat)
    ensures ParensAt(s, i, depth, k).Some? ==> i <= k
  {
  }

  lemma {:induction false} CloseFrom(s: string, i: nat, depth: int, c: nat)
    ensures CloseAt(s, i, depth) == Some(c) <==>
      ClosesAt(s, i, depth, c) && forall k :: 0 <= k < c ==> !ClosesAt(s, i, depth, k)
    decreases |s| - i
  {
    if i < |s| {
      var next := if IsQuote(s[i]) && SkipLiteral(s, i).Some? then SkipLiteral(s, i).value else i + 1;
      var d := depth + (if IsQuote(s[i]) then 0 else if s[i] == '(' then 1 else if s[i] == ')' then -1 else 0);
      CloseFrom(s, next, d, c);
      forall k
        ensures ClosesAt(s, i, depth, k) <==> (k == i && s[i] == ')' && depth == 1) || ClosesAt(s, next, d, k)
      {
        if k >= 0 {
          ParensLater(s, next, d, k);
        }
      }
      if s[i] == ')' && depth == 1 {
        assert ClosesAt(s, i, depth, i);
        if c > i {
          assert !(forall k :: 0 <= k < c ==> !ClosesAt(s, i, depth, k));
        } else if c < i {
          ParensLater(s, i, depth, c);
        }
      }
    }
  }

  /** The parenthesis that opens the text closes at `c` and not before. */
  predicate ClosesFirst(s: string, c: nat)
  {
    ClosesAt(s, 0, 0, c) && forall k :: 0 <= k < c ==> !ClosesAt(s, 0, 0, k)
  }

  /** A call as written: the name, an open parenthesis, the argument, and the parenthesis that closes it. */
  predicate IsCall(t: string, name: string, args: string)
  {
    t == name + "(" + args + ")" && ClosesFirst("(" + args + ")", |args| + 1)
  }

  /** The call reader accepts exactly the lines that, trimmed, are a call of the name, and returns its argument. */
  lemma {:induction false} CallArgsExactly(line: string, name: string, args: string)
    ensures CallArgs(line, name) == Some(args) <==> IsCall(Trim(line), name, args)
  {
    var t, after := Trim(line), "(" + args + ")";
    if CallArgs(line, name) == Some(args) {
      CallRewraps(line, name);
      assert t[|name|..] == after;
      CloseFrom(after, 0, 0, |args| + 1);
      var close := CloseAt(after, 0, 0).value;
      assert |after[1..close]| == |args|;
    }
    if IsCall(t, name, args) {
      assert t[|name|..] == after && name <= t;
      CloseFrom(after, 0, 0, |args| + 1);
      assert after[|args| + 2..] == [] && after[1..|args| + 1] == args;
    }
  }

  /** A head, and an argument in parentheses that close where only white space follows. */
  ghost predicate IsHeaded(s: string, head: string, args: string, lead: string, tail: string)
  {
    && s == lead + ("(" + args + ")") + tail && '(' !in lead && Trim(lead) == head && AllWhitespace(tail)
    && ClosesFirst("(" + args + ")" + tail, |args| + 1)
  }

  /** The stage reader takes a bare head, or a head and an argument; a head is never blank. */
  lemma {:induction false} HeadArgsExactly(s: string, head: string, args: string)
    ensures HeadArgs(s) == Some((head, None)) <==> '(' !in s && head == Trim(s) && head != []
    ensures HeadArgs(s) == Some((head, Some(args))) <==>
      head != [] && exists lead, tail :: IsHeaded(s, head, args, lead, tail)
  {
    if HeadArgs(s) == Some((head, Some(args))) {
      HeadIsHeaded(s, head, args);
    }
    if head != [] && exists lead, tail :: IsHeaded(s, head, args, lead, tail) {
      var lead, tail :| IsHeaded(s, head, args, lead, tail);
      HeadedReads(s, head, args, lead, tail);
    }
    if '(' in s {
      var k :| 0 <= k < |s| && s[k] == '(';
      assert FirstOpen(s, 0).Some?;
    }
  }

  lemma HeadIsHeaded(s: string, head: string, args: string)
    requires HeadArgs(s) == Some((head, Some(args)))
    ensures exists lead, tail :: IsHeaded(s, head, args, lead, tail)
  {
    var open := FirstOpen(s, 0).value;
    var tail := EnclosedCuts(s, open, args);
    assert s == s[..open] + s[open..];
    assert IsHeaded(s, head, args, s[..open], tail);
  }

  lemma EnclosedCuts(s: string, open: nat, args: string) returns (tail: string)
    requires open < |s| && s[open] == '(' && Enclosed(s, open) == Some(args)
    ensures s[open..] == ("(" + args + ")") + tail && AllWhitespace(tail)
    ensures ClosesFirst("(" + args + ")" + tail, |args| + 1)
  {
    var close := CloseAt(s, open, 0).value;
    tail := s[close + 1..];
    BlankExactly(tail);
    CloseShift(s, open, 0, 0);
    CloseFrom(s[open..], 0, 0, |args| + 1);
    assert s[open..] == ("(" + args + ")") + tail;
  }

  lemma HeadedReads(s: string, head: string, args: string, lead: string, tail: string)
    requires head != [] && IsHeaded(s, head, args, lead, tail)
    ensures HeadArgs(s) == Some((head, Some(args)))
  {
    var open := |lead|;
    assert s[open] == '(' && s[..open] == lead && s[open..] == "(" + args + ")" + tail;
    OpenSkipsLead(s, 0, open);
    EnclosedReads(s, open, args, tail);
  }

  lemma EnclosedReads(s: string, open: nat, args: string, tail: string)
    requires open < |s| && s[open..] == "(" + args + ")" + tail && AllWhitespace(tail)
    requires ClosesFirst("(" + args + ")" + tail, |args| + 1)
    ensures Enclosed(s, open) == Some(args)
  {
    var after, close := s[open..], open + |args| + 1;
    CloseFrom(after, 0, 0, |args| + 1);
    CloseShift(s, open, 0, 0);
    assert s[close + 1..] == after[|args| + 2..] && after[|args| + 2..] == tail;
    assert s[open + 1..close] == after[1..|args| + 1] && after[1..|args| + 1] == args;
    BlankExactly(tail);
  }
}
