/**
 * The hand-written scanners of the rule and stage syntax: they step over quoted literals with the one
 * shared reader and count brackets. Depth is signed in most of them, so an unmatched close bracket
 * takes it below zero and later delimiters no longer split.
 */
module Scanners {
  import opened Values
  import opened Text
  import opened Lexical

  predicate Opens(c: char)
  {
    c == '(' || c == '['
  }

  predicate Closes(c: char)
  {
    c == ')' || c == ']'
  }

  // ---- Splitting on a delimiter

  /** The positions where the scan from `i` at `depth` splits; an unterminated literal ends it. */
  function Cuts(s: string, delim: char, i: nat, depth: int): (cuts: seq<nat>)
    decreases |s| - i
  {
    if i >= |s| then []
    else if IsQuote(s[i]) then
      match SkipLiteral(s, i)
      case Some(end) => Cuts(s, delim, end, depth)
      case None => []
    else if Opens(s[i]) then Cuts(s, delim, i + 1, depth + 1)
    else if Closes(s[i]) then Cuts(s, delim, i + 1, depth - 1)
    else if s[i] == delim && depth == 0 then [i] + Cuts(s, delim, i + 1, depth)
    else Cuts(s, delim, i + 1, depth)
  }

  /** Cut positions in order, from `start` on, each holding the delimiter. */
  predicate Ordered(s: string, delim: char, start: nat, cuts: seq<nat>)
    decreases |cuts|
  {
    if cuts == [] then start <= |s|
    else start <= cuts[0] < |s| && s[cuts[0]] == delim && Ordered(s, delim, cuts[0] + 1, cuts[1..])
  }

  /** The text between the cuts. */
  function Pieces(s: string, delim: char, start: nat, cuts: seq<nat>): (r: seq<string>)
    requires Ordered(s, delim, start, cuts)
    ensures |r| == |cuts| + 1
    decreases |cuts|
  {
    if cuts == [] then [s[start..]]
    else [s[start..cuts[0]]] + Pieces(s, delim, cuts[0] + 1, cuts[1..])
  }

  lemma {:induction false} OrderedEarlier(s: string, delim: char, start: nat, later: nat, cuts: seq<nat>)
    requires Ordered(s, delim, later, cuts) && start <= later
    ensures Ordered(s, delim, start, cuts)
  {
  }

  lemma {:induction false} CutsOrdered(s: string, delim: char, i: nat, depth: int)
    requires i <= |s|
    ensures Ordered(s, delim, i, Cuts(s, delim, i, depth))
    decreases |s| - i
  {
    if i < |s| {
      if IsQuote(s[i]) {
        var end := SkipLiteral(s, i);
        if end.Some? {
          CutsOrdered(s, delim, end.value, depth);
          OrderedEarlier(s, delim, i, end.value, Cuts(s, delim, end.value, depth));
        }
      } else {
        var next := if Opens(s[i]) then depth + 1 else if Closes(s[i]) then depth - 1 else depth;
        CutsOrdered(s, delim, i + 1, next);
        OrderedEarlier(s, delim, i, i + 1, Cuts(s, delim, i + 1, next));
      }
    }
  }

  /** `split_top_level` as a specification. */
  function Split(s: string, delim: char): (r: seq<string>)
  {
    CutsOrdered(s, delim, 0, 0);
    Pieces(s, delim, 0, Cuts(s, delim, 0, 0))
  }

  function Join(pieces: seq<string>, delim: char): (s: string)
  {
    if pieces == [] then ""
    else if |pieces| == 1 then pieces[0]
    else pieces[0] + [delim] + Join(pieces[1..], delim)
  }

  lemma {:induction false} PiecesRejoin(s: string, delim: char, start: nat, cuts: seq<nat>)
    requires Ordered(s, delim, start, cuts)
    ensures Join(Pieces(s, delim, start, cuts), delim) == s[start..]
    decreases |cuts|
  {
    if cuts != [] {
      PiecesRejoin(s, delim, cuts[0] + 1, cuts[1..]);
      var rest := Pieces(s, delim, cuts[0] + 1, cuts[1..]);
      var all := Pieces(s, delim, start, cuts);
      assert all[0] == s[start..cuts[0]] && all[1..] == rest;
      assert s[start..] == s[start..cuts[0]] + [delim] + s[cuts[0] + 1..];
    }
  }

  /** Rejoining the pieces reproduces every input. */
  lemma {:induction false} SplitRejoins(s: string, delim: char)
    ensures Join(Split(s, delim), delim) == s
  {
    CutsOrdered(s, delim, 0, 0);
    PiecesRejoin(s, delim, 0, Cuts(s, delim, 0, 0));
    assert s[0..] == s;
  }

  lemma AtCut(s: string, delim: char, start: nat, i: nat, out: seq<string>)
    requires i < |s| && !IsQuote(s[i]) && !Opens(s[i]) && !Closes(s[i]) && s[i] == delim
    requires Ordered(s, delim, start, Cuts(s, delim, i, 0))
    ensures Ordered(s, delim, i + 1, Cuts(s, delim, i + 1, 0))
    ensures out + Pieces(s, delim, start, Cuts(s, delim, i, 0)) ==
      out + [s[start..i]] + Pieces(s, delim, i + 1, Cuts(s, delim, i + 1, 0))
  {
    var cuts, rest := Cuts(s, delim, i, 0), Cuts(s, delim, i + 1, 0);
    assert cuts == [i] + rest;
    assert cuts[0] == i && cuts[1..] == rest;
    var tail := Pieces(s, delim, i + 1, rest);
    assert Pieces(s, delim, start, cuts) == [s[start..i]] + tail;
    assert out + ([s[start..i]] + tail) == out + [s[start..i]] + tail;
  }

  /** `split_top_level` as written. */
  method SplitTopLevel(s: string, delim: char) returns (out: seq<string>)
    ensures out == Split(s, delim)
  {
    out := [];
    var depth, start, i := 0, 0, 0;
    CutsOrdered(s, delim, 0, 0);
    while i < |s|
      invariant start <= i <= |s| && Ordered(s, delim, start, Cuts(s, delim, i, depth))
      invariant Split(s, delim) == out + Pieces(s, delim, start, Cuts(s, delim, i, depth))
    {
      if IsQuote(s[i]) {
        var end := SkipLiteral(s, i);
        if end.None? {
          break;
        }
        i := end.value;
        continue;
      }
      if Opens(s[i]) {
        depth := depth + 1;
      } else if Closes(s[i]) {
        depth := depth - 1;
      } else if s[i] == delim && depth == 0 {
        AtCut(s, delim, start, i, out);
        out := out + [s[start..i]];
        start := i + 1;
      }
      i := i + 1;
    }
    assert Cuts(s, delim, i, depth) == [];
    out := out + [s[start..]];
  }

  // ---- Splitting keyword arguments on commas

  datatype CommaFault = BadLiteral | UnmatchedClose(c: char) | Unbalanced

  predicate OpensAny(c: char)
  {
    Opens(c) || c == '{'
  }

  predicate ClosesAny(c: char)
  {
    Closes(c) || c == '}'
  }

  /** The comma positions, counting braces too and refusing whatever does not balance. */
  function CommaCuts(s: string, i: nat, depth: nat): (r: Result<seq<nat>, CommaFault>)
    decreases |s| - i
  {
    if i >= |s| then if depth == 0 then Ok([]) else Err(Unbalanced)
    else if IsQuote(s[i]) then
      match SkipLiteral(s, i)
      case Some(end) => CommaCuts(s, end, depth)
      case None => Err(BadLiteral)
    else if OpensAny(s[i]) then CommaCuts(s, i + 1, depth + 1)
    else if ClosesAny(s[i]) then if depth == 0 then Err(UnmatchedClose(s[i])) else CommaCuts(s, i + 1, depth - 1)
    else if s[i] == ',' && depth == 0 then
      match CommaCuts(s, i + 1, depth)
      case Ok(cuts) => Ok([i] + cuts)
      case Err(e) => Err(e)
    else CommaCuts(s, i + 1, depth)
  }

  lemma {:induction false} CommaCutsOrdered(s: string, i: nat, depth: nat)
    requires i <= |s| && CommaCuts(s, i, depth).Ok?
    ensures Ordered(s, ',', i, CommaCuts(s, i, depth).value)
    decreases |s| - i
  {
    if i < |s| {
      if IsQuote(s[i]) {
        var end := SkipLiteral(s, i).value;
        CommaCutsOrdered(s, end, depth);
        OrderedEarlier(s, ',', i, end, CommaCuts(s, end, depth).value);
      } else {
        var next := if OpensAny(s[i]) then depth + 1 else if ClosesAny(s[i]) then depth - 1 else depth;
        CommaCutsOrdered(s, i + 1, next);
        OrderedEarlier(s, ',', i, i + 1, CommaCuts(s, i + 1, next).value);
      }
    }
  }

  /** `split_top_level_commas` as a specification. */
  function CommaSplit(s: string): (r: Result<seq<string>, CommaFault>)
  {
    match CommaCuts(s, 0, 0)
    case Err(e) => Err(e)
    case Ok(cuts) =>
      CommaCutsOrdered(s, 0, 0);
      Ok(Pieces(s, ',', 0, cuts))
  }

  /** A successful split rejoins to its input. */
  lemma {:induction false} CommaSplitRejoins(s: string)
    ensures CommaSplit(s).Ok? ==> Join(CommaSplit(s).value, ',') == s
  {
    if CommaCuts(s, 0, 0).Ok? {
      CommaCutsOrdered(s, 0, 0);
      PiecesRejoin(s, ',', 0, CommaCuts(s, 0, 0).value);
      assert s[0..] == s;
    }
  }

  /** No brace is met outside a literal from `i` on. */
  predicate NoBraces(s: string, i: nat)
    decreases |s| - i
  {
    if i >= |s| then true
    else if IsQuote(s[i]) then
      match SkipLiteral(s, i)
      case Some(end) => NoBraces(s, end)
      case None => true
    else s[i] != '{' && s[i] != '}' && NoBraces(s, i + 1)
  }

  lemma {:induction false} CommaCutsAgree(s: string, i: nat, depth: nat)
    requires NoBraces(s, i) && CommaCuts(s, i, depth).Ok?
    ensures CommaCuts(s, i, depth).value == Cuts(s, ',', i, depth)
    decreases |s| - i
  {
    if i < |s| {
      if IsQuote(s[i]) {
        CommaCutsAgree(s, SkipLiteral(s, i).value, depth);
      } else {
        var next := if Opens(s[i]) then depth + 1 else if Closes(s[i]) then depth - 1 else depth;
        CommaCutsAgree(s, i + 1, next);
      }
    }
  }

  /** Without braces outside literals, a successful comma split is the plain split. */
  lemma {:induction false} CommaSplitAgrees(s: string)
    requires NoBraces(s, 0) && CommaSplit(s).Ok?
    ensures CommaSplit(s).value == Split(s, ',')
  {
    CommaCutsAgree(s, 0, 0);
  }

  /** `split_top_level_commas` as written, building each part character by character. */
  method SplitCommas(s: string) returns (r: Result<seq<string>, CommaFault>)
    ensures r == CommaSplit(s)
  {
    var parts, current := [], "";
    var depth: nat := 0;
    var i := 0;
    ghost var start := 0;
    if CommaCuts(s, 0, 0).Ok? {
      CommaCutsOrdered(s, 0, 0);
    }
    while i < |s|
      invariant start <= i <= |s| && current == s[start..i]
      invariant CommaSplit(s).Err? <==> CommaCuts(s, i, depth).Err?
      invariant CommaSplit(s).Err? ==> CommaSplit(s).error == CommaCuts(s, i, depth).error
      invariant CommaSplit(s).Ok? ==> Ordered(s, ',', start, CommaCuts(s, i, depth).value)
      invariant CommaSplit(s).Ok? ==>
        CommaSplit(s).value == parts + Pieces(s, ',', start, CommaCuts(s, i, depth).value)
    {
      if IsQuote(s[i]) {
        var end := SkipLiteral(s, i);
        if end.None? {
          return Err(BadLiteral);
        }
        current := current + s[i..end.value];
        assert current == s[start..end.value];
        i := end.value;
        continue;
      }
      if s[i] == ',' && depth == 0 {
        ghost var cuts := CommaCuts(s, i, depth);
        ghost var rest := CommaCuts(s, i + 1, depth);
        assert cuts.Ok? ==> cuts.value[0] == i && cuts.value[1..] == rest.value;
        parts, current := parts + [current], "";
        start := i + 1;
      } else {
        if OpensAny(s[i]) {
          depth := depth + 1;
        } else if ClosesAny(s[i]) {
          if depth == 0 {
            return Err(UnmatchedClose(s[i]));
          }
          depth := depth - 1;
        }
        current := current + [s[i]];
      }
      i := i + 1;
    }
    if depth != 0 {
      return Err(Unbalanced);
    }
    assert s[start..i] == s[start..];
    return Ok(parts + [current]);
  }

  // ---- Finding the first pipe

  /** `find_top_level_pipe` as a specification: the first top-level `|` that is not doubled. */
  function FindPipe(s: string, i: nat, depth: int): (r: Option<nat>)
    decreases |s| - i
  {
    if i >= |s| then None
    else if IsQuote(s[i]) then
      match SkipLiteral(s, i)
      case Some(end) => FindPipe(s, end, depth)
      case None => None
    else if Opens(s[i]) then FindPipe(s, i + 1, depth + 1)
    else if Closes(s[i]) then FindPipe(s, i + 1, depth - 1)
    else if s[i] == '|' && depth == 0 then
      if Doubled(s, i) then FindPipe(s, i + 2, depth) else Some(i)
    else FindPipe(s, i + 1, depth)
  }

  predicate Doubled(s: string, i: nat)
  {
    i + 1 < |s| && s[i + 1] == '|'
  }

  function First(cuts: seq<nat>): (r: Option<nat>)
  {
    if cuts == [] then None else Some(cuts[0])
  }

  lemma {:induction false} FindPipeAfter(s: string, i: nat, depth: int)
    ensures FindPipe(s, i, depth).Some? ==> i <= FindPipe(s, i, depth).value < |s|
    decreases |s| - i
  {
    if i < |s| {
      if IsQuote(s[i]) {
        if SkipLiteral(s, i).Some? {
          FindPipeAfter(s, SkipLiteral(s, i).value, depth);
        }
      } else {
        FindPipeAfter(s, i + 1, if Opens(s[i]) then depth + 1 else if Closes(s[i]) then depth - 1 else depth);
        FindPipeAfter(s, i + 2, depth);
      }
    }
  }

  /** It finds the first split point exactly when that point is not the start of a `||`. */
  lemma {:induction false} FindPipeExactly(s: string, i: nat, depth: int)
    ensures var first := First(Cuts(s, '|', i, depth));
      FindPipe(s, i, depth) == first <==> first.None? || !Doubled(s, first.value)
    decreases |s| - i
  {
    if i < |s| {
      if IsQuote(s[i]) {
        if SkipLiteral(s, i).Some? {
          FindPipeExactly(s, SkipLiteral(s, i).value, depth);
        }
      } else if s[i] == '|' && depth == 0 {
        FindPipeAfter(s, i + 2, depth);
      } else {
        FindPipeExactly(s, i + 1, if Opens(s[i]) then depth + 1 else if Closes(s[i]) then depth - 1 else depth);
      }
    }
  }

  /** `find_top_level_pipe` as written. */
  method FindTopLevelPipe(s: string) returns (r: Option<nat>)
    ensures r == FindPipe(s, 0, 0)
  {
    var depth, i := 0, 0;
    while i < |s|
      invariant FindPipe(s, 0, 0) == FindPipe(s, i, depth)
    {
      if IsQuote(s[i]) {
        var end := SkipLiteral(s, i);
        if end.None? {
          return None;
        }
        i := end.value;
        continue;
      }
      if Opens(s[i]) {
        depth := depth + 1;
      } else if Closes(s[i]) {
        depth := depth - 1;
      } else if s[i] == '|' && depth == 0 {
        if i + 1 < |s| && s[i + 1] == '|' {
          i := i + 2;
          continue;
        }
        return Some(i);
      }
      i := i + 1;
    }
    return None;
  }

  // ---- Predicate and action

  /** The last `:` outside literals where neither parentheses nor brackets are open. */
  function LastColon(s: string, i: nat, parens: int, brackets: int, last: Option<nat>): (r: Option<nat>)
    decreases |s| - i
  {
    if i >= |s| then last
    else if IsQuote(s[i]) then
      match SkipLiteral(s, i)
      case Some(end) => LastColon(s, end, parens, brackets, last)
      case None => last
    else if s[i] == '(' then LastColon(s, i + 1, parens + 1, brackets, last)
    else if s[i] == ')' then LastColon(s, i + 1, parens - 1, brackets, last)
    else if s[i] == '[' then LastColon(s, i + 1, parens, brackets + 1, last)
    else if s[i] == ']' then LastColon(s, i + 1, parens, brackets - 1, last)
    else if s[i] == ':' && parens == 0 && brackets == 0 then LastColon(s, i + 1, parens, brackets, Some(i))
    else LastColon(s, i + 1, parens, brackets, last)
  }

  /** The separator is one of the plain splitter's cut points, so it is never inside a literal or bracket. */
  lemma {:induction false} LastColonIsCut(s: string, i: nat, parens: int, brackets: int, last: Option<nat>)
    ensures var r := LastColon(s, i, parens, brackets, last);
      r == last || (r.Some? && r.value in Cuts(s, ':', i, parens + brackets))
    decreases |s| - i
  {
    if i < |s| {
      if IsQuote(s[i]) {
        if SkipLiteral(s, i).Some? {
          LastColonIsCut(s, SkipLiteral(s, i).value, parens, brackets, last);
        }
      } else {
        var p := if s[i] == '(' then parens + 1 else if s[i] == ')' then parens - 1 else parens;
        var b := if s[i] == '[' then brackets + 1 else if s[i] == ']' then brackets - 1 else brackets;
        var here := if s[i] == ':' && parens == 0 && brackets == 0 then Some(i) else last;
        LastColonIsCut(s, i + 1, p, b, here);
      }
    }
  }

  /** `split_predicate_action` as written. */
  method SplitPredicateAction(s: string) returns (r: Option<(string, string)>)
    ensures var colon := LastColon(s, 0, 0, 0, None);
      r.Some? <==> colon.Some?
    ensures var colon := LastColon(s, 0, 0, 0, None);
      r.Some? ==>
        (&& colon.value < |s| && s[colon.value] == ':'
         && r.value == (Trim(s[..colon.value]), Trim(s[colon.value + 1..])))
  {
    var parens, brackets, i := 0, 0, 0;
    var last: Option<nat> := None;
    while i < |s|
      invariant LastColon(s, 0, 0, 0, None) == LastColon(s, i, parens, brackets, last)
      invariant last.Some? ==> last.value < |s| && s[last.value] == ':'
    {
      if IsQuote(s[i]) {
        var end := SkipLiteral(s, i);
        if end.None? {
          break;
        }
        i := end.value;
        continue;
      }
      if s[i] == '(' {
        parens := parens + 1;
      } else if s[i] == ')' {
        parens := parens - 1;
      } else if s[i] == '[' {
        brackets := brackets + 1;
      } else if s[i] == ']' {
        brackets := brackets - 1;
      } else if s[i] == ':' && parens == 0 && brackets == 0 {
        last := Some(i);
      }
      i := i + 1;
    }
    if last.None? {
      return None;
    }
    return Some((Trim(s[..last.value]), Trim(s[last.value + 1..])));
  }
}
