/** What the plain splitter computes: the only way to cut a text into closed pieces, each scanned on its own. */
module SplitLaws {
  import opened Values
  import opened Lexical
  import opened Scanners

  /** Scanning the text from `i` at `depth` meets no cut and no unterminated literal; the depth it ends at. */
  function Through(s: string, delim: char, i: nat, depth: int): (r: Option<int>)
    decreases |s| - i
  {
    if i >= |s| then Some(depth)
    else if IsQuote(s[i]) then
      match SkipLiteral(s, i)
      case Some(end) => Through(s, delim, end, depth)
      case None => None
    else if Opens(s[i]) then Through(s, delim, i + 1, depth + 1)
    else if Closes(s[i]) then Through(s, delim, i + 1, depth - 1)
    else if s[i] == delim && depth == 0 then None
    else Through(s, delim, i + 1, depth)
  }

  /** Complete literals, brackets that cancel out, and no delimiter at depth zero. */
  predicate Closed(s: string, delim: char)
  {
    Through(s, delim, 0, 0) == Some(0)
  }

  predicate Uncut(s: string, delim: char)
  {
    Cuts(s, delim, 0, 0) == []
  }

  // ---- The first cut

  function Depth(c: char, depth: int): (r: int)
  {
    if Opens(c) then depth + 1 else if Closes(c) then depth - 1 else depth
  }

  /** A prefix that scans through leaves the cuts to what follows it. */
  lemma {:induction false} ThroughSkips(s: string, delim: char, k: nat, i: nat, depth: int)
    requires i <= k <= |s| && Through(s[..k], delim, i, depth).Some?
    ensures Cuts(s, delim, i, depth) == Cuts(s, delim, k, Through(s[..k], delim, i, depth).value)
    decreases k - i
  {
    if i < k {
      assert s[..k][i] == s[i];
      if IsQuote(s[i]) {
        SkipInPrefix(s, k, i);
        ThroughSkips(s, delim, k, SkipLiteral(s[..k], i).value, depth);
      } else {
        ThroughSkips(s, delim, k, i + 1, Depth(s[i], depth));
      }
    }
  }

  /** The text before the first cut scans through to depth zero. */
  lemma {:induction false} BeforeFirstCut(s: string, delim: char, i: nat, depth: int, k: nat)
    requires i <= |s| && First(Cuts(s, delim, i, depth)) == Some(k)
    ensures i <= k < |s| && s[k] == delim && Through(s[..k], delim, i, depth) == Some(0)
    decreases |s| - i
  {
    CutsOrdered(s, delim, i, depth);
    if i < k {
      assert s[..k][i] == s[i];
      if IsQuote(s[i]) {
        var end := SkipLiteral(s, i).value;
        BeforeFirstCut(s, delim, end, depth, k);
        SkipInPrefix(s, k, i);
      } else {
        BeforeFirstCut(s, delim, i + 1, Depth(s[i], depth), k);
      }
    } else {
      HeadCut(s, delim, i, depth);
    }
  }

  lemma HeadCut(s: string, delim: char, i: nat, depth: int)
    requires i < |s| && First(Cuts(s, delim, i, depth)) == Some(i)
    ensures s[i] == delim && depth == 0
  {
    if IsQuote(s[i]) {
      CutsOrdered(s, delim, SkipLiteral(s, i).value, depth);
    } else {
      CutsOrdered(s, delim, i + 1, Depth(s[i], depth));
    }
  }

  predicate Plain(delim: char)
  {
    !IsQuote(delim) && !Opens(delim) && !Closes(delim)
  }

  /** The first split point is where a delimiter follows closed text, and nowhere else. */
  lemma {:induction false} FirstCutExactly(s: string, delim: char, k: nat)
    requires Plain(delim)
    ensures First(Cuts(s, delim, 0, 0)) == Some(k) <==> k < |s| && s[k] == delim && Closed(s[..k], delim)
  {
    if First(Cuts(s, delim, 0, 0)) == Some(k) {
      BeforeFirstCut(s, delim, 0, 0, k);
    } else if k < |s| && s[k] == delim && Closed(s[..k], delim) {
      ThroughSkips(s, delim, k, 0, 0);
    }
  }

  // ---- Splitting off the first piece

  function Shifted(cuts: seq<nat>, d: nat): (r: seq<nat>)
    ensures |r| == |cuts|
  {
    seq(|cuts|, i requires 0 <= i < |cuts| => cuts[i] + d)
  }

  lemma ShiftedCons(k: nat, cuts: seq<nat>, d: nat)
    ensures Shifted([k] + cuts, d) == [k + d] + Shifted(cuts, d)
  {
  }

  lemma {:induction false} CutsShift(s: string, delim: char, d: nat, i: nat, depth: int)
    requires d <= |s|
    ensures Cuts(s, delim, d + i, depth) == Shifted(Cuts(s[d..], delim, i, depth), d)
    decreases |s| - i
  {
    var t := s[d..];
    if i < |t| {
      assert t[i] == s[d + i];
      if IsQuote(t[i]) {
        SkipShift(s, t, d, i);
        var end := SkipLiteral(t, i);
        if end.Some? {
          CutsShift(s, delim, d, end.value, depth);
        }
      } else {
        CutsShift(s, delim, d, i + 1, Depth(t[i], depth));
        ShiftedCons(i, Cuts(t, delim, i + 1, depth), d);
      }
    }
  }

  lemma ShiftedTail(cuts: seq<nat>, d: nat)
    requires cuts != []
    ensures Shifted(cuts, d)[1..] == Shifted(cuts[1..], d)
  {
  }

  lemma SliceShift(s: string, d: nat, a: nat, b: nat)
    requires d <= |s| && a <= b <= |s| - d
    ensures s[d..][a..b] == s[d + a..d + b]
    ensures b == |s| - d ==> s[d..][a..] == s[d + a..]
  {
  }

  lemma {:induction false} PiecesShift(s: string, delim: char, d: nat, start: nat, cuts: seq<nat>)
    requires d <= |s| && Ordered(s[d..], delim, start, cuts)
    ensures Ordered(s, delim, d + start, Shifted(cuts, d))
    ensures Pieces(s, delim, d + start, Shifted(cuts, d)) == Pieces(s[d..], delim, start, cuts)
    decreases |cuts|
  {
    if cuts == [] {
      SliceShift(s, d, start, |s| - d);
    } else {
      ShiftedTail(cuts, d);
      SliceShift(s, d, start, cuts[0]);
      PiecesShift(s, delim, d, cuts[0] + 1, cuts[1..]);
    }
  }

  lemma SplitStep(s: string, delim: char)
    ensures Uncut(s, delim) ==> Split(s, delim) == [s]
    ensures !Uncut(s, delim) ==>
      var k := Cuts(s, delim, 0, 0)[0];
      k < |s| && s[k] == delim && Split(s, delim) == [s[..k]] + Split(s[k + 1..], delim)
  {
    CutsOrdered(s, delim, 0, 0);
    var cuts := Cuts(s, delim, 0, 0);
    if cuts == [] {
      assert s[0..] == s;
    } else {
      var k := cuts[0];
      BeforeFirstCut(s, delim, 0, 0, k);
      ThroughSkips(s, delim, k, 0, 0);
      assert cuts == Cuts(s, delim, k, 0);
      HeadCut(s, delim, k, 0);
      RestOfCuts(s, delim, k);
      assert cuts[1..] == Cuts(s, delim, k + 1, 0);
      CutsShift(s, delim, k + 1, 0, 0);
      CutsOrdered(s[k + 1..], delim, 0, 0);
      PiecesShift(s, delim, k + 1, 0, Cuts(s[k + 1..], delim, 0, 0));
      assert s[0..k] == s[..k];
    }
  }

  lemma RestOfCuts(s: string, delim: char, k: nat)
    requires k < |s| && First(Cuts(s, delim, k, 0)) == Some(k)
    ensures Cuts(s, delim, k, 0)[1..] == Cuts(s, delim, k + 1, 0)
  {
    if IsQuote(s[k]) {
      CutsOrdered(s, delim, SkipLiteral(s, k).value, 0);
    } else {
      CutsOrdered(s, delim, k + 1, Depth(s[k], 0));
    }
  }

  // ---- Uniqueness

  /** Every piece but the last is closed, and the last has no cut in it. */
  predicate Separate(pieces: seq<string>, delim: char)
    decreases |pieces|
  {
    if pieces == [] then false
    else if |pieces| == 1 then Uncut(pieces[0], delim)
    else Closed(pieces[0], delim) && Separate(pieces[1..], delim)
  }

  lemma JoinStep(pieces: seq<string>, delim: char, s: string)
    requires |pieces| > 1 && Join(pieces, delim) == s
    ensures var k := |pieces[0]|;
      k < |s| && s[k] == delim && s[..k] == pieces[0] && s[k + 1..] == Join(pieces[1..], delim)
  {
  }

  /**
   * The split of a text is the one sequence of pieces that joins back to it with every piece but the
   * last closed and the last uncut.
   */
  lemma {:induction false} SplitExactly(s: string, delim: char, pieces: seq<string>)
    requires Plain(delim)
    ensures pieces == Split(s, delim) <==> Join(pieces, delim) == s && Separate(pieces, delim)
    decreases |s|
  {
    SplitStep(s, delim);
    if pieces == Split(s, delim) {
      SplitRejoins(s, delim);
      SplitSeparates(s, delim);
    } else if Join(pieces, delim) == s && Separate(pieces, delim) {
      if |pieces| > 1 {
        JoinStep(pieces, delim, s);
        FirstCutExactly(s, delim, |pieces[0]|);
        SplitExactly(s[|pieces[0]| + 1..], delim, pieces[1..]);
      }
    }
  }

  lemma {:induction false} SplitSeparates(s: string, delim: char)
    requires Plain(delim)
    ensures Separate(Split(s, delim), delim)
    decreases |s|
  {
    SplitStep(s, delim);
    if !Uncut(s, delim) {
      var k := Cuts(s, delim, 0, 0)[0];
      FirstCutExactly(s, delim, k);
      SplitSeparates(s[k + 1..], delim);
      assert Split(s, delim)[1..] == Split(s[k + 1..], delim);
    }
  }
}
