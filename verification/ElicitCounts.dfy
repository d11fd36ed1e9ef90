/** What the compiler's count of elicitations counts: the places in the tree that hold one. */
module ElicitCounts {
  import opened Values
  import opened Rules
  import opened Purity
  import opened ElicitationProtocol

  /** An elicitation sits at the path. */
  predicate ElicitAt(e: Effect, path: seq<nat>)
  {
    NodeAt(e, path).Some? && NodeAt(e, path).value.Elicit?
  }

  /** The path goes through one of these effects, numbered from `k`, to an elicitation. */
  predicate ElicitIn(es: seq<Effect>, k: nat, path: seq<nat>)
  {
    path != [] && k <= path[0] < k + |es| && ElicitAt(es[path[0] - k], path[1..])
  }

  predicate Distinct(paths: seq<seq<nat>>)
  {
    forall i, j :: 0 <= i < j < |paths| ==> paths[i] != paths[j]
  }

  lemma {:induction false} CountConcat(a: seq<Effect>, b: seq<Effect>)
    ensures CountAll(a + b) == CountAll(a) + CountAll(b)
    decreases |a|
  {
    if a == [] {
      assert a + b == b;
    } else {
      assert (a + b)[1..] == a[1..] + b;
      CountConcat(a[1..], b);
    }
  }

  lemma CountChildren(e: Effect)
    requires !e.Elicit?
    ensures CountElicits(e) == CountAll(Children(e))
  {
    if e.Pdp? {
      CountConcat(e.onAllow, e.onDeny);
    }
  }

  /** `count_elicits` is the number of places in the tree that hold an elicitation. */
  lemma {:induction false} CountsExactly(e: Effect) returns (paths: seq<seq<nat>>)
    ensures |paths| == CountElicits(e) && Distinct(paths)
    ensures forall path :: path in paths <==> ElicitAt(e, path)
    decreases e, 1
  {
    if e.Elicit? {
      paths := [[]];
    } else {
      CountChildren(e);
      paths := ChildPaths(Children(e), 0, e);
      forall path
        ensures path in paths <==> ElicitAt(e, path)
      {
      }
    }
  }

  lemma {:induction false} ChildPaths(es: seq<Effect>, k: nat, whole: Effect) returns (paths: seq<seq<nat>>)
    requires forall x :: x in es ==> x < whole
    ensures |paths| == CountAll(es) && Distinct(paths)
    ensures forall path :: path in paths <==> ElicitIn(es, k, path)
    decreases whole, 0, |es|
  {
    if es == [] {
      paths := [];
    } else {
      assert es[0] in es && forall x :: x in es[1..] ==> x in es;
      var first := CountsExactly(es[0]);
      var rest := ChildPaths(es[1..], k + 1, whole);
      var here := seq(|first|, i requires 0 <= i < |first| => [k] + first[i]);
      paths := here + rest;
      Prefixed(k, first, here);
      Apart(es, k, first, here, rest);
    }
  }

  lemma Prefixed(k: nat, first: seq<seq<nat>>, here: seq<seq<nat>>)
    requires |here| == |first| && (forall i :: 0 <= i < |first| ==> here[i] == [k] + first[i]) && Distinct(first)
    ensures Distinct(here)
    ensures forall path :: path in here <==> path != [] && path[0] == k && path[1..] in first
  {
    forall i, j | 0 <= i < j < |here|
      ensures here[i] != here[j]
    {
      assert here[i][1..] == first[i] && here[j][1..] == first[j];
    }
    forall path | path != [] && path[0] == k && path[1..] in first
      ensures path in here
    {
      var i :| 0 <= i < |first| && first[i] == path[1..];
      assert here[i] == path;
    }
    forall path | path in here
      ensures path != [] && path[0] == k && path[1..] in first
    {
      var i :| 0 <= i < |here| && here[i] == path;
      assert path[1..] == first[i];
    }
  }

  lemma Apart(es: seq<Effect>, k: nat, first: seq<seq<nat>>, here: seq<seq<nat>>, rest: seq<seq<nat>>)
    requires es != [] && Distinct(here) && Distinct(rest)
    requires forall path :: path in first <==> ElicitAt(es[0], path)
    requires forall path :: path in here <==> path != [] && path[0] == k && path[1..] in first
    requires forall path :: path in rest <==> ElicitIn(es[1..], k + 1, path)
    ensures Distinct(here + rest)
    ensures forall path :: path in here + rest <==> ElicitIn(es, k, path)
  {
    forall i, j | 0 <= i < |here| && 0 <= j < |rest|
      ensures here[i] != rest[j]
    {
      assert here[i] in here && rest[j] in rest;
    }
    forall path
      ensures path in here + rest <==> ElicitIn(es, k, path)
    {
      if path != [] && k < path[0] < k + |es| {
        assert es[1..][path[0] - k - 1] == es[path[0] - k];
      }
    }
  }

  /** A phase is accepted exactly when no two places in it hold an elicitation. */
  lemma {:induction false} AcceptedExactly(es: seq<Effect>)
    ensures Accepted(es) <==> forall p, q :: ElicitIn(es, 0, p) && ElicitIn(es, 0, q) ==> p == q
  {
    var whole := Sequential(es);
    var paths := ChildPaths(es, 0, whole);
    if Accepted(es) {
      forall p, q | ElicitIn(es, 0, p) && ElicitIn(es, 0, q)
        ensures p == q
      {
        assert p in paths && q in paths;
      }
    } else {
      assert paths[0] in paths && paths[1] in paths && paths[0] != paths[1];
    }
  }
}
