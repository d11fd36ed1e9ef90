/** What a field operation leaves in the payload, read back path by path. */
module FieldWrites {
  import opened Values
  import opened Text
  import opened Attributes
  import opened Rules
  import opened Hosts
  import opened Payloads
  import opened Elicitations
  import opened Effects
  import opened Pipelines

  // ---- Edits and the paths they leave alone

  /** The two paths share a prefix that leads to a value, and then name different children of it. */
  predicate PartsAt(root: Json, p: seq<string>, q: seq<string>, k: nat)
  {
    && k < |p| && k < |q| && p[..k] == q[..k]
    && GetAt(root, p[..k]).Some? && !SameSlot(GetAt(root, p[..k]).value, p[k], q[k])
  }

  ghost predicate Parts(root: Json, p: seq<string>, q: seq<string>)
  {
    exists k: nat :: PartsAt(root, p, q, k)
  }

  /** A value set at a path, or the path removed. */
  function Edited(root: Json, path: seq<string>, edit: Option<Json>): (r: Option<Json>)
  {
    if edit.Some? then SetAt(root, path, edit.value) else RemoveAt(root, path)
  }

  /** The path is the key of an object. */
  predicate Keyed(root: Json, path: seq<string>)
  {
    path != [] && GetAt(root, path[..|path| - 1]).Some? && GetAt(root, path[..|path| - 1]).value.Obj?
  }

  lemma {:induction false} PresentEdits(root: Json, path: seq<string>, edit: Option<Json>)
    requires GetAt(root, path).Some? && (path == [] ==> edit.Some?)
    ensures Edited(root, path, edit).Some?
    decreases |path|
  {
    if |path| > 1 {
      PresentEdits(Child(root, path[0]).value, path[1..], edit);
    }
  }

  lemma {:induction false} RemovedIsGone(root: Json, path: seq<string>)
    requires Keyed(root, path) && RemoveAt(root, path).Some?
    ensures GetAt(RemoveAt(root, path).value, path) == None
    decreases |path|
  {
    if |path| > 1 {
      assert path[..|path| - 1][1..] == path[1..][..|path| - 2];
      RemovedIsGone(Child(root, path[0]).value, path[1..]);
    }
  }

  /** An edit leaves every path that parts from it unchanged. */
  lemma {:induction false} EditElsewhere(root: Json, path: seq<string>, edit: Option<Json>, other: seq<string>, k: nat)
    requires Edited(root, path, edit).Some? && PartsAt(root, path, other, k)
    requires edit.None? ==> Keyed(root, path)
    ensures GetAt(Edited(root, path, edit).value, other) == GetAt(root, other)
    decreases |path|
  {
    if k > 0 {
      assert path[..k][0] == other[..k][0] == path[0] == other[0];
      assert path[..k][1..] == path[1..][..k - 1] && other[..k][1..] == other[1..][..k - 1];
      assert path[..|path| - 1][1..] == path[1..][..|path| - 2];
      EditElsewhere(Child(root, path[0]).value, path[1..], edit, other[1..], k - 1);
    }
  }

  /** An edit below a value leaves it there, an array if it was one. */
  lemma {:induction false} EditBelow(root: Json, path: seq<string>, edit: Option<Json>, above: seq<string>)
    requires Edited(root, path, edit).Some? && above < path
    ensures var before, after := GetAt(root, above), GetAt(Edited(root, path, edit).value, above);
      && before.Some? && after.Some?
      && (before.value.Arr? <==> after.value.Arr?) && (before.value.Obj? <==> after.value.Obj?)
    decreases |path|
  {
    if above != [] {
      assert above[0] == path[0] && above[1..] < path[1..];
      EditBelow(Child(root, path[0]).value, path[1..], edit, above[1..]);
    }
  }

  lemma PrefixParts(root: Json, p: seq<string>, q: seq<string>, k: nat, n: nat)
    requires PartsAt(root, p, q, k) && k < n <= |q|
    ensures PartsAt(root, p, q[..n], k)
  {
    assert q[..n][..k] == q[..k];
  }

  /** The value above a path that parts from an edit keeps its kind. */
  lemma AboveKept(root: Json, edited: seq<string>, edit: Option<Json>, p: seq<string>, n: nat)
    requires Edited(root, edited, edit).Some? && (edit.None? ==> Keyed(root, edited))
    requires Parts(root, edited, p) && n < |p| && GetAt(root, p[..n]).Some?
    ensures var before, after := GetAt(root, p[..n]), GetAt(Edited(root, edited, edit).value, p[..n]);
      && after.Some?
      && (before.value.Arr? <==> after.value.Arr?) && (before.value.Obj? <==> after.value.Obj?)
  {
    var k: nat :| PartsAt(root, edited, p, k);
    if k < n {
      PrefixParts(root, edited, p, k, n);
      EditElsewhere(root, edited, edit, p[..n], k);
    } else {
      assert p[..n] == p[..k][..n] == edited[..k][..n] == edited[..n];
      EditBelow(root, edited, edit, p[..n]);
    }
  }

  lemma PartsKept(root: Json, edited: seq<string>, edit: Option<Json>, p: seq<string>, q: seq<string>)
    requires Edited(root, edited, edit).Some? && (edit.None? ==> Keyed(root, edited))
    requires Parts(root, edited, p) && Parts(root, p, q)
    ensures Parts(Edited(root, edited, edit).value, p, q)
  {
    var k: nat :| PartsAt(root, p, q, k);
    AboveKept(root, edited, edit, p, k);
    assert PartsAt(Edited(root, edited, edit).value, p, q, k);
  }

  lemma PartsSymmetric(root: Json, p: seq<string>, q: seq<string>)
    requires Parts(root, p, q)
    ensures Parts(root, q, p)
  {
    var k: nat :| PartsAt(root, p, q, k);
    assert PartsAt(root, q, p, k);
  }

  /** The edited path itself still parts from the others. */
  lemma EditedParts(root: Json, edited: seq<string>, edit: Option<Json>, q: seq<string>)
    requires Edited(root, edited, edit).Some? && Parts(root, edited, q)
    ensures Parts(Edited(root, edited, edit).value, q, edited)
  {
    var k: nat :| PartsAt(root, edited, q, k);
    EditBelow(root, edited, edit, edited[..k]);
    assert PartsAt(Edited(root, edited, edit).value, q, edited, k);
  }

  lemma KeyedKept(root: Json, edited: seq<string>, edit: Option<Json>, p: seq<string>)
    requires Edited(root, edited, edit).Some? && (edit.None? ==> Keyed(root, edited))
    requires Parts(root, edited, p) && Keyed(root, p)
    ensures Keyed(Edited(root, edited, edit).value, p)
  {
    AboveKept(root, edited, edit, p, |p| - 1);
  }

  // ---- The loop over concrete paths

  /** Every one of the paths parts from `q`. */
  ghost predicate AllPart(root: Json, paths: seq<seq<string>>, q: seq<string>)
  {
    forall i :: 0 <= i < |paths| ==> Parts(root, paths[i], q)
  }

  ghost predicate Apart(root: Json, paths: seq<seq<string>>)
  {
    forall i, j :: 0 <= i < j < |paths| ==> Parts(root, paths[i], paths[j])
  }

  /** The pipelines' runs, each on the value the document holds at its path; none where it holds nothing. */
  function RunsOn(env: Env, bag: Bag, stages: seq<Stage>, site: Site, k: nat, paths: seq<seq<string>>, root: Json)
    : (runs: seq<Option<PipelineRun>>)
    ensures |runs| == |paths|
  {
    seq(|paths|, i requires 0 <= i < |paths| => RunOn(env, bag, stages, site + [k + i], GetAt(root, paths[i])))
  }

  function RunOn(env: Env, bag: Bag, stages: seq<Stage>, site: Site, found: Option<Json>): (r: Option<PipelineRun>)
  {
    match found
    case None => None
    case Some(v) => Some(RunStages(env, bag, stages, site, 0, v, false))
  }

  function EndOf(run: Option<PipelineRun>): (o: FieldOutcome)
  {
    if run.Some? then run.value.outcome else Pass
  }

  function Ends(runs: seq<Option<PipelineRun>>): (ends: seq<FieldOutcome>)
    ensures |ends| == |runs| && forall i :: 0 <= i < |runs| ==> ends[i] == EndOf(runs[i])
  {
    seq(|runs|, i requires 0 <= i < |runs| => EndOf(runs[i]))
  }

  /** The taints of the runs, in order. */
  function Raised(runs: seq<Option<PipelineRun>>): (r: seq<TaintEvent>)
  {
    if runs == [] then []
    else (if runs[0].Some? then runs[0].value.taints else []) + Raised(runs[1..])
  }

  /** The runs the loop got to: those it went through and the one that stopped it. */
  function Reached(runs: seq<Option<PipelineRun>>, n: nat): (r: seq<Option<PipelineRun>>)
  {
    if n < |runs| then runs[..n + 1] else runs
  }

  /** Paths that are omitted are keys of objects, or the whole document. */
  ghost predicate KeyedOmits(root: Json, paths: seq<seq<string>>, ends: seq<FieldOutcome>)
    requires |ends| == |paths|
  {
    forall i :: 0 <= i < |paths| && ends[i].Drop? && paths[i] != [] ==> Keyed(root, paths[i])
  }

  /** What is at a path once its pipeline ended so on what was found there. */
  function Left(path: seq<string>, found: Option<Json>, o: FieldOutcome): (r: Option<Json>)
  {
    if found.None? then None
    else
      match o
      case Replace(v) => Some(v)
      case Drop => if path == [] then found else None
      case _ => found
  }

  predicate Writes(path: seq<string>, found: Option<Json>, o: FieldOutcome)
  {
    found.Some? && (o.Replace? || (o.Drop? && path != []))
  }

  ghost predicate SomeWrites(root: Json, paths: seq<seq<string>>, ends: seq<FieldOutcome>, n: nat)
    requires n <= |paths| == |ends|
  {
    exists i :: 0 <= i < n && Writes(paths[i], GetAt(root, paths[i]), ends[i])
  }

  /** The first `n` paths hold what their pipelines made of them, the later ones what they held. */
  ghost predicate Settled(root: Json, paths: seq<seq<string>>, ends: seq<FieldOutcome>, n: nat, final: Json)
    requires n <= |paths| == |ends|
  {
    forall i :: 0 <= i < |paths| ==>
      GetAt(final, paths[i]) == if i < n then Left(paths[i], GetAt(root, paths[i]), ends[i]) else GetAt(root, paths[i])
  }

  /** Whatever parts from the first `n` paths is as it was. */
  ghost predicate Untouched(root: Json, paths: seq<seq<string>>, n: nat, final: Json)
    requires n <= |paths|
  {
    forall q :: AllPart(root, paths[..n], q) ==> GetAt(final, q) == GetAt(root, q)
  }

  /** The loop went through the first `n` paths: all of them, or up to the first whose pipeline rejects. */
  predicate Stopped(ends: seq<FieldOutcome>, n: nat, fault: Option<StageFault>)
  {
    && n <= |ends| && (forall i :: 0 <= i < n ==> !ends[i].Reject?)
    && (fault.None? <==> n == |ends|)
    && (n < |ends| ==> ends[n].Reject? && fault == Some(ends[n].fault))
  }

  ghost predicate Looped(root: Json, paths: seq<seq<string>>, ends: seq<FieldOutcome>, n: nat, final: Json,
                         modified: bool, fault: Option<StageFault>)
  {
    && n <= |paths| == |ends|
    && Settled(root, paths, ends, n, final) && Untouched(root, paths, n, final) && Stopped(ends, n, fault)
    && (modified <==> SomeWrites(root, paths, ends, n))
  }

  /** What one path's edit did to the document the later paths start from. */
  ghost predicate Carried(root: Json, next: Json, paths: seq<seq<string>>)
    requires paths != []
  {
    && (forall i :: 1 <= i < |paths| ==> GetAt(next, paths[i]) == GetAt(root, paths[i]))
    && (forall q :: Parts(root, paths[0], q) ==> GetAt(next, q) == GetAt(root, q))
    && (forall p, q :: Parts(root, paths[0], p) && Parts(root, p, q) ==> Parts(next, p, q))
  }

  lemma TailWrites(root: Json, next: Json, paths: seq<seq<string>>, ends: seq<FieldOutcome>, n: nat)
    requires paths != [] && |ends| == |paths| && n < |paths|
    requires forall i :: 1 <= i < |paths| ==> GetAt(next, paths[i]) == GetAt(root, paths[i])
    ensures SomeWrites(root, paths, ends, n + 1) <==>
      Writes(paths[0], GetAt(root, paths[0]), ends[0]) || SomeWrites(next, paths[1..], ends[1..], n)
  {
    if i :| 1 <= i < n + 1 && Writes(paths[i], GetAt(root, paths[i]), ends[i]) {
      assert paths[1..][i - 1] == paths[i] && ends[1..][i - 1] == ends[i];
    }
    if i :| 0 <= i < n && Writes(paths[1..][i], GetAt(next, paths[1..][i]), ends[1..][i]) {
      assert paths[1..][i] == paths[i + 1] && ends[1..][i] == ends[i + 1];
    }
  }

  lemma TailParts(root: Json, next: Json, paths: seq<seq<string>>, n: nat, q: seq<string>)
    requires paths != [] && n < |paths| && Apart(root, paths) && Carried(root, next, paths)
    requires AllPart(root, paths[..n + 1], q)
    ensures AllPart(next, paths[1..][..n], q) && GetAt(next, q) == GetAt(root, q)
  {
    assert paths[..n + 1][0] == paths[0];
    forall i | 0 <= i < n
      ensures Parts(next, paths[1..][..n][i], q)
    {
      assert paths[1..][..n][i] == paths[i + 1] == paths[..n + 1][i + 1];
      assert Parts(root, paths[0], paths[i + 1]) && Parts(root, paths[i + 1], q);
    }
  }

  lemma TailSettled(root: Json, next: Json, paths: seq<seq<string>>, ends: seq<FieldOutcome>, n: nat, final: Json)
    requires paths != [] && |ends| == |paths| && n < |paths|
    requires forall i :: 1 <= i < |paths| ==> GetAt(next, paths[i]) == GetAt(root, paths[i])
    requires Settled(next, paths[1..], ends[1..], n, final)
    requires GetAt(final, paths[0]) == Left(paths[0], GetAt(root, paths[0]), ends[0])
    ensures Settled(root, paths, ends, n + 1, final)
  {
    forall i | 1 <= i < |paths|
      ensures GetAt(final, paths[i]) ==
        if i < n + 1 then Left(paths[i], GetAt(root, paths[i]), ends[i]) else GetAt(root, paths[i])
    {
      assert paths[1..][i - 1] == paths[i] && ends[1..][i - 1] == ends[i];
    }
  }

  lemma TailUntouched(root: Json, next: Json, paths: seq<seq<string>>, n: nat, final: Json)
    requires paths != [] && n < |paths| && Apart(root, paths) && Carried(root, next, paths)
    requires Untouched(next, paths[1..], n, final)
    ensures Untouched(root, paths, n + 1, final)
  {
    forall q | AllPart(root, paths[..n + 1], q)
      ensures GetAt(final, q) == GetAt(root, q)
    {
      TailParts(root, next, paths, n, q);
    }
  }

  lemma TailStopped(ends: seq<FieldOutcome>, n: nat, fault: Option<StageFault>)
    requires ends != [] && !ends[0].Reject? && Stopped(ends[1..], n, fault)
    ensures Stopped(ends, n + 1, fault)
  {
    assert forall i :: 1 <= i < |ends| ==> ends[1..][i - 1] == ends[i];
  }

  /** The rest of the loop, started on `next`, seen from before the first path. */
  lemma Stepped(root: Json, next: Json, paths: seq<seq<string>>, ends: seq<FieldOutcome>, n: nat, final: Json,
                modified: bool, fault: Option<StageFault>)
    requires paths != [] && |ends| == |paths| && Apart(root, paths) && Carried(root, next, paths)
    requires Looped(next, paths[1..], ends[1..], n, final, modified, fault) && !ends[0].Reject?
    requires GetAt(final, paths[0]) == Left(paths[0], GetAt(root, paths[0]), ends[0])
    ensures Looped(root, paths, ends, n + 1, final,
                   Writes(paths[0], GetAt(root, paths[0]), ends[0]) || modified, fault)
  {
    TailWrites(root, next, paths, ends, n);
    TailSettled(root, next, paths, ends, n, final);
    TailUntouched(root, next, paths, n, final);
    TailStopped(ends, n, fault);
  }

  // ---- One path

  /** The edit a pipeline's end asks for, if any. */
  function EditFor(path: seq<string>, o: FieldOutcome): (r: Option<Option<Json>>)
  {
    match o
    case Replace(v) => Some(Some(v))
    case Drop => if path == [] then None else Some(None)
    case _ => None
  }

  lemma EditCarries(root: Json, paths: seq<seq<string>>, edit: Option<Json>)
    requires paths != [] && Apart(root, paths) && Edited(root, paths[0], edit).Some?
    requires edit.None? ==> Keyed(root, paths[0])
    ensures Carried(root, Edited(root, paths[0], edit).value, paths)
  {
    var path, next := paths[0], Edited(root, paths[0], edit).value;
    forall q | Parts(root, path, q)
      ensures GetAt(next, q) == GetAt(root, q)
    {
      var k: nat :| PartsAt(root, path, q, k);
      EditElsewhere(root, path, edit, q, k);
    }
    forall p, q | Parts(root, path, p) && Parts(root, p, q)
      ensures Parts(next, p, q)
    {
      PartsKept(root, path, edit, p, q);
    }
  }

  lemma TailApart(root: Json, next: Json, paths: seq<seq<string>>)
    requires paths != [] && Apart(root, paths) && Carried(root, next, paths)
    ensures Apart(next, paths[1..])
  {
    forall i, j | 0 <= i < j < |paths[1..]|
      ensures Parts(next, paths[1..][i], paths[1..][j])
    {
      assert paths[1..][i] == paths[i + 1] && paths[1..][j] == paths[j + 1];
      assert Parts(root, paths[0], paths[i + 1]);
    }
  }

  lemma TailKeyed(root: Json, paths: seq<seq<string>>, ends: seq<FieldOutcome>, edit: Option<Json>)
    requires paths != [] && |ends| == |paths| && Apart(root, paths) && KeyedOmits(root, paths, ends)
    requires Edited(root, paths[0], edit).Some? && (edit.None? ==> Keyed(root, paths[0]))
    ensures KeyedOmits(Edited(root, paths[0], edit).value, paths[1..], ends[1..])
  {
    forall i | 0 <= i < |paths[1..]| && ends[1..][i].Drop? && paths[1..][i] != []
      ensures Keyed(Edited(root, paths[0], edit).value, paths[1..][i])
    {
      assert paths[1..][i] == paths[i + 1] && ends[1..][i] == ends[i + 1];
      KeyedKept(root, paths[0], edit, paths[i + 1]);
    }
  }

  /** The edited path keeps its new content while later paths, which part from it, are worked on. */
  lemma FirstKept(root: Json, paths: seq<seq<string>>, edit: Option<Json>, n: nat, final: Json)
    requires paths != [] && n < |paths| && Apart(root, paths) && Edited(root, paths[0], edit).Some?
    requires Untouched(Edited(root, paths[0], edit).value, paths[1..], n, final)
    ensures GetAt(final, paths[0]) == GetAt(Edited(root, paths[0], edit).value, paths[0])
  {
    var next := Edited(root, paths[0], edit).value;
    forall i | 0 <= i < n
      ensures Parts(next, paths[1..][..n][i], paths[0])
    {
      assert paths[1..][..n][i] == paths[i + 1];
      EditedParts(root, paths[0], edit, paths[i + 1]);
    }
    assert AllPart(next, paths[1..][..n], paths[0]);
  }

  lemma UnmovedFirst(root: Json, paths: seq<seq<string>>, n: nat, final: Json)
    requires paths != [] && n < |paths| && Apart(root, paths) && Untouched(root, paths[1..], n, final)
    ensures GetAt(final, paths[0]) == GetAt(root, paths[0])
  {
    forall i | 0 <= i < n
      ensures Parts(root, paths[1..][..n][i], paths[0])
    {
      assert paths[1..][..n][i] == paths[i + 1];
      PartsSymmetric(root, paths[0], paths[i + 1]);
    }
    assert AllPart(root, paths[1..][..n], paths[0]);
  }

  // ---- The loop itself

  lemma TailRuns(env: Env, bag: Bag, stages: seq<Stage>, site: Site, k: nat, paths: seq<seq<string>>, root: Json,
                 next: Json, runs: seq<Option<PipelineRun>>)
    requires paths != [] && runs == RunsOn(env, bag, stages, site, k, paths, root)
    requires forall i :: 1 <= i < |paths| ==> GetAt(next, paths[i]) == GetAt(root, paths[i])
    ensures RunsOn(env, bag, stages, site, k + 1, paths[1..], next) == runs[1..]
    ensures Ends(runs[1..]) == Ends(runs)[1..]
    ensures runs[0] == RunOn(env, bag, stages, site + [k], GetAt(root, paths[0]))
  {
    assert site + [k + 0] == site + [k];
    forall i | 0 <= i < |paths| - 1
      ensures RunsOn(env, bag, stages, site, k + 1, paths[1..], next)[i] == runs[1..][i]
    {
      assert paths[1..][i] == paths[i + 1] && k + 1 + i == k + (i + 1);
    }
  }

  lemma TailRaised(runs: seq<Option<PipelineRun>>, n: nat)
    requires runs != []
    ensures Raised(Reached(runs, n + 1)) ==
      (if runs[0].Some? then runs[0].value.taints else []) + Raised(Reached(runs[1..], n))
  {
    assert Reached(runs, n + 1)[1..] == Reached(runs[1..], n);
  }

  lemma AppliedIs(root: Json, path: seq<string>, o: FieldOutcome)
    requires GetAt(root, path).Some? && !o.Reject?
    ensures match EditFor(path, o)
      case None => Applied(root, path, o) == (root, false)
      case Some(edit) =>
        Edited(root, path, edit).Some? && Applied(root, path, o) == (Edited(root, path, edit).value, true)
  {
    if EditFor(path, o).Some? {
      PresentEdits(root, path, EditFor(path, o).value);
    }
  }

  lemma EditedHere(root: Json, path: seq<string>, o: FieldOutcome)
    requires GetAt(root, path).Some? && EditFor(path, o).Some? && Edited(root, path, EditFor(path, o).value).Some?
    requires o.Drop? ==> Keyed(root, path)
    ensures GetAt(Edited(root, path, EditFor(path, o).value).value, path) == Left(path, GetAt(root, path), o)
  {
    if o.Drop? {
      RemovedIsGone(root, path);
    } else {
      SetThenGet(root, path, o.value);
    }
  }

  /** The document the later paths start from. */
  function NextRoot(root: Json, path: seq<string>, o: FieldOutcome): (r: Json)
  {
    match EditFor(path, o)
    case None => root
    case Some(edit) => if Edited(root, path, edit).Some? then Edited(root, path, edit).value else root
  }

  lemma NextCarries(root: Json, paths: seq<seq<string>>, ends: seq<FieldOutcome>)
    requires paths != [] && |ends| == |paths| && GetAt(root, paths[0]).Some?
    requires Apart(root, paths) && KeyedOmits(root, paths, ends)
    ensures var next := NextRoot(root, paths[0], ends[0]);
      Carried(root, next, paths) && Apart(next, paths[1..]) && KeyedOmits(next, paths[1..], ends[1..])
  {
    match EditFor(paths[0], ends[0])
    case None =>
      assert KeyedOmits(root, paths[1..], ends[1..]) by {
        assert forall i :: 0 <= i < |paths[1..]| ==> paths[1..][i] == paths[i + 1] && ends[1..][i] == ends[i + 1];
      }
      TailApart(root, root, paths);
    case Some(edit) =>
      PresentEdits(root, paths[0], edit);
      EditCarries(root, paths, edit);
      TailApart(root, Edited(root, paths[0], edit).value, paths);
      TailKeyed(root, paths, ends, edit);
  }

  lemma FirstLeft(root: Json, paths: seq<seq<string>>, o: FieldOutcome, n: nat, final: Json)
    requires paths != [] && n < |paths| && Apart(root, paths) && GetAt(root, paths[0]).Some? && !o.Reject?
    requires o.Drop? && paths[0] != [] ==> Keyed(root, paths[0])
    requires Untouched(NextRoot(root, paths[0], o), paths[1..], n, final)
    ensures GetAt(final, paths[0]) == Left(paths[0], GetAt(root, paths[0]), o)
  {
    match EditFor(paths[0], o)
    case None => UnmovedFirst(root, paths, n, final);
    case Some(edit) =>
      PresentEdits(root, paths[0], edit);
      FirstKept(root, paths, edit, n, final);
      EditedHere(root, paths[0], o);
  }

  lemma {:induction false} PathsLoop(env: Env, bag: Bag, stages: seq<Stage>, site: Site, k: nat,
                                     paths: seq<seq<string>>, root: Json, runs: seq<Option<PipelineRun>>, r: FieldRun)
    returns (n: nat)
    requires r == RunPaths(env, bag, stages, site, k, paths, root)
    requires runs == RunsOn(env, bag, stages, site, k, paths, root)
    requires Apart(root, paths) && KeyedOmits(root, paths, Ends(runs))
    ensures Looped(root, paths, Ends(runs), n, r.root, r.modified, r.fault)
    ensures r.taints == Raised(Reached(runs, n))
    decreases |paths|
  {
    if paths == [] {
      n := 0;
    } else if GetAt(root, paths[0]).None? {
      n := MissingStep(env, bag, stages, site, k, paths, root, runs, r);
    } else {
      n := PresentStep(env, bag, stages, site, k, paths, root, runs, r);
    }
  }

  lemma TailOmits(root: Json, paths: seq<seq<string>>, ends: seq<FieldOutcome>)
    requires paths != [] && |ends| == |paths| && KeyedOmits(root, paths, ends)
    ensures KeyedOmits(root, paths[1..], ends[1..])
  {
    assert forall i :: 0 <= i < |paths[1..]| ==> paths[1..][i] == paths[i + 1] && ends[1..][i] == ends[i + 1];
  }

  lemma {:induction false} MissingStep(env: Env, bag: Bag, stages: seq<Stage>, site: Site, k: nat,
                                       paths: seq<seq<string>>, root: Json, runs: seq<Option<PipelineRun>>, r: FieldRun)
    returns (n: nat)
    requires paths != [] && GetAt(root, paths[0]).None? && r == RunPaths(env, bag, stages, site, k, paths, root)
    requires runs == RunsOn(env, bag, stages, site, k, paths, root)
    requires Apart(root, paths) && KeyedOmits(root, paths, Ends(runs))
    ensures Looped(root, paths, Ends(runs), n, r.root, r.modified, r.fault)
    ensures r.taints == Raised(Reached(runs, n))
    decreases |paths|, 0
  {
    TailRuns(env, bag, stages, site, k, paths, root, root, runs);
    TailApart(root, root, paths);
    TailOmits(root, paths, Ends(runs));
    var m := PathsLoop(env, bag, stages, site, k + 1, paths[1..], root, runs[1..], r);
    FinishMissing(root, paths, runs, m, r);
    n := m + 1;
  }

  lemma FinishMissing(root: Json, paths: seq<seq<string>>, runs: seq<Option<PipelineRun>>, m: nat, r: FieldRun)
    requires paths != [] && |runs| == |paths| && runs[0].None? && Ends(runs[1..]) == Ends(runs)[1..]
    requires Apart(root, paths) && GetAt(root, paths[0]).None?
    requires Looped(root, paths[1..], Ends(runs[1..]), m, r.root, r.modified, r.fault)
    requires r.taints == Raised(Reached(runs[1..], m))
    ensures Looped(root, paths, Ends(runs), m + 1, r.root, r.modified, r.fault)
    ensures r.taints == Raised(Reached(runs, m + 1))
  {
    UnmovedFirst(root, paths, m, r.root);
    Stepped(root, root, paths, Ends(runs), m, r.root, r.modified, r.fault);
    TailRaised(runs, m);
    assert [] + r.taints == r.taints;
  }

  lemma RejectedStep(root: Json, paths: seq<seq<string>>, runs: seq<Option<PipelineRun>>, r: FieldRun)
    requires paths != [] && |runs| == |paths| && runs[0].Some? && runs[0].value.outcome.Reject?
    requires r.root == root && r.fault == Some(runs[0].value.outcome.fault) && !r.modified
    requires r.taints == runs[0].value.taints
    ensures Looped(root, paths, Ends(runs), 0, r.root, r.modified, r.fault)
    ensures r.taints == Raised(Reached(runs, 0))
  {
    assert Reached(runs, 0) == [runs[0]];
    assert [runs[0]][1..] == [];
  }

  /** One path done: the rest of the loop starts on the edited document. */
  lemma KeptStep(env: Env, bag: Bag, stages: seq<Stage>, site: Site, k: nat, paths: seq<seq<string>>, root: Json,
                 runs: seq<Option<PipelineRun>>, r: FieldRun)
    returns (next: Json, rest: FieldRun)
    requires paths != [] && GetAt(root, paths[0]).Some? && r == RunPaths(env, bag, stages, site, k, paths, root)
    requires runs == RunsOn(env, bag, stages, site, k, paths, root) && !EndOf(runs[0]).Reject?
    requires Apart(root, paths) && KeyedOmits(root, paths, Ends(runs))
    ensures next == NextRoot(root, paths[0], EndOf(runs[0])) && Carried(root, next, paths)
    ensures Apart(next, paths[1..]) && KeyedOmits(next, paths[1..], Ends(runs[1..]))
    ensures rest == RunPaths(env, bag, stages, site, k + 1, paths[1..], next)
    ensures runs[1..] == RunsOn(env, bag, stages, site, k + 1, paths[1..], next)
    ensures runs[0].Some? && Ends(runs[1..]) == Ends(runs)[1..]
    ensures r.root == rest.root && r.fault == rest.fault && r.taints == runs[0].value.taints + rest.taints
    ensures r.modified == (Writes(paths[0], GetAt(root, paths[0]), EndOf(runs[0])) || rest.modified)
  {
    var run := RunStages(env, bag, stages, site + [k], 0, GetAt(root, paths[0]).value, false);
    TailRuns(env, bag, stages, site, k, paths, root, root, runs);
    PathsStep(env, bag, stages, site, k, paths, root, GetAt(root, paths[0]).value, run);
    next := NextRoot(root, paths[0], run.outcome);
    AppliedIs(root, paths[0], run.outcome);
    NextCarries(root, paths, Ends(runs));
    TailRuns(env, bag, stages, site, k, paths, root, next, runs);
    rest := RunPaths(env, bag, stages, site, k + 1, paths[1..], next);
  }

  lemma {:induction false} PresentStep(env: Env, bag: Bag, stages: seq<Stage>, site: Site, k: nat,
                                       paths: seq<seq<string>>, root: Json, runs: seq<Option<PipelineRun>>, r: FieldRun)
    returns (n: nat)
    requires paths != [] && GetAt(root, paths[0]).Some? && r == RunPaths(env, bag, stages, site, k, paths, root)
    requires runs == RunsOn(env, bag, stages, site, k, paths, root)
    requires Apart(root, paths) && KeyedOmits(root, paths, Ends(runs))
    ensures Looped(root, paths, Ends(runs), n, r.root, r.modified, r.fault)
    ensures r.taints == Raised(Reached(runs, n))
    decreases |paths|, 0
  {
    if EndOf(runs[0]).Reject? {
      RejectedFirst(env, bag, stages, site, k, paths, root, runs, r);
      n := 0;
    } else {
      var next, rest := KeptStep(env, bag, stages, site, k, paths, root, runs, r);
      var m := PathsLoop(env, bag, stages, site, k + 1, paths[1..], next, runs[1..], rest);
      Finish(root, next, paths, runs, m, rest, r);
      n := m + 1;
    }
  }

  lemma RejectedFirst(env: Env, bag: Bag, stages: seq<Stage>, site: Site, k: nat, paths: seq<seq<string>>, root: Json,
                      runs: seq<Option<PipelineRun>>, r: FieldRun)
    requires paths != [] && GetAt(root, paths[0]).Some? && r == RunPaths(env, bag, stages, site, k, paths, root)
    requires runs == RunsOn(env, bag, stages, site, k, paths, root) && EndOf(runs[0]).Reject?
    ensures Looped(root, paths, Ends(runs), 0, r.root, r.modified, r.fault)
    ensures r.taints == Raised(Reached(runs, 0))
  {
    var run := RunStages(env, bag, stages, site + [k], 0, GetAt(root, paths[0]).value, false);
    TailRuns(env, bag, stages, site, k, paths, root, root, runs);
    PathsStep(env, bag, stages, site, k, paths, root, GetAt(root, paths[0]).value, run);
    RejectedStep(root, paths, runs, r);
  }

  lemma Finish(root: Json, next: Json, paths: seq<seq<string>>, runs: seq<Option<PipelineRun>>, m: nat,
               rest: FieldRun, r: FieldRun)
    requires paths != [] && |runs| == |paths| && runs[0].Some? && Ends(runs[1..]) == Ends(runs)[1..]
    requires Apart(root, paths) && GetAt(root, paths[0]).Some? && KeyedOmits(root, paths, Ends(runs))
    requires next == NextRoot(root, paths[0], EndOf(runs[0])) && Carried(root, next, paths)
    requires !EndOf(runs[0]).Reject?
    requires Looped(next, paths[1..], Ends(runs[1..]), m, rest.root, rest.modified, rest.fault)
    requires rest.taints == Raised(Reached(runs[1..], m))
    requires r.root == rest.root && r.fault == rest.fault && r.taints == runs[0].value.taints + rest.taints
    requires r.modified == (Writes(paths[0], GetAt(root, paths[0]), EndOf(runs[0])) || rest.modified)
    ensures Looped(root, paths, Ends(runs), m + 1, r.root, r.modified, r.fault)
    ensures r.taints == Raised(Reached(runs, m + 1))
  {
    FirstLeft(root, paths, EndOf(runs[0]), m, rest.root);
    Stepped(root, next, paths, Ends(runs), m, rest.root, rest.modified, rest.fault);
    TailRaised(runs, m);
  }

  // ---- Field operations

  /** The document a path on this side is worked on, when the phase is right and there is one. */
  function Document(env: Env, onArgs: bool, p: Payload): (r: Option<Json>)
  {
    if onArgs then if env.phase == Pre then Some(p.args) else None
    else if env.phase == Post then p.result else None
  }

  /** The path of a field operation: a side, and the path within it. */
  function PathOn(onArgs: bool, sub: string): (path: string)
  {
    (if onArgs then "args." else "result.") + sub
  }

  lemma PathNames(onArgs: bool, sub: string)
    ensures SideOf(PathOn(onArgs, sub)) == Some((if onArgs then ArgsSide else ResultSide, sub))
  {
    var path := PathOn(onArgs, sub);
    if onArgs {
      assert path[5..] == sub;
    } else {
      assert path[0] == 'r' && "args."[0] == 'a';
      assert path[7..] == sub;
    }
  }

  /**
   * A field operation over paths that part from one another reads back so: every path it went through
   * holds what its pipeline made of the value found there at the start (the replacement, nothing once
   * omitted, the value itself when it passed), and whatever parts from those paths is unchanged. It goes
   * through all of them and continues, or stops and denies at the first whose pipeline rejects. The side's
   * modified flag is up exactly when some path was replaced or omitted, the other side, its flag and the
   * bag never change, and the taints are those of the pipelines it got to, in order.
   */
  lemma {:induction false} FieldOpWrites(env: Env, onArgs: bool, sub: string, stages: seq<Stage>, site: Site,
                                         fallback: string, w: World, root: Json, paths: seq<seq<string>>,
                                         runs: seq<Option<PipelineRun>>, redacting: bool, out: Out)
    returns (n: nat, final: Json)
    requires out == RunFieldOp(env, PathOn(onArgs, sub), stages, site, fallback, w)
    requires Document(env, onArgs, w.payload) == Some(root)
    requires redacting <==> exists i :: 0 <= i < |stages| && stages[i].Redact?
    requires env.foreign.expand(root, sub, redacting) == Some(paths)
    requires runs == RunsOn(env, w.bag, stages, site, 0, paths, root)
    requires Apart(root, paths) && KeyedOmits(root, paths, Ends(runs))
    ensures Document(env, onArgs, out.world.payload) == Some(final) && n <= |paths|
    ensures forall i :: 0 <= i < |paths| ==>
      GetAt(final, paths[i]) ==
        if i < n then Left(paths[i], GetAt(root, paths[i]), EndOf(runs[i])) else GetAt(root, paths[i])
    ensures forall q :: AllPart(root, paths[..n], q) ==> GetAt(final, q) == GetAt(root, q)
    ensures forall i :: 0 <= i < n ==> !EndOf(runs[i]).Reject?
    ensures n == |paths| ==> out.outcome == Continue
    ensures n < |paths| ==>
      EndOf(runs[n]).Reject? && out.outcome == Halt(Denied(Some(FieldRejected(EndOf(runs[n]).fault)), fallback))
    ensures (if onArgs then out.log.argsModified else out.log.resultModified) <==>
      exists i :: 0 <= i < n && Writes(paths[i], GetAt(root, paths[i]), EndOf(runs[i]))
    ensures !(if onArgs then out.log.resultModified else out.log.argsModified)
    ensures out.world.bag == w.bag && out.world.payload.structured == w.payload.structured
    ensures if onArgs then out.world.payload.result == w.payload.result else out.world.payload.args == w.payload.args
    ensures out.log.taints == Raised(Reached(runs, n)) && out.log.constraints == []
  {
    PathNames(onArgs, sub);
    var r := RunPaths(env, w.bag, stages, site, 0, paths, root);
    n := PathsLoop(env, w.bag, stages, site, 0, paths, root, runs, r);
    final := r.root;
    assert forall i :: 0 <= i < |runs| ==> Ends(runs)[i] == EndOf(runs[i]);
  }

  /** Out of phase, or with no result yet, a field operation leaves everything alone and continues. */
  lemma {:induction false} FieldOpOutOfPhase(env: Env, onArgs: bool, sub: string, stages: seq<Stage>, site: Site,
                                             fallback: string, w: World)
    requires Document(env, onArgs, w.payload).None?
    ensures var out := RunFieldOp(env, PathOn(onArgs, sub), stages, site, fallback, w);
      && out.outcome == Continue && out.world == w
      && out.log.taints == [] && out.log.constraints == [] && !out.log.argsModified && !out.log.resultModified
  {
    PathNames(onArgs, sub);
  }

  /**
   * Elements omitted one after the other from one array are the exception: the array closes up behind each,
   * so of two elements only the first goes, and its place is taken by the second.
   */
  lemma {:induction false} OmittedTwice(env: Env, bag: Bag, site: Site, k: nat, x: Json, y: Json, r: FieldRun)
    requires r == RunPaths(env, bag, [Omit], site, k, [["0"], ["1"]], Arr([x, y]))
    ensures Apart(Arr([x, y]), [["0"], ["1"]]) && r.root == Arr([y]) && r.fault.None?
  {
    var root, paths := Arr([x, y]), [["0"], ["1"]];
    assert DigitsValue("0") == 0 && DigitsValue("1") == 1 by {
      assert "0"[..0] == [] && "1"[..0] == [];
    }
    assert ParseIndex("0") == Some(0) && ParseIndex("1") == Some(1);
    assert PartsAt(root, ["0"], ["1"], 0);
    assert ["0"][1..] == [] && ["1"][1..] == [];
    assert GetAt(root, ["0"]) == Some(x);
    var run := RunStages(env, bag, [Omit], site + [k], 0, x, false);
    StagesUnfold(env, bag, [Omit], site + [k], 0, x, false);
    PathsStep(env, bag, [Omit], site, k, paths, root, x, run);
    assert [x, y][..0] + [x, y][1..] == [y];
    assert paths[1..] == [["1"]];
    assert GetAt(Arr([y]), ["1"]) == None;
  }

  /** Omitting an array element closes the gap: the later elements move down by one. */
  lemma {:induction false} OmittedElement(root: Json, path: seq<string>, items: seq<Json>, i: nat)
    requires path != [] && GetAt(root, path[..|path| - 1]) == Some(Arr(items))
    requires ParseIndex(path[|path| - 1]) == Some(i) && i < |items|
    ensures RemoveAt(root, path).Some?
    ensures GetAt(RemoveAt(root, path).value, path[..|path| - 1]) == Some(Arr(items[..i] + items[i + 1..]))
    decreases |path|
  {
    if |path| > 1 {
      assert path[..|path| - 1][1..] == path[1..][..|path| - 2];
      OmittedElement(Child(root, path[0]).value, path[1..], items, i);
    }
  }

  /** So an omitted path reads nothing exactly when it is an object's key or an array's last element. */
  lemma {:induction false} OmittedReadsNothing(root: Json, path: seq<string>, parent: Json)
    requires path != [] && GetAt(root, path[..|path| - 1]) == Some(parent) && GetAt(root, path).Some?
    ensures RemoveAt(root, path).Some?
    ensures GetAt(RemoveAt(root, path).value, path).None? <==>
      parent.Obj? || (parent.Arr? && ParseIndex(path[|path| - 1]) == Some(|parent.items| - 1))
    decreases |path|
  {
    if |path| == 1 {
      assert path[1..] == [];
    } else {
      assert path[..|path| - 1][1..] == path[1..][..|path| - 2];
      OmittedReadsNothing(Child(root, path[0]).value, path[1..], parent);
    }
  }
}
