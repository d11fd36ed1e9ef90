/** `parallel:` does not depend on how its branches are scheduled. */
module Schedules {
  import opened Values
  import opened Rules
  import opened Hosts
  import opened Payloads
  import opened Elicitations
  import opened Effects
  import opened Interpreter
  import opened Purity
  import Attributes
  import Pipelines
  import Safety

  // ---- One block, any legal outcome vector

  predicate Finished(fate: Fate, out: Out)
  {
    fate.Runs? && !Halts(out)
  }

  lemma {:induction false} NoHaltMerged(fates: seq<Fate>, outs: seq<Out>, k: nat, site: Site, fallback: string)
    requires |fates| == |outs|
    ensures Merge(fates, outs, k, site, fallback).0.None? <==>
      forall i :: 0 <= i < |outs| ==> fates[i].Aborts? || Finished(fates[i], outs[i])
    decreases |outs|
  {
    if outs != [] {
      NoHaltMerged(fates[1..], outs[1..], k + 1, site, fallback);
      assert forall i :: 1 <= i < |outs| ==> outs[i] == outs[1..][i - 1] && fates[i] == fates[1..][i - 1];
    }
  }

  /** Under the `run_branches` contract, a block continues exactly when every branch finished without halting. */
  lemma {:induction false} ContinuesExactly(fates: seq<Fate>, outs: seq<Out>, site: Site, fallback: string, w: World)
    requires Legal(fates, outs)
    ensures Merged(fates, outs, site, fallback, w).outcome.Continue? <==>
      forall i :: 0 <= i < |outs| ==> Finished(fates[i], outs[i])
  {
    NoHaltMerged(fates, outs, 0, site, fallback);
    if (exists i :: 0 <= i < |fates| && fates[i].Aborts?) && SomeHalt(fates, outs) {
      var i :| 0 <= i < |outs| && fates[i].Runs? && Halts(outs[i]);
      assert !fates[i].Aborts? && !Finished(fates[i], outs[i]);
    }
  }

  lemma StillLog(out: Out, w: World)
    requires Still(out, w)
    ensures Log(out.log.taints, out.log.constraints, false, false, out.log.events) == out.log
  {
  }

  /** Branches that all continue, merged, are the same list run in order. */
  lemma {:induction false} MergeIsList(env: Env, es: seq<Effect>, site: Site, k: nat, fallback: string, w: World,
                                       fates: seq<Fate>, outs: seq<Out>)
    requires !AnyMutates(es) && outs == RunBranches(env, es, site, k, fallback, w) && |fates| == |outs|
    requires forall i :: 0 <= i < |outs| ==> Finished(fates[i], outs[i])
    ensures RunList(env, es, site, k, fallback, w) == Out(Continue, w, Merge(fates, outs, k, site, fallback).1)
    decreases |es|
  {
    if es != [] {
      BranchStep(env, es, site, k, fallback, w, outs);
      PureRun(env, es[0], site + [k], fallback, w);
      assert Finished(fates[0], outs[0]);
      StillLog(outs[0], w);
      ListStep(env, es, site, k, fallback, w, outs[0]);
      assert forall i :: 0 <= i < |outs[1..]| ==> outs[1..][i] == outs[i + 1] && fates[1..][i] == fates[i + 1];
      MergeIsList(env, es[1..], site, k + 1, fallback, w, fates[1..], outs[1..]);
    }
  }

  /**
   * `parallel:` over a list without mutations, under any legal vector of branch endings: it continues
   * exactly when every branch finished and continued, and is then `sequential:` on the same list in
   * outcome, world, taints, constraints and events.
   */
  lemma {:induction false} ParallelIsSequential(env: Env, es: seq<Effect>, site: Site, fallback: string, w: World,
                             fates: seq<Fate>, outs: seq<Out>)
    requires !AnyMutates(es) && outs == RunBranches(env, es, site, 0, fallback, w) && Legal(fates, outs)
    ensures Merged(fates, outs, site, fallback, w).outcome.Continue? <==>
      forall i :: 0 <= i < |outs| ==> fates[i].Runs? && outs[i].outcome.Continue?
    ensures Merged(fates, outs, site, fallback, w).outcome.Continue? ==>
      Merged(fates, outs, site, fallback, w) == RunList(env, es, site, 0, fallback, w)
  {
    ContinuesExactly(fates, outs, site, fallback, w);
    BranchesPure(env, es, site, 0, fallback, w, outs);
    if Merged(fates, outs, site, fallback, w).outcome.Continue? {
      MergeIsList(env, es, site, 0, fallback, w, fates, outs);
    }
  }

  lemma {:induction false} BranchesPure(env: Env, es: seq<Effect>, site: Site, k: nat, fallback: string, w: World,
                                        outs: seq<Out>)
    requires !AnyMutates(es) && outs == RunBranches(env, es, site, k, fallback, w)
    ensures forall i :: 0 <= i < |outs| ==> !outs[i].outcome.Pending?
    decreases |es|
  {
    if es != [] {
      BranchStep(env, es, site, k, fallback, w, outs);
      PureRun(env, es[0], site + [k], fallback, w);
      BranchesPure(env, es[1..], site, k + 1, fallback, w, outs[1..]);
      assert forall i :: 1 <= i < |outs| ==> outs[i] == outs[1..][i - 1];
    }
  }

  /** If some branch halts, panics or times out, every legal schedule denies. */
  lemma {:induction false} LostBranchDenies(env: Env, es: seq<Effect>, site: Site, fallback: string, w: World,
                         fates: seq<Fate>, outs: seq<Out>, i: nat)
    requires outs == RunBranches(env, es, site, 0, fallback, w) && Legal(fates, outs) && i < |outs|
    requires Halts(outs[i]) || fates[i].Panics? || fates[i].TimesOut?
    ensures var out := Merged(fates, outs, site, fallback, w); out.outcome.Halt? && out.outcome.decision.Denied?
  {
    ContinuesExactly(fates, outs, site, fallback, w);
    assert !Finished(fates[i], outs[i]);
    Safety.BranchesDeny(env, es, site, 0, fallback, w, outs);
    Safety.MergeDenies(fates, outs, 0, site, fallback);
  }

  // ---- Whole runs under two schedulers

  /** The scheduler aborts branches but loses none to a panic or a timeout. */
  ghost predicate Gentle(env: Env)
  {
    forall site :: env.host.fate(site).Runs? || env.host.fate(site).Aborts?
  }

  /** The two worlds differ only in when branches get aborted. */
  ghost predicate SameButSchedule(a: Env, b: Env)
  {
    b == a.(host := a.host.(fate := b.host.fate)) && Gentle(a) && Gentle(b)
  }

  /** Both halt, or the runs are the same in every part. */
  predicate Agree(a: Out, b: Out)
  {
    a == b || (Halts(a) && Halts(b))
  }

  lemma {:induction false} StagesSame(a: Env, b: Env, bag: Attributes.Bag, stages: seq<Stage>, site: Site, index: nat,
                                      v: Json, replaced: bool)
    requires SameButSchedule(a, b)
    ensures Pipelines.RunStages(a, bag, stages, site, index, v, replaced) ==
            Pipelines.RunStages(b, bag, stages, site, index, v, replaced)
    decreases |stages|
  {
    if stages != [] {
      var step := Pipelines.RunStage(a, bag, stages[0], site + [index], v);
      assert step == Pipelines.RunStage(b, bag, stages[0], site + [index], v);
      Pipelines.StagesUnfold(a, bag, stages, site, index, v, replaced);
      Pipelines.StagesUnfold(b, bag, stages, site, index, v, replaced);
      if step.result.Kept? {
        StagesSame(a, b, bag, stages[1..], site, index + 1, step.result.value, replaced || step.result.changed);
      }
    }
  }

  lemma {:induction false} PathsSame(a: Env, b: Env, bag: Attributes.Bag, stages: seq<Stage>, site: Site, k: nat,
                                     paths: seq<seq<string>>, root: Json)
    requires SameButSchedule(a, b)
    ensures RunPaths(a, bag, stages, site, k, paths, root) == RunPaths(b, bag, stages, site, k, paths, root)
    decreases |paths|
  {
    if paths != [] {
      match GetAt(root, paths[0]) {
        case None =>
          PathsSame(a, b, bag, stages, site, k + 1, paths[1..], root);
        case Some(current) =>
          StagesSame(a, b, bag, stages, site + [k], 0, current, false);
          var run := Pipelines.RunStages(a, bag, stages, site + [k], 0, current, false);
          PathsSame(a, b, bag, stages, site, k + 1, paths[1..], Applied(root, paths[0], run.outcome).0);
      }
    }
  }

  lemma FieldOpSame(a: Env, b: Env, path: string, stages: seq<Stage>, site: Site, fallback: string, w: World)
    requires SameButSchedule(a, b)
    ensures RunFieldOp(a, path, stages, site, fallback, w) == RunFieldOp(b, path, stages, site, fallback, w)
  {
    var side := SideOf(path);
    if side.Some? && InPhase(a, side.value.0, w.payload).Some? {
      var root := InPhase(a, side.value.0, w.payload).value;
      var paths := a.foreign.expand(root, side.value.1, Redacts(stages));
      if paths.Some? {
        PathsSame(a, b, w.bag, stages, site, 0, paths.value, root);
      }
    }
  }

  lemma LeafSame(a: Env, b: Env, e: Effect, site: Site, fallback: string, w: World)
    requires SameButSchedule(a, b) && Leaf(e)
    ensures RunLeaf(a, e, site, fallback, w) == RunLeaf(b, e, site, fallback, w)
  {
    if e.FieldOp? {
      FieldOpSame(a, b, e.path, e.stages, site, fallback, w);
    }
  }

  predicate AllAgree(a: seq<Out>, b: seq<Out>)
  {
    |a| == |b| && forall i :: 0 <= i < |a| ==> Agree(a[i], b[i])
  }

  predicate Untouched(fates: seq<Fate>)
  {
    forall i :: 0 <= i < |fates| ==> fates[i].Runs?
  }

  lemma GentleFates(env: Env, site: Site, outs: seq<Out>, fates: seq<Fate>)
    requires Gentle(env) && fates == Effective(Fates(env, site, 0, |outs|), outs)
    ensures forall i :: 0 <= i < |fates| ==> fates[i].Runs? || fates[i].Aborts?
  {
  }

  /** With nothing lost, a block halts exactly when some branch would. */
  lemma GentleHalts(fates: seq<Fate>, outs: seq<Out>, site: Site, fallback: string, w: World)
    requires Legal(fates, outs) && forall i :: 0 <= i < |fates| ==> fates[i].Runs? || fates[i].Aborts?
    ensures var out := Merged(fates, outs, site, fallback, w);
      && (out.outcome.Continue? <==> forall i :: 0 <= i < |outs| ==> !Halts(outs[i]))
      && (out.outcome.Continue? ==> Untouched(fates))
  {
    ContinuesExactly(fates, outs, site, fallback, w);
    if forall i :: 0 <= i < |outs| ==> !Halts(outs[i]) {
      assert !SomeHalt(fates, outs);
    }
  }

  lemma BlocksAgree(a: Env, b: Env, site: Site, fallback: string, w: World, outsA: seq<Out>, outsB: seq<Out>)
    requires SameButSchedule(a, b) && AllAgree(outsA, outsB)
    ensures Agree(Merged(Effective(Fates(a, site, 0, |outsA|), outsA), outsA, site, fallback, w),
                  Merged(Effective(Fates(b, site, 0, |outsB|), outsB), outsB, site, fallback, w))
  {
    var fatesA := Effective(Fates(a, site, 0, |outsA|), outsA);
    var fatesB := Effective(Fates(b, site, 0, |outsB|), outsB);
    GentleFates(a, site, outsA, fatesA);
    GentleFates(b, site, outsB, fatesB);
    GentleHalts(fatesA, outsA, site, fallback, w);
    GentleHalts(fatesB, outsB, site, fallback, w);
    if forall i :: 0 <= i < |outsA| ==> !Halts(outsA[i]) {
      assert outsA == outsB;
      assert fatesA == fatesB;
    } else {
      var i :| 0 <= i < |outsA| && Halts(outsA[i]);
      assert Halts(outsB[i]);
    }
  }

  /**
   * Two schedulers that lose no branch give the same run: either both deny, or outcome, world, taints,
   * constraints, flags and events are equal.
   */
  lemma {:induction false} RunsAgree(a: Env, b: Env, e: Effect, site: Site, fallback: string, w: World)
    requires SameButSchedule(a, b)
    ensures Agree(Run(a, e, site, fallback, w), Run(b, e, site, fallback, w))
    decreases e, 1
  {
    match e {
      case Sequential(effects) =>
        ListsAgree(a, b, effects, site, 0, fallback, w);
      case Parallel(effects) =>
        BranchesAgree(a, b, effects, site, 0, fallback, w);
        BlocksAgree(a, b, site, fallback, w, RunBranches(a, effects, site, 0, fallback, w),
                    RunBranches(b, effects, site, 0, fallback, w));
      case When(guard, body, source) =>
        ListsAgree(a, b, body, site, 0, source, w);
      case Pdp(call, onAllow, onDeny) =>
        ListsAgree(a, b, onAllow, site + [0], 0, fallback, w);
        ListsAgree(a, b, onDeny, site + [1], 0, fallback, w);
        PdpsAgree(a, b, call, onAllow, onDeny, site, fallback, w);
      case _ =>
        LeafSame(a, b, e, site, fallback, w);
    }
  }

  lemma PdpsAgree(a: Env, b: Env, call: PdpCall, onAllow: seq<Effect>, onDeny: seq<Effect>, site: Site,
                  fallback: string, w: World)
    requires SameButSchedule(a, b)
    requires Agree(RunList(a, onAllow, site + [0], 0, fallback, w), RunList(b, onAllow, site + [0], 0, fallback, w))
    requires Agree(RunList(a, onDeny, site + [1], 0, fallback, w), RunList(b, onDeny, site + [1], 0, fallback, w))
    ensures var e := Pdp(call, onAllow, onDeny); Agree(Run(a, e, site, fallback, w), Run(b, e, site, fallback, w))
  {
    assert AskPdp(a, call, site, w.payload) == AskPdp(b, call, site, w.payload);
  }

  lemma {:induction false} ListsAgree(a: Env, b: Env, es: seq<Effect>, site: Site, k: nat, fallback: string, w: World)
    requires SameButSchedule(a, b)
    ensures Agree(RunList(a, es, site, k, fallback, w), RunList(b, es, site, k, fallback, w))
    decreases es, 0
  {
    if es != [] {
      var first := Run(a, es[0], site + [k], fallback, w);
      RunsAgree(a, b, es[0], site + [k], fallback, w);
      ListStep(a, es, site, k, fallback, w, first);
      ListStep(b, es, site, k, fallback, w, Run(b, es[0], site + [k], fallback, w));
      if first.outcome.Continue? {
        ListsAgree(a, b, es[1..], site, k + 1, fallback, first.world);
      }
    }
  }

  lemma {:induction false} BranchesAgree(a: Env, b: Env, es: seq<Effect>, site: Site, k: nat, fallback: string,
                                         w: World)
    requires SameButSchedule(a, b)
    ensures AllAgree(RunBranches(a, es, site, k, fallback, w), RunBranches(b, es, site, k, fallback, w))
    decreases es, 0
  {
    if es != [] {
      var outsA, outsB := RunBranches(a, es, site, k, fallback, w), RunBranches(b, es, site, k, fallback, w);
      RunsAgree(a, b, es[0], site + [k], fallback, w);
      BranchesAgree(a, b, es[1..], site, k + 1, fallback, w);
      BranchStep(a, es, site, k, fallback, w, outsA);
      BranchStep(b, es, site, k, fallback, w, outsB);
      forall i | 0 <= i < |es|
        ensures Agree(outsA[i], outsB[i])
      {
        if i > 0 {
          assert outsA[i] == outsA[1..][i - 1] && outsB[i] == outsB[1..][i - 1];
        }
      }
    }
  }
}
