/** The config-load check that nothing below `parallel:` mutates, and what it buys at run time. */
module Purity {
  import opened Values
  import opened Rules
  import opened Hosts
  import opened Effects
  import opened Interpreter

  predicate MutationLeaf(e: Effect)
  {
    e.FieldOp? || e.Delegate? || e.Elicit?
  }

  /** `contains_mutation`. */
  predicate Mutates(e: Effect)
    decreases e, 1
  {
    match e
    case Sequential(effects) => AnyMutates(effects)
    case Parallel(effects) => AnyMutates(effects)
    case When(_, body, _) => AnyMutates(body)
    case Pdp(_, onAllow, onDeny) => AnyMutates(onAllow) || AnyMutates(onDeny)
    case _ => MutationLeaf(e)
  }

  predicate AnyMutates(es: seq<Effect>)
    decreases es, 0
  {
    es != [] && (Mutates(es[0]) || AnyMutates(es[1..]))
  }

  /** `validate_parallel_purity`: the branch reported as a mutation, if any. */
  function Violation(e: Effect): (r: Option<Effect>)
    decreases e, 1
  {
    match e
    case Parallel(effects) => FirstViolation(effects, true)
    case Sequential(effects) => FirstViolation(effects, false)
    case When(_, body, _) => FirstViolation(body, false)
    case Pdp(_, onAllow, onDeny) =>
      var first := FirstViolation(onAllow, false);
      if first.Some? then first else FirstViolation(onDeny, false)
    case _ => None
  }

  function FirstViolation(es: seq<Effect>, parallel: bool): (r: Option<Effect>)
    decreases es, 0
  {
    if es == [] then None
    else if parallel && Mutates(es[0]) then Some(es[0])
    else
      var nested := Violation(es[0]);
      if nested.Some? then nested else FirstViolation(es[1..], parallel)
  }

  predicate Checked(e: Effect)
  {
    Violation(e).None?
  }

  predicate AllChecked(es: seq<Effect>)
  {
    FirstViolation(es, false).None?
  }

  // ---- What the purity check accepts, read off the tree

  function Children(e: Effect): (r: seq<Effect>)
  {
    match e
    case Sequential(effects) => effects
    case Parallel(effects) => effects
    case When(_, body, _) => body
    case Pdp(_, onAllow, onDeny) => onAllow + onDeny
    case _ => []
  }

  /** The node reached from `e` by taking child `path[0]`, then `path[1]`, and so on. */
  function NodeAt(e: Effect, path: seq<nat>): (r: Option<Effect>)
    decreases |path|
  {
    if path == [] then Some(e)
    else if path[0] < |Children(e)| then NodeAt(Children(e)[path[0]], path[1..])
    else None
  }

  ghost predicate MutationAt(e: Effect, path: seq<nat>)
  {
    var node := NodeAt(e, path);
    node.Some? && MutationLeaf(node.value)
  }

  /** A mutation at `above + below` under the `parallel:` at `above`. */
  ghost predicate Offends(e: Effect, above: seq<nat>, below: seq<nat>)
  {
    var node := NodeAt(e, above);
    node.Some? && node.value.Parallel? && MutationAt(node.value, below)
  }

  lemma {:induction false} AnyMutatesAt(es: seq<Effect>, i: nat)
    requires i < |es| && Mutates(es[i])
    ensures AnyMutates(es)
  {
    if i > 0 {
      AnyMutatesAt(es[1..], i - 1);
    }
  }

  lemma {:induction false} MutatingMember(es: seq<Effect>) returns (i: nat)
    requires AnyMutates(es)
    ensures i < |es| && Mutates(es[i])
  {
    if Mutates(es[0]) {
      i := 0;
    } else {
      i := MutatingMember(es[1..]);
      i := i + 1;
    }
  }

  lemma MutatingChild(e: Effect) returns (i: nat)
    requires Mutates(e) && !MutationLeaf(e)
    ensures i < |Children(e)| && Mutates(Children(e)[i])
  {
    match e {
      case Pdp(_, onAllow, onDeny) =>
        if AnyMutates(onAllow) {
          i := MutatingMember(onAllow);
        } else {
          i := MutatingMember(onDeny);
          i := i + |onAllow|;
        }
      case _ =>
        i := MutatingMember(Children(e));
    }
  }

  lemma MutatesIfChild(e: Effect, i: nat)
    requires i < |Children(e)| && Mutates(Children(e)[i])
    ensures Mutates(e)
  {
    match e {
      case Pdp(_, onAllow, onDeny) =>
        if i < |onAllow| {
          AnyMutatesAt(onAllow, i);
        } else {
          AnyMutatesAt(onDeny, i - |onAllow|);
        }
      case _ =>
        AnyMutatesAt(Children(e), i);
    }
  }

  lemma {:induction false} MutationPath(e: Effect) returns (path: seq<nat>)
    requires Mutates(e)
    ensures MutationAt(e, path)
  {
    if MutationLeaf(e) {
      path := [];
    } else {
      var i := MutatingChild(e);
      var rest := MutationPath(Children(e)[i]);
      path := [i] + rest;
      assert path[1..] == rest;
    }
  }

  lemma {:induction false} MutationSeen(e: Effect, path: seq<nat>)
    requires MutationAt(e, path)
    ensures Mutates(e)
    decreases |path|
  {
    if path != [] {
      MutationSeen(Children(e)[path[0]], path[1..]);
      MutatesIfChild(e, path[0]);
    }
  }

  /** `contains_mutation` finds exactly the trees with a FieldOp, Delegate or Elicit somewhere. */
  lemma {:induction false} MutatesExactly(e: Effect)
    ensures Mutates(e) <==> exists path :: MutationAt(e, path)
  {
    if Mutates(e) {
      var path := MutationPath(e);
      assert MutationAt(e, path);
    }
    forall path | MutationAt(e, path)
      ensures Mutates(e)
    {
      MutationSeen(e, path);
    }
  }

  lemma {:induction false} ViolationAt(es: seq<Effect>, parallel: bool, i: nat)
    requires i < |es| && (Violation(es[i]).Some? || (parallel && Mutates(es[i])))
    ensures FirstViolation(es, parallel).Some?
  {
    if i > 0 {
      ViolationAt(es[1..], parallel, i - 1);
    }
  }

  lemma {:induction false} ViolatingMember(es: seq<Effect>, parallel: bool) returns (i: nat)
    requires FirstViolation(es, parallel).Some?
    ensures i < |es| && (Violation(es[i]).Some? || (parallel && Mutates(es[i])))
  {
    if (parallel && Mutates(es[0])) || Violation(es[0]).Some? {
      i := 0;
    } else {
      i := ViolatingMember(es[1..], parallel);
      i := i + 1;
    }
  }

  lemma ViolatingChild(e: Effect) returns (i: nat)
    requires Violation(e).Some?
    ensures i < |Children(e)| && (Violation(Children(e)[i]).Some? || (e.Parallel? && Mutates(Children(e)[i])))
  {
    match e {
      case Pdp(_, onAllow, onDeny) =>
        if FirstViolation(onAllow, false).Some? {
          i := ViolatingMember(onAllow, false);
        } else {
          i := ViolatingMember(onDeny, false);
          i := i + |onAllow|;
        }
      case _ =>
        i := ViolatingMember(Children(e), e.Parallel?);
    }
  }

  lemma ViolationIfChild(e: Effect, i: nat)
    requires i < |Children(e)| && (Violation(Children(e)[i]).Some? || (e.Parallel? && Mutates(Children(e)[i])))
    ensures Violation(e).Some?
  {
    match e {
      case Pdp(_, onAllow, onDeny) =>
        if i < |onAllow| {
          ViolationAt(onAllow, false, i);
        } else {
          ViolationAt(onDeny, false, i - |onAllow|);
        }
      case _ =>
        ViolationAt(Children(e), e.Parallel?, i);
    }
  }

  lemma {:induction false} OffenceFound(e: Effect) returns (above: seq<nat>, below: seq<nat>)
    requires Violation(e).Some?
    ensures Offends(e, above, below)
  {
    var i := ViolatingChild(e);
    if Violation(Children(e)[i]).Some? {
      var rest;
      rest, below := OffenceFound(Children(e)[i]);
      above := [i] + rest;
      assert above[1..] == rest;
    } else {
      MutatesIfChild(e, i);
      above := [];
      below := MutationPath(e);
    }
  }

  lemma {:induction false} OffenceSeen(e: Effect, above: seq<nat>, below: seq<nat>)
    requires Offends(e, above, below)
    ensures Violation(e).Some?
    decreases |above|
  {
    if above == [] {
      MutationSeen(e, below);
      var i := MutatingChild(e);
      ViolationIfChild(e, i);
    } else {
      OffenceSeen(Children(e)[above[0]], above[1..], below);
      ViolationIfChild(e, above[0]);
    }
  }

  /** The purity check accepts exactly the trees with no FieldOp, Delegate or Elicit below any `parallel:`. */
  lemma {:induction false} CheckedExactly(e: Effect)
    ensures Checked(e) <==> forall above, below :: !Offends(e, above, below)
  {
    if !Checked(e) {
      var above, below := OffenceFound(e);
      assert Offends(e, above, below);
    }
    forall above, below | Offends(e, above, below)
      ensures !Checked(e)
    {
      OffenceSeen(e, above, below);
    }
  }

  // ---- Checked piece by piece

  /** Every `parallel:` in the tree passed the check on its own, as it does when it is parsed. */
  predicate Compiled(e: Effect)
    decreases e, 1
  {
    match e
    case Parallel(effects) => AllCompiled(effects) && Checked(e)
    case Sequential(effects) => AllCompiled(effects)
    case When(_, body, _) => AllCompiled(body)
    case Pdp(_, onAllow, onDeny) => AllCompiled(onAllow) && AllCompiled(onDeny)
    case _ => true
  }

  predicate AllCompiled(es: seq<Effect>)
    decreases es, 0
  {
    es != [] ==> Compiled(es[0]) && AllCompiled(es[1..])
  }

  /** Checking each `parallel:` as it is parsed is checking the whole tree. */
  lemma {:induction false} CompiledExactly(e: Effect)
    ensures Compiled(e) <==> Checked(e)
    decreases e, 1
  {
    match e {
      case Parallel(effects) => AllCompiledExactly(effects, true);
      case Sequential(effects) => AllCompiledExactly(effects, false);
      case When(_, body, _) => AllCompiledExactly(body, false);
      case Pdp(_, onAllow, onDeny) =>
        AllCompiledExactly(onAllow, false);
        AllCompiledExactly(onDeny, false);
      case _ =>
    }
  }

  lemma {:induction false} AllCompiledExactly(es: seq<Effect>, parallel: bool)
    ensures FirstViolation(es, parallel).None? ==> AllCompiled(es)
    ensures AllCompiled(es) <==> AllChecked(es)
    decreases es, 0
  {
    if es != [] {
      CompiledExactly(es[0]);
      AllCompiledExactly(es[1..], parallel);
    }
  }

  lemma {:induction false} CheckedBranchesPure(es: seq<Effect>)
    requires FirstViolation(es, true).None?
    ensures !AnyMutates(es)
    decreases |es|
  {
    if es != [] {
      CheckedBranchesPure(es[1..]);
    }
  }

  // ---- What the purity check buys

  /** The run left the world as it was and did not suspend. */
  predicate Still(out: Out, w: World)
  {
    && out.world == w && !out.log.argsModified && !out.log.resultModified
    && !out.outcome.Pending?
  }

  lemma {:induction false} MergeStill(fates: seq<Fate>, outs: seq<Out>, k: nat, site: Site, fallback: string)
    requires |fates| == |outs|
    ensures !Merge(fates, outs, k, site, fallback).1.argsModified
    ensures !Merge(fates, outs, k, site, fallback).1.resultModified
    decreases |outs|
  {
    if outs != [] {
      MergeStill(fates[1..], outs[1..], k + 1, site, fallback);
    }
  }

  /** A `parallel:` block never changes the outer state, whatever its branches do. */
  lemma {:induction false} ParallelStill(fates: seq<Fate>, outs: seq<Out>, site: Site, fallback: string, w: World)
    requires |fates| == |outs|
    ensures Still(Merged(fates, outs, site, fallback, w), w)
  {
    MergeStill(fates, outs, 0, site, fallback);
  }

  lemma LeafStill(env: Env, e: Effect, site: Site, fallback: string, w: World)
    requires Leaf(e) && !MutationLeaf(e)
    ensures Still(RunLeaf(env, e, site, fallback, w), w)
  {
  }

  /** An effect without mutations leaves bag, payload and flags unchanged and never suspends. */
  lemma {:induction false} PureRun(env: Env, e: Effect, site: Site, fallback: string, w: World)
    requires !Mutates(e)
    ensures Still(Run(env, e, site, fallback, w), w)
    decreases e, 1
  {
    match e {
      case Sequential(effects) =>
        PureList(env, effects, site, 0, fallback, w);
      case Parallel(effects) =>
        var outs := RunBranches(env, effects, site, 0, fallback, w);
        ParallelStill(Effective(Fates(env, site, 0, |effects|), outs), outs, site, fallback, w);
      case When(guard, body, source) =>
        PureList(env, body, site, 0, source, w);
      case Pdp(call, onAllow, onDeny) =>
        PureList(env, onAllow, site + [0], 0, fallback, w);
        PureList(env, onDeny, site + [1], 0, fallback, w);
      case _ =>
        LeafStill(env, e, site, fallback, w);
    }
  }

  lemma {:induction false} PureList(env: Env, es: seq<Effect>, site: Site, k: nat, fallback: string, w: World)
    requires !AnyMutates(es)
    ensures Still(RunList(env, es, site, k, fallback, w), w)
    decreases es, 0
  {
    if es != [] {
      PureRun(env, es[0], site + [k], fallback, w);
      PureList(env, es[1..], site, k + 1, fallback, w);
    }
  }
}
