/** A run that continues has put every gate on its path to the question, and each let it through. */
module Coverage {
  import opened Values
  import opened Rules
  import opened Hosts
  import opened Elicitations
  import opened Effects
  import opened Interpreter
  import opened Purity
  import opened Schedules
  import opened ElicitationProtocol
  import Attributes
  import Payloads
  import Pipelines
  import Safety

  // ---- Field operations

  /** Each plugin stage the value got to was asked, and the host allowed it; no stage rejected. */
  predicate StagesCleared(env: Env, events: seq<Event>, bag: Attributes.Bag, stages: seq<Stage>, site: Site,
                          index: nat, v: Json)
    decreases |stages|
  {
    stages != [] ==>
      && (stages[0].PluginStage? ==> PluginCleared(env, events, stages[0].name, site + [index]))
      && match Pipelines.RunStage(env, bag, stages[0], site + [index], v).result
         case Rejected(_) => false
         case Dropped => true
         case Kept(next, _) => StagesCleared(env, events, bag, stages[1..], site, index + 1, next)
  }

  predicate PluginCleared(env: Env, events: seq<Event>, name: string, site: Site)
  {
    var reply := env.host.plugin(site);
    reply.Ok? && reply.value.decision.Allowed? && PluginAsked(site, name, reply) in events
  }

  /** At each path that is present, in the payload as earlier paths left it, the pipeline ran and let the value by. */
  predicate PathsCleared(env: Env, events: seq<Event>, bag: Attributes.Bag, stages: seq<Stage>, site: Site, k: nat,
                         paths: seq<seq<string>>, root: Json)
    decreases |paths|
  {
    paths != [] ==>
      match Payloads.GetAt(root, paths[0])
      case None => PathsCleared(env, events, bag, stages, site, k + 1, paths[1..], root)
      case Some(current) =>
        var outcome := Pipelines.RunStages(env, bag, stages, site + [k], 0, current, false).outcome;
        && !outcome.Reject? && FieldRan(site + [k], outcome) in events
        && StagesCleared(env, events, bag, stages, site + [k], 0, current)
        && PathsCleared(env, events, bag, stages, site, k + 1, paths[1..], Applied(root, paths[0], outcome).0)
  }

  predicate FieldCleared(env: Env, events: seq<Event>, path: string, stages: seq<Stage>, site: Site, w: World)
  {
    && FieldVisited(site) in events && SideOf(path).Some?
    && var (side, subpath) := SideOf(path).value;
       var root := InPhase(env, side, w.payload);
       root.Some? ==>
         var paths := env.foreign.expand(root.value, subpath, Redacts(stages));
         paths.Some? && PathsCleared(env, events, w.bag, stages, site, 0, paths.value, root.value)
  }

  // ---- Elicitations

  /** Neither granted, nor waiting, nor refused: the step failed. */
  predicate Fell(env: Env, step: ElicitStep, site: Site, bag: Attributes.Bag)
  {
    && !DispatchRefused(env, step, site, bag)
    && (Underway(env, step, site, bag).Some? ==>
          && !Granted(env, step, site, Underway(env, step, site, bag).value.1)
          && env.host.check(site) != Ok(StillPending) && !Stopped(env, site))
  }

  /** The approval was asked for, given, validated and in scope; or the step failed and may. */
  predicate ElicitCleared(env: Env, events: seq<Event>, step: ElicitStep, site: Site, bag: Attributes.Bag)
  {
    || (&& Underway(env, step, site, bag).Some?
        && var (id, seen) := Underway(env, step, site, bag).value;
           && Granted(env, step, site, seen)
           && ElicitChecked(site, id, env.host.check(site)) in events
           && ElicitValidated(site, id, env.host.validate(site)) in events
           && ElicitSettled(site, step, Approved) in events)
    || (OnErrorContinues(step.onError) && Fell(env, step, site, bag) && ElicitSettled(site, step, Failed) in events)
  }

  // ---- Every effect

  /** The scheduler did not lose the branch to a panic or a timeout. */
  predicate Survives(fate: Fate)
  {
    fate.Runs? || fate.Aborts?
  }

  /**
   * `e` at `site`, reached in the world `w`, let the run through, and the trace shows it: each call made,
   * with the host's own reply; each guard, restriction and scope as it stands in that world; every present
   * field and the plugin stages on it; and below a guard that held, or a decision point that allowed, the
   * same again, each effect in the world the ones before it left. A Deny effect is never cleared.
   */
  predicate Cleared(env: Env, events: seq<Event>, e: Effect, site: Site, fallback: string, w: World)
    decreases e, 1
  {
    match e
    case Allow => true
    case Taint(_, _) => true
    case Deny(_, _) => false
    case Plugin(name) => PluginCleared(env, events, name, site)
    case Delegate(step) =>
      var reply := env.host.delegate(site);
      && Delegated(site, step, reply) in events
      && ((reply.Ok? && reply.value.decision.Allowed?) || OnErrorContinues(step.onError))
    case Elicit(step) => ElicitCleared(env, events, step, site, w.bag)
    case Restrict(spec) => env.language.resolve(spec, w.bag).Ok? && Restricted(site, spec, true) in events
    case FieldOp(path, stages) => FieldCleared(env, events, path, stages, site, w)
    case Sequential(effects) => AllCleared(env, events, effects, site, 0, fallback, w)
    case Parallel(effects) =>
      && (forall i :: 0 <= i < |effects| ==> Survives(env.host.fate(site + [i])))
      && EachCleared(env, events, effects, site, 0, fallback, w)
    case When(guard, body, source) =>
      var verdict := env.language.eval(guard, w.bag);
      && GuardChecked(site, guard, w.bag, verdict) in events
      && verdict.Definite? && (verdict.value ==> AllCleared(env, events, body, site, 0, source, w))
    case Pdp(call, onAllow, _) =>
      && env.host.pdp(site) == Ok(Allowed) && PdpAsked(site, call, Ok(Allowed)) in events
      && (call.requiresLlmRequest ==> w.payload.structured.hasLlmRequest) && !w.payload.structured.tooDeep
      && AllCleared(env, events, onAllow, site + [0], 0, fallback, w)
  }

  /** A list in order, each effect in the world the one before it left. */
  predicate AllCleared(env: Env, events: seq<Event>, es: seq<Effect>, site: Site, k: nat, fallback: string, w: World)
    decreases es, 0
  {
    es != [] ==>
      && Cleared(env, events, es[0], site + [k], fallback, w)
      && AllCleared(env, events, es[1..], site, k + 1, fallback, Run(env, es[0], site + [k], fallback, w).world)
  }

  /** Branches, each in the same world. */
  predicate EachCleared(env: Env, events: seq<Event>, es: seq<Effect>, site: Site, k: nat, fallback: string, w: World)
    decreases es, 0
  {
    es != [] ==>
      && Cleared(env, events, es[0], site + [k], fallback, w)
      && EachCleared(env, events, es[1..], site, k + 1, fallback, w)
  }

  // ---- A longer trace clears no less

  predicate Within(a: seq<Event>, b: seq<Event>)
  {
    forall ev :: ev in a ==> ev in b
  }

  lemma {:induction false} StagesWithin(env: Env, a: seq<Event>, b: seq<Event>, bag: Attributes.Bag,
                                        stages: seq<Stage>, site: Site, index: nat, v: Json)
    requires StagesCleared(env, a, bag, stages, site, index, v) && Within(a, b)
    ensures StagesCleared(env, b, bag, stages, site, index, v)
    decreases |stages|
  {
    if stages != [] {
      var r := Pipelines.RunStage(env, bag, stages[0], site + [index], v).result;
      if r.Kept? {
        StagesWithin(env, a, b, bag, stages[1..], site, index + 1, r.value);
      }
    }
  }

  lemma {:induction false} PathsWithin(env: Env, a: seq<Event>, b: seq<Event>, bag: Attributes.Bag,
                                       stages: seq<Stage>, site: Site, k: nat, paths: seq<seq<string>>, root: Json)
    requires PathsCleared(env, a, bag, stages, site, k, paths, root) && Within(a, b)
    ensures PathsCleared(env, b, bag, stages, site, k, paths, root)
    decreases |paths|
  {
    if paths != [] {
      match Payloads.GetAt(root, paths[0]) {
        case None => PathsWithin(env, a, b, bag, stages, site, k + 1, paths[1..], root);
        case Some(current) =>
          var outcome := Pipelines.RunStages(env, bag, stages, site + [k], 0, current, false).outcome;
          StagesWithin(env, a, b, bag, stages, site + [k], 0, current);
          PathsWithin(env, a, b, bag, stages, site, k + 1, paths[1..], Applied(root, paths[0], outcome).0);
      }
    }
  }

  lemma FieldWithin(env: Env, a: seq<Event>, b: seq<Event>, path: string, stages: seq<Stage>, site: Site, w: World)
    requires FieldCleared(env, a, path, stages, site, w) && Within(a, b)
    ensures FieldCleared(env, b, path, stages, site, w)
  {
    var (side, subpath) := SideOf(path).value;
    var root := InPhase(env, side, w.payload);
    if root.Some? {
      var paths := env.foreign.expand(root.value, subpath, Redacts(stages)).value;
      PathsWithin(env, a, b, w.bag, stages, site, 0, paths, root.value);
    }
  }

  lemma {:induction false} ClearedWithin(env: Env, a: seq<Event>, b: seq<Event>, e: Effect, site: Site,
                                         fallback: string, w: World)
    requires Cleared(env, a, e, site, fallback, w) && Within(a, b)
    ensures Cleared(env, b, e, site, fallback, w)
    decreases e, 1
  {
    match e {
      case FieldOp(path, stages) => FieldWithin(env, a, b, path, stages, site, w);
      case Sequential(effects) => AllClearedWithin(env, a, b, effects, site, 0, fallback, w);
      case Parallel(effects) => EachClearedWithin(env, a, b, effects, site, 0, fallback, w);
      case When(guard, body, source) =>
        if env.language.eval(guard, w.bag).value {
          AllClearedWithin(env, a, b, body, site, 0, source, w);
        }
      case Pdp(_, onAllow, _) => AllClearedWithin(env, a, b, onAllow, site + [0], 0, fallback, w);
      case _ =>
    }
  }

  lemma {:induction false} AllClearedWithin(env: Env, a: seq<Event>, b: seq<Event>, es: seq<Effect>, site: Site,
                                            k: nat, fallback: string, w: World)
    requires AllCleared(env, a, es, site, k, fallback, w) && Within(a, b)
    ensures AllCleared(env, b, es, site, k, fallback, w)
    decreases es, 0
  {
    if es != [] {
      ClearedWithin(env, a, b, es[0], site + [k], fallback, w);
      AllClearedWithin(env, a, b, es[1..], site, k + 1, fallback, Run(env, es[0], site + [k], fallback, w).world);
    }
  }

  lemma {:induction false} EachClearedWithin(env: Env, a: seq<Event>, b: seq<Event>, es: seq<Effect>, site: Site,
                                             k: nat, fallback: string, w: World)
    requires EachCleared(env, a, es, site, k, fallback, w) && Within(a, b)
    ensures EachCleared(env, b, es, site, k, fallback, w)
    decreases es, 0
  {
    if es != [] {
      ClearedWithin(env, a, b, es[0], site + [k], fallback, w);
      EachClearedWithin(env, a, b, es[1..], site, k + 1, fallback, w);
    }
  }

  // ---- Single effects

  lemma ElicitClears(env: Env, step: ElicitStep, site: Site, bag: Attributes.Bag, r: ElicitRun)
    requires r == RunElicit(env, step, site, bag) && r.outcome.Continue?
    ensures ElicitCleared(env, r.events, step, site, bag)
  {
    SettlesExactly(env, step, site, bag, r);
    Safety.ElicitSettles(env, step, site, bag);
    var last := r.events[|r.events| - 1];
    assert last in r.events;
    if last.settlement.Approved? {
      ApprovalShown(env, step, site, bag, r);
    }
  }

  lemma ApprovalShown(env: Env, step: ElicitStep, site: Site, bag: Attributes.Bag, r: ElicitRun)
    requires r == RunElicit(env, step, site, bag) && Underway(env, step, site, bag).Some?
    requires Granted(env, step, site, Underway(env, step, site, bag).value.1)
    ensures var id := Underway(env, step, site, bag).value.0;
      && ElicitChecked(site, id, env.host.check(site)) in r.events
      && ElicitValidated(site, id, env.host.validate(site)) in r.events
  {
    var (id, seen) := Underway(env, step, site, bag).value;
    var events := if Attributes.GetString(bag, ID_KEY).Some? then []
      else [ElicitDispatched(site, step, ResolveFrom(bag, step.from).value, env.host.dispatch(site))];
    assert r == RunCheck(env, step, site, id, seen, events);
    var checked := events + [ElicitChecked(site, id, env.host.check(site))];
    assert r == RunValidate(env, step, site, id, seen, checked);
    ValidationShown(env, step, site, id, seen, checked, r);
    assert checked[|events|] in r.events;
  }

  lemma ValidationShown(env: Env, step: ElicitStep, site: Site, id: string, bag: Attributes.Bag, events: seq<Event>,
                        r: ElicitRun)
    requires r == RunValidate(env, step, site, id, bag, events)
    ensures events < r.events && r.events[|events|] == ElicitValidated(site, id, env.host.validate(site))
  {
  }

  lemma {:induction false} StagesClear(env: Env, bag: Attributes.Bag, stages: seq<Stage>, site: Site, index: nat,
                                       v: Json, replaced: bool, r: Pipelines.PipelineRun)
    requires r == Pipelines.RunStages(env, bag, stages, site, index, v, replaced) && !r.outcome.Reject?
    ensures StagesCleared(env, r.events, bag, stages, site, index, v)
    decreases |stages|
  {
    if stages != [] {
      var step := Pipelines.RunStage(env, bag, stages[0], site + [index], v);
      Pipelines.StagesUnfold(env, bag, stages, site, index, v, replaced);
      if stages[0].PluginStage? {
        PluginStageClears(env, bag, stages[0], site + [index], v, step);
      }
      if step.result.Kept? {
        var next, again := step.result.value, replaced || step.result.changed;
        var rest := Pipelines.RunStages(env, bag, stages[1..], site, index + 1, next, again);
        StagesClear(env, bag, stages[1..], site, index + 1, next, again, rest);
        StagesWithin(env, rest.events, r.events, bag, stages[1..], site, index + 1, next);
      }
    }
  }

  lemma PluginStageClears(env: Env, bag: Attributes.Bag, stage: Stage, site: Site, v: Json, step: Pipelines.StageRun)
    requires step == Pipelines.RunStage(env, bag, stage, site, v) && !step.result.Rejected? && stage.PluginStage?
    ensures PluginCleared(env, step.events, stage.name, site)
  {
  }

  lemma {:induction false} PathsClear(env: Env, bag: Attributes.Bag, stages: seq<Stage>, site: Site, k: nat,
                                      paths: seq<seq<string>>, root: Json, r: FieldRun)
    requires r == RunPaths(env, bag, stages, site, k, paths, root) && r.fault.None?
    ensures PathsCleared(env, r.events, bag, stages, site, k, paths, root)
    decreases |paths|
  {
    if paths != [] {
      match Payloads.GetAt(root, paths[0]) {
        case None =>
          PathsClear(env, bag, stages, site, k + 1, paths[1..], root, r);
        case Some(current) =>
          var run := Pipelines.RunStages(env, bag, stages, site + [k], 0, current, false);
          PathsStep(env, bag, stages, site, k, paths, root, current, run);
          var ran := run.events + [FieldRan(site + [k], run.outcome)];
          var next := Applied(root, paths[0], run.outcome).0;
          var rest := RunPaths(env, bag, stages, site, k + 1, paths[1..], next);
          assert r.events == ran + rest.events && ran[|run.events|] == FieldRan(site + [k], run.outcome);
          StagesClear(env, bag, stages, site + [k], 0, current, false, run);
          StagesWithin(env, run.events, r.events, bag, stages, site + [k], 0, current);
          PathsClear(env, bag, stages, site, k + 1, paths[1..], next, rest);
          PathsWithin(env, rest.events, r.events, bag, stages, site, k + 1, paths[1..], next);
      }
    }
  }

  lemma FieldOpClears(env: Env, path: string, stages: seq<Stage>, site: Site, fallback: string, w: World, out: Out)
    requires out == RunFieldOp(env, path, stages, site, fallback, w) && out.outcome.Continue?
    ensures FieldCleared(env, out.log.events, path, stages, site, w)
  {
    var (side, subpath) := SideOf(path).value;
    var root := InPhase(env, side, w.payload);
    assert out.log.events[0] == FieldVisited(site);
    if root.Some? {
      var paths := env.foreign.expand(root.value, subpath, Redacts(stages)).value;
      var run := RunPaths(env, w.bag, stages, site, 0, paths, root.value);
      PathsClear(env, w.bag, stages, site, 0, paths, root.value, run);
      PathsWithin(env, run.events, out.log.events, w.bag, stages, site, 0, paths, root.value);
    }
  }

  lemma LeafCleared(env: Env, e: Effect, site: Site, fallback: string, w: World, out: Out)
    requires Leaf(e) && out == RunLeaf(env, e, site, fallback, w) && out.outcome.Continue?
    ensures Cleared(env, out.log.events, e, site, fallback, w)
  {
    match e {
      case Elicit(step) => ElicitClears(env, step, site, w.bag, RunElicit(env, step, site, w.bag));
      case FieldOp(path, stages) => FieldOpClears(env, path, stages, site, fallback, w, out);
      case _ =>
    }
  }

  /** The merged log of branches that all finished holds every branch's events. */
  lemma {:induction false} MergeKeeps(fates: seq<Fate>, outs: seq<Out>, k: nat, site: Site, fallback: string, i: nat)
    requires |fates| == |outs| && i < |outs| && fates[i].Runs?
    ensures Within(outs[i].log.events, Merge(fates, outs, k, site, fallback).1.events)
    decreases |outs|
  {
    if i > 0 {
      MergeKeeps(fates[1..], outs[1..], k + 1, site, fallback, i - 1);
    }
  }

  /** Every effect the run got past is cleared by its own trace. */
  lemma {:induction false} RunCleared(env: Env, e: Effect, site: Site, fallback: string, w: World, out: Out)
    requires Checked(e) && out == Run(env, e, site, fallback, w) && out.outcome.Continue?
    ensures Cleared(env, out.log.events, e, site, fallback, w)
    decreases e, 1
  {
    match e {
      case Sequential(effects) =>
        ListCleared(env, effects, site, 0, fallback, w, out);
      case Parallel(effects) =>
        ParallelCleared(env, effects, site, fallback, w, out);
        NoneLost(env, effects, site, fallback, w, out);
      case When(guard, body, source) =>
        WhenCleared(env, guard, body, source, site, fallback, w, out);
      case Pdp(call, onAllow, onDeny) =>
        PdpCleared(env, call, onAllow, onDeny, site, fallback, w, out);
      case _ =>
        LeafCleared(env, e, site, fallback, w, out);
    }
  }

  lemma {:induction false} WhenCleared(env: Env, guard: Expression, body: seq<Effect>, source: string, site: Site,
                                       fallback: string, w: World, out: Out)
    requires AllChecked(body)
    requires out == Run(env, When(guard, body, source), site, fallback, w) && out.outcome.Continue?
    ensures Cleared(env, out.log.events, When(guard, body, source), site, fallback, w)
    decreases body, 2
  {
    var verdict := env.language.eval(guard, w.bag);
    var event := GuardChecked(site, guard, w.bag, verdict);
    assert out.log.events[0] == event;
    if verdict.value {
      var inner := RunList(env, body, site, 0, source, w);
      ListCleared(env, body, site, 0, source, w, inner);
      AllClearedWithin(env, inner.log.events, out.log.events, body, site, 0, source, w);
    }
  }

  lemma {:induction false} PdpCleared(env: Env, call: PdpCall, onAllow: seq<Effect>, onDeny: seq<Effect>, site: Site,
                                      fallback: string, w: World, out: Out)
    requires AllChecked(onAllow)
    requires out == Run(env, Pdp(call, onAllow, onDeny), site, fallback, w) && out.outcome.Continue?
    ensures Cleared(env, out.log.events, Pdp(call, onAllow, onDeny), site, fallback, w)
    decreases onAllow, 2
  {
    assert AskPdp(env, call, site, w.payload) == Ok(Allowed);
    assert out.log.events[0] == PdpAsked(site, call, Ok(Allowed));
    var inner := RunList(env, onAllow, site + [0], 0, fallback, w);
    ListCleared(env, onAllow, site + [0], 0, fallback, w, inner);
    AllClearedWithin(env, inner.log.events, out.log.events, onAllow, site + [0], 0, fallback, w);
  }

  lemma {:induction false} ParallelCleared(env: Env, effects: seq<Effect>, site: Site, fallback: string, w: World,
                                           out: Out)
    requires FirstViolation(effects, true).None?
    requires out == Run(env, Parallel(effects), site, fallback, w) && out.outcome.Continue?
    ensures EachCleared(env, out.log.events, effects, site, 0, fallback, w)
    decreases effects, 2
  {
    var outs := RunBranches(env, effects, site, 0, fallback, w);
    var fates := Effective(Fates(env, site, 0, |effects|), outs);
    ContinuesExactly(fates, outs, site, fallback, w);
    forall i | 0 <= i < |outs|
      ensures Within(outs[i].log.events, out.log.events) && !Halts(outs[i])
    {
      assert Finished(fates[i], outs[i]);
      MergeKeeps(fates, outs, 0, site, fallback, i);
    }
    BranchesCleared(env, effects, site, 0, fallback, w, outs, out.log.events);
  }

  lemma NoneLost(env: Env, effects: seq<Effect>, site: Site, fallback: string, w: World, out: Out)
    requires out == Run(env, Parallel(effects), site, fallback, w) && out.outcome.Continue?
    ensures forall i :: 0 <= i < |effects| ==> Survives(env.host.fate(site + [i]))
  {
    var outs := RunBranches(env, effects, site, 0, fallback, w);
    var asked := Fates(env, site, 0, |effects|);
    ContinuesExactly(Effective(asked, outs), outs, site, fallback, w);
    forall i | 0 <= i < |effects|
      ensures Survives(env.host.fate(site + [i]))
    {
      assert Finished(Effective(asked, outs)[i], outs[i]);
      assert asked[i] == env.host.fate(site + [0 + i]);
    }
  }

  lemma {:induction false} BranchesCleared(env: Env, es: seq<Effect>, site: Site, k: nat, fallback: string, w: World,
                                           outs: seq<Out>, events: seq<Event>)
    requires FirstViolation(es, true).None? && outs == RunBranches(env, es, site, k, fallback, w)
    requires forall i :: 0 <= i < |outs| ==> !Halts(outs[i]) && Within(outs[i].log.events, events)
    ensures EachCleared(env, events, es, site, k, fallback, w)
    decreases es, 0
  {
    if es != [] {
      BranchStep(env, es, site, k, fallback, w, outs);
      PureRun(env, es[0], site + [k], fallback, w);
      RunCleared(env, es[0], site + [k], fallback, w, outs[0]);
      ClearedWithin(env, outs[0].log.events, events, es[0], site + [k], fallback, w);
      assert forall i :: 0 <= i < |outs[1..]| ==> outs[1..][i] == outs[i + 1];
      BranchesCleared(env, es[1..], site, k + 1, fallback, w, outs[1..], events);
    }
  }

  lemma {:induction false} ListCleared(env: Env, es: seq<Effect>, site: Site, k: nat, fallback: string, w: World,
                                       out: Out)
    requires AllChecked(es) && out == RunList(env, es, site, k, fallback, w) && out.outcome.Continue?
    ensures AllCleared(env, out.log.events, es, site, k, fallback, w)
    decreases es, 0
  {
    if es != [] {
      var first := Run(env, es[0], site + [k], fallback, w);
      ListStep(env, es, site, k, fallback, w, first);
      var rest := RunList(env, es[1..], site, k + 1, fallback, first.world);
      RunCleared(env, es[0], site + [k], fallback, w, first);
      ListCleared(env, es[1..], site, k + 1, fallback, first.world, rest);
      assert out.log.events == first.log.events + rest.log.events;
      ClearedWithin(env, first.log.events, out.log.events, es[0], site + [k], fallback, w);
      AllClearedWithin(env, rest.log.events, out.log.events, es[1..], site, k + 1, fallback, first.world);
    }
  }

  // ---- And conversely

  lemma {:induction false} PathsClearedNoneReject(env: Env, events: seq<Event>, bag: Attributes.Bag, stages: seq<Stage>,
                                                  site: Site, k: nat, paths: seq<seq<string>>, root: Json)
    requires PathsCleared(env, events, bag, stages, site, k, paths, root)
    ensures Safety.NoneRejects(env, bag, stages, site, k, paths, root)
    decreases |paths|
  {
    if paths != [] {
      match Payloads.GetAt(root, paths[0]) {
        case None => PathsClearedNoneReject(env, events, bag, stages, site, k + 1, paths[1..], root);
        case Some(current) =>
          var outcome := Pipelines.RunStages(env, bag, stages, site + [k], 0, current, false).outcome;
          PathsClearedNoneReject(env, events, bag, stages, site, k + 1, paths[1..], Applied(root, paths[0], outcome).0);
      }
    }
  }

  lemma LeafContinues(env: Env, events: seq<Event>, e: Effect, site: Site, fallback: string, w: World)
    requires Leaf(e) && Cleared(env, events, e, site, fallback, w)
    ensures RunLeaf(env, e, site, fallback, w).outcome.Continue?
  {
    if e.Elicit? {
      SettlesExactly(env, e.elicitation, site, w.bag, RunElicit(env, e.elicitation, site, w.bag));
    } else if e.FieldOp? {
      FieldContinues(env, events, e.path, e.stages, site, fallback, w);
    }
  }

  lemma FieldContinues(env: Env, events: seq<Event>, path: string, stages: seq<Stage>, site: Site, fallback: string,
                       w: World)
    requires Cleared(env, events, FieldOp(path, stages), site, fallback, w)
    ensures RunFieldOp(env, path, stages, site, fallback, w).outcome.Continue?
  {
    Safety.FieldOpContinuesExactly(env, path, stages, site, fallback, w);
    var (side, subpath) := SideOf(path).value;
    var root := InPhase(env, side, w.payload);
    if root.Some? {
      var paths := env.foreign.expand(root.value, subpath, Redacts(stages)).value;
      PathsClearedNoneReject(env, events, w.bag, stages, site, 0, paths, root.value);
    }
  }

  /** Whatever trace it is read off, an effect that is cleared continues. */
  lemma {:induction false} ClearedContinues(env: Env, events: seq<Event>, e: Effect, site: Site, fallback: string,
                                            w: World)
    requires Cleared(env, events, e, site, fallback, w)
    ensures Run(env, e, site, fallback, w).outcome.Continue?
    decreases e, 1
  {
    match e {
      case Sequential(effects) => ListContinues(env, events, effects, site, 0, fallback, w);
      case Parallel(effects) => BlockContinues(env, events, effects, site, fallback, w);
      case When(guard, body, source) =>
        if env.language.eval(guard, w.bag).value {
          ListContinues(env, events, body, site, 0, source, w);
        }
      case Pdp(call, onAllow, onDeny) =>
        ListContinues(env, events, onAllow, site + [0], 0, fallback, w);
        assert AskPdp(env, call, site, w.payload) == Ok(Allowed);
      case _ => LeafContinues(env, events, e, site, fallback, w);
    }
  }

  lemma {:induction false} ListContinues(env: Env, events: seq<Event>, es: seq<Effect>, site: Site, k: nat,
                                         fallback: string, w: World)
    requires AllCleared(env, events, es, site, k, fallback, w)
    ensures RunList(env, es, site, k, fallback, w).outcome.Continue?
    decreases es, 0
  {
    if es != [] {
      var first := Run(env, es[0], site + [k], fallback, w);
      ClearedContinues(env, events, es[0], site + [k], fallback, w);
      ListContinues(env, events, es[1..], site, k + 1, fallback, first.world);
      ListStep(env, es, site, k, fallback, w, first);
    }
  }

  lemma {:induction false} BlockContinues(env: Env, events: seq<Event>, effects: seq<Effect>, site: Site,
                                          fallback: string, w: World)
    requires Cleared(env, events, Parallel(effects), site, fallback, w)
    ensures Run(env, Parallel(effects), site, fallback, w).outcome.Continue?
    decreases effects, 1
  {
    var outs := RunBranches(env, effects, site, 0, fallback, w);
    EachContinues(env, events, effects, site, 0, fallback, w, outs);
    var asked := Fates(env, site, 0, |effects|);
    assert !SomeHalt(asked, outs);
    forall i | 0 <= i < |outs|
      ensures Finished(Effective(asked, outs)[i], outs[i])
    {
      assert asked[i] == env.host.fate(site + [0 + i]);
    }
    ContinuesExactly(Effective(asked, outs), outs, site, fallback, w);
  }

  lemma {:induction false} EachContinues(env: Env, events: seq<Event>, es: seq<Effect>, site: Site, k: nat,
                                         fallback: string, w: World, outs: seq<Out>)
    requires EachCleared(env, events, es, site, k, fallback, w) && outs == RunBranches(env, es, site, k, fallback, w)
    ensures forall i :: 0 <= i < |outs| ==> outs[i].outcome.Continue?
    decreases es, 0
  {
    if es != [] {
      BranchStep(env, es, site, k, fallback, w, outs);
      ClearedContinues(env, events, es[0], site + [k], fallback, w);
      EachContinues(env, events, es[1..], site, k + 1, fallback, w, outs[1..]);
      assert forall i :: 1 <= i < |outs| ==> outs[i] == outs[1..][i - 1];
    }
  }

  /** A phase of checked effects is a clean Allow exactly when its trace clears every gate on its path. */
  lemma {:induction false} CleanAllowClearedExactly(env: Env, es: seq<Effect>, w: World, out: Out)
    requires AllChecked(es) && out == RunPhase(env, es, w)
    ensures CleanAllow(Report(out)) <==> AllCleared(env, out.log.events, es, [], 0, "", w)
  {
    if AllCleared(env, out.log.events, es, [], 0, "", w) {
      ListContinues(env, out.log.events, es, [], 0, "", w);
    }
    if CleanAllow(Report(out)) {
      CleanAllowCleared(env, es, w, out);
    }
  }

  /** Whole-run safety: after a clean Allow every gate on the path was asked and let the run through. */
  lemma {:induction false} CleanAllowCleared(env: Env, es: seq<Effect>, w: World, out: Out)
    requires AllChecked(es) && out == RunPhase(env, es, w) && CleanAllow(Report(out))
    ensures AllCleared(env, out.log.events, es, [], 0, "", w) && Safety.AllPass(out.log.events)
  {
    Safety.CleanAllowExactly(env, es, w);
    Safety.ListDenies(env, es, [], 0, "", w);
    ListCleared(env, es, [], 0, "", w, out);
  }

  lemma SuspendedMerge(out: Out, site: Site, fallback: string, w: World, ev: Event)
    requires out.outcome.Pending? && ev in out.log.events && !Safety.Passing(ev)
    ensures var r := Merged([Runs], [out], site, fallback, w);
      r.outcome.Continue? && !Safety.AllPass(r.log.events)
  {
    MergeKeeps([Runs], [out], 0, site, fallback, 0);
    ContinuesExactly([Runs], [out], site, fallback, w);
    var events := Merged([Runs], [out], site, fallback, w).log.events;
    assert ev in events;
  }

  /**
   * Without the check the promise fails: a suspended elicitation in a `parallel:` branch is discarded
   * and the block continues, though the approver has not answered.
   */
  lemma {:induction false} SuspendedBranchDropped(env: Env, step: ElicitStep, site: Site, fallback: string, w: World,
                                                  out: Out)
    requires RunElicit(env, step, site + [0], w.bag).outcome.Pending? && env.host.fate(site + [0]).Runs?
    requires out == Run(env, Parallel([Elicit(step)]), site, fallback, w)
    ensures out.outcome.Continue? && !Safety.AllPass(out.log.events)
  {
    var effects := [Elicit(step)];
    var outs := RunBranches(env, effects, site, 0, fallback, w);
    BranchStep(env, effects, site, 0, fallback, w, outs);
    assert outs == [Run(env, effects[0], site + [0], fallback, w)];
    var run := RunElicit(env, step, site + [0], w.bag);
    assert outs[0] == Stays(run.outcome, w.(bag := run.bag), run.events);
    Safety.ElicitSettles(env, step, site + [0], w.bag);
    var last := run.events[|run.events| - 1];
    SuspendedMerge(outs[0], site, fallback, w, last);
    assert Fates(env, site, 0, 1) == [Runs];
    assert Effective([Runs], outs) == [Runs];
  }

  /** Only a run that continues is misled: a deny after the block leaves a run that drops the same and is faithful. */
  lemma {:induction false} DeniedAfterDrop(env: Env, step: ElicitStep, reason: Option<string>, code: Option<string>,
                                           site: Site, fallback: string, w: World, e: Effect)
    requires e == Sequential([Parallel([Elicit(step)]), Deny(reason, code)])
    requires RunElicit(env, step, site + [0] + [0], w.bag).outcome.Pending? && env.host.fate(site + [0] + [0]).Runs?
    ensures Safety.Drops(env, e, site, fallback, w) && Safety.Faithful(Run(env, e, site, fallback, w))
  {
    var es := [Parallel([Elicit(step)]), Deny(reason, code)];
    var first := Run(env, es[0], site + [0], fallback, w);
    SuspendedBranchDropped(env, step, site + [0], fallback, w, first);
    Safety.RunExact(env, es[0], site + [0], fallback, w);
    ListStep(env, es, site, 0, fallback, w, first);
    DenyHalts(env, es[1..], reason, code, site, fallback, first.world);
    Safety.FaithfulExactly(env, e, site, fallback, w);
  }

  lemma DenyHalts(env: Env, es: seq<Effect>, reason: Option<string>, code: Option<string>, site: Site, fallback: string,
                  w: World)
    requires es == [Deny(reason, code)]
    ensures RunList(env, es, site, 1, fallback, w).outcome.Halt?
  {
    ListStep(env, es, site, 1, fallback, w, Run(env, es[0], site + [1], fallback, w));
  }
}
