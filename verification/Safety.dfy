/** Whole-run fail-closed safety: a clean Allow means every gate the run reached passed. */
module Safety {
  import opened Values
  import opened Rules
  import opened Hosts
  import opened Payloads
  import opened Elicitations
  import opened Effects
  import opened Interpreter
  import opened Purity
  import Attributes
  import Pipelines
  import Predicates

  /** The gate behind this event let the run through, or the step's `on_error: continue` covered it. */
  predicate Passing(ev: Event)
  {
    match ev
    case DenyReached(_) => false
    case PluginAsked(_, _, reply) => reply.Ok? && reply.value.decision.Allowed?
    case PdpAsked(_, _, answer) => answer == Ok(Allowed)
    case Delegated(_, step, grant) => (grant.Ok? && grant.value.decision.Allowed?) || OnErrorContinues(step.onError)
    case ElicitSettled(_, step, s) => s.Approved? || (s.Failed? && OnErrorContinues(step.onError))
    case GuardChecked(_, _, _, verdict) => verdict.Definite?
    case Restricted(_, _, resolved) => resolved
    case FieldRefused(_) => false
    case FieldRan(_, outcome) => !outcome.Reject?
    case BranchLost(_) => false
    case _ => true
  }

  predicate AllPass(events: seq<Event>)
  {
    forall i :: 0 <= i < |events| ==> Passing(events[i])
  }

  lemma AllPassConcat(a: seq<Event>, b: seq<Event>)
    ensures AllPass(a + b) <==> AllPass(a) && AllPass(b)
  {
    if AllPass(a + b) {
      forall i | 0 <= i < |a|
        ensures Passing(a[i])
      {
        assert (a + b)[i] == a[i];
      }
      forall i | 0 <= i < |b|
        ensures Passing(b[i])
      {
        assert (a + b)[|a| + i] == b[i];
      }
    }
  }

  /** The run continued exactly when everything it reached passed. */
  predicate Faithful(out: Out)
  {
    out.outcome.Continue? <==> AllPass(out.log.events)
  }

  // ---- Field pipelines

  lemma {:induction false} StagesFaithful(env: Env, bag: Attributes.Bag, stages: seq<Stage>, site: Site, index: nat,
                                          v: Json, replaced: bool, r: Pipelines.PipelineRun)
    requires r == Pipelines.RunStages(env, bag, stages, site, index, v, replaced)
    ensures !r.outcome.Reject? ==> AllPass(r.events)
    decreases |stages|
  {
    if stages != [] {
      var step := Pipelines.RunStage(env, bag, stages[0], site + [index], v);
      Pipelines.StagesUnfold(env, bag, stages, site, index, v, replaced);
      StageFaithful(env, bag, stages[0], site + [index], v, step);
      if step.result.Kept? {
        var rest := Pipelines.RunStages(env, bag, stages[1..], site, index + 1, step.result.value,
                                        replaced || step.result.changed);
        StagesFaithful(env, bag, stages[1..], site, index + 1, step.result.value, replaced || step.result.changed,
                       rest);
        AllPassConcat(step.events, rest.events);
      }
    }
  }

  lemma StageFaithful(env: Env, bag: Attributes.Bag, stage: Stage, site: Site, v: Json, step: Pipelines.StageRun)
    requires step == Pipelines.RunStage(env, bag, stage, site, v)
    ensures !step.result.Rejected? ==> AllPass(step.events)
  {
  }

  lemma {:induction false} PathsFaithful(env: Env, bag: Attributes.Bag, stages: seq<Stage>, site: Site, k: nat,
                                         paths: seq<seq<string>>, root: Json, r: FieldRun)
    requires r == RunPaths(env, bag, stages, site, k, paths, root)
    ensures r.fault.None? <==> AllPass(r.events)
    decreases |paths|
  {
    if paths != [] {
      match GetAt(root, paths[0]) {
        case None =>
          PathsFaithful(env, bag, stages, site, k + 1, paths[1..], root, r);
        case Some(current) =>
          var run := Pipelines.RunStages(env, bag, stages, site + [k], 0, current, false);
          StagesFaithful(env, bag, stages, site + [k], 0, current, false, run);
          var ran := [FieldRan(site + [k], run.outcome)];
          AllPassConcat(run.events, ran);
          assert ran[0] == FieldRan(site + [k], run.outcome);
          if !run.outcome.Reject? {
            var (next, wrote) := Applied(root, paths[0], run.outcome);
            var rest := RunPaths(env, bag, stages, site, k + 1, paths[1..], next);
            PathsFaithful(env, bag, stages, site, k + 1, paths[1..], next, rest);
            AllPassConcat(run.events + ran, rest.events);
          }
      }
    }
  }

  // ---- Single effects

  lemma {:induction false} FieldOpFaithful(env: Env, path: string, stages: seq<Stage>, site: Site, fallback: string,
                                           w: World)
    ensures Faithful(RunFieldOp(env, path, stages, site, fallback, w))
  {
    match SideOf(path) {
      case None =>
        assert [FieldRefused(site)][0] == FieldRefused(site);
      case Some((side, subpath)) =>
        match InPhase(env, side, w.payload) {
          case None =>
          case Some(root) =>
            match env.foreign.expand(root, subpath, Redacts(stages)) {
              case None =>
                assert [FieldRefused(site)][0] == FieldRefused(site);
              case Some(paths) =>
                var run := RunPaths(env, w.bag, stages, site, 0, paths, root);
                PathsFaithful(env, w.bag, stages, site, 0, paths, root, run);
                AllPassConcat([FieldVisited(site)], run.events);
            }
        }
    }
  }

  /** No pipeline at a path that is present, in the payload as earlier paths left it, rejects its value. */
  predicate NoneRejects(env: Env, bag: Attributes.Bag, stages: seq<Stage>, site: Site, k: nat,
                        paths: seq<seq<string>>, root: Json)
    decreases |paths|
  {
    paths != [] ==>
      match GetAt(root, paths[0])
      case None => NoneRejects(env, bag, stages, site, k + 1, paths[1..], root)
      case Some(current) =>
        var outcome := Pipelines.RunStages(env, bag, stages, site + [k], 0, current, false).outcome;
        !outcome.Reject? && NoneRejects(env, bag, stages, site, k + 1, paths[1..], Applied(root, paths[0], outcome).0)
  }

  lemma {:induction false} PathsContinueExactly(env: Env, bag: Attributes.Bag, stages: seq<Stage>, site: Site, k: nat,
                                                paths: seq<seq<string>>, root: Json)
    ensures RunPaths(env, bag, stages, site, k, paths, root).fault.None? <==>
      NoneRejects(env, bag, stages, site, k, paths, root)
    decreases |paths|
  {
    if paths != [] {
      match GetAt(root, paths[0]) {
        case None =>
          PathsContinueExactly(env, bag, stages, site, k + 1, paths[1..], root);
        case Some(current) =>
          var run := Pipelines.RunStages(env, bag, stages, site + [k], 0, current, false);
          PathsStep(env, bag, stages, site, k, paths, root, current, run);
          PathsContinueExactly(env, bag, stages, site, k + 1, paths[1..], Applied(root, paths[0], run.outcome).0);
      }
    }
  }

  /** A field operation continues exactly when its path has a root and, in phase, it fans out and none rejects. */
  lemma {:induction false} FieldOpContinuesExactly(env: Env, path: string, stages: seq<Stage>, site: Site,
                                                   fallback: string, w: World)
    ensures RunFieldOp(env, path, stages, site, fallback, w).outcome.Continue? <==>
      && SideOf(path).Some?
      && var (side, subpath) := SideOf(path).value;
         var root := InPhase(env, side, w.payload);
         root.Some? ==>
           var paths := env.foreign.expand(root.value, subpath, Redacts(stages));
           paths.Some? && NoneRejects(env, w.bag, stages, site, 0, paths.value, root.value)
  {
    var named := SideOf(path);
    if named.Some? && InPhase(env, named.value.0, w.payload).Some? {
      var root := InPhase(env, named.value.0, w.payload).value;
      var paths := env.foreign.expand(root, named.value.1, Redacts(stages));
      if paths.Some? {
        PathsContinueExactly(env, w.bag, stages, site, 0, paths.value, root);
      }
    }
  }

  /** Calls to the channel, none of which settles the step. */
  predicate CallsOnly(events: seq<Event>)
  {
    forall i :: 0 <= i < |events| ==>
      events[i].ElicitDispatched? || events[i].ElicitChecked? || events[i].ElicitValidated?
  }

  /** Calls, and then the one event that settles the step and decides whether it continues. */
  predicate SettlesOnce(step: ElicitStep, site: Site, r: ElicitRun)
  {
    && r.events != [] && CallsOnly(r.events[..|r.events| - 1])
    && var last := r.events[|r.events| - 1];
       last.ElicitSettled? && last.site == site && last.elicitation == step && (r.outcome.Continue? <==> Passing(last))
  }

  lemma SettleOnce(step: ElicitStep, site: Site, s: Settlement, o: Outcome, bag: Attributes.Bag, events: seq<Event>)
    requires CallsOnly(events) && (o.Continue? <==> Passing(ElicitSettled(site, step, s)))
    ensures SettlesOnce(step, site, Settle(step, site, s, o, bag, events))
  {
    var all := Settle(step, site, s, o, bag, events).events;
    assert all[..|all| - 1] == events;
  }

  lemma FailsSettles(step: ElicitStep, site: Site, reason: Reason, bag: Attributes.Bag, events: seq<Event>)
    requires CallsOnly(events)
    ensures SettlesOnce(step, site, Fails(step, site, reason, bag, events))
  {
    SettleOnce(step, site, Failed, Failure(step, reason, None), bag, events);
  }

  lemma CallFailsSettles(step: ElicitStep, site: Site, e: ElicitationError, bag: Attributes.Bag, events: seq<Event>)
    requires CallsOnly(events)
    ensures SettlesOnce(step, site, CallFails(step, site, e, bag, events))
  {
    SettleOnce(step, site, if e.StoreUnavailable? then Refused else Failed,
               CallFails(step, site, e, bag, events).outcome, bag, events);
  }

  lemma ValidateSettles(env: Env, step: ElicitStep, site: Site, id: string, bag: Attributes.Bag, events: seq<Event>)
    requires CallsOnly(events)
    ensures SettlesOnce(step, site, RunValidate(env, step, site, id, bag, events))
  {
    var reply := env.host.validate(site);
    var seen := events + [ElicitValidated(site, id, reply)];
    assert CallsOnly(seen);
    match reply {
      case Err(e) => CallFailsSettles(step, site, e, bag, seen);
      case Ok(v) =>
        if !v.valid {
          FailsSettles(step, site, ElicitInvalid(v.why), bag, seen);
        } else {
          var fault := ScopeFault(env, step, bag);
          if fault.Some? {
            FailsSettles(step, site, fault.value, bag, seen);
          } else {
            SettleOnce(step, site, Approved, Continue, RunValidate(env, step, site, id, bag, events).bag, seen);
          }
        }
    }
  }

  lemma CheckSettles(env: Env, step: ElicitStep, site: Site, id: string, bag: Attributes.Bag, events: seq<Event>)
    requires CallsOnly(events)
    ensures SettlesOnce(step, site, RunCheck(env, step, site, id, bag, events))
  {
    var reply := env.host.check(site);
    var seen := events + [ElicitChecked(site, id, reply)];
    assert CallsOnly(seen);
    match reply {
      case Err(e) => CallFailsSettles(step, site, e, bag, seen);
      case Ok(StillPending) =>
        var waiting := bag[STATUS_KEY := StringValue("pending")];
        SettleOnce(step, site, Awaiting, Pending(Bundle(step, id, waiting)), waiting, seen);
      case Ok(Expired) => FailsSettles(step, site, ElicitExpired, bag[STATUS_KEY := StringValue("expired")], seen);
      case Ok(Resolved(approved)) =>
        if approved {
          ValidateSettles(env, step, site, id, bag, seen);
        } else {
          SettleOnce(step, site, Refused, Halt(Denied(Some(ElicitDenied), step.source)),
                     bag[STATUS_KEY := StringValue("resolved")][OUTCOME_KEY := StringValue("denied")], seen);
        }
    }
  }

  lemma {:induction false} ElicitSettles(env: Env, step: ElicitStep, site: Site, bag: Attributes.Bag)
    ensures SettlesOnce(step, site, RunElicit(env, step, site, bag))
  {
    match ResolveFrom(bag, step.from) {
      case None => FailsSettles(step, site, ElicitFromUnresolved(step.from), bag, []);
      case Some(from) =>
        match Attributes.GetString(bag, ID_KEY) {
          case Some(id) => CheckSettles(env, step, site, id, bag, []);
          case None =>
            var reply := env.host.dispatch(site);
            var seen := [ElicitDispatched(site, step, from, reply)];
            assert CallsOnly(seen);
            match reply {
              case Err(e) => CallFailsSettles(step, site, e, bag, seen);
              case Ok(d) => CheckSettles(env, step, site, d.id, RecordDispatch(bag, step, d), seen);
            }
        }
    }
  }

  lemma OneEvent(out: Out, event: Event)
    requires out.log.events == [event] && (out.outcome.Continue? <==> Passing(event))
    ensures Faithful(out)
  {
    assert out.log.events[0] == event;
  }

  lemma PluginFaithful(env: Env, name: string, site: Site, w: World)
    ensures Faithful(RunPlugin(env, name, site, w))
  {
    OneEvent(RunPlugin(env, name, site, w), PluginAsked(site, name, env.host.plugin(site)));
  }

  lemma DelegateFaithful(env: Env, step: DelegateStep, site: Site, w: World)
    ensures Faithful(RunDelegate(env, step, site, w))
  {
    OneEvent(RunDelegate(env, step, site, w), Delegated(site, step, env.host.delegate(site)));
  }

  lemma RestrictFaithful(env: Env, spec: RestrictSpec, site: Site, fallback: string, w: World)
    ensures Faithful(RunRestrict(env, spec, site, fallback, w))
  {
    OneEvent(RunRestrict(env, spec, site, fallback, w),
             Restricted(site, spec, env.language.resolve(spec, w.bag).Ok?));
  }

  lemma ElicitFaithful(r: ElicitRun, step: ElicitStep, site: Site, w: World)
    requires SettlesOnce(step, site, r)
    ensures Faithful(Stays(r.outcome, w, r.events))
  {
    var n := |r.events| - 1;
    assert r.events == r.events[..n] + [r.events[n]];
    AllPassConcat(r.events[..n], [r.events[n]]);
    assert [r.events[n]][0] == r.events[n];
  }

  lemma LeafFaithful(env: Env, e: Effect, site: Site, fallback: string, w: World)
    requires Leaf(e)
    ensures Faithful(RunLeaf(env, e, site, fallback, w))
  {
    match e {
      case Allow =>
      case Taint(_, _) =>
      case Deny(_, _) => OneEvent(RunLeaf(env, e, site, fallback, w), DenyReached(site));
      case Plugin(name) => PluginFaithful(env, name, site, w);
      case Delegate(step) => DelegateFaithful(env, step, site, w);
      case Restrict(spec) => RestrictFaithful(env, spec, site, fallback, w);
      case FieldOp(path, stages) => FieldOpFaithful(env, path, stages, site, fallback, w);
      case Elicit(step) =>
        var run := RunElicit(env, step, site, w.bag);
        ElicitSettles(env, step, site, w.bag);
        ElicitFaithful(run, step, site, w.(bag := run.bag));
    }
  }

  lemma NotFaithful(seen: Event, out: Out)
    requires !Passing(seen) && !out.outcome.Continue?
    ensures Faithful(After(Told([seen]), out)) && Faithful(Out(out.outcome, out.world, Told([seen])))
  {
    AllPassConcat([seen], out.log.events);
    assert [seen][0] == seen;
  }

  // ---- Parallel branches

  /**
   * Everything the run reached passed exactly when it continued and dropped no suspension; `dropped` says
   * whether some finished branch of a block it ran was left suspended.
   */
  predicate Exact(out: Out, dropped: bool)
  {
    AllPass(out.log.events) <==> out.outcome.Continue? && !dropped
  }

  /** A finished branch was suspended, or dropped a suspension itself. */
  predicate SomeDropped(fates: seq<Fate>, outs: seq<Out>, drops: seq<bool>)
    requires |fates| == |outs| == |drops|
  {
    exists i :: 0 <= i < |outs| && fates[i].Runs? && (outs[i].outcome.Pending? || drops[i])
  }

  predicate AllExact(outs: seq<Out>, drops: seq<bool>)
  {
    |drops| == |outs| && forall i :: 0 <= i < |outs| ==> Exact(outs[i], drops[i])
  }

  lemma BranchExact(fate: Fate, out: Out, dropped: bool, k: nat, site: Site, fallback: string)
    requires Exact(out, dropped) && !fate.Aborts?
    ensures var r := Branch(fate, out, k, site, fallback);
      AllPass(r.1.events) <==> r.0.None? && !(fate.Runs? && (out.outcome.Pending? || dropped))
  {
    if fate.TimesOut? || fate.Panics? {
      AllPassConcat(Cut(out.log.events, fate.events), [BranchLost(site)]);
      assert [BranchLost(site)][0] == BranchLost(site);
    }
  }

  /** A branch that halted or was lost leaves a failing event and a decision in the merge. */
  lemma {:induction false} MergeHalts(fates: seq<Fate>, outs: seq<Out>, k: nat, site: Site, fallback: string, i: nat)
    requires |fates| == |outs| && i < |outs| && !fates[i].Aborts?
    requires fates[i].Runs? ==> Halts(outs[i]) && !AllPass(outs[i].log.events)
    ensures Merge(fates, outs, k, site, fallback).0.Some?
    ensures !AllPass(Merge(fates, outs, k, site, fallback).1.events)
    decreases |outs|
  {
    var (halt, log) := Branch(fates[0], outs[0], k, site + [k], fallback);
    var (rest, logs) := Merge(fates[1..], outs[1..], k + 1, site, fallback);
    AllPassConcat(log.events, logs.events);
    if i > 0 {
      MergeHalts(fates[1..], outs[1..], k + 1, site, fallback, i - 1);
    } else if !fates[0].Runs? {
      AllPassConcat(Cut(outs[0].log.events, fates[0].events), [BranchLost(site + [k])]);
      assert [BranchLost(site + [k])][0] == BranchLost(site + [k]);
    }
  }

  lemma DroppedStep(fates: seq<Fate>, outs: seq<Out>, drops: seq<bool>)
    requires |fates| == |outs| == |drops| && outs != []
    ensures SomeDropped(fates, outs, drops) <==>
      (fates[0].Runs? && (outs[0].outcome.Pending? || drops[0])) || SomeDropped(fates[1..], outs[1..], drops[1..])
  {
    if i :| 1 <= i < |outs| && fates[i].Runs? && (outs[i].outcome.Pending? || drops[i]) {
      assert fates[1..][i - 1].Runs? && (outs[1..][i - 1].outcome.Pending? || drops[1..][i - 1]);
    }
    if j :| 0 <= j < |outs[1..]| && fates[1..][j].Runs? && (outs[1..][j].outcome.Pending? || drops[1..][j]) {
      assert fates[j + 1].Runs? && (outs[j + 1].outcome.Pending? || drops[j + 1]);
    }
  }

  /** Without aborts the merged trace passes exactly when no branch denied and none dropped a suspension. */
  lemma {:induction false} MergeExact(fates: seq<Fate>, outs: seq<Out>, drops: seq<bool>, k: nat, site: Site,
                                      fallback: string)
    requires |fates| == |outs| && AllExact(outs, drops)
    requires forall i :: 0 <= i < |fates| ==> !fates[i].Aborts?
    ensures var r := Merge(fates, outs, k, site, fallback);
      AllPass(r.1.events) <==> r.0.None? && !SomeDropped(fates, outs, drops)
    decreases |outs|
  {
    if outs != [] {
      var (halt, log) := Branch(fates[0], outs[0], k, site + [k], fallback);
      var (rest, logs) := Merge(fates[1..], outs[1..], k + 1, site, fallback);
      BranchExact(fates[0], outs[0], drops[0], k, site + [k], fallback);
      MergeExact(fates[1..], outs[1..], drops[1..], k + 1, site, fallback);
      AllPassConcat(log.events, logs.events);
      DroppedStep(fates, outs, drops);
    }
  }

  /** Under any legal branch-outcome vector, the merge of exact branches is exact. */
  lemma {:induction false} MergedExact(fates: seq<Fate>, outs: seq<Out>, drops: seq<bool>, site: Site,
                                       fallback: string, w: World)
    requires Legal(fates, outs) && AllExact(outs, drops)
    ensures Exact(Merged(fates, outs, site, fallback, w), SomeDropped(fates, outs, drops))
  {
    if SomeHalt(fates, outs) {
      var i :| 0 <= i < |outs| && fates[i].Runs? && Halts(outs[i]);
      MergeHalts(fates, outs, 0, site, fallback, i);
    } else {
      MergeExact(fates, outs, drops, 0, site, fallback);
    }
  }

  // ---- The main result

  /** The run reaches a `parallel:` block with a finished branch that is suspended. */
  ghost predicate Drops(env: Env, e: Effect, site: Site, fallback: string, w: World)
    decreases e, 1
  {
    match e
    case Sequential(effects) => ListDrops(env, effects, site, 0, fallback, w)
    case Parallel(effects) =>
      var outs := RunBranches(env, effects, site, 0, fallback, w);
      SomeDropped(Effective(Fates(env, site, 0, |effects|), outs), outs,
                  BranchDrops(env, effects, site, 0, fallback, w))
    case When(guard, body, source) =>
      env.language.eval(guard, w.bag) == Predicates.Definite(true) && ListDrops(env, body, site, 0, source, w)
    case Pdp(call, onAllow, _) =>
      AskPdp(env, call, site, w.payload) == Ok(Allowed) && ListDrops(env, onAllow, site + [0], 0, fallback, w)
    case _ => false
  }

  ghost predicate ListDrops(env: Env, es: seq<Effect>, site: Site, k: nat, fallback: string, w: World)
    decreases es, 0
  {
    es != [] &&
    var first := Run(env, es[0], site + [k], fallback, w);
    || Drops(env, es[0], site + [k], fallback, w)
    || (first.outcome.Continue? && ListDrops(env, es[1..], site, k + 1, fallback, first.world))
  }

  ghost function BranchDrops(env: Env, es: seq<Effect>, site: Site, k: nat, fallback: string, w: World)
    : (drops: seq<bool>)
    ensures |drops| == |es|
    decreases es, 0
  {
    if es == [] then []
    else [Drops(env, es[0], site + [k], fallback, w)] + BranchDrops(env, es[1..], site, k + 1, fallback, w)
  }

  /** Every run of every tree passes all it reached exactly when it continues and dropped no suspension. */
  lemma {:induction false} RunExact(env: Env, e: Effect, site: Site, fallback: string, w: World)
    ensures Exact(Run(env, e, site, fallback, w), Drops(env, e, site, fallback, w))
    decreases e, 1
  {
    match e {
      case Sequential(effects) =>
        ListExact(env, effects, site, 0, fallback, w);
      case Parallel(effects) =>
        var outs := RunBranches(env, effects, site, 0, fallback, w);
        BranchesExact(env, effects, site, 0, fallback, w, outs);
        MergedExact(Effective(Fates(env, site, 0, |effects|), outs), outs,
                    BranchDrops(env, effects, site, 0, fallback, w), site, fallback, w);
      case When(guard, body, source) =>
        WhenExact(env, guard, body, source, site, fallback, w);
      case Pdp(call, onAllow, onDeny) =>
        PdpExact(env, call, onAllow, onDeny, site, fallback, w);
      case _ =>
        LeafFaithful(env, e, site, fallback, w);
    }
  }

  lemma AfterExact(seen: seq<Event>, out: Out, dropped: bool)
    requires AllPass(seen) && Exact(out, dropped)
    ensures Exact(After(Told(seen), out), dropped)
  {
    AllPassConcat(seen, out.log.events);
  }

  lemma {:induction false} WhenExact(env: Env, guard: Expression, body: seq<Effect>, source: string, site: Site,
                                     fallback: string, w: World)
    ensures var e := When(guard, body, source);
      Exact(Run(env, e, site, fallback, w), Drops(env, e, site, fallback, w))
    decreases body, 2
  {
    var verdict := env.language.eval(guard, w.bag);
    var event := GuardChecked(site, guard, w.bag, verdict);
    assert [event][0] == event;
    if verdict == Predicates.Definite(true) {
      ListExact(env, body, site, 0, source, w);
      AfterExact([event], RunList(env, body, site, 0, source, w), ListDrops(env, body, site, 0, source, w));
    }
  }

  lemma {:induction false} PdpExact(env: Env, call: PdpCall, onAllow: seq<Effect>, onDeny: seq<Effect>, site: Site,
                                    fallback: string, w: World)
    ensures var e := Pdp(call, onAllow, onDeny);
      Exact(Run(env, e, site, fallback, w), Drops(env, e, site, fallback, w))
    decreases onAllow, 2
  {
    var reply := AskPdp(env, call, site, w.payload);
    var event := PdpAsked(site, call, reply);
    if reply == Ok(Allowed) {
      ListExact(env, onAllow, site + [0], 0, fallback, w);
      AfterExact([event], RunList(env, onAllow, site + [0], 0, fallback, w),
                 ListDrops(env, onAllow, site + [0], 0, fallback, w));
    } else if reply.Ok? {
      NotFaithful(event, Denying(reply.value, RunList(env, onDeny, site + [1], 0, fallback, w)));
    } else {
      NotFaithful(event, Out(Halt(Denied(Some(PdpFailed(reply.error)), "pdp:" + call.dialect)), w, SILENT));
    }
  }

  lemma {:induction false} ListExact(env: Env, es: seq<Effect>, site: Site, k: nat, fallback: string, w: World)
    ensures Exact(RunList(env, es, site, k, fallback, w), ListDrops(env, es, site, k, fallback, w))
    decreases es, 0
  {
    if es != [] {
      var first := Run(env, es[0], site + [k], fallback, w);
      RunExact(env, es[0], site + [k], fallback, w);
      ListStep(env, es, site, k, fallback, w, first);
      if first.outcome.Continue? {
        ListExact(env, es[1..], site, k + 1, fallback, first.world);
        AllPassConcat(first.log.events, RunList(env, es[1..], site, k + 1, fallback, first.world).log.events);
      }
    }
  }

  lemma {:induction false} BranchesExact(env: Env, es: seq<Effect>, site: Site, k: nat, fallback: string, w: World,
                                         outs: seq<Out>)
    requires outs == RunBranches(env, es, site, k, fallback, w)
    ensures AllExact(outs, BranchDrops(env, es, site, k, fallback, w))
    decreases es, 0
  {
    if es != [] {
      var drops := BranchDrops(env, es, site, k, fallback, w);
      BranchStep(env, es, site, k, fallback, w, outs);
      RunExact(env, es[0], site + [k], fallback, w);
      BranchesExact(env, es[1..], site, k + 1, fallback, w, outs[1..]);
      assert forall i :: 1 <= i < |outs| ==> outs[i] == outs[1..][i - 1] && drops[i] == drops[1..][i - 1];
    }
  }

  /**
   * Faithfulness of any run, of checked and unchecked trees, exactly: it fails only for a run that continues
   * past a finished branch that is suspended.
   */
  lemma {:induction false} FaithfulExactly(env: Env, e: Effect, site: Site, fallback: string, w: World)
    ensures Faithful(Run(env, e, site, fallback, w)) <==>
      !(Run(env, e, site, fallback, w).outcome.Continue? && Drops(env, e, site, fallback, w))
  {
    RunExact(env, e, site, fallback, w);
  }

  // ---- Checked trees drop nothing

  lemma {:induction false} CheckedDropsNone(env: Env, e: Effect, site: Site, fallback: string, w: World)
    requires Checked(e)
    ensures !Drops(env, e, site, fallback, w)
    decreases e, 1
  {
    match e {
      case Sequential(effects) =>
        ListDropsNone(env, effects, site, 0, fallback, w);
      case Parallel(effects) =>
        BranchesDropNone(env, effects, site, 0, fallback, w, RunBranches(env, effects, site, 0, fallback, w));
      case When(guard, body, source) =>
        ListDropsNone(env, body, site, 0, source, w);
      case Pdp(call, onAllow, onDeny) =>
        ListDropsNone(env, onAllow, site + [0], 0, fallback, w);
      case _ =>
    }
  }

  lemma {:induction false} ListDropsNone(env: Env, es: seq<Effect>, site: Site, k: nat, fallback: string, w: World)
    requires AllChecked(es)
    ensures !ListDrops(env, es, site, k, fallback, w)
    decreases es, 0
  {
    if es != [] {
      CheckedDropsNone(env, es[0], site + [k], fallback, w);
      ListDropsNone(env, es[1..], site, k + 1, fallback, Run(env, es[0], site + [k], fallback, w).world);
    }
  }

  predicate NoneDropped(outs: seq<Out>, drops: seq<bool>)
  {
    |drops| == |outs| && forall i :: 0 <= i < |outs| ==> !outs[i].outcome.Pending? && !drops[i]
  }

  lemma NoneDroppedStep(outs: seq<Out>, drops: seq<bool>)
    requires |drops| == |outs| && outs != []
    requires !outs[0].outcome.Pending? && !drops[0] && NoneDropped(outs[1..], drops[1..])
    ensures NoneDropped(outs, drops)
  {
    assert forall i :: 1 <= i < |outs| ==> outs[i] == outs[1..][i - 1] && drops[i] == drops[1..][i - 1];
  }

  lemma {:induction false} BranchesDropNone(env: Env, es: seq<Effect>, site: Site, k: nat, fallback: string, w: World,
                                            outs: seq<Out>)
    requires FirstViolation(es, true).None? && outs == RunBranches(env, es, site, k, fallback, w)
    ensures NoneDropped(outs, BranchDrops(env, es, site, k, fallback, w))
    decreases es, 0
  {
    if es != [] {
      BranchStep(env, es, site, k, fallback, w, outs);
      CheckedDropsNone(env, es[0], site + [k], fallback, w);
      PureRun(env, es[0], site + [k], fallback, w);
      BranchesDropNone(env, es[1..], site, k + 1, fallback, w, outs[1..]);
      NoneDroppedStep(outs, BranchDrops(env, es, site, k, fallback, w));
    }
  }

  /** One effect of a checked tree continues exactly when everything it reached passed. */
  lemma {:induction false} RunFaithful(env: Env, e: Effect, site: Site, fallback: string, w: World)
    requires Checked(e)
    ensures Faithful(Run(env, e, site, fallback, w))
  {
    RunExact(env, e, site, fallback, w);
    CheckedDropsNone(env, e, site, fallback, w);
  }

  // ---- A halt is a deny

  predicate Denies(o: Outcome)
  {
    o.Halt? ==> o.decision.Denied?
  }

  lemma ElicitDenies(env: Env, step: ElicitStep, site: Site, bag: Attributes.Bag)
    ensures Denies(RunElicit(env, step, site, bag).outcome)
  {
  }

  lemma LeafDenies(env: Env, e: Effect, site: Site, fallback: string, w: World)
    requires Leaf(e)
    ensures Denies(RunLeaf(env, e, site, fallback, w).outcome)
  {
    if e.Elicit? {
      ElicitDenies(env, e.elicitation, site, w.bag);
    }
  }

  lemma {:induction false} MergeDenies(fates: seq<Fate>, outs: seq<Out>, k: nat, site: Site, fallback: string)
    requires |fates| == |outs| && forall i :: 0 <= i < |outs| ==> Denies(outs[i].outcome)
    ensures var halt := Merge(fates, outs, k, site, fallback).0; halt.Some? ==> halt.value.Denied?
    decreases |outs|
  {
    if outs != [] {
      MergeDenies(fates[1..], outs[1..], k + 1, site, fallback);
    }
  }

  /** Every halt of every run, checked or not, carries a deny. */
  lemma {:induction false} RunDenies(env: Env, e: Effect, site: Site, fallback: string, w: World)
    ensures Denies(Run(env, e, site, fallback, w).outcome)
    decreases e, 1
  {
    match e {
      case Sequential(effects) =>
        ListDenies(env, effects, site, 0, fallback, w);
      case Parallel(effects) =>
        var outs := RunBranches(env, effects, site, 0, fallback, w);
        BranchesDeny(env, effects, site, 0, fallback, w, outs);
        MergeDenies(Effective(Fates(env, site, 0, |effects|), outs), outs, 0, site, fallback);
      case When(guard, body, source) =>
        ListDenies(env, body, site, 0, source, w);
      case Pdp(call, onAllow, onDeny) =>
        ListDenies(env, onAllow, site + [0], 0, fallback, w);
        ListDenies(env, onDeny, site + [1], 0, fallback, w);
      case _ =>
        LeafDenies(env, e, site, fallback, w);
    }
  }

  lemma {:induction false} ListDenies(env: Env, es: seq<Effect>, site: Site, k: nat, fallback: string, w: World)
    ensures Denies(RunList(env, es, site, k, fallback, w).outcome)
    decreases es, 0
  {
    if es != [] {
      var first := Run(env, es[0], site + [k], fallback, w);
      RunDenies(env, es[0], site + [k], fallback, w);
      if first.outcome.Continue? {
        ListDenies(env, es[1..], site, k + 1, fallback, first.world);
      }
    }
  }

  lemma {:induction false} BranchesDeny(env: Env, es: seq<Effect>, site: Site, k: nat, fallback: string, w: World,
                                        outs: seq<Out>)
    requires outs == RunBranches(env, es, site, k, fallback, w)
    ensures forall i :: 0 <= i < |outs| ==> Denies(outs[i].outcome)
    decreases es, 0
  {
    if es != [] {
      BranchStep(env, es, site, k, fallback, w, outs);
      RunDenies(env, es[0], site + [k], fallback, w);
      BranchesDeny(env, es[1..], site, k + 1, fallback, w, outs[1..]);
      assert forall i :: 1 <= i < |outs| ==> outs[i] == outs[1..][i - 1];
    }
  }

  /**
   * A phase of any effects passes all it reached exactly when it is a clean Allow that dropped no
   * suspension.
   */
  lemma {:induction false} PassesExactly(env: Env, es: seq<Effect>, w: World)
    ensures AllPass(RunPhase(env, es, w).log.events) <==>
      CleanAllow(Report(RunPhase(env, es, w))) && !ListDrops(env, es, [], 0, "", w)
  {
    ListExact(env, es, [], 0, "", w);
    ListDenies(env, es, [], 0, "", w);
  }

  /** A phase of checked effects is a clean Allow exactly when everything it reached passed. */
  lemma {:induction false} CleanAllowExactly(env: Env, es: seq<Effect>, w: World)
    requires AllChecked(es)
    ensures CleanAllow(Report(RunPhase(env, es, w))) <==> AllPass(RunPhase(env, es, w).log.events)
  {
    PassesExactly(env, es, w);
    ListDropsNone(env, es, [], 0, "", w);
  }
}
