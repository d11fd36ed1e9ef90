/**
 * Sites identify calls: no run, of any tree in any world under any schedule, puts one kind of question
 * twice at one site. So answers looked up by site are as general as any stream of answers.
 */
module Sites {
  import opened Values
  import opened Attributes
  import opened Rules
  import opened Hosts
  import opened Payloads
  import opened Elicitations
  import opened Effects
  import opened Interpreter
  import Pipelines

  /** The calls whose answers a `Host` supplies. */
  datatype Call = ToPlugin | ToPdp | ToDelegator | ToDispatch | ToCheck | ToValidate

  function CallOf(ev: Event): (r: Option<Call>)
  {
    match ev
    case PluginAsked(_, _, _) => Some(ToPlugin)
    case PdpAsked(_, _, _) => Some(ToPdp)
    case Delegated(_, _, _) => Some(ToDelegator)
    case ElicitDispatched(_, _, _, _) => Some(ToDispatch)
    case ElicitChecked(_, _, _) => Some(ToCheck)
    case ElicitValidated(_, _, _) => Some(ToValidate)
    case _ => None
  }

  /** The same question at the same place. */
  predicate Repeats(a: Event, b: Event)
  {
    CallOf(a).Some? && CallOf(a) == CallOf(b) && a.site == b.site
  }

  predicate Distinct(events: seq<Event>)
  {
    forall i, j :: 0 <= i < j < |events| ==> !Repeats(events[i], events[j])
  }

  predicate Apart(a: seq<Event>, b: seq<Event>)
  {
    forall i, j :: 0 <= i < |a| && 0 <= j < |b| ==> !Repeats(a[i], b[j])
  }

  /** Every event is at the site or below it. */
  predicate Within(events: seq<Event>, site: Site)
  {
    forall i :: 0 <= i < |events| ==> site <= events[i].site
  }

  /** Every event is at or below a child of the site numbered `lo` or more. */
  predicate Below(events: seq<Event>, site: Site, lo: nat)
  {
    forall i :: 0 <= i < |events| ==> ChildOf(events[i].site, site, lo)
  }

  predicate ChildOf(s: Site, site: Site, lo: nat)
  {
    site <= s && |site| < |s| && s[|site|] >= lo
  }

  /** A run at a site: events there or below, no question repeated. */
  predicate Located(events: seq<Event>, site: Site)
  {
    Within(events, site) && Distinct(events)
  }

  /** Runs at children of a site. */
  predicate Spread(events: seq<Event>, site: Site, lo: nat)
  {
    Below(events, site, lo) && Distinct(events)
  }

  lemma DistinctConcat(a: seq<Event>, b: seq<Event>)
    requires Distinct(a) && Distinct(b) && Apart(a, b)
    ensures Distinct(a + b)
  {
    forall i, j | 0 <= i < j < |a + b|
      ensures !Repeats((a + b)[i], (a + b)[j])
    {
      if j < |a| {
        assert !Repeats(a[i], a[j]);
      } else if i >= |a| {
        assert !Repeats(b[i - |a|], b[j - |a|]);
      } else {
        assert !Repeats(a[i], b[j - |a|]);
      }
    }
  }

  lemma ChildrenApart(a: seq<Event>, b: seq<Event>, site: Site, k: nat)
    requires Within(a, site + [k]) && Below(b, site, k + 1)
    ensures Apart(a, b) && Below(a, site, k)
  {
    forall i | 0 <= i < |a|
      ensures ChildOf(a[i].site, site, k) && a[i].site[|site|] == k
    {
      assert site + [k] <= a[i].site;
      assert a[i].site[|site|] == (site + [k])[|site|];
    }
    forall i, j | 0 <= i < |a| && 0 <= j < |b|
      ensures !Repeats(a[i], b[j])
    {
      assert ChildOf(b[j].site, site, k + 1);
    }
  }

  /** One child's events, then those of later children. */
  lemma SpreadCons(a: seq<Event>, b: seq<Event>, site: Site, k: nat)
    requires Located(a, site + [k]) && Spread(b, site, k + 1)
    ensures Spread(a + b, site, k)
  {
    ChildrenApart(a, b, site, k);
    DistinctConcat(a, b);
    forall i | 0 <= i < |a + b|
      ensures ChildOf((a + b)[i].site, site, k)
    {
      if i < |a| {
        assert ChildOf(a[i].site, site, k);
      } else {
        assert ChildOf(b[i - |a|].site, site, k + 1);
      }
    }
  }

  lemma SpreadLater(b: seq<Event>, site: Site, k: nat)
    requires Spread(b, site, k + 1)
    ensures Spread(b, site, k)
  {
    forall i | 0 <= i < |b|
      ensures ChildOf(b[i].site, site, k)
    {
      assert ChildOf(b[i].site, site, k + 1);
    }
  }

  lemma OnlyChild(a: seq<Event>, site: Site, k: nat)
    requires Located(a, site + [k])
    ensures Spread(a, site, k)
  {
    SpreadCons(a, [], site, k);
    assert a + [] == a;
  }

  /** A node's own event, then its children's. */
  lemma NodeLocated(own: Event, b: seq<Event>, site: Site)
    requires own.site == site && Spread(b, site, 0)
    ensures Located([own] + b, site) && Located(b, site) && Located([own], site)
  {
    forall j | 0 <= j < |b|
      ensures !Repeats(own, b[j]) && site <= b[j].site
    {
      assert ChildOf(b[j].site, site, 0);
    }
    DistinctConcat([own], b);
  }

  lemma CutLocated(events: seq<Event>, n: nat, site: Site)
    requires Located(events, site)
    ensures Located(Cut(events, n), site)
  {
  }

  // ---- Field operations

  lemma {:induction false} StagesSpread(env: Env, bag: Bag, stages: seq<Stage>, site: Site, index: nat, v: Json,
                                        replaced: bool, r: Pipelines.PipelineRun)
    requires r == Pipelines.RunStages(env, bag, stages, site, index, v, replaced)
    ensures Spread(r.events, site, index)
    decreases |stages|
  {
    if stages != [] {
      var step := Pipelines.RunStage(env, bag, stages[0], site + [index], v);
      Pipelines.StagesUnfold(env, bag, stages, site, index, v, replaced);
      StageLocated(env, bag, stages[0], site + [index], v, step);
      OnlyChild(step.events, site, index);
      if step.result.Kept? {
        var next, again := step.result.value, replaced || step.result.changed;
        var rest := Pipelines.RunStages(env, bag, stages[1..], site, index + 1, next, again);
        StagesSpread(env, bag, stages[1..], site, index + 1, next, again, rest);
        SpreadCons(step.events, rest.events, site, index);
      }
    }
  }

  lemma StageLocated(env: Env, bag: Bag, stage: Stage, site: Site, v: Json, step: Pipelines.StageRun)
    requires step == Pipelines.RunStage(env, bag, stage, site, v)
    ensures Located(step.events, site)
  {
  }

  /** A path's own pipeline, then the note that it ran. */
  lemma RanLocated(events: seq<Event>, ran: Event, site: Site)
    requires Spread(events, site, 0) && ran.site == site && ran.FieldRan?
    ensures Located(events + [ran], site)
  {
    NodeLocated(ran, events, site);
    DistinctConcat(events, [ran]);
  }

  lemma {:induction false} PathsSpread(env: Env, bag: Bag, stages: seq<Stage>, site: Site, k: nat,
                                       paths: seq<seq<string>>, root: Json, r: FieldRun)
    requires r == RunPaths(env, bag, stages, site, k, paths, root)
    ensures Spread(r.events, site, k)
    decreases |paths|
  {
    if paths != [] {
      match GetAt(root, paths[0]) {
        case None =>
          PathsSpread(env, bag, stages, site, k + 1, paths[1..], root, r);
          SpreadLater(r.events, site, k);
        case Some(current) =>
          var run := Pipelines.RunStages(env, bag, stages, site + [k], 0, current, false);
          PathsStep(env, bag, stages, site, k, paths, root, current, run);
          StagesSpread(env, bag, stages, site + [k], 0, current, false, run);
          var ran := FieldRan(site + [k], run.outcome);
          RanLocated(run.events, ran, site + [k]);
          OnlyChild(run.events + [ran], site, k);
          if !run.outcome.Reject? {
            var next := Applied(root, paths[0], run.outcome).0;
            var rest := RunPaths(env, bag, stages, site, k + 1, paths[1..], next);
            PathsSpread(env, bag, stages, site, k + 1, paths[1..], next, rest);
            SpreadCons(run.events + [ran], rest.events, site, k);
          }
      }
    }
  }

  lemma FieldOpLocated(env: Env, path: string, stages: seq<Stage>, site: Site, fallback: string, w: World)
    ensures Located(RunFieldOp(env, path, stages, site, fallback, w).log.events, site)
  {
    var named := SideOf(path);
    if named.Some? && InPhase(env, named.value.0, w.payload).Some? {
      var root := InPhase(env, named.value.0, w.payload).value;
      var paths := env.foreign.expand(root, named.value.1, Redacts(stages));
      if paths.Some? {
        var run := RunPaths(env, w.bag, stages, site, 0, paths.value, root);
        PathsSpread(env, w.bag, stages, site, 0, paths.value, root, run);
        NodeLocated(FieldVisited(site), run.events, site);
      }
    }
  }

  // ---- Elicitations

  /** Dispatch before check before validate. */
  function Rank(ev: Event): (n: nat)
  {
    match ev
    case ElicitDispatched(_, _, _, _) => 0
    case ElicitChecked(_, _, _) => 1
    case ElicitValidated(_, _, _) => 2
    case _ => 3
  }

  predicate Ranked(events: seq<Event>, site: Site, top: nat)
  {
    && (forall i :: 0 <= i < |events| ==> events[i].site == site && Rank(events[i]) < top)
    && (forall i, j :: 0 <= i < j < |events| ==> Rank(events[i]) < Rank(events[j]))
  }

  lemma RankedSnoc(events: seq<Event>, ev: Event, site: Site, top: nat)
    requires Ranked(events, site, top) && top <= Rank(ev) && ev.site == site
    ensures Ranked(events + [ev], site, Rank(ev) + 1)
  {
  }

  lemma RankedLocated(events: seq<Event>, site: Site)
    requires Ranked(events, site, 4)
    ensures Located(events, site)
  {
    forall i, j | 0 <= i < j < |events|
      ensures !Repeats(events[i], events[j])
    {
      assert Rank(events[i]) < Rank(events[j]);
    }
  }

  lemma SettleRanked(step: ElicitStep, site: Site, s: Settlement, events: seq<Event>, top: nat)
    requires Ranked(events, site, top) && top <= 3
    ensures Ranked(events + [ElicitSettled(site, step, s)], site, 4)
  {
    RankedSnoc(events, ElicitSettled(site, step, s), site, top);
  }

  lemma CallFailsRanked(step: ElicitStep, site: Site, e: ElicitationError, bag: Bag, events: seq<Event>, top: nat)
    requires Ranked(events, site, top) && top <= 3
    ensures Ranked(CallFails(step, site, e, bag, events).events, site, 4)
  {
    SettleRanked(step, site, if e.StoreUnavailable? then Refused else Failed, events, top);
  }

  lemma ValidateRanked(env: Env, step: ElicitStep, site: Site, id: string, bag: Bag, events: seq<Event>, r: ElicitRun)
    requires r == RunValidate(env, step, site, id, bag, events) && Ranked(events, site, 2)
    ensures Ranked(r.events, site, 4)
  {
    var reply := env.host.validate(site);
    var seen := events + [ElicitValidated(site, id, reply)];
    RankedSnoc(events, ElicitValidated(site, id, reply), site, 2);
    match reply {
      case Err(e) => CallFailsRanked(step, site, e, bag, seen, 3);
      case Ok(_) =>
        SettleRanked(step, site, Failed, seen, 3);
        SettleRanked(step, site, Approved, seen, 3);
    }
  }

  lemma CheckRanked(env: Env, step: ElicitStep, site: Site, id: string, bag: Bag, events: seq<Event>, r: ElicitRun)
    requires r == RunCheck(env, step, site, id, bag, events) && Ranked(events, site, 1)
    ensures Ranked(r.events, site, 4)
  {
    var reply := env.host.check(site);
    var seen := events + [ElicitChecked(site, id, reply)];
    RankedSnoc(events, ElicitChecked(site, id, reply), site, 1);
    match reply {
      case Err(e) => CallFailsRanked(step, site, e, bag, seen, 2);
      case Ok(StillPending) => SettleRanked(step, site, Awaiting, seen, 2);
      case Ok(Expired) => SettleRanked(step, site, Failed, seen, 2);
      case Ok(Resolved(approved)) =>
        if approved {
          ValidateRanked(env, step, site, id, bag, seen, r);
        } else {
          SettleRanked(step, site, Refused, seen, 2);
        }
    }
  }

  lemma ElicitLocated(env: Env, step: ElicitStep, site: Site, bag: Bag, r: ElicitRun)
    requires r == RunElicit(env, step, site, bag)
    ensures Located(r.events, site)
  {
    match ResolveFrom(bag, step.from) {
      case None => SettleRanked(step, site, Failed, [], 0);
      case Some(from) =>
        match GetString(bag, ID_KEY) {
          case Some(id) => CheckRanked(env, step, site, id, bag, [], r);
          case None =>
            var reply := env.host.dispatch(site);
            var seen := [ElicitDispatched(site, step, from, reply)];
            assert Ranked(seen, site, 1);
            match reply {
              case Err(e) => CallFailsRanked(step, site, e, bag, seen, 1);
              case Ok(d) => CheckRanked(env, step, site, d.id, RecordDispatch(bag, step, d), seen, r);
            }
        }
    }
    RankedLocated(r.events, site);
  }

  lemma LeafLocated(env: Env, e: Effect, site: Site, fallback: string, w: World)
    requires Leaf(e)
    ensures Located(RunLeaf(env, e, site, fallback, w).log.events, site)
  {
    if e.FieldOp? {
      FieldOpLocated(env, e.path, e.stages, site, fallback, w);
    } else if e.Elicit? {
      ElicitLocated(env, e.elicitation, site, w.bag, RunElicit(env, e.elicitation, site, w.bag));
    } else {
      OneLocated(RunLeaf(env, e, site, fallback, w).log.events, site);
    }
  }

  lemma OneLocated(events: seq<Event>, site: Site)
    requires |events| <= 1 && forall i :: 0 <= i < |events| ==> events[i].site == site
    ensures Located(events, site)
  {
  }

  // ---- Whole runs

  predicate AllLocated(outs: seq<Out>, site: Site, k: nat)
  {
    forall i :: 0 <= i < |outs| ==> Located(outs[i].log.events, site + [k + i])
  }

  lemma BranchLocated(fate: Fate, out: Out, k: nat, site: Site, fallback: string)
    requires Located(out.log.events, site)
    ensures Located(Branch(fate, out, k, site, fallback).1.events, site)
  {
    if !fate.Runs? {
      CutLocated(out.log.events, fate.events, site);
      LostLocated(Cut(out.log.events, fate.events), site);
    }
  }

  lemma LostLocated(events: seq<Event>, site: Site)
    requires Located(events, site)
    ensures Located(events + [BranchLost(site)], site)
  {
    DistinctConcat(events, [BranchLost(site)]);
  }

  lemma {:induction false} MergeSpread(fates: seq<Fate>, outs: seq<Out>, k: nat, site: Site, fallback: string)
    requires |fates| == |outs| && AllLocated(outs, site, k)
    ensures Spread(Merge(fates, outs, k, site, fallback).1.events, site, k)
    decreases |outs|
  {
    if outs != [] {
      assert Located(outs[0].log.events, site + [k + 0]);
      BranchLocated(fates[0], outs[0], k, site + [k], fallback);
      forall i | 0 <= i < |outs[1..]|
        ensures Located(outs[1..][i].log.events, site + [k + 1 + i])
      {
        assert Located(outs[i + 1].log.events, site + [k + (i + 1)]);
      }
      MergeSpread(fates[1..], outs[1..], k + 1, site, fallback);
      SpreadCons(Branch(fates[0], outs[0], k, site + [k], fallback).1.events,
                 Merge(fates[1..], outs[1..], k + 1, site, fallback).1.events, site, k);
    }
  }

  /** Every event of a run is at its site or below it, and no question is put twice at one site. */
  lemma {:induction false} RunLocated(env: Env, e: Effect, site: Site, fallback: string, w: World, out: Out)
    requires out == Run(env, e, site, fallback, w)
    ensures Located(out.log.events, site)
    decreases e, 2
  {
    match e {
      case Sequential(effects) =>
        ListSpread(env, effects, site, 0, fallback, w, out);
        SpreadLocated(out.log.events, site);
      case Parallel(effects) =>
        var outs := RunBranches(env, effects, site, 0, fallback, w);
        BranchesLocated(env, effects, site, 0, fallback, w, outs);
        MergeSpread(Effective(Fates(env, site, 0, |effects|), outs), outs, 0, site, fallback);
        SpreadLocated(out.log.events, site);
      case When(guard, body, source) =>
        var inner := RunList(env, body, site, 0, source, w);
        ListSpread(env, body, site, 0, source, w, inner);
        NodeLocated(GuardChecked(site, guard, w.bag, env.language.eval(guard, w.bag)), inner.log.events, site);
      case Pdp(call, onAllow, onDeny) =>
        PdpLocated(env, call, onAllow, onDeny, site, fallback, w, out);
      case _ =>
        LeafLocated(env, e, site, fallback, w);
    }
  }

  lemma SpreadLocated(events: seq<Event>, site: Site)
    requires Spread(events, site, 0)
    ensures Located(events, site)
  {
    NodeLocated(FieldVisited(site), events, site);
  }

  lemma {:induction false} PdpLocated(env: Env, call: PdpCall, onAllow: seq<Effect>, onDeny: seq<Effect>, site: Site,
                                      fallback: string, w: World, out: Out)
    requires out == Run(env, Pdp(call, onAllow, onDeny), site, fallback, w)
    ensures Located(out.log.events, site)
    decreases Pdp(call, onAllow, onDeny), 1
  {
    var reply := AskPdp(env, call, site, w.payload);
    var event := PdpAsked(site, call, reply);
    if reply == Ok(Allowed) {
      var inner := RunList(env, onAllow, site + [0], 0, fallback, w);
      ListSpread(env, onAllow, site + [0], 0, fallback, w, inner);
      ReactionLocated(event, inner.log.events, site, 0);
    } else if reply.Ok? {
      var inner := RunList(env, onDeny, site + [1], 0, fallback, w);
      ListSpread(env, onDeny, site + [1], 0, fallback, w, inner);
      ReactionLocated(event, inner.log.events, site, 1);
    } else {
      NodeLocated(event, [], site);
    }
  }

  lemma ReactionLocated(own: Event, events: seq<Event>, site: Site, arm: nat)
    requires own.site == site && Spread(events, site + [arm], 0)
    ensures Located([own] + events, site)
  {
    SpreadLocated(events, site + [arm]);
    OnlyChild(events, site, arm);
    forall i | 0 <= i < |events|
      ensures ChildOf(events[i].site, site, 0)
    {
      assert ChildOf(events[i].site, site, arm);
    }
    NodeLocated(own, events, site);
  }

  lemma {:induction false} ListSpread(env: Env, es: seq<Effect>, site: Site, k: nat, fallback: string, w: World,
                                      out: Out)
    requires out == RunList(env, es, site, k, fallback, w)
    ensures Spread(out.log.events, site, k)
    decreases es, 0
  {
    if es != [] {
      var first := Run(env, es[0], site + [k], fallback, w);
      ListStep(env, es, site, k, fallback, w, first);
      RunLocated(env, es[0], site + [k], fallback, w, first);
      OnlyChild(first.log.events, site, k);
      if first.outcome.Continue? {
        var rest := RunList(env, es[1..], site, k + 1, fallback, first.world);
        ListSpread(env, es[1..], site, k + 1, fallback, first.world, rest);
        SpreadCons(first.log.events, rest.log.events, site, k);
      }
    }
  }

  lemma {:induction false} BranchesLocated(env: Env, es: seq<Effect>, site: Site, k: nat, fallback: string, w: World,
                                           outs: seq<Out>)
    requires outs == RunBranches(env, es, site, k, fallback, w)
    ensures AllLocated(outs, site, k)
    decreases es, 0
  {
    if es != [] {
      BranchStep(env, es, site, k, fallback, w, outs);
      RunLocated(env, es[0], site + [k], fallback, w, outs[0]);
      BranchesLocated(env, es[1..], site, k + 1, fallback, w, outs[1..]);
      forall i | 0 <= i < |outs|
        ensures Located(outs[i].log.events, site + [k + i])
      {
        if i > 0 {
          assert Located(outs[1..][i - 1].log.events, site + [k + 1 + (i - 1)]);
        }
      }
    }
  }

  /** No pass puts one kind of question twice at one site. */
  lemma {:induction false} SitesAskedOnce(env: Env, es: seq<Effect>, w: World, i: nat, j: nat)
    requires i < j < |RunPhase(env, es, w).log.events|
    requires var events := RunPhase(env, es, w).log.events;
      CallOf(events[i]).Some? && CallOf(events[i]) == CallOf(events[j])
    ensures var events := RunPhase(env, es, w).log.events; events[i].site != events[j].site
  {
    ListSpread(env, es, [], 0, "", w, RunPhase(env, es, w));
    assert !Repeats(RunPhase(env, es, w).log.events[i], RunPhase(env, es, w).log.events[j]);
  }
}
