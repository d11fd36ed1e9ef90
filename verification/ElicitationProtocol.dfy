/** The elicitation protocol: how often a run dispatches, what `on_error` can soften, and retries. */
module ElicitationProtocol {
  import opened Values
  import opened Attributes
  import opened Rules
  import opened Hosts
  import opened Payloads
  import opened Elicitations
  import opened Effects
  import opened Interpreter
  import Pipelines
  import Predicates

  // ---- One step

  predicate Refusal(e: ElicitationError)
  {
    e.StoreUnavailable?
  }

  /** The id a step works with and the bag it has then: echoed by the caller, or fresh from a dispatch. */
  function Underway(env: Env, step: ElicitStep, site: Site, bag: Bag): (r: Option<(string, Bag)>)
  {
    if ResolveFrom(bag, step.from).None? then None
    else if GetString(bag, ID_KEY).Some? then Some((GetString(bag, ID_KEY).value, bag))
    else if env.host.dispatch(site).Ok? then
      var d := env.host.dispatch(site).value;
      Some((d.id, RecordDispatch(bag, step, d)))
    else None
  }

  /** How the step settled: its last event. */
  function SettlementOf(r: ElicitRun): (s: Option<Settlement>)
  {
    if r.events != [] && r.events[|r.events| - 1].ElicitSettled? then
      Some(r.events[|r.events| - 1].settlement)
    else None
  }

  /** The step has no `scope`, or it parses and is definitely true of the bag. */
  predicate ScopeHolds(env: Env, step: ElicitStep, bag: Bag)
  {
    step.scope.Some? ==>
      var parsed := env.language.parse(step.scope.value);
      parsed.Some? && env.language.eval(parsed.value, bag) == Predicates.Definite(true)
  }

  /** A human answer of yes that is genuine and covers the request. */
  predicate Granted(env: Env, step: ElicitStep, site: Site, bag: Bag)
  {
    && env.host.check(site) == Ok(Resolved(true))
    && env.host.validate(site).Ok? && env.host.validate(site).value.valid
    && ScopeHolds(env, step, bag)
  }

  /** The approver said no, or a store that holds the approval state cannot be reached. */
  predicate Stopped(env: Env, site: Site)
  {
    || env.host.check(site) == Ok(Resolved(false))
    || (env.host.check(site).Err? && Refusal(env.host.check(site).error))
    || (env.host.check(site) == Ok(Resolved(true)) && env.host.validate(site).Err?
        && Refusal(env.host.validate(site).error))
  }

  predicate DispatchRefused(env: Env, step: ElicitStep, site: Site, bag: Bag)
  {
    && ResolveFrom(bag, step.from).Some? && GetString(bag, ID_KEY).None?
    && env.host.dispatch(site).Err? && Refusal(env.host.dispatch(site).error)
  }

  /** What each settlement means for the outcome. */
  predicate Carries(step: ElicitStep, s: Settlement, o: Outcome)
  {
    match s
    case Approved => o.Continue?
    case Awaiting => o.Pending?
    case Refused => o.Halt?
    case Failed => if OnErrorContinues(step.onError) then o.Continue? else o.Halt?
  }

  lemma CheckSettlement(env: Env, step: ElicitStep, site: Site, id: string, bag: Bag, events: seq<Event>, r: ElicitRun)
    requires r == RunCheck(env, step, site, id, bag, events)
    ensures SettlementOf(r).Some? && Carries(step, SettlementOf(r).value, r.outcome)
    ensures SettlementOf(r) == Some(Approved) <==> Granted(env, step, site, bag)
    ensures SettlementOf(r) == Some(Awaiting) <==> env.host.check(site) == Ok(StillPending)
    ensures SettlementOf(r) == Some(Refused) <==> Stopped(env, site)
  {
  }

  /**
   * How an elicitation step ends, exactly. It is approved only with an answer of yes that validates and
   * whose scope holds; it waits only while the approver has not answered; it is refused by an answer of
   * no or an unreachable store; everything else is a failure, and only failures read `on_error`.
   */
  lemma {:induction false} SettlesExactly(env: Env, step: ElicitStep, site: Site, bag: Bag, r: ElicitRun)
    requires r == RunElicit(env, step, site, bag)
    ensures SettlementOf(r).Some? && Carries(step, SettlementOf(r).value, r.outcome)
    ensures var u := Underway(env, step, site, bag);
      && (SettlementOf(r) == Some(Approved) <==> u.Some? && Granted(env, step, site, u.value.1))
      && (SettlementOf(r) == Some(Awaiting) <==> u.Some? && env.host.check(site) == Ok(StillPending))
      && (SettlementOf(r) == Some(Refused) <==>
          (u.Some? && Stopped(env, site)) || DispatchRefused(env, step, site, bag))
  {
    var u := Underway(env, step, site, bag);
    if u.Some? {
      var events := if GetString(bag, ID_KEY).Some? then []
        else [ElicitDispatched(site, step, ResolveFrom(bag, step.from).value, env.host.dispatch(site))];
      assert r == RunCheck(env, step, site, u.value.0, u.value.1, events);
      CheckSettlement(env, step, site, u.value.0, u.value.1, events, r);
    }
  }

  /** Without `on_error: continue`, the step continues exactly on a granted approval. */
  lemma {:induction false} StrictStepContinues(env: Env, step: ElicitStep, site: Site, bag: Bag, r: ElicitRun)
    requires r == RunElicit(env, step, site, bag) && !OnErrorContinues(step.onError)
    ensures r.outcome.Continue? <==>
      var u := Underway(env, step, site, bag); u.Some? && Granted(env, step, site, u.value.1)
  {
    SettlesExactly(env, step, site, bag, r);
  }

  predicate SoftenedOnly(r: ElicitRun, other: ElicitRun)
  {
    && SettlementOf(r).Some? && SettlementOf(other) == SettlementOf(r) && other.bag == r.bag
    && (SettlementOf(r) != Some(Failed) ==> other.outcome == r.outcome)
  }

  lemma FailsAlike(step: ElicitStep, other: ElicitStep, site: Site, reason: Reason, bag: Bag,
                   events: seq<Event>, more: seq<Event>)
    ensures SoftenedOnly(Fails(step, site, reason, bag, events), Fails(other, site, reason, bag, more))
  {
  }

  lemma CallFailsAlike(step: ElicitStep, other: ElicitStep, site: Site, e: ElicitationError, bag: Bag,
                       events: seq<Event>, more: seq<Event>)
    requires other.source == step.source
    ensures SoftenedOnly(CallFails(step, site, e, bag, events), CallFails(other, site, e, bag, more))
  {
  }

  lemma ValidateAlike(env: Env, step: ElicitStep, other: ElicitStep, site: Site, id: string, bag: Bag,
                      events: seq<Event>, more: seq<Event>)
    requires other == step.(onError := other.onError)
    ensures SoftenedOnly(RunValidate(env, step, site, id, bag, events), RunValidate(env, other, site, id, bag, more))
  {
    var reply := env.host.validate(site);
    var seen := [ElicitValidated(site, id, reply)];
    match reply {
      case Err(e) => CallFailsAlike(step, other, site, e, bag, events + seen, more + seen);
      case Ok(v) =>
        if !v.valid {
          FailsAlike(step, other, site, ElicitInvalid(v.why), bag, events + seen, more + seen);
        } else {
          var fault := ScopeFault(env, step, bag);
          assert fault == ScopeFault(env, other, bag);
          if fault.Some? {
            FailsAlike(step, other, site, fault.value, bag, events + seen, more + seen);
          }
        }
    }
  }

  lemma CheckAlike(env: Env, step: ElicitStep, other: ElicitStep, site: Site, id: string, bag: Bag,
                   events: seq<Event>, more: seq<Event>)
    requires other == step.(onError := other.onError)
    ensures SoftenedOnly(RunCheck(env, step, site, id, bag, events), RunCheck(env, other, site, id, bag, more))
  {
    var reply := env.host.check(site);
    var seen := [ElicitChecked(site, id, reply)];
    match reply {
      case Err(e) => CallFailsAlike(step, other, site, e, bag, events + seen, more + seen);
      case Ok(StillPending) =>
      case Ok(Expired) =>
        FailsAlike(step, other, site, ElicitExpired, bag[STATUS_KEY := StringValue("expired")], events + seen,
                   more + seen);
      case Ok(Resolved(approved)) =>
        if approved {
          ValidateAlike(env, step, other, site, id, bag, events + seen, more + seen);
        }
    }
  }

  /** Changing `on_error` changes nothing but what a failure leads to. */
  lemma {:induction false} OnlyFailuresSoften(env: Env, step: ElicitStep, other: ElicitStep, site: Site, bag: Bag)
    requires other == step.(onError := other.onError)
    ensures SoftenedOnly(RunElicit(env, step, site, bag), RunElicit(env, other, site, bag))
  {
    match ResolveFrom(bag, step.from) {
      case None => FailsAlike(step, other, site, ElicitFromUnresolved(step.from), bag, [], []);
      case Some(from) =>
        match GetString(bag, ID_KEY) {
          case Some(id) => CheckAlike(env, step, other, site, id, bag, [], []);
          case None =>
            var reply := env.host.dispatch(site);
            var seen := [ElicitDispatched(site, step, from, reply)];
            var more := [ElicitDispatched(site, other, from, reply)];
            match reply {
              case Err(e) => CallFailsAlike(step, other, site, e, bag, seen, more);
              case Ok(d) => CheckAlike(env, step, other, site, d.id, RecordDispatch(bag, step, d), seen, more);
            }
        }
    }
  }

  /** An attribute-shaped `from` that does not resolve reaches no channel at all. */
  lemma {:induction false} UnresolvedFromCallsNobody(env: Env, step: ElicitStep, site: Site, bag: Bag, r: ElicitRun)
    requires r == RunElicit(env, step, site, bag)
    requires LooksLikeAttributeRef(step.from) && GetString(bag, step.from).None?
    ensures r.events == [ElicitSettled(site, step, Failed)] && r.bag == bag
  {
  }

  // ---- Counting dispatches

  /** `count_elicits`. */
  function CountElicits(e: Effect): (n: nat)
    decreases e, 1
  {
    match e
    case Elicit(_) => 1
    case Sequential(effects) => CountAll(effects)
    case Parallel(effects) => CountAll(effects)
    case When(_, body, _) => CountAll(body)
    case Pdp(_, onAllow, onDeny) => CountAll(onAllow) + CountAll(onDeny)
    case _ => 0
  }

  function CountAll(es: seq<Effect>): (n: nat)
    decreases es, 0
  {
    if es == [] then 0 else CountElicits(es[0]) + CountAll(es[1..])
  }

  /** Dispatch calls among the events; with `accepted`, only those a channel accepted. */
  function Dispatches(events: seq<Event>, accepted: bool): (n: nat)
    ensures n <= |events|
  {
    if events == [] then 0
    else
      (if events[0].ElicitDispatched? && (accepted ==> events[0].dispatched.Ok?) then 1 else 0)
      + Dispatches(events[1..], accepted)
  }

  lemma {:induction false} DispatchesConcat(a: seq<Event>, b: seq<Event>, accepted: bool)
    ensures Dispatches(a + b, accepted) == Dispatches(a, accepted) + Dispatches(b, accepted)
  {
    if a == [] {
      assert a + b == b;
    } else {
      assert (a + b)[1..] == a[1..] + b;
      DispatchesConcat(a[1..], b, accepted);
    }
  }

  lemma CutDispatches(events: seq<Event>, n: nat, accepted: bool)
    ensures Dispatches(Cut(events, n), accepted) <= Dispatches(events, accepted)
  {
    if n < |events| {
      assert events == events[..n] + events[n..];
      DispatchesConcat(events[..n], events[n..], accepted);
    }
  }

  predicate NoneDispatched(events: seq<Event>)
  {
    forall i :: 0 <= i < |events| ==> !events[i].ElicitDispatched?
  }

  lemma {:induction false} NoneCounted(events: seq<Event>, accepted: bool)
    requires NoneDispatched(events)
    ensures Dispatches(events, accepted) == 0
  {
    if events != [] {
      NoneCounted(events[1..], accepted);
    }
  }

  lemma {:induction false} StagesDispatchNone(env: Env, bag: Bag, stages: seq<Stage>, site: Site, index: nat,
                                              v: Json, replaced: bool, r: Pipelines.PipelineRun)
    requires r == Pipelines.RunStages(env, bag, stages, site, index, v, replaced)
    ensures NoneDispatched(r.events)
    decreases |stages|
  {
    if stages != [] {
      var step := Pipelines.RunStage(env, bag, stages[0], site + [index], v);
      Pipelines.StagesUnfold(env, bag, stages, site, index, v, replaced);
      if step.result.Kept? {
        var rest := Pipelines.RunStages(env, bag, stages[1..], site, index + 1, step.result.value,
                                        replaced || step.result.changed);
        StagesDispatchNone(env, bag, stages[1..], site, index + 1, step.result.value,
                           replaced || step.result.changed, rest);
      }
    }
  }

  lemma {:induction false} PathsDispatchNone(env: Env, bag: Bag, stages: seq<Stage>, site: Site, k: nat,
                                             paths: seq<seq<string>>, root: Json, r: FieldRun)
    requires r == RunPaths(env, bag, stages, site, k, paths, root)
    ensures NoneDispatched(r.events)
    decreases |paths|
  {
    if paths != [] {
      match GetAt(root, paths[0]) {
        case None =>
          PathsDispatchNone(env, bag, stages, site, k + 1, paths[1..], root, r);
        case Some(current) =>
          var run := Pipelines.RunStages(env, bag, stages, site + [k], 0, current, false);
          StagesDispatchNone(env, bag, stages, site + [k], 0, current, false, run);
          if !run.outcome.Reject? {
            var next := Applied(root, paths[0], run.outcome).0;
            PathsDispatchNone(env, bag, stages, site, k + 1, paths[1..], next,
                              RunPaths(env, bag, stages, site, k + 1, paths[1..], next));
          }
      }
    }
  }

  lemma FieldOpDispatchesNone(env: Env, path: string, stages: seq<Stage>, site: Site, fallback: string, w: World)
    ensures NoneDispatched(RunFieldOp(env, path, stages, site, fallback, w).log.events)
  {
    var side := SideOf(path);
    if side.Some? && InPhase(env, side.value.0, w.payload).Some? {
      var root := InPhase(env, side.value.0, w.payload).value;
      var paths := env.foreign.expand(root, side.value.1, Redacts(stages));
      if paths.Some? {
        PathsDispatchNone(env, w.bag, stages, site, 0, paths.value, root,
                          RunPaths(env, w.bag, stages, site, 0, paths.value, root));
      }
    }
  }

  lemma LeafDispatchesNone(env: Env, e: Effect, site: Site, fallback: string, w: World)
    requires Leaf(e) && !e.Elicit?
    ensures NoneDispatched(RunLeaf(env, e, site, fallback, w).log.events)
  {
    if e.FieldOp? {
      FieldOpDispatchesNone(env, e.path, e.stages, site, fallback, w);
    }
  }

  // ---- The retry id

  predicate Held(bag: Bag)
  {
    GetString(bag, ID_KEY).Some?
  }

  /** Everything after the first event of a step is not a dispatch, and the first is one only without an id. */
  lemma ElicitShape(env: Env, step: ElicitStep, site: Site, bag: Bag, r: ElicitRun)
    requires r == RunElicit(env, step, site, bag)
    ensures r.events != [] && NoneDispatched(r.events[1..])
    ensures r.events[0].ElicitDispatched? <==> ResolveFrom(bag, step.from).Some? && !Held(bag)
    ensures r.events[0].ElicitDispatched? ==> r.events[0].dispatched == env.host.dispatch(site)
    ensures Held(bag) ==> GetString(r.bag, ID_KEY) == GetString(bag, ID_KEY)
    ensures !Held(bag) ==>
      (Held(r.bag) <==> ResolveFrom(bag, step.from).Some? && env.host.dispatch(site).Ok?)
  {
    var u := Underway(env, step, site, bag);
    if u.Some? {
      var events := if GetString(bag, ID_KEY).Some? then []
        else [ElicitDispatched(site, step, ResolveFrom(bag, step.from).value, env.host.dispatch(site))];
      assert r == RunCheck(env, step, site, u.value.0, u.value.1, events);
      CheckShape(env, step, site, u.value.0, u.value.1, events, r);
      RecordedId(env, step, site, bag);
    }
  }

  lemma RecordedId(env: Env, step: ElicitStep, site: Site, bag: Bag)
    ensures var u := Underway(env, step, site, bag);
      u.Some? ==> GetString(u.value.1, ID_KEY) == Some(u.value.0)
  {
  }

  lemma CheckShape(env: Env, step: ElicitStep, site: Site, id: string, bag: Bag, events: seq<Event>, r: ElicitRun)
    requires r == RunCheck(env, step, site, id, bag, events)
    ensures events < r.events && NoneDispatched(r.events[|events|..])
    ensures GetString(r.bag, ID_KEY) == GetString(bag, ID_KEY)
  {
  }

  /** What a run does to the retry id, and how many dispatches it makes. */
  predicate Once(before: Bag, after: Bag, events: seq<Event>)
  {
    && (Held(before) ==> Dispatches(events, false) == 0 && GetString(after, ID_KEY) == GetString(before, ID_KEY))
    && (!Held(before) ==> Dispatches(events, true) == if Held(after) then 1 else 0)
  }

  lemma OnceConcat(a: Bag, b: Bag, c: Bag, first: seq<Event>, rest: seq<Event>)
    requires Once(a, b, first) && Once(b, c, rest)
    ensures Once(a, c, first + rest)
  {
    DispatchesConcat(first, rest, false);
    DispatchesConcat(first, rest, true);
    AcceptedAtMostAll(rest);
  }

  lemma {:induction false} AcceptedAtMostAll(events: seq<Event>)
    ensures Dispatches(events, true) <= Dispatches(events, false)
  {
    if events != [] {
      AcceptedAtMostAll(events[1..]);
    }
  }

  lemma OneDispatch(first: Event, rest: seq<Event>, accepted: bool)
    requires NoneDispatched(rest)
    ensures Dispatches([first] + rest, accepted) ==
      if first.ElicitDispatched? && (accepted ==> first.dispatched.Ok?) then 1 else 0
  {
    assert ([first] + rest)[1..] == rest;
    NoneCounted(rest, accepted);
  }

  lemma ElicitOnce(env: Env, step: ElicitStep, site: Site, bag: Bag, r: ElicitRun)
    requires r == RunElicit(env, step, site, bag)
    ensures Once(bag, r.bag, r.events) && Dispatches(r.events, false) <= 1
  {
    ElicitShape(env, step, site, bag, r);
    assert r.events == [r.events[0]] + r.events[1..];
    OneDispatch(r.events[0], r.events[1..], false);
    OneDispatch(r.events[0], r.events[1..], true);
  }

  lemma LeafKeepsId(env: Env, e: Effect, site: Site, fallback: string, w: World)
    requires Leaf(e) && !e.Elicit?
    ensures GetString(RunLeaf(env, e, site, fallback, w).world.bag, ID_KEY) == GetString(w.bag, ID_KEY)
  {
  }

  lemma LeafOnce(env: Env, e: Effect, site: Site, fallback: string, w: World, out: Out)
    requires Leaf(e) && out == RunLeaf(env, e, site, fallback, w)
    ensures Once(w.bag, out.world.bag, out.log.events) && Dispatches(out.log.events, false) <= CountElicits(e)
  {
    if e.Elicit? {
      ElicitOnce(env, e.elicitation, site, w.bag, RunElicit(env, e.elicitation, site, w.bag));
    } else {
      LeafDispatchesNone(env, e, site, fallback, w);
      LeafKeepsId(env, e, site, fallback, w);
      NoneCounted(out.log.events, false);
      NoneCounted(out.log.events, true);
    }
  }

  // ---- Whole runs

  lemma {:induction false} MergeBounded(fates: seq<Fate>, outs: seq<Out>, k: nat, site: Site, fallback: string,
                                        es: seq<Effect>)
    requires |fates| == |outs| == |es|
    requires forall i :: 0 <= i < |outs| ==> Dispatches(outs[i].log.events, false) <= CountElicits(es[i])
    ensures Dispatches(Merge(fates, outs, k, site, fallback).1.events, false) <= CountAll(es)
    decreases |outs|
  {
    if outs != [] {
      var log := Branch(fates[0], outs[0], k, site + [k], fallback).1;
      BranchBounded(fates[0], outs[0], k, site + [k], fallback);
      MergeBounded(fates[1..], outs[1..], k + 1, site, fallback, es[1..]);
      DispatchesConcat(log.events, Merge(fates[1..], outs[1..], k + 1, site, fallback).1.events, false);
    }
  }

  lemma BranchBounded(fate: Fate, out: Out, k: nat, site: Site, fallback: string)
    ensures Dispatches(Branch(fate, out, k, site, fallback).1.events, false) <= Dispatches(out.log.events, false)
  {
    if !fate.Runs? {
      CutDispatches(out.log.events, fate.events, false);
      DispatchesConcat(Cut(out.log.events, fate.events), [BranchLost(site)], false);
      NoneCounted([BranchLost(site)], false);
    }
  }

  lemma AfterCounts(seen: Event, out: Out, accepted: bool)
    requires !seen.ElicitDispatched?
    ensures Dispatches(After(Told([seen]), out).log.events, accepted) == Dispatches(out.log.events, accepted)
  {
    DispatchesConcat([seen], out.log.events, accepted);
    NoneCounted([seen], accepted);
  }

  /** On every run, dispatch calls are bounded by the elicit nodes of the tree. */
  lemma {:induction false} RunBounded(env: Env, e: Effect, site: Site, fallback: string, w: World, out: Out)
    requires out == Run(env, e, site, fallback, w)
    ensures Dispatches(out.log.events, false) <= CountElicits(e)
    decreases e, 1
  {
    match e {
      case Sequential(effects) =>
        ListBounded(env, effects, site, 0, fallback, w, out);
      case Parallel(effects) =>
        var outs := RunBranches(env, effects, site, 0, fallback, w);
        BranchesBounded(env, effects, site, 0, fallback, w, outs);
        MergeBounded(Effective(Fates(env, site, 0, |effects|), outs), outs, 0, site, fallback, effects);
      case When(guard, body, source) =>
        var inner := RunList(env, body, site, 0, source, w);
        ListBounded(env, body, site, 0, source, w, inner);
        WhenCounts(env, guard, body, source, site, fallback, w, out);
      case Pdp(call, onAllow, onDeny) =>
        ListBounded(env, onAllow, site + [0], 0, fallback, w, RunList(env, onAllow, site + [0], 0, fallback, w));
        ListBounded(env, onDeny, site + [1], 0, fallback, w, RunList(env, onDeny, site + [1], 0, fallback, w));
        PdpCounts(env, call, onAllow, onDeny, site, fallback, w, out);
      case _ =>
        LeafOnce(env, e, site, fallback, w, out);
    }
  }

  lemma WhenCounts(env: Env, guard: Expression, body: seq<Effect>, source: string, site: Site, fallback: string,
                   w: World, out: Out)
    requires out == Run(env, When(guard, body, source), site, fallback, w)
    ensures Dispatches(out.log.events, false) <= Dispatches(RunList(env, body, site, 0, source, w).log.events, false)
  {
    var verdict := env.language.eval(guard, w.bag);
    var event := GuardChecked(site, guard, w.bag, verdict);
    NoneCounted([event], false);
    AfterCounts(event, RunList(env, body, site, 0, source, w), false);
  }

  lemma PdpCounts(env: Env, call: PdpCall, onAllow: seq<Effect>, onDeny: seq<Effect>, site: Site, fallback: string,
                  w: World, out: Out)
    requires out == Run(env, Pdp(call, onAllow, onDeny), site, fallback, w)
    ensures Dispatches(out.log.events, false) <=
      Dispatches(RunList(env, onAllow, site + [0], 0, fallback, w).log.events, false)
      + Dispatches(RunList(env, onDeny, site + [1], 0, fallback, w).log.events, false)
  {
    var event := PdpAsked(site, call, AskPdp(env, call, site, w.payload));
    NoneCounted([event], false);
    AfterCounts(event, RunList(env, onAllow, site + [0], 0, fallback, w), false);
    AfterCounts(event, RunList(env, onDeny, site + [1], 0, fallback, w), false);
  }

  lemma {:induction false} ListBounded(env: Env, es: seq<Effect>, site: Site, k: nat, fallback: string, w: World,
                                       out: Out)
    requires out == RunList(env, es, site, k, fallback, w)
    ensures Dispatches(out.log.events, false) <= CountAll(es)
    decreases es, 0
  {
    if es != [] {
      var first := Run(env, es[0], site + [k], fallback, w);
      ListStep(env, es, site, k, fallback, w, first);
      RunBounded(env, es[0], site + [k], fallback, w, first);
      if first.outcome.Continue? {
        var rest := RunList(env, es[1..], site, k + 1, fallback, first.world);
        ListBounded(env, es[1..], site, k + 1, fallback, first.world, rest);
        DispatchesConcat(first.log.events, rest.log.events, false);
      }
    }
  }

  lemma {:induction false} BranchesBounded(env: Env, es: seq<Effect>, site: Site, k: nat, fallback: string, w: World,
                                           outs: seq<Out>)
    requires outs == RunBranches(env, es, site, k, fallback, w)
    ensures forall i :: 0 <= i < |outs| ==> Dispatches(outs[i].log.events, false) <= CountElicits(es[i])
    decreases es, 0
  {
    if es != [] {
      BranchStep(env, es, site, k, fallback, w, outs);
      RunBounded(env, es[0], site + [k], fallback, w, outs[0]);
      BranchesBounded(env, es[1..], site, k + 1, fallback, w, outs[1..]);
      assert forall i :: 1 <= i < |outs| ==> outs[i] == outs[1..][i - 1] && es[i] == es[1..][i - 1];
    }
  }

  /** The compiler's limit of one elicitation per phase: at most one dispatch call, whatever arms are taken. */
  predicate Accepted(es: seq<Effect>)
  {
    CountAll(es) <= 1
  }

  lemma {:induction false} AcceptedPhaseDispatchesOnce(env: Env, es: seq<Effect>, w: World)
    requires Accepted(es)
    ensures Dispatches(RunPhase(env, es, w).log.events, false) <= 1
  {
    ListBounded(env, es, [], 0, "", w, RunPhase(env, es, w));
  }
}
