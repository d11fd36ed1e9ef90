/** What the `delegation.granted` keys tell a later rule: the grants of a run, replayed. */
module Delegations {
  import opened Values
  import opened Attributes
  import opened Rules
  import opened Hosts
  import opened Payloads
  import opened Elicitations
  import opened Effects
  import opened Interpreter
  import opened Purity
  import Pipelines

  const GRANTED := "delegation.granted"
  const PERMISSIONS := "delegation.granted.permissions"
  const AUDIENCE := "delegation.granted.audience"
  const EXPIRES := "delegation.granted.expires_at"

  predicate TokenKey(key: string)
  {
    key == GRANTED || key == PERMISSIONS || key == AUDIENCE || key == EXPIRES
  }

  function AsValue(text: Option<string>): (r: Option<AttributeValue>)
  {
    if text.Some? then Some(StringValue(text.value)) else None
  }

  /** What a granted token says under a key; nothing where the reply left it out. */
  function Carried(o: DelegationOutcome, key: string): (r: Option<AttributeValue>)
  {
    if key == GRANTED then Some(BoolValue(true))
    else if key == PERMISSIONS then
      if o.permissions == [] then None else Some(StringSetValue(set p | p in o.permissions))
    else if key == AUDIENCE then AsValue(o.audience)
    else if key == EXPIRES then AsValue(o.expiresAt)
    else None
  }

  predicate IsGrant(ev: Event)
  {
    ev.Delegated? && ev.grant.Ok? && ev.grant.value.decision.Allowed?
  }

  /** The value under a key after one event. */
  function Step(before: Option<AttributeValue>, ev: Event, key: string): (r: Option<AttributeValue>)
  {
    if IsGrant(ev) && Carried(ev.grant.value, key).Some? then Carried(ev.grant.value, key) else before
  }

  /** The value under a key after a trace: what the last grant that carried it said, else what was there. */
  function Replay(before: Option<AttributeValue>, events: seq<Event>, key: string): (r: Option<AttributeValue>)
    decreases |events|
  {
    if events == [] then before else Replay(Step(before, events[0], key), events[1..], key)
  }

  lemma {:induction false} ReplayConcat(before: Option<AttributeValue>, a: seq<Event>, b: seq<Event>, key: string)
    ensures Replay(before, a + b, key) == Replay(Replay(before, a, key), b, key)
    decreases |a|
  {
    if a == [] {
      assert a + b == b;
    } else {
      assert (a + b)[0] == a[0] && (a + b)[1..] == a[1..] + b;
      ReplayConcat(Step(before, a[0], key), a[1..], b, key);
    }
  }

  predicate NoGrants(events: seq<Event>)
  {
    forall i :: 0 <= i < |events| ==> !IsGrant(events[i])
  }

  lemma {:induction false} ReplayNothing(before: Option<AttributeValue>, events: seq<Event>, key: string)
    requires NoGrants(events)
    ensures Replay(before, events, key) == before
    decreases |events|
  {
    if events != [] {
      ReplayNothing(before, events[1..], key);
    }
  }

  // ---- Effects that are not delegations

  predicate NoDelegation(events: seq<Event>)
  {
    forall i :: 0 <= i < |events| ==> !events[i].Delegated?
  }

  lemma {:induction false} StagesDelegateNone(env: Env, bag: Bag, stages: seq<Stage>, site: Site, index: nat, v: Json,
                                              replaced: bool, r: Pipelines.PipelineRun)
    requires r == Pipelines.RunStages(env, bag, stages, site, index, v, replaced)
    ensures NoDelegation(r.events)
    decreases |stages|
  {
    if stages != [] {
      var step := Pipelines.RunStage(env, bag, stages[0], site + [index], v);
      Pipelines.StagesUnfold(env, bag, stages, site, index, v, replaced);
      StageDelegatesNone(env, bag, stages[0], site + [index], v, step);
      if step.result.Kept? {
        var next, again := step.result.value, replaced || step.result.changed;
        var rest := Pipelines.RunStages(env, bag, stages[1..], site, index + 1, next, again);
        StagesDelegateNone(env, bag, stages[1..], site, index + 1, next, again, rest);
      }
    }
  }

  lemma StageDelegatesNone(env: Env, bag: Bag, stage: Stage, site: Site, v: Json, step: Pipelines.StageRun)
    requires step == Pipelines.RunStage(env, bag, stage, site, v)
    ensures NoDelegation(step.events)
  {
  }

  lemma {:induction false} PathsDelegateNone(env: Env, bag: Bag, stages: seq<Stage>, site: Site, k: nat,
                                             paths: seq<seq<string>>, root: Json, r: FieldRun)
    requires r == RunPaths(env, bag, stages, site, k, paths, root)
    ensures NoDelegation(r.events)
    decreases |paths|
  {
    if paths != [] {
      match GetAt(root, paths[0]) {
        case None =>
          PathsDelegateNone(env, bag, stages, site, k + 1, paths[1..], root, r);
        case Some(current) =>
          var run := Pipelines.RunStages(env, bag, stages, site + [k], 0, current, false);
          PathsStep(env, bag, stages, site, k, paths, root, current, run);
          StagesDelegateNone(env, bag, stages, site + [k], 0, current, false, run);
          if !run.outcome.Reject? {
            var next := Applied(root, paths[0], run.outcome).0;
            PathsDelegateNone(env, bag, stages, site, k + 1, paths[1..], next,
                              RunPaths(env, bag, stages, site, k + 1, paths[1..], next));
          }
      }
    }
  }

  lemma FieldOpDelegatesNone(env: Env, path: string, stages: seq<Stage>, site: Site, fallback: string, w: World)
    ensures NoDelegation(RunFieldOp(env, path, stages, site, fallback, w).log.events)
  {
    var side := SideOf(path);
    if side.Some? && InPhase(env, side.value.0, w.payload).Some? {
      var root := InPhase(env, side.value.0, w.payload).value;
      var paths := env.foreign.expand(root, side.value.1, Redacts(stages));
      if paths.Some? {
        PathsDelegateNone(env, w.bag, stages, site, 0, paths.value, root,
                          RunPaths(env, w.bag, stages, site, 0, paths.value, root));
      }
    }
  }

  /** The keys an elicitation step writes. */
  predicate ElicitKey(key: string)
  {
    || key == ID_KEY || key == STATUS_KEY || key == APPROVER_KEY || key == OUTCOME_KEY
    || key == INTENT_KEY || key == CHANNEL_KEY || key == EXPIRES_KEY
  }

  lemma KeysApart(key: string)
    requires TokenKey(key)
    ensures !ElicitKey(key)
  {
    assert key[0] == 'd';
  }

  lemma ValidateKeeps(env: Env, step: ElicitStep, site: Site, id: string, bag: Bag, events: seq<Event>, key: string,
                      r: ElicitRun)
    requires r == RunValidate(env, step, site, id, bag, events) && !ElicitKey(key) && NoDelegation(events)
    ensures Get(r.bag, key) == Get(bag, key) && NoDelegation(r.events)
  {
  }

  lemma CheckKeeps(env: Env, step: ElicitStep, site: Site, id: string, bag: Bag, events: seq<Event>, key: string,
                   r: ElicitRun)
    requires r == RunCheck(env, step, site, id, bag, events) && !ElicitKey(key) && NoDelegation(events)
    ensures Get(r.bag, key) == Get(bag, key) && NoDelegation(r.events)
  {
    var reply := env.host.check(site);
    if reply == Ok(Resolved(true)) {
      ValidateKeeps(env, step, site, id, bag, events + [ElicitChecked(site, id, reply)], key, r);
    }
  }

  lemma ElicitKeeps(env: Env, step: ElicitStep, site: Site, bag: Bag, key: string, r: ElicitRun)
    requires r == RunElicit(env, step, site, bag) && !ElicitKey(key)
    ensures Get(r.bag, key) == Get(bag, key) && NoDelegation(r.events)
  {
    if ResolveFrom(bag, step.from).Some? {
      var held := GetString(bag, ID_KEY);
      if held.Some? {
        CheckKeeps(env, step, site, held.value, bag, [], key, r);
      } else if env.host.dispatch(site).Ok? {
        var d := env.host.dispatch(site).value;
        var from := ResolveFrom(bag, step.from).value;
        CheckKeeps(env, step, site, d.id, RecordDispatch(bag, step, d),
                   [ElicitDispatched(site, step, from, env.host.dispatch(site))], key, r);
      }
    }
  }

  // ---- Runs

  /** The bag says, under a token key, what the run's grants replayed over the bag before it say. */
  predicate Replays(w: World, out: Out, key: string)
  {
    Get(out.world.bag, key) == Replay(Get(w.bag, key), out.log.events, key)
  }

  lemma QuietReplays(w: World, out: Out, key: string)
    requires NoDelegation(out.log.events) && Get(out.world.bag, key) == Get(w.bag, key)
    ensures Replays(w, out, key)
  {
    ReplayNothing(Get(w.bag, key), out.log.events, key);
  }

  lemma GrantRecords(bag: Bag, o: DelegationOutcome, key: string)
    requires TokenKey(key)
    ensures Get(RecordGrant(bag, o), key) == if Carried(o, key).Some? then Carried(o, key) else Get(bag, key)
  {
    assert |GRANTED| == 18 && |PERMISSIONS| == 30 && |AUDIENCE| == 27 && |EXPIRES| == 29;
  }

  lemma DelegateReplays(env: Env, step: DelegateStep, site: Site, w: World, key: string)
    requires TokenKey(key)
    ensures Replays(w, RunDelegate(env, step, site, w), key)
  {
    var reply := env.host.delegate(site);
    var event := Delegated(site, step, reply);
    assert [event][0] == event && [event][1..] == [];
    if reply.Ok? {
      GrantRecords(w.bag, reply.value, key);
    }
  }

  lemma LeafReplays(env: Env, e: Effect, site: Site, fallback: string, w: World, key: string, out: Out)
    requires Leaf(e) && TokenKey(key) && out == RunLeaf(env, e, site, fallback, w)
    ensures Replays(w, out, key)
    ensures !e.Delegate? ==> NoDelegation(out.log.events)
  {
    match e {
      case Delegate(step) => DelegateReplays(env, step, site, w, key);
      case Elicit(step) =>
        KeysApart(key);
        ElicitKeeps(env, step, site, w.bag, key, RunElicit(env, step, site, w.bag));
        QuietReplays(w, out, key);
      case FieldOp(path, stages) =>
        FieldOpDelegatesNone(env, path, stages, site, fallback, w);
        QuietReplays(w, out, key);
      case _ => QuietReplays(w, out, key);
    }
  }

  lemma {:induction false} MergeDelegatesNone(fates: seq<Fate>, outs: seq<Out>, k: nat, site: Site, fallback: string)
    requires |fates| == |outs| && forall i :: 0 <= i < |outs| ==> NoDelegation(outs[i].log.events)
    ensures NoDelegation(Merge(fates, outs, k, site, fallback).1.events)
    decreases |outs|
  {
    if outs != [] {
      MergeDelegatesNone(fates[1..], outs[1..], k + 1, site, fallback);
      assert NoDelegation(Branch(fates[0], outs[0], k, site + [k], fallback).1.events);
    }
  }

  lemma AfterDelegatesNone(seen: Event, out: Out)
    requires !seen.Delegated? && NoDelegation(out.log.events)
    ensures NoDelegation(After(Told([seen]), out).log.events)
  {
  }

  lemma {:induction false} PureDelegatesNone(env: Env, e: Effect, site: Site, fallback: string, w: World, out: Out)
    requires !Mutates(e) && out == Run(env, e, site, fallback, w)
    ensures NoDelegation(out.log.events)
    decreases e, 1
  {
    match e {
      case Sequential(effects) => PureListDelegatesNone(env, effects, site, 0, fallback, w, out);
      case Parallel(effects) =>
        var outs := RunBranches(env, effects, site, 0, fallback, w);
        PureBranchesDelegateNone(env, effects, site, 0, fallback, w, outs);
        MergeDelegatesNone(Effective(Fates(env, site, 0, |effects|), outs), outs, 0, site, fallback);
      case When(guard, body, source) =>
        var inner := RunList(env, body, site, 0, source, w);
        PureListDelegatesNone(env, body, site, 0, source, w, inner);
        AfterDelegatesNone(GuardChecked(site, guard, w.bag, env.language.eval(guard, w.bag)), inner);
      case Pdp(call, onAllow, onDeny) =>
        var event := PdpAsked(site, call, AskPdp(env, call, site, w.payload));
        var allowed := RunList(env, onAllow, site + [0], 0, fallback, w);
        var denied := RunList(env, onDeny, site + [1], 0, fallback, w);
        PureListDelegatesNone(env, onAllow, site + [0], 0, fallback, w, allowed);
        PureListDelegatesNone(env, onDeny, site + [1], 0, fallback, w, denied);
        AfterDelegatesNone(event, allowed);
        AfterDelegatesNone(event, denied);
      case _ => LeafReplays(env, e, site, fallback, w, GRANTED, out);
    }
  }

  lemma {:induction false} PureListDelegatesNone(env: Env, es: seq<Effect>, site: Site, k: nat, fallback: string,
                                                 w: World, out: Out)
    requires !AnyMutates(es) && out == RunList(env, es, site, k, fallback, w)
    ensures NoDelegation(out.log.events)
    decreases es, 0
  {
    if es != [] {
      var first := Run(env, es[0], site + [k], fallback, w);
      ListStep(env, es, site, k, fallback, w, first);
      PureDelegatesNone(env, es[0], site + [k], fallback, w, first);
      if first.outcome.Continue? {
        var rest := RunList(env, es[1..], site, k + 1, fallback, first.world);
        PureListDelegatesNone(env, es[1..], site, k + 1, fallback, first.world, rest);
      }
    }
  }

  lemma {:induction false} PureBranchesDelegateNone(env: Env, es: seq<Effect>, site: Site, k: nat, fallback: string,
                                                    w: World, outs: seq<Out>)
    requires !AnyMutates(es) && outs == RunBranches(env, es, site, k, fallback, w)
    ensures forall i :: 0 <= i < |outs| ==> NoDelegation(outs[i].log.events)
    decreases es, 0
  {
    if es != [] {
      BranchStep(env, es, site, k, fallback, w, outs);
      PureDelegatesNone(env, es[0], site + [k], fallback, w, outs[0]);
      PureBranchesDelegateNone(env, es[1..], site, k + 1, fallback, w, outs[1..]);
      assert forall i :: 1 <= i < |outs| ==> outs[i] == outs[1..][i - 1];
    }
  }

  lemma AfterReplays(w: World, seen: Event, out: Out, key: string)
    requires Replays(w, out, key) && !seen.Delegated?
    ensures Replays(w, After(Told([seen]), out), key)
    ensures out.world == w ==> Replays(w, Out(out.outcome, w, Told([seen])), key)
  {
    ReplayConcat(Get(w.bag, key), [seen], out.log.events, key);
    assert [seen][1..] == [];
  }

  /** Every run of a checked tree leaves under each token key exactly what its grants replayed say. */
  lemma {:induction false} RunReplays(env: Env, e: Effect, site: Site, fallback: string, w: World, key: string,
                                      out: Out)
    requires Checked(e) && TokenKey(key) && out == Run(env, e, site, fallback, w)
    ensures Replays(w, out, key)
    decreases e, 2
  {
    match e {
      case Sequential(effects) => ListReplays(env, effects, site, 0, fallback, w, key, out);
      case Parallel(effects) =>
        CheckedBranchesPure(effects);
        PureDelegatesNone(env, e, site, fallback, w, out);
        PureRun(env, e, site, fallback, w);
        QuietReplays(w, out, key);
      case When(guard, body, source) =>
        var inner := RunList(env, body, site, 0, source, w);
        ListReplays(env, body, site, 0, source, w, key, inner);
        var event := GuardChecked(site, guard, w.bag, env.language.eval(guard, w.bag));
        AfterReplays(w, event, inner, key);
        QuietReplays(w, Out(Continue, w, Told([event])), key);
      case Pdp(call, onAllow, onDeny) => PdpReplays(env, call, onAllow, onDeny, site, fallback, w, key, out);
      case _ => LeafReplays(env, e, site, fallback, w, key, out);
    }
  }

  lemma {:induction false} PdpReplays(env: Env, call: PdpCall, onAllow: seq<Effect>, onDeny: seq<Effect>, site: Site,
                                      fallback: string, w: World, key: string, out: Out)
    requires AllChecked(onAllow) && AllChecked(onDeny) && TokenKey(key)
    requires out == Run(env, Pdp(call, onAllow, onDeny), site, fallback, w)
    ensures Replays(w, out, key)
    decreases Pdp(call, onAllow, onDeny), 1
  {
    var reply := AskPdp(env, call, site, w.payload);
    var event := PdpAsked(site, call, reply);
    if reply == Ok(Allowed) {
      var inner := RunList(env, onAllow, site + [0], 0, fallback, w);
      ListReplays(env, onAllow, site + [0], 0, fallback, w, key, inner);
      AfterReplays(w, event, inner, key);
    } else if reply.Ok? {
      var inner := RunList(env, onDeny, site + [1], 0, fallback, w);
      ListReplays(env, onDeny, site + [1], 0, fallback, w, key, inner);
      AfterReplays(w, event, Denying(reply.value, inner), key);
    } else {
      QuietReplays(w, out, key);
    }
  }

  lemma {:induction false} ListReplays(env: Env, es: seq<Effect>, site: Site, k: nat, fallback: string, w: World,
                                       key: string, out: Out)
    requires AllChecked(es) && TokenKey(key) && out == RunList(env, es, site, k, fallback, w)
    ensures Replays(w, out, key)
    decreases es, 0
  {
    if es != [] {
      var first := Run(env, es[0], site + [k], fallback, w);
      ListStep(env, es, site, k, fallback, w, first);
      RunReplays(env, es[0], site + [k], fallback, w, key, first);
      if first.outcome.Continue? {
        var rest := RunList(env, es[1..], site, k + 1, fallback, first.world);
        ListReplays(env, es[1..], site, k + 1, fallback, first.world, key, rest);
        ReplayConcat(Get(w.bag, key), first.log.events, rest.log.events, key);
      }
    }
  }

  // ---- What the documentation promises of these keys

  predicate Flagged(bag: Bag)
  {
    GetBool(bag, GRANTED) == Some(true)
  }

  lemma {:induction false} FlagReplays(before: Option<AttributeValue>, events: seq<Event>)
    ensures Replay(before, events, GRANTED) == Some(BoolValue(true)) <==>
      before == Some(BoolValue(true)) || !NoGrants(events)
    decreases |events|
  {
    if events != [] {
      FlagReplays(Step(before, events[0], GRANTED), events[1..]);
      assert NoGrants(events) <==> !IsGrant(events[0]) && NoGrants(events[1..]) by {
        assert events == [events[0]] + events[1..];
      }
    }
  }

  /**
   * After a phase the flag is up exactly when it was up before or some delegation of the run was
   * granted. No denial lowers it.
   */
  lemma {:induction false} FlagExactly(env: Env, es: seq<Effect>, w: World, out: Out)
    requires AllChecked(es) && out == RunPhase(env, es, w)
    ensures Flagged(out.world.bag) <==> Flagged(w.bag) || !NoGrants(out.log.events)
  {
    ListReplays(env, es, [], 0, "", w, GRANTED, out);
    FlagReplays(Get(w.bag, GRANTED), out.log.events);
  }

  /** The most recent delegation of a trace was granted. */
  predicate LatestGranted(events: seq<Event>)
    decreases |events|
  {
    events != [] &&
    var n := |events| - 1;
    if events[n].Delegated? then IsGrant(events[n]) else LatestGranted(events[..n])
  }

  lemma {:induction false} LatestIsGrant(events: seq<Event>)
    requires LatestGranted(events)
    ensures !NoGrants(events)
    decreases |events|
  {
    var n := |events| - 1;
    if !events[n].Delegated? {
      LatestIsGrant(events[..n]);
    }
  }

  /**
   * The documented reading, "up when the most recent delegation was granted, absent otherwise", is true of
   * a phase exactly when that delegation was granted, or the flag was down at the start and every
   * delegation of the phase, not only the last, was denied.
   */
  lemma {:induction false} FlagDocumentedExactly(env: Env, es: seq<Effect>, w: World, out: Out)
    requires AllChecked(es) && out == RunPhase(env, es, w)
    ensures (Flagged(out.world.bag) <==> LatestGranted(out.log.events)) <==>
      LatestGranted(out.log.events) || (!Flagged(w.bag) && NoGrants(out.log.events))
  {
    FlagExactly(env, es, w, out);
    if LatestGranted(out.log.events) {
      LatestIsGrant(out.log.events);
    }
  }

  /**
   * The keys that describe the minted token describe the latest one exactly when that token carried the
   * key, or nothing was left under it by an earlier token or by the bag the phase started with.
   */
  lemma {:induction false} LatestTokenExactly(env: Env, es: seq<Effect>, w: World, out: Out, key: string,
                                              earlier: seq<Event>, latest: Event, later: seq<Event>)
    requires AllChecked(es) && out == RunPhase(env, es, w) && TokenKey(key)
    requires out.log.events == earlier + [latest] + later && IsGrant(latest) && NoGrants(later)
    ensures Get(out.world.bag, key) == Carried(latest.grant.value, key) <==>
      Carried(latest.grant.value, key).Some? || Replay(Get(w.bag, key), earlier, key).None?
  {
    ListReplays(env, es, [], 0, "", w, key, out);
    var start := Get(w.bag, key);
    ReplayConcat(start, earlier + [latest], later, key);
    ReplayConcat(start, earlier, [latest], key);
    assert [latest][0] == latest && [latest][1..] == [];
    ReplayNothing(Replay(start, earlier + [latest], key), later, key);
  }

  predicate Grants(reply: DelegationReply)
  {
    reply.Ok? && reply.value.decision.Allowed?
  }

  lemma TwoDelegations(env: Env, first: DelegateStep, second: DelegateStep, site: Site, fallback: string, w: World,
                       out: Out)
    requires Grants(env.host.delegate(site + [0]))
    requires Grants(env.host.delegate(site + [1])) || OnErrorContinues(second.onError)
    requires out == RunList(env, [Delegate(first), Delegate(second)], site, 0, fallback, w)
    ensures out.outcome.Continue?
    ensures var bag := RecordGrant(w.bag, env.host.delegate(site + [0]).value);
      out.world.bag == if Grants(env.host.delegate(site + [1])) then
                         RecordGrant(bag, env.host.delegate(site + [1]).value) else bag
  {
    var es := [Delegate(first), Delegate(second)];
    var a := Run(env, es[0], site + [0], fallback, w);
    assert a == RunDelegate(env, first, site + [0], w);
    ListStep(env, es, site, 0, fallback, w, a);
    var b := Run(env, es[1..][0], site + [1], fallback, a.world);
    assert b == RunDelegate(env, second, site + [1], a.world);
    ListStep(env, es[1..], site, 1, fallback, a.world, b);
    assert es[1..][1..] == [];
  }

  /** A grant followed by a covered denial: the list continues with the flag still up. */
  lemma {:induction false} StaleGrant(env: Env, first: DelegateStep, second: DelegateStep, site: Site, fallback: string,
                                      w: World, out: Out)
    requires Grants(env.host.delegate(site + [0])) && !Grants(env.host.delegate(site + [1]))
    requires OnErrorContinues(second.onError)
    requires out == RunList(env, [Delegate(first), Delegate(second)], site, 0, fallback, w)
    ensures out.outcome.Continue? && Flagged(out.world.bag)
  {
    TwoDelegations(env, first, second, site, fallback, w, out);
    GrantRecords(w.bag, env.host.delegate(site + [0]).value, GRANTED);
  }

  /** A token with permissions followed by a token with none: the first token's permissions stay in force. */
  lemma {:induction false} StalePermissions(env: Env, first: DelegateStep, second: DelegateStep, site: Site,
                                            fallback: string, w: World, out: Out)
    requires Grants(env.host.delegate(site + [0])) && Grants(env.host.delegate(site + [1]))
    requires env.host.delegate(site + [0]).value.permissions != []
    requires env.host.delegate(site + [1]).value.permissions == []
    requires out == RunList(env, [Delegate(first), Delegate(second)], site, 0, fallback, w)
    ensures out.outcome.Continue?
    ensures GetStringSet(out.world.bag, PERMISSIONS) ==
      Some(set p | p in env.host.delegate(site + [0]).value.permissions)
  {
    TwoDelegations(env, first, second, site, fallback, w, out);
    var a, b := env.host.delegate(site + [0]).value, env.host.delegate(site + [1]).value;
    GrantRecords(w.bag, a, PERMISSIONS);
    GrantRecords(RecordGrant(w.bag, a), b, PERMISSIONS);
  }
}
