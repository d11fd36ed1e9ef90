/** Elicitation across retries: passes that echo the id dispatch at most once in all. */
module Retries {
  import opened Values
  import opened Attributes
  import opened Rules
  import opened Hosts
  import opened Elicitations
  import opened Effects
  import opened Interpreter
  import opened Purity
  import opened ElicitationProtocol

  lemma {:induction false} PureCountsNone(e: Effect)
    requires !Mutates(e)
    ensures CountElicits(e) == 0
    decreases e, 1
  {
    match e {
      case Sequential(effects) => PureCountNone(effects);
      case Parallel(effects) => PureCountNone(effects);
      case When(_, body, _) => PureCountNone(body);
      case Pdp(_, onAllow, onDeny) => PureCountNone(onAllow); PureCountNone(onDeny);
      case _ =>
    }
  }

  lemma {:induction false} PureCountNone(es: seq<Effect>)
    requires !AnyMutates(es)
    ensures CountAll(es) == 0
    decreases es, 0
  {
    if es != [] {
      PureCountsNone(es[0]);
      PureCountNone(es[1..]);
    }
  }

  predicate RunOnce(w: World, out: Out)
  {
    Once(w.bag, out.world.bag, out.log.events)
  }

  lemma QuietOnce(w: World, out: Out)
    requires out.world == w && Dispatches(out.log.events, false) == 0
    ensures RunOnce(w, out)
  {
    AcceptedAtMostAll(out.log.events);
  }

  lemma AfterOnce(w: World, seen: Event, out: Out)
    requires RunOnce(w, out) && !seen.ElicitDispatched?
    ensures RunOnce(w, After(Told([seen]), out)) && RunOnce(w, Out(out.outcome, w, Told([seen])))
  {
    AfterCounts(seen, out, false);
    AfterCounts(seen, out, true);
    NoneCounted([seen], false);
    NoneCounted([seen], true);
  }

  /**
   * Every run of a checked tree keeps an id it starts with and then dispatches nothing; without one it
   * has at most one accepted dispatch, and ends with an id exactly when it had one.
   */
  lemma {:induction false} EveryRunOnce(env: Env, e: Effect, site: Site, fallback: string, w: World, out: Out)
    requires Checked(e) && out == Run(env, e, site, fallback, w)
    ensures RunOnce(w, out)
    decreases e, 1
  {
    match e {
      case Sequential(effects) =>
        EveryListOnce(env, effects, site, 0, fallback, w, out);
      case Parallel(effects) =>
        CheckedBranchesPure(effects);
        PureCountNone(effects);
        RunBounded(env, e, site, fallback, w, out);
        PureRun(env, e, site, fallback, w);
        QuietOnce(w, out);
      case When(guard, body, source) =>
        var inner := RunList(env, body, site, 0, source, w);
        EveryListOnce(env, body, site, 0, source, w, inner);
        AfterOnce(w, GuardChecked(site, guard, w.bag, env.language.eval(guard, w.bag)), inner);
      case Pdp(call, onAllow, onDeny) =>
        PdpOnce(env, call, onAllow, onDeny, site, fallback, w, out);
      case _ =>
        LeafOnce(env, e, site, fallback, w, out);
    }
  }

  lemma {:induction false} PdpOnce(env: Env, call: PdpCall, onAllow: seq<Effect>, onDeny: seq<Effect>, site: Site,
                                   fallback: string, w: World, out: Out)
    requires AllChecked(onAllow) && AllChecked(onDeny)
    requires out == Run(env, Pdp(call, onAllow, onDeny), site, fallback, w)
    ensures RunOnce(w, out)
    decreases Pdp(call, onAllow, onDeny), 0
  {
    var reply := AskPdp(env, call, site, w.payload);
    var event := PdpAsked(site, call, reply);
    if reply == Ok(Allowed) {
      var inner := RunList(env, onAllow, site + [0], 0, fallback, w);
      EveryListOnce(env, onAllow, site + [0], 0, fallback, w, inner);
      AfterOnce(w, event, inner);
    } else if reply.Ok? {
      var inner := RunList(env, onDeny, site + [1], 0, fallback, w);
      EveryListOnce(env, onDeny, site + [1], 0, fallback, w, inner);
      AfterOnce(w, event, Denying(reply.value, inner));
    } else {
      NoneCounted([event], false);
      QuietOnce(w, out);
    }
  }

  lemma {:induction false} EveryListOnce(env: Env, es: seq<Effect>, site: Site, k: nat, fallback: string, w: World,
                                         out: Out)
    requires AllChecked(es) && out == RunList(env, es, site, k, fallback, w)
    ensures RunOnce(w, out)
    decreases es, 0
  {
    if es != [] {
      var first := Run(env, es[0], site + [k], fallback, w);
      ListStep(env, es, site, k, fallback, w, first);
      EveryRunOnce(env, es[0], site + [k], fallback, w, first);
      if first.outcome.Continue? {
        var rest := RunList(env, es[1..], site, k + 1, fallback, first.world);
        EveryListOnce(env, es[1..], site, k + 1, fallback, first.world, rest);
        OnceConcat(w.bag, first.world.bag, rest.world.bag, first.log.events, rest.log.events);
      }
    }
  }

  // ---- Sequences of passes

  /** One evaluation of a phase: the answers it gets, its effects, and the request as the host presents it. */
  datatype Pass = Pass(env: Env, effects: seq<Effect>, world: World)

  function Outcome(p: Pass): (r: Out)
  {
    RunPhase(p.env, p.effects, p.world)
  }

  /** Each pass starts from a bag that holds the id the pass before it ended with, if there was one. */
  predicate Echoes(passes: seq<Pass>)
  {
    forall i :: 0 <= i < |passes| - 1 ==>
      Held(Outcome(passes[i]).world.bag) ==>
        GetString(passes[i + 1].world.bag, ID_KEY) == GetString(Outcome(passes[i]).world.bag, ID_KEY)
  }

  function TotalDispatches(passes: seq<Pass>, accepted: bool): (n: nat)
  {
    if passes == [] then 0
    else Dispatches(Outcome(passes[0]).log.events, accepted) + TotalDispatches(passes[1..], accepted)
  }

  lemma EchoesRest(passes: seq<Pass>)
    requires Echoes(passes) && passes != []
    ensures Echoes(passes[1..])
    ensures |passes| > 1 && Held(Outcome(passes[0]).world.bag) ==> Held(passes[1].world.bag)
  {
    forall i | 0 <= i < |passes[1..]| - 1
      ensures Held(Outcome(passes[1..][i]).world.bag) ==>
        GetString(passes[1..][i + 1].world.bag, ID_KEY) == GetString(Outcome(passes[1..][i]).world.bag, ID_KEY)
    {
      assert passes[1..][i] == passes[i + 1] && passes[1..][i + 1] == passes[i + 2];
      assert 0 <= i + 1 < |passes| - 1;
    }
    if |passes| > 1 {
      assert 0 <= 0 < |passes| - 1;
    }
  }

  /**
   * Over any sequence of passes whose host echoes the id, at most one dispatch is accepted in all, and
   * once an id is held no pass dispatches again.
   */
  lemma {:induction false} PassesDispatchOnce(passes: seq<Pass>)
    requires Echoes(passes) && forall i :: 0 <= i < |passes| ==> AllChecked(passes[i].effects)
    ensures TotalDispatches(passes, true) <= 1
    ensures passes != [] && Held(passes[0].world.bag) ==> TotalDispatches(passes, false) == 0
    ensures TotalDispatches(passes, true) <= TotalDispatches(passes, false)
    decreases |passes|
  {
    if passes != [] {
      var p := passes[0];
      EveryListOnce(p.env, p.effects, [], 0, "", p.world, Outcome(p));
      AcceptedAtMostAll(Outcome(p).log.events);
      EchoesRest(passes);
      assert forall i :: 0 <= i < |passes[1..]| ==> passes[1..][i] == passes[i + 1];
      PassesDispatchOnce(passes[1..]);
    }
  }
}
