/** What a run records: the constraints and taints of the effects it performed, in order. */
module Records {
  import opened Values
  import opened Rules
  import opened Constraints
  import opened Hosts
  import opened Elicitations
  import opened Effects
  import opened Interpreter
  import opened Predicates

  // ---- One restriction

  /** The constraint says something: a list, a tier or a custom entry is set, or some model is denied. */
  ghost predicate Binds(c: CandidateConstraint)
  {
    || c.allowModels.Some? || c.allowRegions.Some? || c.allowSites.Some? || c.maxCostTier.Some?
    || (exists key :: key in c.custom)
    || (exists name :: Lists(c.denyModels, name))
  }

  lemma BindsExactly(c: CandidateConstraint)
    ensures ConstrainsNothing(c) <==> !Binds(c)
  {
    match c.denyModels
    case Authored(names) =>
      if names != [] {
        assert Lists(c.denyModels, names[0]);
      }
    case Ascending(members) =>
      if members != {} {
        var name :| name in members;
        assert Lists(c.denyModels, name);
      }
  }

  /** A restriction that resolves and says something is recorded as it resolved, and nothing else is. */
  lemma {:induction false} RestrictRecords(env: Env, spec: RestrictSpec, site: Site, fallback: string, w: World)
    ensures var r := RunRestrict(env, spec, site, fallback, w);
      match env.language.resolve(spec, w.bag)
      case Ok(c) => r.outcome == Continue && r.log.constraints == (if Binds(c) then [c] else [])
      case Err(path) => r.outcome == Halt(Denied(Some(UnresolvedDenyList(path)), fallback)) && r.log.constraints == []
  {
    if env.language.resolve(spec, w.bag).Ok? {
      BindsExactly(env.language.resolve(spec, w.bag).value);
    }
  }

  // ---- The effects a run performed

  /** A leaf effect performed, with where it stands and the world it was reached in. */
  datatype Act = Act(effect: Effect, site: Site, fallback: string, world: World)

  /** The leaves a run performed, in order; of a `parallel:` block, those of its finished branches. */
  ghost function Performed(env: Env, e: Effect, site: Site, fallback: string, w: World): (acts: seq<Act>)
    decreases e, 2
  {
    match e
    case Sequential(effects) => PerformedInOrder(env, effects, site, 0, fallback, w)
    case Parallel(effects) =>
      PerformedByBranches(env, effects, site, 0, fallback, w,
                          Effective(Fates(env, site, 0, |effects|), RunBranches(env, effects, site, 0, fallback, w)))
    case When(guard, body, source) =>
      if env.language.eval(guard, w.bag) == Definite(true) then PerformedInOrder(env, body, site, 0, source, w) else []
    case Pdp(call, onAllow, onDeny) =>
      (match AskPdp(env, call, site, w.payload)
       case Err(_) => []
       case Ok(Allowed) => PerformedInOrder(env, onAllow, site + [0], 0, fallback, w)
       case Ok(Denied(_, _)) => PerformedInOrder(env, onDeny, site + [1], 0, fallback, w))
    case _ => [Act(e, site, fallback, w)]
  }

  ghost function PerformedInOrder(env: Env, es: seq<Effect>, site: Site, k: nat, fallback: string, w: World)
    : (acts: seq<Act>)
    decreases es, 1
  {
    if es == [] then []
    else
      var first := Run(env, es[0], site + [k], fallback, w);
      Performed(env, es[0], site + [k], fallback, w) +
      if first.outcome.Continue? then PerformedInOrder(env, es[1..], site, k + 1, fallback, first.world) else []
  }

  ghost function PerformedByBranches(env: Env, es: seq<Effect>, site: Site, k: nat, fallback: string, w: World,
                                     fates: seq<Fate>)
    : (acts: seq<Act>)
    requires |fates| == |es|
    decreases es, 1
  {
    if es == [] then []
    else
      (if fates[0].Runs? then Performed(env, es[0], site + [k], fallback, w) else []) +
      PerformedByBranches(env, es[1..], site, k + 1, fallback, w, fates[1..])
  }

  // ---- What each of them records

  ghost function ActConstraints(env: Env, act: Act): (r: seq<CandidateConstraint>)
  {
    if act.effect.Restrict? then
      match env.language.resolve(act.effect.spec, act.world.bag)
      case Ok(c) => if Binds(c) then [c] else []
      case Err(_) => []
    else []
  }

  ghost function ActTaints(env: Env, act: Act): (r: seq<TaintEvent>)
  {
    match act.effect
    case Taint(tag, scopes) => [TaintEvent(tag, scopes)]
    case Plugin(_) => (match env.host.plugin(act.site) case Ok(reply) => reply.taints case Err(_) => [])
    case FieldOp(path, stages) => RunFieldOp(env, path, stages, act.site, act.fallback, act.world).log.taints
    case _ => []
  }

  ghost function ConstraintsOf(env: Env, acts: seq<Act>): (r: seq<CandidateConstraint>)
  {
    if acts == [] then [] else ActConstraints(env, acts[0]) + ConstraintsOf(env, acts[1..])
  }

  ghost function TaintsOf(env: Env, acts: seq<Act>): (r: seq<TaintEvent>)
  {
    if acts == [] then [] else ActTaints(env, acts[0]) + TaintsOf(env, acts[1..])
  }

  lemma Regroup<T>(x: seq<T>, y: seq<T>, z: seq<T>)
    ensures x + (y + z) == x + y + z
    ensures [] + z == z
  {
  }

  lemma TailOfConcat(a: seq<Act>, b: seq<Act>)
    ensures a == [] ==> a + b == b
    ensures a != [] ==> (a + b)[0] == a[0] && (a + b)[1..] == a[1..] + b
  {
  }

  lemma {:induction false} ConstraintsConcat(env: Env, a: seq<Act>, b: seq<Act>)
    ensures ConstraintsOf(env, a + b) == ConstraintsOf(env, a) + ConstraintsOf(env, b)
    decreases |a|
  {
    TailOfConcat(a, b);
    if a != [] {
      ConstraintsConcat(env, a[1..], b);
      Regroup(ActConstraints(env, a[0]), ConstraintsOf(env, a[1..]), ConstraintsOf(env, b));
    }
  }

  lemma {:induction false} TaintsConcat(env: Env, a: seq<Act>, b: seq<Act>)
    ensures TaintsOf(env, a + b) == TaintsOf(env, a) + TaintsOf(env, b)
    decreases |a|
  {
    TailOfConcat(a, b);
    if a != [] {
      TaintsConcat(env, a[1..], b);
      Regroup(ActTaints(env, a[0]), TaintsOf(env, a[1..]), TaintsOf(env, b));
    }
  }

  /** The log holds exactly what the acts record, in order. */
  ghost predicate Records(env: Env, log: Log, acts: seq<Act>)
  {
    log.constraints == ConstraintsOf(env, acts) && log.taints == TaintsOf(env, acts)
  }

  lemma RecordsJoin(env: Env, a: Log, x: seq<Act>, b: Log, y: seq<Act>)
    requires Records(env, a, x) && Records(env, b, y)
    ensures Records(env, Join(a, b), x + y)
  {
    ConstraintsConcat(env, x, y);
    TaintsConcat(env, x, y);
  }

  lemma RecordsAfter(env: Env, seen: seq<Event>, out: Out, acts: seq<Act>)
    requires Records(env, out.log, acts)
    ensures Records(env, After(Told(seen), out).log, acts)
  {
    JoinLaws(Told(seen), out.log, SILENT);
    assert [] + out.log.constraints == out.log.constraints && [] + out.log.taints == out.log.taints;
  }

  lemma LeafRecords(env: Env, e: Effect, site: Site, fallback: string, w: World)
    requires Leaf(e)
    ensures Records(env, RunLeaf(env, e, site, fallback, w).log, [Act(e, site, fallback, w)])
  {
    var act := Act(e, site, fallback, w);
    assert [act][1..] == [];
    assert ConstraintsOf(env, [act]) == ActConstraints(env, act) + [] == ActConstraints(env, act);
    assert TaintsOf(env, [act]) == ActTaints(env, act) + [] == ActTaints(env, act);
    if e.Restrict? {
      RestrictRecords(env, e.spec, site, fallback, w);
    }
  }

  /** Every run records exactly the constraints and taints of the effects it performed, in order. */
  lemma {:induction false} RunRecords(env: Env, e: Effect, site: Site, fallback: string, w: World)
    ensures Records(env, Run(env, e, site, fallback, w).log, Performed(env, e, site, fallback, w))
    decreases e, 2
  {
    match e {
      case Sequential(effects) => ListRecords(env, effects, site, 0, fallback, w);
      case Parallel(effects) =>
        var outs := RunBranches(env, effects, site, 0, fallback, w);
        BranchesRecord(env, effects, site, 0, fallback, w, Effective(Fates(env, site, 0, |effects|), outs), outs);
      case When(guard, body, source) => WhenRecords(env, guard, body, source, site, fallback, w);
      case Pdp(call, onAllow, onDeny) => PdpRecords(env, call, onAllow, onDeny, site, fallback, w);
      case _ => LeafRecords(env, e, site, fallback, w);
    }
  }

  lemma {:induction false} WhenRecords(env: Env, guard: Expression, body: seq<Effect>, source: string, site: Site,
                                       fallback: string, w: World)
    ensures var e := When(guard, body, source);
      Records(env, Run(env, e, site, fallback, w).log, Performed(env, e, site, fallback, w))
    decreases body, 3
  {
    var verdict := env.language.eval(guard, w.bag);
    if verdict == Definite(true) {
      ListRecords(env, body, site, 0, source, w);
      RecordsAfter(env, [GuardChecked(site, guard, w.bag, verdict)], RunList(env, body, site, 0, source, w),
                   PerformedInOrder(env, body, site, 0, source, w));
    }
  }

  lemma {:induction false} PdpRecords(env: Env, call: PdpCall, onAllow: seq<Effect>, onDeny: seq<Effect>, site: Site,
                                      fallback: string, w: World)
    ensures var e := Pdp(call, onAllow, onDeny);
      Records(env, Run(env, e, site, fallback, w).log, Performed(env, e, site, fallback, w))
    decreases Pdp(call, onAllow, onDeny), 1
  {
    var reply := AskPdp(env, call, site, w.payload);
    var seen := [PdpAsked(site, call, reply)];
    if reply == Ok(Allowed) {
      ListRecords(env, onAllow, site + [0], 0, fallback, w);
      RecordsAfter(env, seen, RunList(env, onAllow, site + [0], 0, fallback, w),
                   PerformedInOrder(env, onAllow, site + [0], 0, fallback, w));
    } else if reply.Ok? {
      ListRecords(env, onDeny, site + [1], 0, fallback, w);
      RecordsAfter(env, seen, Denying(reply.value, RunList(env, onDeny, site + [1], 0, fallback, w)),
                   PerformedInOrder(env, onDeny, site + [1], 0, fallback, w));
    }
  }

  lemma {:induction false} ListRecords(env: Env, es: seq<Effect>, site: Site, k: nat, fallback: string, w: World)
    ensures Records(env, RunList(env, es, site, k, fallback, w).log,
                    PerformedInOrder(env, es, site, k, fallback, w))
    decreases es, 1
  {
    if es != [] {
      var first := Run(env, es[0], site + [k], fallback, w);
      var acts := Performed(env, es[0], site + [k], fallback, w);
      RunRecords(env, es[0], site + [k], fallback, w);
      ListStep(env, es, site, k, fallback, w, first);
      if first.outcome.Continue? {
        ListRecords(env, es[1..], site, k + 1, fallback, first.world);
        RecordsJoin(env, first.log, acts, RunList(env, es[1..], site, k + 1, fallback, first.world).log,
                    PerformedInOrder(env, es[1..], site, k + 1, fallback, first.world));
      } else {
        assert acts + [] == acts;
      }
    }
  }

  lemma {:induction false} BranchesRecord(env: Env, es: seq<Effect>, site: Site, k: nat, fallback: string, w: World,
                                          fates: seq<Fate>, outs: seq<Out>)
    requires |fates| == |es| && outs == RunBranches(env, es, site, k, fallback, w)
    ensures Records(env, Merge(fates, outs, k, site, fallback).1,
                    PerformedByBranches(env, es, site, k, fallback, w, fates))
    decreases es, 1
  {
    if es != [] {
      BranchStep(env, es, site, k, fallback, w, outs);
      RunRecords(env, es[0], site + [k], fallback, w);
      BranchesRecord(env, es[1..], site, k + 1, fallback, w, fates[1..], outs[1..]);
      RecordsJoin(env, Branch(fates[0], outs[0], k, site + [k], fallback).1,
                  if fates[0].Runs? then Performed(env, es[0], site + [k], fallback, w) else [],
                  Merge(fates[1..], outs[1..], k + 1, site, fallback).1,
                  PerformedByBranches(env, es[1..], site, k + 1, fallback, w, fates[1..]));
    }
  }

  /**
   * A phase hands out, in order, the constraints of the `restrict` effects it performed, each resolved in
   * the bag it was reached in, and the taints its effects, plugins and pipelines raised.
   */
  lemma {:induction false} PhaseRecords(env: Env, es: seq<Effect>, w: World)
    ensures var acts := PerformedInOrder(env, es, [], 0, "", w);
      && Report(RunPhase(env, es, w)).log.constraints == ConstraintsOf(env, acts)
      && Report(RunPhase(env, es, w)).log.taints == TaintsOf(env, acts)
  {
    ListRecords(env, es, [], 0, "", w);
  }
}
