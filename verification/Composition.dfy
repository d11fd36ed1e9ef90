/** Runs compose: a list is its parts one after the other, and nesting is only grouping. */
module Composition {
  import opened Values
  import opened Rules
  import opened Hosts
  import opened Payloads
  import opened Elicitations
  import opened Effects
  import opened Interpreter
  import Attributes
  import Pipelines

  /** The second run, continued from where the first stopped; nothing of it if the first did not continue. */
  function AndThen(first: Out, second: Out): (r: Out)
  {
    if first.outcome.Continue? then After(first.log, second) else first
  }

  lemma HeadOfConcat<T>(a: seq<T>, b: seq<T>)
    ensures [] + b == b
    ensures a != [] ==> (a + b)[0] == a[0] && (a + b)[1..] == a[1..] + b
  {
  }

  lemma AndThenBehind(head: Out, rest: Out, second: Out)
    requires head.outcome.Continue?
    ensures AndThen(After(head.log, rest), second) == After(head.log, AndThen(rest, second))
  {
    AfterLaws(head.log, rest.log, second);
  }

  /** Running A then B is A's run if A denies or suspends, and otherwise B's run from A's final world. */
  lemma {:induction false} ListComposes(env: Env, a: seq<Effect>, b: seq<Effect>, site: Site, k: nat,
                                        fallback: string, w: World, first: Out)
    requires first == RunList(env, a, site, k, fallback, w)
    ensures RunList(env, a + b, site, k, fallback, w) ==
      AndThen(first, RunList(env, b, site, k + |a|, fallback, first.world))
    decreases |a|
  {
    HeadOfConcat(a, b);
    if a == [] {
      AfterLaws(SILENT, SILENT, RunList(env, b, site, k, fallback, w));
    } else {
      var head := Run(env, a[0], site + [k], fallback, w);
      ListStep(env, a, site, k, fallback, w, head);
      ListStep(env, a + b, site, k, fallback, w, head);
      if head.outcome.Continue? {
        var rest := RunList(env, a[1..], site, k + 1, fallback, head.world);
        ListComposes(env, a[1..], b, site, k + 1, fallback, head.world, rest);
        AndThenBehind(head, rest, RunList(env, b, site, k + |a|, fallback, rest.world));
      }
    }
  }

  // ---- The same replies at other sites

  /** Every reply below `s` in one world is the reply at the same place below `t` in the other. */
  ghost predicate SameReplies(a: Env, s: Site, b: Env, t: Site)
  {
    && a.language == b.language && a.foreign == b.foreign && a.phase == b.phase
    && forall x: Site :: SameAt(a.host, s + x, b.host, t + x)
  }

  ghost predicate SameAt(a: Host, s: Site, b: Host, t: Site)
  {
    && a.plugin(s) == b.plugin(t) && a.pdp(s) == b.pdp(t) && a.delegate(s) == b.delegate(t)
    && a.dispatch(s) == b.dispatch(t) && a.check(s) == b.check(t) && a.validate(s) == b.validate(t)
    && a.fate(s) == b.fate(t)
  }

  lemma SameHere(a: Env, s: Site, b: Env, t: Site)
    requires SameReplies(a, s, b, t)
    ensures SameAt(a.host, s, b.host, t)
  {
    assert SameAt(a.host, s + [], b.host, t + []);
    assert s + [] == s && t + [] == t;
  }

  lemma SameBelow(a: Env, s: Site, b: Env, t: Site, k: nat)
    requires SameReplies(a, s, b, t)
    ensures SameReplies(a, s + [k], b, t + [k])
  {
    forall x: Site
      ensures SameAt(a.host, s + [k] + x, b.host, t + [k] + x)
    {
      assert SameAt(a.host, s + ([k] + x), b.host, t + ([k] + x));
      assert s + ([k] + x) == s + [k] + x && t + ([k] + x) == t + [k] + x;
    }
  }

  /** The same for `n` neighbours: number `k` on below `s`, number `l` on below `t`. */
  ghost predicate Tracks(a: Env, s: Site, k: nat, b: Env, t: Site, l: nat, n: nat)
    decreases n
  {
    n == 0 || (SameReplies(a, s + [k], b, t + [l]) && Tracks(a, s, k + 1, b, t, l + 1, n - 1))
  }

  lemma {:induction false} TracksSame(a: Env, s: Site, b: Env, t: Site, k: nat, n: nat)
    requires SameReplies(a, s, b, t)
    ensures Tracks(a, s, k, b, t, k, n)
    decreases n
  {
    if n > 0 {
      SameBelow(a, s, b, t, k);
      TracksSame(a, s, b, t, k + 1, n - 1);
    }
  }

  /** Two traces with the same events in the same order, wherever in the tree they happened. */
  predicate SameEvents(a: seq<Event>, b: seq<Event>)
  {
    |a| == |b| && forall i :: 0 <= i < |a| ==> SameEvent(a[i], b[i])
  }

  predicate SameEvent(a: Event, b: Event)
  {
    a.(site := []) == b.(site := [])
  }

  lemma SameConcat(a: seq<Event>, b: seq<Event>, c: seq<Event>, d: seq<Event>)
    requires SameEvents(a, b) && SameEvents(c, d)
    ensures SameEvents(a + c, b + d)
  {
  }

  predicate SameLog(a: Log, b: Log)
  {
    a.(events := []) == b.(events := []) && SameEvents(a.events, b.events)
  }

  predicate SameOut(a: Out, b: Out)
  {
    a.outcome == b.outcome && a.world == b.world && SameLog(a.log, b.log)
  }

  lemma SameAfter(a: Log, b: Log, x: Out, y: Out)
    requires SameLog(a, b) && SameOut(x, y)
    ensures SameOut(After(a, x), After(b, y))
  {
    SameConcat(a.events, b.events, x.log.events, y.log.events);
  }

  lemma SameThen(a: Out, b: Out, x: Out, y: Out)
    requires SameOut(a, b) && SameOut(x, y)
    ensures SameOut(AndThen(a, x), AndThen(b, y))
  {
    SameAfter(a.log, b.log, x, y);
  }

  // ---- Moving an effect to another site

  lemma {:induction false} StagesMove(a: Env, s: Site, b: Env, t: Site, bag: Attributes.Bag, stages: seq<Stage>,
                                      index: nat, v: Json, replaced: bool)
    requires SameReplies(a, s, b, t)
    ensures var x := Pipelines.RunStages(a, bag, stages, s, index, v, replaced);
      var y := Pipelines.RunStages(b, bag, stages, t, index, v, replaced);
      x.outcome == y.outcome && x.taints == y.taints && SameEvents(x.events, y.events)
    decreases |stages|
  {
    if stages != [] {
      SameBelow(a, s, b, t, index);
      SameHere(a, s + [index], b, t + [index]);
      var x := Pipelines.RunStage(a, bag, stages[0], s + [index], v);
      var y := Pipelines.RunStage(b, bag, stages[0], t + [index], v);
      StageMoves(a, s + [index], b, t + [index], bag, stages[0], v);
      Pipelines.StagesUnfold(a, bag, stages, s, index, v, replaced);
      Pipelines.StagesUnfold(b, bag, stages, t, index, v, replaced);
      if x.result.Kept? {
        var value, changed := x.result.value, replaced || x.result.changed;
        StagesMove(a, s, b, t, bag, stages[1..], index + 1, value, changed);
        SameConcat(x.events, y.events,
                   Pipelines.RunStages(a, bag, stages[1..], s, index + 1, value, changed).events,
                   Pipelines.RunStages(b, bag, stages[1..], t, index + 1, value, changed).events);
      }
    }
  }

  lemma StageMoves(a: Env, s: Site, b: Env, t: Site, bag: Attributes.Bag, stage: Stage, v: Json)
    requires a.language == b.language && a.foreign == b.foreign && SameAt(a.host, s, b.host, t)
    ensures var x := Pipelines.RunStage(a, bag, stage, s, v);
      var y := Pipelines.RunStage(b, bag, stage, t, v);
      x.result == y.result && x.taints == y.taints && SameEvents(x.events, y.events)
  {
  }

  predicate SameField(x: FieldRun, y: FieldRun)
  {
    x.(events := []) == y.(events := []) && SameEvents(x.events, y.events)
  }

  lemma SameBehind(wrote: bool, taints: seq<TaintEvent>, xs: seq<Event>, ys: seq<Event>, x: FieldRun, y: FieldRun)
    requires SameEvents(xs, ys) && SameField(x, y)
    ensures SameField(FieldBehind(wrote, taints, xs, x), FieldBehind(wrote, taints, ys, y))
  {
    SameConcat(xs, ys, x.events, y.events);
  }

  lemma {:induction false} PathsMove(a: Env, s: Site, b: Env, t: Site, bag: Attributes.Bag, stages: seq<Stage>,
                                     k: nat, paths: seq<seq<string>>, root: Json)
    requires SameReplies(a, s, b, t)
    ensures SameField(RunPaths(a, bag, stages, s, k, paths, root), RunPaths(b, bag, stages, t, k, paths, root))
    decreases |paths|
  {
    if paths != [] {
      match GetAt(root, paths[0]) {
        case None =>
          PathsMove(a, s, b, t, bag, stages, k + 1, paths[1..], root);
        case Some(current) =>
          SameBelow(a, s, b, t, k);
          StagesMove(a, s + [k], b, t + [k], bag, stages, 0, current, false);
          var x := Pipelines.RunStages(a, bag, stages, s + [k], 0, current, false);
          var y := Pipelines.RunStages(b, bag, stages, t + [k], 0, current, false);
          var xs, ys := x.events + [FieldRan(s + [k], x.outcome)], y.events + [FieldRan(t + [k], y.outcome)];
          SameSnoc(x.events, y.events, FieldRan(s + [k], x.outcome), FieldRan(t + [k], y.outcome));
          PathsStep(a, bag, stages, s, k, paths, root, current, x);
          PathsStep(b, bag, stages, t, k, paths, root, current, y);
          if !x.outcome.Reject? {
            var (next, wrote) := Applied(root, paths[0], x.outcome);
            PathsMove(a, s, b, t, bag, stages, k + 1, paths[1..], next);
            SameBehind(wrote, x.taints, xs, ys, RunPaths(a, bag, stages, s, k + 1, paths[1..], next),
                       RunPaths(b, bag, stages, t, k + 1, paths[1..], next));
          }
      }
    }
  }

  lemma FieldOpMoves(a: Env, s: Site, b: Env, t: Site, path: string, stages: seq<Stage>, fallback: string, w: World)
    requires SameReplies(a, s, b, t)
    ensures SameOut(RunFieldOp(a, path, stages, s, fallback, w), RunFieldOp(b, path, stages, t, fallback, w))
  {
    var side := SideOf(path);
    if side.Some? && InPhase(a, side.value.0, w.payload).Some? {
      var root := InPhase(a, side.value.0, w.payload).value;
      var paths := a.foreign.expand(root, side.value.1, Redacts(stages));
      if paths.Some? {
        PathsMove(a, s, b, t, w.bag, stages, 0, paths.value, root);
        SameConcat([FieldVisited(s)], [FieldVisited(t)],
                   RunPaths(a, w.bag, stages, s, 0, paths.value, root).events,
                   RunPaths(b, w.bag, stages, t, 0, paths.value, root).events);
      }
    }
  }

  predicate SameElicit(x: ElicitRun, y: ElicitRun)
  {
    x.outcome == y.outcome && x.bag == y.bag && SameEvents(x.events, y.events)
  }

  lemma ElicitMoves(a: Env, s: Site, b: Env, t: Site, step: ElicitStep, bag: Attributes.Bag)
    requires a.language == b.language && SameAt(a.host, s, b.host, t)
    ensures SameElicit(RunElicit(a, step, s, bag), RunElicit(b, step, t, bag))
  {
    match ResolveFrom(bag, step.from) {
      case None => FailsMoves(step, s, t, ElicitFromUnresolved(step.from), bag, [], []);
      case Some(from) =>
        match Attributes.GetString(bag, ID_KEY) {
          case Some(id) => CheckMoves(a, s, b, t, step, id, bag, [], []);
          case None =>
            var reply := a.host.dispatch(s);
            var xs, ys := [ElicitDispatched(s, step, from, reply)], [ElicitDispatched(t, step, from, reply)];
            assert SameEvents(xs, ys);
            match reply {
              case Err(e) => CallFailsMoves(step, s, t, e, bag, xs, ys);
              case Ok(d) => CheckMoves(a, s, b, t, step, d.id, RecordDispatch(bag, step, d), xs, ys);
            }
        }
    }
  }

  lemma SettleMoves(step: ElicitStep, s: Site, t: Site, settlement: Settlement, o: Outcome, bag: Attributes.Bag,
                    x: seq<Event>, y: seq<Event>)
    requires SameEvents(x, y)
    ensures SameElicit(Settle(step, s, settlement, o, bag, x), Settle(step, t, settlement, o, bag, y))
  {
  }

  lemma FailsMoves(step: ElicitStep, s: Site, t: Site, reason: Reason, bag: Attributes.Bag, x: seq<Event>,
                   y: seq<Event>)
    requires SameEvents(x, y)
    ensures SameElicit(Fails(step, s, reason, bag, x), Fails(step, t, reason, bag, y))
  {
    SettleMoves(step, s, t, Failed, Failure(step, reason, None), bag, x, y);
  }

  lemma CallFailsMoves(step: ElicitStep, s: Site, t: Site, e: ElicitationError, bag: Attributes.Bag,
                       x: seq<Event>, y: seq<Event>)
    requires SameEvents(x, y)
    ensures SameElicit(CallFails(step, s, e, bag, x), CallFails(step, t, e, bag, y))
  {
    var run := CallFails(step, s, e, bag, x);
    SettleMoves(step, s, t, if e.StoreUnavailable? then Refused else Failed, run.outcome, bag, x, y);
  }

  lemma SameSnoc(x: seq<Event>, y: seq<Event>, e: Event, f: Event)
    requires SameEvents(x, y) && SameEvent(e, f)
    ensures SameEvents(x + [e], y + [f])
  {
  }

  lemma CheckMoves(a: Env, s: Site, b: Env, t: Site, step: ElicitStep, id: string, bag: Attributes.Bag,
                   x: seq<Event>, y: seq<Event>)
    requires a.language == b.language && SameAt(a.host, s, b.host, t) && SameEvents(x, y)
    ensures SameElicit(RunCheck(a, step, s, id, bag, x), RunCheck(b, step, t, id, bag, y))
  {
    var reply := a.host.check(s);
    var xs, ys := x + [ElicitChecked(s, id, reply)], y + [ElicitChecked(t, id, reply)];
    SameSnoc(x, y, ElicitChecked(s, id, reply), ElicitChecked(t, id, reply));
    match reply {
      case Err(e) => CallFailsMoves(step, s, t, e, bag, xs, ys);
      case Ok(StillPending) =>
        var waiting := bag[STATUS_KEY := StringValue("pending")];
        SettleMoves(step, s, t, Awaiting, Pending(Bundle(step, id, waiting)), waiting, xs, ys);
      case Ok(Expired) => FailsMoves(step, s, t, ElicitExpired, bag[STATUS_KEY := StringValue("expired")], xs, ys);
      case Ok(Resolved(approved)) =>
        if approved {
          ValidateMoves(a, s, b, t, step, id, bag, xs, ys);
        } else {
          SettleMoves(step, s, t, Refused, Halt(Denied(Some(ElicitDenied), step.source)),
                      bag[STATUS_KEY := StringValue("resolved")][OUTCOME_KEY := StringValue("denied")], xs, ys);
        }
    }
  }

  lemma ValidateMoves(a: Env, s: Site, b: Env, t: Site, step: ElicitStep, id: string, bag: Attributes.Bag,
                      x: seq<Event>, y: seq<Event>)
    requires a.language == b.language && SameAt(a.host, s, b.host, t) && SameEvents(x, y)
    ensures SameElicit(RunValidate(a, step, s, id, bag, x), RunValidate(b, step, t, id, bag, y))
  {
    var reply := a.host.validate(s);
    var xs, ys := x + [ElicitValidated(s, id, reply)], y + [ElicitValidated(t, id, reply)];
    SameSnoc(x, y, ElicitValidated(s, id, reply), ElicitValidated(t, id, reply));
    match reply {
      case Err(e) => CallFailsMoves(step, s, t, e, bag, xs, ys);
      case Ok(v) =>
        var fault := ScopeFault(a, step, bag);
        assert fault == ScopeFault(b, step, bag);
        if !v.valid {
          FailsMoves(step, s, t, ElicitInvalid(v.why), bag, xs, ys);
        } else if fault.Some? {
          FailsMoves(step, s, t, fault.value, bag, xs, ys);
        } else {
          SettleMoves(step, s, t, Approved, Continue, RunValidate(a, step, s, id, bag, x).bag, xs, ys);
        }
    }
  }

  lemma OneMoves(x: Out, y: Out, e: Event, f: Event)
    requires x.outcome == y.outcome && x.world == y.world && x.log.(events := []) == y.log.(events := [])
    requires x.log.events == [e] && y.log.events == [f] && SameEvent(e, f)
    ensures SameOut(x, y)
  {
  }

  lemma LeafMoves(a: Env, s: Site, b: Env, t: Site, e: Effect, fallback: string, w: World)
    requires SameReplies(a, s, b, t) && Leaf(e)
    ensures SameOut(RunLeaf(a, e, s, fallback, w), RunLeaf(b, e, t, fallback, w))
  {
    SameHere(a, s, b, t);
    match e {
      case FieldOp(path, stages) => FieldOpMoves(a, s, b, t, path, stages, fallback, w);
      case Elicit(step) => ElicitMoves(a, s, b, t, step, w.bag);
      case Plugin(name) =>
        OneMoves(RunPlugin(a, name, s, w), RunPlugin(b, name, t, w),
                 PluginAsked(s, name, a.host.plugin(s)), PluginAsked(t, name, a.host.plugin(s)));
      case Delegate(step) =>
        OneMoves(RunDelegate(a, step, s, w), RunDelegate(b, step, t, w),
                 Delegated(s, step, a.host.delegate(s)), Delegated(t, step, a.host.delegate(s)));
      case Restrict(spec) =>
        var ok := a.language.resolve(spec, w.bag).Ok?;
        OneMoves(RunRestrict(a, spec, s, fallback, w), RunRestrict(b, spec, t, fallback, w),
                 Restricted(s, spec, ok), Restricted(t, spec, ok));
      case _ =>
    }
  }

  // ---- Moving a tree

  predicate AllSame(x: seq<Out>, y: seq<Out>)
  {
    |x| == |y| && forall i :: 0 <= i < |x| ==> SameOut(x[i], y[i])
  }

  lemma SameFates(a: Env, s: Site, b: Env, t: Site, n: nat)
    requires SameReplies(a, s, b, t)
    ensures Fates(a, s, 0, n) == Fates(b, t, 0, n)
  {
    forall i | 0 <= i < n
      ensures a.host.fate(s + [i]) == b.host.fate(t + [i])
    {
      SameBelow(a, s, b, t, i);
      SameHere(a, s + [i], b, t + [i]);
    }
    assert forall i :: 0 <= i < n ==> Fates(a, s, 0, n)[i] == Fates(b, t, 0, n)[i];
  }

  lemma SameEffective(fates: seq<Fate>, x: seq<Out>, y: seq<Out>)
    requires |fates| == |x| && AllSame(x, y)
    ensures Effective(fates, x) == Effective(fates, y)
  {
    if SomeHalt(fates, x) {
      var i :| 0 <= i < |x| && fates[i].Runs? && Halts(x[i]);
      assert Halts(y[i]);
    }
  }

  lemma BranchMoves(fate: Fate, x: Out, y: Out, k: nat, s: Site, t: Site, fallback: string)
    requires SameOut(x, y)
    ensures var p, q := Branch(fate, x, k, s, fallback), Branch(fate, y, k, t, fallback);
      p.0 == q.0 && SameLog(p.1, q.1)
  {
  }

  lemma {:induction false} MergeMoves(fates: seq<Fate>, x: seq<Out>, y: seq<Out>, k: nat, s: Site, t: Site,
                                      fallback: string)
    requires |fates| == |x| && AllSame(x, y)
    ensures var p, q := Merge(fates, x, k, s, fallback), Merge(fates, y, k, t, fallback);
      p.0 == q.0 && SameLog(p.1, q.1)
    decreases |x|
  {
    if x != [] {
      BranchMoves(fates[0], x[0], y[0], k, s + [k], t + [k], fallback);
      assert AllSame(x[1..], y[1..]);
      MergeMoves(fates[1..], x[1..], y[1..], k + 1, s, t, fallback);
      SameConcat(Branch(fates[0], x[0], k, s + [k], fallback).1.events,
                 Branch(fates[0], y[0], k, t + [k], fallback).1.events,
                 Merge(fates[1..], x[1..], k + 1, s, fallback).1.events,
                 Merge(fates[1..], y[1..], k + 1, t, fallback).1.events);
    }
  }

  lemma BlockMoves(a: Env, s: Site, b: Env, t: Site, x: seq<Out>, y: seq<Out>, fallback: string, w: World)
    requires SameReplies(a, s, b, t) && AllSame(x, y)
    ensures SameOut(Merged(Effective(Fates(a, s, 0, |x|), x), x, s, fallback, w),
                    Merged(Effective(Fates(b, t, 0, |y|), y), y, t, fallback, w))
  {
    SameFates(a, s, b, t, |x|);
    SameEffective(Fates(a, s, 0, |x|), x, y);
    MergeMoves(Effective(Fates(a, s, 0, |x|), x), x, y, 0, s, t, fallback);
  }

  /** A tree given the same replies at another place in a larger tree runs the same. */
  lemma {:induction false} RunMoves(a: Env, s: Site, b: Env, t: Site, e: Effect, fallback: string, w: World)
    requires SameReplies(a, s, b, t)
    ensures SameOut(Run(a, e, s, fallback, w), Run(b, e, t, fallback, w))
    decreases e, 3
  {
    match e {
      case Sequential(effects) =>
        ListMoves(a, s, b, t, effects, 0, fallback, w);
      case Parallel(effects) =>
        BranchesMove(a, s, b, t, effects, 0, fallback, w);
        BlockMoves(a, s, b, t, RunBranches(a, effects, s, 0, fallback, w), RunBranches(b, effects, t, 0, fallback, w),
                   fallback, w);
      case When(guard, body, source) =>
        WhenMoves(a, s, b, t, guard, body, source, fallback, w);
      case Pdp(call, onAllow, onDeny) =>
        PdpMoves(a, s, b, t, call, onAllow, onDeny, fallback, w);
      case _ =>
        LeafMoves(a, s, b, t, e, fallback, w);
    }
  }

  lemma {:induction false} WhenMoves(a: Env, s: Site, b: Env, t: Site, guard: Expression, body: seq<Effect>,
                                     source: string, fallback: string, w: World)
    requires SameReplies(a, s, b, t)
    ensures var e := When(guard, body, source); SameOut(Run(a, e, s, fallback, w), Run(b, e, t, fallback, w))
    decreases body, 2
  {
    var verdict := a.language.eval(guard, w.bag);
    ListMoves(a, s, b, t, body, 0, source, w);
    SameAfter(Told([GuardChecked(s, guard, w.bag, verdict)]), Told([GuardChecked(t, guard, w.bag, verdict)]),
              RunList(a, body, s, 0, source, w), RunList(b, body, t, 0, source, w));
  }

  lemma {:induction false} PdpMoves(a: Env, s: Site, b: Env, t: Site, call: PdpCall, onAllow: seq<Effect>,
                                    onDeny: seq<Effect>, fallback: string, w: World)
    requires SameReplies(a, s, b, t)
    ensures var e := Pdp(call, onAllow, onDeny); SameOut(Run(a, e, s, fallback, w), Run(b, e, t, fallback, w))
    decreases Pdp(call, onAllow, onDeny), 2
  {
    SameHere(a, s, b, t);
    var reply := AskPdp(a, call, s, w.payload);
    assert reply == AskPdp(b, call, t, w.payload);
    var x, y := Told([PdpAsked(s, call, reply)]), Told([PdpAsked(t, call, reply)]);
    assert SameLog(x, y);
    if reply == Ok(Allowed) {
      SameBelow(a, s, b, t, 0);
      ListMoves(a, s + [0], b, t + [0], onAllow, 0, fallback, w);
      SameAfter(x, y, RunList(a, onAllow, s + [0], 0, fallback, w), RunList(b, onAllow, t + [0], 0, fallback, w));
    } else if reply.Ok? {
      SameBelow(a, s, b, t, 1);
      ListMoves(a, s + [1], b, t + [1], onDeny, 0, fallback, w);
      SameAfter(x, y, Denying(reply.value, RunList(a, onDeny, s + [1], 0, fallback, w)),
                Denying(reply.value, RunList(b, onDeny, t + [1], 0, fallback, w)));
    }
  }

  lemma {:induction false} ListMoves(a: Env, s: Site, b: Env, t: Site, es: seq<Effect>, k: nat, fallback: string,
                                     w: World)
    requires SameReplies(a, s, b, t)
    ensures SameOut(RunList(a, es, s, k, fallback, w), RunList(b, es, t, k, fallback, w))
    decreases es, 1
  {
    TracksSame(a, s, b, t, k, |es|);
    ListShifts(a, s, k, b, t, k, es, fallback, w);
  }

  /** The same, for a list whose members may each have moved. */
  lemma {:induction false} ListShifts(a: Env, s: Site, k: nat, b: Env, t: Site, l: nat, es: seq<Effect>,
                                      fallback: string, w: World)
    requires Tracks(a, s, k, b, t, l, |es|)
    ensures SameOut(RunList(a, es, s, k, fallback, w), RunList(b, es, t, l, fallback, w))
    decreases es, 0
  {
    if es != [] {
      var x, y := Run(a, es[0], s + [k], fallback, w), Run(b, es[0], t + [l], fallback, w);
      RunMoves(a, s + [k], b, t + [l], es[0], fallback, w);
      ListStep(a, es, s, k, fallback, w, x);
      ListStep(b, es, t, l, fallback, w, y);
      if x.outcome.Continue? {
        ListShifts(a, s, k + 1, b, t, l + 1, es[1..], fallback, x.world);
        SameAfter(x.log, y.log, RunList(a, es[1..], s, k + 1, fallback, x.world),
                  RunList(b, es[1..], t, l + 1, fallback, x.world));
      }
    }
  }

  lemma {:induction false} BranchesMove(a: Env, s: Site, b: Env, t: Site, es: seq<Effect>, k: nat, fallback: string,
                                        w: World)
    requires SameReplies(a, s, b, t)
    ensures AllSame(RunBranches(a, es, s, k, fallback, w), RunBranches(b, es, t, k, fallback, w))
    decreases es, 0
  {
    if es != [] {
      var x, y := RunBranches(a, es, s, k, fallback, w), RunBranches(b, es, t, k, fallback, w);
      BranchStep(a, es, s, k, fallback, w, x);
      BranchStep(b, es, t, k, fallback, w, y);
      SameBelow(a, s, b, t, k);
      RunMoves(a, s + [k], b, t + [k], es[0], fallback, w);
      BranchesMove(a, s, b, t, es[1..], k + 1, fallback, w);
      forall i | 0 <= i < |x|
        ensures SameOut(x[i], y[i])
      {
        if i > 0 {
          assert x[i] == x[1..][i - 1] && y[i] == y[1..][i - 1];
        }
      }
    }
  }

  // ---- Inlining

  /**
   * Replacing a `sequential:` group by its members, call for call in the same world, changes nothing:
   * outcome, final world, taints, constraints, flags and events in order are the same.
   */
  lemma {:induction false} InlineSequential(nested: Env, flat: Env, before: seq<Effect>, group: seq<Effect>,
                                            after: seq<Effect>,
                         site: Site, fallback: string, w: World)
    requires Tracks(nested, site, 0, flat, site, 0, |before|)
    requires Tracks(nested, site + [|before|], 0, flat, site, |before|, |group|)
    requires Tracks(nested, site, |before| + 1, flat, site, |before| + |group|, |after|)
    ensures SameOut(RunList(nested, before + ([Sequential(group)] + after), site, 0, fallback, w),
                    RunList(flat, before + (group + after), site, 0, fallback, w))
  {
    var n := |before|;
    var p, q := RunList(nested, before, site, 0, fallback, w), RunList(flat, before, site, 0, fallback, w);
    var a, b := [Sequential(group)] + after, group + after;
    ListShifts(nested, site, 0, flat, site, 0, before, fallback, w);
    InlineTail(nested, flat, n, group, after, site, fallback, p.world);
    var x, y := RunList(nested, a, site, n, fallback, p.world), RunList(flat, b, site, n, fallback, q.world);
    Concatenated(nested, before, a, site, fallback, w, p, x, RunList(nested, before + a, site, 0, fallback, w));
    Concatenated(flat, before, b, site, fallback, w, q, y, RunList(flat, before + b, site, 0, fallback, w));
    SameThen(p, q, x, y);
  }

  lemma Concatenated(env: Env, a: seq<Effect>, b: seq<Effect>, site: Site, fallback: string, w: World, first: Out,
                     second: Out, whole: Out)
    requires first == RunList(env, a, site, 0, fallback, w)
    requires second == RunList(env, b, site, |a|, fallback, first.world)
    requires whole == RunList(env, a + b, site, 0, fallback, w)
    ensures whole == AndThen(first, second)
  {
    ListComposes(env, a, b, site, 0, fallback, w, first);
  }

  lemma InlineTail(nested: Env, flat: Env, n: nat, group: seq<Effect>, after: seq<Effect>, site: Site,
                   fallback: string, w: World)
    requires Tracks(nested, site + [n], 0, flat, site, n, |group|)
    requires Tracks(nested, site, n + 1, flat, site, n + |group|, |after|)
    ensures SameOut(RunList(nested, [Sequential(group)] + after, site, n, fallback, w),
                    RunList(flat, group + after, site, n, fallback, w))
  {
    var p, q := RunList(nested, group, site + [n], 0, fallback, w), RunList(flat, group, site, n, fallback, w);
    ListShifts(nested, site + [n], 0, flat, site, n, group, fallback, w);
    ListShifts(nested, site, n + 1, flat, site, n + |group|, after, fallback, p.world);
    GroupedTail(nested, flat, n, group, after, site, fallback, w, p, q,
                RunList(nested, after, site, n + 1, fallback, p.world),
                RunList(flat, after, site, n + |group|, fallback, q.world));
  }

  lemma GroupedTail(nested: Env, flat: Env, n: nat, group: seq<Effect>, after: seq<Effect>, site: Site,
                    fallback: string, w: World, p: Out, q: Out, x: Out, y: Out)
    requires p == RunList(nested, group, site + [n], 0, fallback, w)
    requires q == RunList(flat, group, site, n, fallback, w)
    requires x == RunList(nested, after, site, n + 1, fallback, p.world)
    requires y == RunList(flat, after, site, n + |group|, fallback, q.world)
    requires SameOut(p, q) && SameOut(x, y)
    ensures SameOut(RunList(nested, [Sequential(group)] + after, site, n, fallback, w),
                    RunList(flat, group + after, site, n, fallback, w))
  {
    assert SameOut(AndThen(p, x), AndThen(q, y)) by {
      SameThen(p, q, x, y);
    }
    GroupStep(nested, group, after, site, n, fallback, w, p);
    ListComposes(flat, group, after, site, n, fallback, w, q);
  }

  /** A group at the head of a list runs as the list of its members. */
  lemma GroupStep(env: Env, group: seq<Effect>, after: seq<Effect>, site: Site, n: nat, fallback: string, w: World,
                  x: Out)
    requires x == RunList(env, group, site + [n], 0, fallback, w)
    ensures RunList(env, [Sequential(group)] + after, site, n, fallback, w) ==
      AndThen(x, RunList(env, after, site, n + 1, fallback, x.world))
  {
    var all := [Sequential(group)] + after;
    assert all[0] == Sequential(group) && all[1..] == after;
    ListStep(env, all, site, n, fallback, w, x);
  }
}
