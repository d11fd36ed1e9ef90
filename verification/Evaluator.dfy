/** The evaluator as the program runs it: one state updated in place, effect by effect. */
module Evaluator {
  import opened Values
  import opened Attributes
  import opened Rules
  import opened Constraints
  import opened Hosts
  import opened Payloads
  import opened Elicitations
  import opened Effects
  import opened Interpreter
  import Pipelines

  lemma FieldBehindLaws(w1: bool, t1: seq<TaintEvent>, e1: seq<Event>, w2: bool, t2: seq<TaintEvent>, e2: seq<Event>,
                        r: FieldRun)
    ensures FieldBehind(w1, t1, e1, FieldBehind(w2, t2, e2, r)) == FieldBehind(w1 || w2, t1 + t2, e1 + e2, r)
    ensures FieldBehind(false, [], [], r) == r
  {
    assert t1 + (t2 + r.taints) == t1 + t2 + r.taints && e1 + (e2 + r.events) == e1 + e2 + r.events;
    assert [] + r.taints == r.taints && [] + r.events == r.events;
  }

  class Machine {
    var bag: Bag
    var payload: Payload
    var taints: seq<TaintEvent>
    var constraints: seq<CandidateConstraint>
    var argsModified: bool
    var resultModified: bool
    var trace: seq<Event>

    function Here(): (w: World)
      reads this
    {
      World(bag, payload)
    }

    function Logged(): (log: Log)
      reads this
    {
      Log(taints, constraints, argsModified, resultModified, trace)
    }

    constructor (bag: Bag, payload: Payload)
      ensures Here() == World(bag, payload) && Logged() == SILENT
    {
      this.bag, this.payload := bag, payload;
      taints, constraints, argsModified, resultModified, trace := [], [], false, false, [];
    }

    method Note(event: Event)
      modifies this`trace
      ensures trace == old(trace) + [event]
    {
      trace := trace + [event];
    }

    // ---- Elicitation

    method Settled(step: ElicitStep, site: Site, s: Settlement, o: Outcome) returns (r: Outcome)
      modifies this`trace
      ensures r == o && trace == old(trace) + [ElicitSettled(site, step, s)]
    {
      Note(ElicitSettled(site, step, s));
      r := o;
    }

    method SetOptional(key: string, value: Option<string>)
      modifies this`bag
      ensures bag == SetText(old(bag), key, value)
    {
      if value.Some? {
        bag := bag[key := StringValue(value.value)];
      }
    }

    method RecordDispatched(step: ElicitStep, d: ElicitationDispatch)
      modifies this`bag
      ensures bag == RecordDispatch(old(bag), step, d)
    {
      bag := bag[ID_KEY := StringValue(d.id)];
      bag := bag[STATUS_KEY := StringValue("pending")];
      SetOptional(CHANNEL_KEY, step.channel);
      SetOptional(APPROVER_KEY, d.approver);
      SetOptional(INTENT_KEY, d.intentId);
      SetOptional(EXPIRES_KEY, d.expiresAt);
    }

    /** The outcome, bag and trace are those of an elicitation run whose events followed `before`. */
    ghost predicate Elicited(r: ElicitRun, o: Outcome, before: seq<Event>)
      reads this
    {
      o == r.outcome && bag == r.bag && trace == before + r.events
    }

    method Validate(env: Env, step: ElicitStep, site: Site, id: string, ghost events: seq<Event>,
                    ghost before: seq<Event>)
      returns (o: Outcome)
      requires trace == before + events
      modifies this`bag, this`trace
      ensures Elicited(RunValidate(env, step, site, id, old(bag), events), o, before)
    {
      var reply := env.host.validate(site);
      Note(ElicitValidated(site, id, reply));
      match reply {
        case Err(e) => o := FailCall(step, site, e);
        case Ok(v) =>
          if !v.valid {
            o := Settled(step, site, Failed, Failure(step, ElicitInvalid(v.why), None));
            return;
          }
          var fault := ScopeFault(env, step, bag);
          if fault.Some? {
            o := Settled(step, site, Failed, Failure(step, fault.value, None));
            return;
          }
          bag := bag[STATUS_KEY := StringValue("resolved")];
          bag := bag[OUTCOME_KEY := StringValue("approved")];
          SetOptional(APPROVER_KEY, v.approver);
          SetOptional(INTENT_KEY, v.intentId);
          o := Settled(step, site, Approved, Continue);
      }
    }

    method FailCall(step: ElicitStep, site: Site, e: ElicitationError) returns (o: Outcome)
      modifies this`trace
      ensures var r := CallFails(step, site, e, bag, []); o == r.outcome && trace == old(trace) + r.events
    {
      if e.StoreUnavailable? {
        o := Settled(step, site, Refused, Halt(Denied(Some(ElicitCallFailed(e)), Coded(ErrorCode(e), step.source))));
      } else {
        o := Settled(step, site, Failed, Failure(step, ElicitCallFailed(e), ErrorCode(e)));
      }
    }

    method Check(env: Env, step: ElicitStep, site: Site, id: string, ghost events: seq<Event>, ghost before: seq<Event>)
      returns (o: Outcome)
      requires trace == before + events
      modifies this`bag, this`trace
      ensures Elicited(RunCheck(env, step, site, id, old(bag), events), o, before)
    {
      var reply := env.host.check(site);
      Note(ElicitChecked(site, id, reply));
      match reply {
        case Err(e) => o := FailCall(step, site, e);
        case Ok(StillPending) =>
          bag := bag[STATUS_KEY := StringValue("pending")];
          o := Settled(step, site, Awaiting, Pending(Bundle(step, id, bag)));
        case Ok(Expired) =>
          bag := bag[STATUS_KEY := StringValue("expired")];
          o := Settled(step, site, Failed, Failure(step, ElicitExpired, None));
        case Ok(Resolved(approved)) =>
          if approved {
            o := Validate(env, step, site, id, events + [ElicitChecked(site, id, reply)], before);
          } else {
            bag := bag[STATUS_KEY := StringValue("resolved")];
            bag := bag[OUTCOME_KEY := StringValue("denied")];
            o := Settled(step, site, Refused, Halt(Denied(Some(ElicitDenied), step.source)));
          }
      }
    }

    method Elicit(env: Env, step: ElicitStep, site: Site) returns (o: Outcome)
      modifies this`bag, this`trace
      ensures Elicited(RunElicit(env, step, site, old(bag)), o, old(trace))
    {
      var from := ResolveFrom(bag, step.from);
      if from.None? {
        o := Settled(step, site, Failed, Failure(step, ElicitFromUnresolved(step.from), None));
        return;
      }
      var existing := GetString(bag, ID_KEY);
      if existing.Some? {
        o := Check(env, step, site, existing.value, [], trace);
        return;
      }
      ghost var before := trace;
      var reply := env.host.dispatch(site);
      var event := ElicitDispatched(site, step, from.value, reply);
      Note(event);
      match reply {
        case Err(e) => o := FailCall(step, site, e);
        case Ok(d) =>
          RecordDispatched(step, d);
          o := Check(env, step, site, d.id, [event], before);
      }
    }

    // ---- Field operations

    method Mark(side: Side)
      modifies this`argsModified, this`resultModified
      ensures argsModified == (old(argsModified) || side.ArgsSide?)
      ensures resultModified == (old(resultModified) || side.ResultSide?)
    {
      match side {
        case ArgsSide => argsModified := true;
        case ResultSide => resultModified := true;
      }
    }

    /** The log after a field run behind `before`. */
    ghost predicate FieldLogged(run: FieldRun, side: Side, before: Log)
      reads this
    {
      Logged() == Join(before, Log(run.taints, [], run.modified && side.ArgsSide?, run.modified && side.ResultSide?,
                                   run.events))
    }

    /** The pipeline at each concrete path in turn, writing results back, up to the first rejection. */
    method WalkPaths(env: Env, stages: seq<Stage>, site: Site, paths: seq<seq<string>>, side: Side, start: Json)
      returns (fault: Option<StageFault>, root: Json)
      modifies this`taints, this`trace, this`argsModified, this`resultModified
      ensures var run := RunPaths(env, bag, stages, site, 0, paths, start);
        fault == run.fault && root == run.root && FieldLogged(run, side, old(Logged()))
    {
      root := start;
      ghost var whole := RunPaths(env, bag, stages, site, 0, paths, start);
      ghost var done := FieldRun(None, root, false, [], []);
      ghost var before := Logged();
      ghost var rest := whole;
      FieldBehindLaws(false, [], [], false, [], [], whole);
      JoinLaws(before, SILENT, SILENT);
      assert paths[0..] == paths;
      for i := 0 to |paths|
        invariant rest == RunPaths(env, bag, stages, site, i, paths[i..], root)
        invariant whole == FieldBehind(done.modified, done.taints, done.events, rest)
        invariant FieldLogged(done, side, before)
      {
        var path := paths[i];
        assert paths[i..][0] == path && paths[i..][1..] == paths[i + 1..];
        var current := GetAt(root, path);
        if current.Some? {
          var eval := Pipelines.EvaluatePipeline(env, bag, stages, site + [i], current.value);
          PathsStep(env, bag, stages, site, i, paths[i..], root, current.value, eval);
          var ran := FieldRan(site + [i], eval.outcome);
          taints, trace := taints + eval.taints, trace + (eval.events + [ran]);
          FieldLogGrows(before, done, side, false, eval.taints, eval.events + [ran]);
          if eval.outcome.Reject? {
            return Some(eval.outcome.fault), root;
          }
          var (next, wrote) := Applied(root, path, eval.outcome);
          if wrote {
            Mark(side);
          }
          FieldLogGrows(before, done, side, wrote, eval.taints, eval.events + [ran]);
          rest := RunPaths(env, bag, stages, site, i + 1, paths[i + 1..], next);
          FieldBehindLaws(done.modified, done.taints, done.events, wrote, eval.taints, eval.events + [ran], rest);
          root := next;
          done := FieldRun(None, root, done.modified || wrote, done.taints + eval.taints,
                           done.events + (eval.events + [ran]));
        }
      }
      return None, root;
    }

    static lemma FieldLogGrows(before: Log, done: FieldRun, side: Side, wrote: bool, more: seq<TaintEvent>,
                               seen: seq<Event>)
      ensures var a, r := side.ArgsSide?, side.ResultSide?;
        Join(Join(before, Log(done.taints, [], done.modified && a, done.modified && r, done.events)),
             Log(more, [], wrote && a, wrote && r, seen)) ==
        Join(before, Log(done.taints + more, [], (done.modified || wrote) && a, (done.modified || wrote) && r,
                         done.events + seen))
    {
      var a, r := side.ArgsSide?, side.ResultSide?;
      JoinLaws(before, Log(done.taints, [], done.modified && a, done.modified && r, done.events),
               Log(more, [], wrote && a, wrote && r, seen));
    }

    /** Outcome, world and log are those of `out` behind the log there was before. */
    ghost predicate Shows(o: Outcome, out: Out, before: Log)
      reads this
    {
      Out(o, Here(), Logged()) == After(before, out)
    }

    method FieldOperation(env: Env, path: string, stages: seq<Stage>, site: Site, fallback: string) returns (o: Outcome)
      modifies this
      ensures Shows(o, RunFieldOp(env, path, stages, site, fallback, old(Here())), old(Logged()))
    {
      var named := SideOf(path);
      if named.None? {
        Note(FieldRefused(site));
        return Halt(Denied(Some(FieldPathRoot(path)), fallback));
      }
      var (side, subpath) := named.value;
      var start := InPhase(env, side, payload);
      if start.None? {
        Note(FieldVisited(site));
        return Continue;
      }
      var paths := env.foreign.expand(start.value, subpath, Redacts(stages));
      if paths.None? {
        Note(FieldRefused(site));
        return Halt(Denied(Some(FieldFanOut(path)), fallback));
      }
      ghost var before := Logged();
      ghost var run := RunPaths(env, bag, stages, site, 0, paths.value, start.value);
      Note(FieldVisited(site));
      JoinLaws(before, Told([FieldVisited(site)]),
               Log(run.taints, [], run.modified && side.ArgsSide?, run.modified && side.ResultSide?, run.events));
      var fault, root := WalkPaths(env, stages, site, paths.value, side, start.value);
      payload := WithSide(payload, side, root);
      if fault.Some? {
        return Halt(Denied(Some(FieldRejected(fault.value)), fallback));
      }
      return Continue;
    }

    // ---- Single effects

    method InvokePlugin(env: Env, name: string, site: Site) returns (o: Outcome)
      modifies this
      ensures Shows(o, RunPlugin(env, name, site, old(Here())), old(Logged()))
    {
      var reply := env.host.plugin(site);
      Note(PluginAsked(site, name, reply));
      match reply {
        case Err(detail) =>
          o := Halt(Denied(Some(PluginFailed(name, detail)), "plugin:" + name));
        case Ok(outcome) =>
          taints := taints + outcome.taints;
          o := if outcome.decision.Allowed? then Continue else Halt(outcome.decision);
      }
    }

    method DelegateTo(env: Env, step: DelegateStep, site: Site) returns (o: Outcome)
      modifies this
      ensures Shows(o, RunDelegate(env, step, site, old(Here())), old(Logged()))
    {
      var reply := env.host.delegate(site);
      Note(Delegated(site, step, reply));
      match reply {
        case Err(detail) =>
          if OnErrorContinues(step.onError) {
            return Continue;
          }
          return Halt(Denied(Some(DelegationFailed(step.pluginName, detail)), step.source));
        case Ok(granted) =>
          if granted.decision.Allowed? {
            bag := bag["delegation.granted" := BoolValue(true)];
            if granted.permissions != [] {
              bag := bag["delegation.granted.permissions" := StringSetValue(set p | p in granted.permissions)];
            }
            SetOptional("delegation.granted.audience", granted.audience);
            SetOptional("delegation.granted.expires_at", granted.expiresAt);
            return Continue;
          }
          if OnErrorContinues(step.onError) {
            return Continue;
          }
          return Halt(granted.decision);
      }
    }

    method Constrain(env: Env, spec: RestrictSpec, site: Site, fallback: string) returns (o: Outcome)
      modifies this
      ensures Shows(o, RunRestrict(env, spec, site, fallback, old(Here())), old(Logged()))
    {
      var resolved := env.language.resolve(spec, bag);
      Note(Restricted(site, spec, resolved.Ok?));
      match resolved {
        case Err(path) => o := Halt(Denied(Some(UnresolvedDenyList(path)), fallback));
        case Ok(c) =>
          if !ConstrainsNothing(c) {
            constraints := constraints + [c];
          }
          o := Continue;
      }
    }

    method Single(env: Env, e: Effect, site: Site, fallback: string) returns (o: Outcome)
      requires Leaf(e)
      modifies this
      ensures Shows(o, RunLeaf(env, e, site, fallback, old(Here())), old(Logged()))
    {
      match e {
        case Allow =>
          JoinLaws(Logged(), SILENT, SILENT);
          o := Continue;
        case Deny(reason, code) =>
          Note(DenyReached(site));
          o := Halt(Denied(AsReason(reason), Coded(code, fallback)));
        case Plugin(name) => o := InvokePlugin(env, name, site);
        case Delegate(step) => o := DelegateTo(env, step, site);
        case Elicit(step) => o := Elicit(env, step, site);
        case Taint(tag, scopes) =>
          taints := taints + [TaintEvent(tag, scopes)];
          o := Continue;
        case Restrict(spec) => o := Constrain(env, spec, site, fallback);
        case FieldOp(path, stages) => o := FieldOperation(env, path, stages, site, fallback);
      }
    }

    // ---- Nesting

    /** Taints, constraints and the trace only gained a tail, and no flag went back to false. */
    ghost predicate GrewFrom(before: Log)
      reads this
    {
      && before.taints <= taints && before.constraints <= constraints && before.events <= trace
      && (before.argsModified ==> argsModified) && (before.resultModified ==> resultModified)
    }

    /** `dispatch_effect`. */
    method Dispatch(env: Env, e: Effect, site: Site, fallback: string) returns (o: Outcome)
      modifies this
      ensures Shows(o, Run(env, e, site, fallback, old(Here())), old(Logged()))
      ensures GrewFrom(old(Logged()))
      decreases e, 3
    {
      match e {
        case Sequential(effects) => o := Walk(env, effects, site, fallback);
        case Parallel(effects) =>
          var outs := Fork(env, effects, site, fallback);
          o := Aggregate(Effective(Fates(env, site, 0, |effects|), outs), outs, site, fallback);
        case When(guard, body, source) => o := Guarded(env, guard, body, source, site, fallback);
        case Pdp(call, onAllow, onDeny) => o := AskAndReact(env, call, onAllow, onDeny, site, fallback);
        case _ => o := Single(env, e, site, fallback);
      }
    }

    method Guarded(env: Env, guard: Expression, body: seq<Effect>, source: string, site: Site, ghost fallback: string)
      returns (o: Outcome)
      modifies this
      ensures Shows(o, Run(env, When(guard, body, source), site, fallback, old(Here())), old(Logged()))
      decreases body, 2
    {
      var verdict := env.language.eval(guard, bag);
      ghost var before := Logged();
      var event := GuardChecked(site, guard, bag, verdict);
      AfterLaws(before, Told([event]), RunList(env, body, site, 0, source, Here()));
      Note(event);
      match verdict {
        case Unorderable(key) => o := Halt(Denied(Some(UnorderableKey(key)), source));
        case Definite(holds) =>
          o := Continue;
          if holds {
            o := Walk(env, body, site, source);
          }
      }
    }

    method AskAndReact(env: Env, call: PdpCall, onAllow: seq<Effect>, onDeny: seq<Effect>, site: Site, fallback: string)
      returns (o: Outcome)
      modifies this
      ensures Shows(o, Run(env, Pdp(call, onAllow, onDeny), site, fallback, old(Here())), old(Logged()))
      decreases Pdp(call, onAllow, onDeny), 2
    {
      var reply := AskPdp(env, call, site, payload);
      ghost var before := Logged();
      var event := PdpAsked(site, call, reply);
      AfterLaws(before, Told([event]), RunList(env, onAllow, site + [0], 0, fallback, Here()));
      Note(event);
      match reply {
        case Err(detail) => o := Halt(Denied(Some(PdpFailed(detail)), "pdp:" + call.dialect));
        case Ok(decision) =>
          if decision.Allowed? {
            o := Walk(env, onAllow, site + [0], fallback);
          } else {
            AfterLaws(before, Told([event]),
                      Denying(decision, RunList(env, onDeny, site + [1], 0, fallback, Here())));
            o := Walk(env, onDeny, site + [1], fallback);
            if o.Continue? {
              o := Halt(decision);
            }
          }
      }
    }

    /** A list of effects in order, up to the first that does not continue. */
    method Walk(env: Env, es: seq<Effect>, site: Site, fallback: string) returns (o: Outcome)
      modifies this
      ensures Shows(o, RunList(env, es, site, 0, fallback, old(Here())), old(Logged()))
      decreases es, 1
    {
      ghost var before := Logged();
      ghost var whole := RunList(env, es, site, 0, fallback, Here());
      ghost var rest := whole;
      assert es[0..] == es;
      for i := 0 to |es|
        invariant rest == RunList(env, es[i..], site, i, fallback, Here())
        invariant After(before, whole) == After(Logged(), rest)
      {
        assert es[i..][0] == es[i] && es[i..][1..] == es[i + 1..];
        ghost var first := Run(env, es[i], site + [i], fallback, Here());
        ListStep(env, es[i..], site, i, fallback, Here(), first);
        ghost var log := Logged();
        o := Dispatch(env, es[i], site + [i], fallback);
        if !o.Continue? {
          return;
        }
        rest := RunList(env, es[i + 1..], site, i + 1, fallback, Here());
        AfterLaws(log, first.log, rest);
      }
      JoinLaws(Logged(), SILENT, SILENT);
      return Continue;
    }

    /** Every branch on a clone of the bag and payload. */
    method Fork(env: Env, es: seq<Effect>, site: Site, fallback: string) returns (outs: seq<Out>)
      ensures outs == RunBranches(env, es, site, 0, fallback, Here())
      decreases es, 1
    {
      outs := [];
      assert es[0..] == es;
      for i := 0 to |es|
        invariant RunBranches(env, es, site, 0, fallback, Here()) ==
          outs + RunBranches(env, es[i..], site, i, fallback, Here())
      {
        assert es[i..][0] == es[i] && es[i..][1..] == es[i + 1..];
        var branch := new Machine(bag, payload);
        var o := branch.Dispatch(env, es[i], site + [i], fallback);
        AfterLaws(SILENT, SILENT, Run(env, es[i], site + [i], fallback, Here()));
        BranchStep(env, es[i..], site, i, fallback, Here(), RunBranches(env, es[i..], site, i, fallback, Here()));
        var out := Out(o, branch.Here(), branch.Logged());
        outs := outs + [out];
      }
    }

    /** Branch results merged in input order: logs appended, the first halt by index kept. */
    method Aggregate(fates: seq<Fate>, outs: seq<Out>, site: Site, fallback: string) returns (o: Outcome)
      requires |fates| == |outs|
      modifies this`taints, this`constraints, this`trace
      ensures Shows(o, Merged(fates, outs, site, fallback, old(Here())), old(Logged()))
    {
      var firstHalt: Option<Decision> := None;
      ghost var before := Logged();
      ghost var whole := Merge(fates, outs, 0, site, fallback);
      ghost var rest := whole;
      assert fates[0..] == fates && outs[0..] == outs;
      for i := 0 to |outs|
        invariant Here() == old(Here())
        invariant rest == Merge(fates[i..], outs[i..], i, site, fallback)
        invariant whole.0 == if firstHalt.Some? then firstHalt else rest.0
        invariant Join(before, whole.1) == Join(Logged(), rest.1)
      {
        assert fates[i..][0] == fates[i] && fates[i..][1..] == fates[i + 1..];
        assert outs[i..][0] == outs[i] && outs[i..][1..] == outs[i + 1..];
        var (halt, log) := Branch(fates[i], outs[i], i, site + [i], fallback);
        ghost var was := Logged();
        assert !log.argsModified && !log.resultModified;
        rest := Merge(fates[i + 1..], outs[i + 1..], i + 1, site, fallback);
        JoinLaws(was, log, rest.1);
        taints, constraints := taints + log.taints, constraints + log.constraints;
        trace := trace + log.events;
        if firstHalt.None? {
          firstHalt := halt;
        }
      }
      JoinLaws(Logged(), SILENT, SILENT);
      return if firstHalt.Some? then Halt(firstHalt.value) else Continue;
    }

    /** `evaluate_effects`: each top-level effect with its own source as the fallback. */
    method EvaluateEffects(env: Env, es: seq<Effect>) returns (r: Evaluation)
      requires Logged() == SILENT
      modifies this
      ensures r == Report(RunPhase(env, es, old(Here()))) && Here() == RunPhase(env, es, old(Here())).world
    {
      ghost var whole := RunPhase(env, es, Here());
      ghost var rest := whole;
      assert es[0..] == es;
      AfterLaws(SILENT, SILENT, whole);
      for i := 0 to |es|
        invariant rest == RunList(env, es[i..], [], i, "", Here())
        invariant whole == After(Logged(), rest)
      {
        assert es[i..][0] == es[i] && es[i..][1..] == es[i + 1..];
        ghost var first := Run(env, es[i], [] + [i], "", Here());
        ListStep(env, es[i..], [], i, "", Here(), first);
        ghost var log := Logged();
        var fallback := if es[i].When? then es[i].source else "";
        FallbackUnused(env, es[i], [] + [i], Here());
        var o := Dispatch(env, es[i], [] + [i], fallback);
        match o {
          case Continue =>
            rest := RunList(env, es[i + 1..], [], i + 1, "", Here());
            AfterLaws(log, first.log, rest);
          case Halt(decision) => return Evaluation(decision, Logged(), None);
          case Pending(bundle) => return Evaluation(Allowed, Logged(), Some(bundle));
        }
      }
      JoinLaws(Logged(), SILENT, SILENT);
      return Evaluation(Allowed, Logged(), None);
    }
  }

  /** A `when:` effect reads its own source, never the fallback it is handed. */
  lemma FallbackUnused(env: Env, e: Effect, site: Site, w: World)
    ensures e.When? ==> Run(env, e, site, e.source, w) == Run(env, e, site, "", w)
  {
  }
}
