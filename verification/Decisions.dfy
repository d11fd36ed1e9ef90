/** Which decision a run reports when it halts: that of the first gate that did not let it by. */
module Decisions {
  import opened Values
  import opened Attributes
  import opened Rules
  import opened Hosts
  import opened Payloads
  import opened Elicitations
  import opened Effects
  import opened Interpreter
  import opened Predicates
  import opened ElicitationProtocol
  import Merging
  import Text

  // ---- One gate

  /** `on_error` covers a failure exactly when it spells "continue", in any mix of letter cases. */
  lemma {:induction false} CoversExactly(word: string)
    ensures OnErrorContinues(Some(word)) <==>
      |word| == 8 && forall i :: 0 <= i < 8 ==> word[i] == "continue"[i] || word[i] == "CONTINUE"[i]
    ensures !OnErrorContinues(None)
  {
    var low := Text.AsciiLower(word);
    if OnErrorContinues(Some(word)) {
      assert |low| == |"continue"|;
      forall i | 0 <= i < 8
        ensures word[i] == "continue"[i] || word[i] == "CONTINUE"[i]
      {
        assert low[i] == "continue"[i];
        Cases(word[i], i);
      }
    }
    if |word| == 8 && forall i :: 0 <= i < 8 ==> word[i] == "continue"[i] || word[i] == "CONTINUE"[i] {
      forall i | 0 <= i < 8
        ensures low[i] == "continue"[i]
      {
        Cases(word[i], i);
      }
      assert low == "continue";
    }
  }

  lemma Cases(c: char, i: nat)
    requires i < 8
    ensures (if 'A' <= c <= 'Z' then (c as int + 32) as char else c) == "continue"[i] <==>
      c == "continue"[i] || c == "CONTINUE"[i]
  {
    var small, large := "continue"[i], "CONTINUE"[i];
    assert small as int == large as int + 32 && 'A' <= large <= 'Z' && 'a' <= small <= 'z';
  }

  /** A step asks the bag's value under `from`; a dotted name that the bag does not hold as text asks no one. */
  lemma {:induction false} AsksWhom(bag: Bag, from: string)
    ensures from in bag && bag[from].StringValue? ==> ResolveFrom(bag, from) == Some(bag[from].s)
    ensures !(from in bag && bag[from].StringValue?) ==>
      ResolveFrom(bag, from) == if exists a, b :: IsDotted(from, a, b) then None else Some(from)
  {
    if exists a, b :: IsDotted(from, a, b) {
      var a, b :| IsDotted(from, a, b);
      DottedLooks(from, a, b);
    }
    if LooksLikeAttributeRef(from) {
      var dot :| 0 <= dot < |from| && from[dot] == '.';
      assert from == from[..dot] + "." + from[dot + 1..];
      assert IsDotted(from, from[..dot], from[dot + 1..]);
    }
  }

  lemma DottedLooks(from: string, a: string, b: string)
    requires IsDotted(from, a, b)
    ensures LooksLikeAttributeRef(from)
  {
    assert from[|a|] == '.' && from[0] == a[0];
    forall i | 0 <= i < |from|
      ensures Text.IsAsciiAlpha(from[i]) || Text.IsDigit(from[i]) || from[i] == '_' || from[i] == '.'
    {
      if i < |a| {
        assert from[i] == a[i];
      } else if i > |a| {
        assert from[i] == b[i - |a| - 1];
      }
    }
  }

  /** A name that starts with a letter, a dot, and more of the like. */
  predicate IsDotted(s: string, a: string, b: string)
  {
    s == a + "." + b && Plain(a) && Plain(b) && a != [] && Text.IsAsciiAlpha(a[0])
  }

  /** Letters, digits, underscores and dots. */
  predicate Plain(s: string)
  {
    forall i :: 0 <= i < |s| ==> Text.IsAsciiAlpha(s[i]) || Text.IsDigit(s[i]) || s[i] == '_' || s[i] == '.'
  }

  /** A deny under a rule's code, or under the rule where it wrote none. */
  function DeniedBy(reason: Option<Reason>, code: Option<string>, source: string): (d: Decision)
  {
    Denied(reason, match code case Some(written) => written case None => source)
  }

  /** What the decision point says; without the request it needs, or on a document too deep, it is not asked. */
  function Answered(env: Env, call: PdpCall, site: Site, p: Payload): (r: PdpReply)
  {
    match (call.requiresLlmRequest && !p.structured.hasLlmRequest, p.structured.tooDeep)
    case (true, _) => Ok(Denied(Some(LlmRequestMissing), "pdp.llm_request_missing"))
    case (false, true) => Ok(Denied(Some(InputTooDeep), "pdp.input_too_deep"))
    case (false, false) => env.host.pdp(site)
  }

  /** A failed elicitation call denies with its own code; `on_error` covers it unless the store is out of reach. */
  predicate CallDenies(step: ElicitStep, e: ElicitationError, d: Decision)
  {
    var code := match e
      case HandlerViolation(code, _) => Some(code)
      case StoreUnavailable(code, _) => Some(code)
      case _ => None;
    && (OnErrorContinues(step.onError) ==> e.StoreUnavailable?)
    && d == DeniedBy(Some(ElicitCallFailed(e)), code, step.source)
  }

  /** A failure of the step itself, which `on_error: continue` covers. */
  predicate StepDenies(step: ElicitStep, reason: Reason, d: Decision)
  {
    !OnErrorContinues(step.onError) && d == Denied(Some(reason), step.source)
  }

  /** An answer of yes that is not genuine, or does not cover the request. */
  predicate ValidationDenies(env: Env, step: ElicitStep, site: Site, bag: Bag, d: Decision)
  {
    match env.host.validate(site)
    case Err(e) => CallDenies(step, e, d)
    case Ok(v) =>
      if !v.valid then StepDenies(step, ElicitInvalid(v.why), d)
      else
        && step.scope.Some?
        && match env.language.parse(step.scope.value)
           case None => StepDenies(step, ElicitScopeUnparsed(step.scope.value), d)
           case Some(expr) =>
             (match env.language.eval(expr, bag)
              case Definite(holds) => !holds && StepDenies(step, ElicitScopeFalse(step.scope.value), d)
              case Unorderable(key) => StepDenies(step, UnorderableKey(key), d))
  }

  predicate ElicitDenies(env: Env, step: ElicitStep, site: Site, bag: Bag, d: Decision)
  {
    match Underway(env, step, site, bag)
    case None =>
      if ResolveFrom(bag, step.from).None? then StepDenies(step, ElicitFromUnresolved(step.from), d)
      else env.host.dispatch(site).Err? && CallDenies(step, env.host.dispatch(site).error, d)
    case Some((_, live)) =>
      match env.host.check(site)
      case Err(e) => CallDenies(step, e, d)
      case Ok(StillPending) => false
      case Ok(Expired) => StepDenies(step, ElicitExpired, d)
      case Ok(Resolved(false)) => d == Denied(Some(ElicitDenied), step.source)
      case Ok(Resolved(true)) => ValidationDenies(env, step, site, live, d)
  }

  lemma CallReports(step: ElicitStep, site: Site, e: ElicitationError, bag: Bag, events: seq<Event>, d: Decision)
    ensures CallFails(step, site, e, bag, events).outcome == Halt(d) <==> CallDenies(step, e, d)
  {
  }

  lemma ValidationReports(env: Env, step: ElicitStep, site: Site, id: string, bag: Bag, events: seq<Event>, d: Decision)
    ensures RunValidate(env, step, site, id, bag, events).outcome == Halt(d) <==>
      ValidationDenies(env, step, site, bag, d)
  {
    var reply := env.host.validate(site);
    if reply.Err? {
      CallReports(step, site, reply.error, bag, events + [ElicitValidated(site, id, reply)], d);
    }
  }

  lemma CheckReports(env: Env, step: ElicitStep, site: Site, id: string, bag: Bag, events: seq<Event>, d: Decision)
    ensures RunCheck(env, step, site, id, bag, events).outcome == Halt(d) <==>
      match env.host.check(site)
      case Err(e) => CallDenies(step, e, d)
      case Ok(StillPending) => false
      case Ok(Expired) => StepDenies(step, ElicitExpired, d)
      case Ok(Resolved(false)) => d == Denied(Some(ElicitDenied), step.source)
      case Ok(Resolved(true)) => ValidationDenies(env, step, site, bag, d)
  {
    var reply := env.host.check(site);
    var seen := events + [ElicitChecked(site, id, reply)];
    if reply.Err? {
      CallReports(step, site, reply.error, bag, seen, d);
    } else if reply == Ok(Resolved(true)) {
      ValidationReports(env, step, site, id, bag, seen, d);
    }
  }

  /** An elicitation denies for exactly these reasons, under these codes. */
  lemma {:induction false} ElicitReports(env: Env, step: ElicitStep, site: Site, bag: Bag, d: Decision)
    ensures RunElicit(env, step, site, bag).outcome == Halt(d) <==> ElicitDenies(env, step, site, bag, d)
  {
    if ResolveFrom(bag, step.from).Some? {
      var dispatched := env.host.dispatch(site);
      var seen := [ElicitDispatched(site, step, ResolveFrom(bag, step.from).value, dispatched)];
      if GetString(bag, ID_KEY).Some? {
        CheckReports(env, step, site, GetString(bag, ID_KEY).value, bag, [], d);
      } else if dispatched.Ok? {
        CheckReports(env, step, site, dispatched.value.id, RecordDispatch(bag, step, dispatched.value), seen, d);
      } else {
        CallReports(step, site, dispatched.error, bag, seen, d);
      }
    }
  }

  /** A leaf effect denies with this decision. */
  ghost predicate LeafReports(env: Env, e: Effect, site: Site, fallback: string, w: World, d: Decision)
    requires Leaf(e)
  {
    match e
    case Allow => false
    case Taint(_, _) => false
    case Deny(reason, code) =>
      d == DeniedBy(match reason case Some(text) => Some(Written(text)) case None => None, code, fallback)
    case Plugin(name) =>
      (match env.host.plugin(site)
       case Err(detail) => d == Denied(Some(PluginFailed(name, detail)), "plugin:" + name)
       case Ok(reply) => d.Denied? && d == reply.decision)
    case Delegate(step) =>
      && !OnErrorContinues(step.onError)
      && (match env.host.delegate(site)
          case Err(detail) => d == Denied(Some(DelegationFailed(step.pluginName, detail)), step.source)
          case Ok(reply) => d.Denied? && d == reply.decision)
    case Elicit(step) => ElicitDenies(env, step, site, w.bag, d)
    case Restrict(spec) =>
      exists path :: env.language.resolve(spec, w.bag) == Err(path)
                     && d == Denied(Some(UnresolvedDenyList(path)), fallback)
    case FieldOp(path, stages) => FieldReports(env, path, stages, site, fallback, w, d)
  }

  /** A field operation denies for its path, for its fan-out, or with the fault of a pipeline it ran. */
  ghost predicate FieldReports(env: Env, path: string, stages: seq<Stage>, site: Site, fallback: string, w: World,
                               d: Decision)
  {
    match SideOf(path)
    case None => d == Denied(Some(FieldPathRoot(path)), fallback)
    case Some((side, sub)) =>
      match InPhase(env, side, w.payload)
      case None => false
      case Some(root) =>
        match env.foreign.expand(root, sub, Redacts(stages))
        case None => d == Denied(Some(FieldFanOut(path)), fallback)
        case Some(paths) =>
          exists fault :: RunPaths(env, w.bag, stages, site, 0, paths, root).fault == Some(fault)
                          && d == Denied(Some(FieldRejected(fault)), fallback)
  }

  lemma LeafReportsExactly(env: Env, e: Effect, site: Site, fallback: string, w: World, d: Decision)
    requires Leaf(e)
    ensures RunLeaf(env, e, site, fallback, w).outcome == Halt(d) <==> LeafReports(env, e, site, fallback, w, d)
  {
    if e.Elicit? {
      ElicitReports(env, e.elicitation, site, w.bag, d);
    }
  }

  // ---- Whole runs

  /** The effect halts the run, and this is the decision it halts it with. */
  ghost predicate Reports(env: Env, e: Effect, site: Site, fallback: string, w: World, d: Decision)
    decreases e, 2
  {
    match e
    case Sequential(effects) => ListReports(env, effects, site, 0, fallback, w, d)
    case Parallel(effects) =>
      var outs := RunBranches(env, effects, site, 0, fallback, w);
      var fates := Effective(Fates(env, site, 0, |effects|), outs);
      exists i :: FirstDecisive(fates, outs, i) && d == Merging.Reported(fates[i], outs[i], i, fallback)
    case When(guard, body, source) =>
      (match env.language.eval(guard, w.bag)
       case Unorderable(key) => d == Denied(Some(UnorderableKey(key)), source)
       case Definite(holds) => holds && ListReports(env, body, site, 0, source, w, d))
    case Pdp(call, onAllow, onDeny) =>
      (match Answered(env, call, site, w.payload)
       case Err(detail) => d == Denied(Some(PdpFailed(detail)), "pdp:" + call.dialect)
       case Ok(Allowed) => ListReports(env, onAllow, site + [0], 0, fallback, w, d)
       case Ok(Denied(reason, source)) =>
         // A reaction's own deny stands; otherwise the decision point's does.
         || ListReports(env, onDeny, site + [1], 0, fallback, w, d)
         || (d == Denied(reason, source) && RunList(env, onDeny, site + [1], 0, fallback, w).outcome.Continue?))
    case _ => LeafReports(env, e, site, fallback, w, d)
  }

  ghost predicate ListReports(env: Env, es: seq<Effect>, site: Site, k: nat, fallback: string, w: World, d: Decision)
    decreases es, 1
  {
    es != [] &&
    var first := Run(env, es[0], site + [k], fallback, w);
    if first.outcome.Continue? then ListReports(env, es[1..], site, k + 1, fallback, first.world, d)
    else Reports(env, es[0], site + [k], fallback, w, d)
  }

  ghost predicate FirstDecisive(fates: seq<Fate>, outs: seq<Out>, i: int)
  {
    && 0 <= i < |outs| == |fates| && Merging.Decisive(fates[i], outs[i])
    && forall j :: 0 <= j < i ==> !Merging.Decisive(fates[j], outs[j])
  }

  lemma SomeFirst(fates: seq<Fate>, outs: seq<Out>, i: nat) returns (first: nat)
    requires |fates| == |outs| && i < |outs| && Merging.Decisive(fates[i], outs[i])
    ensures FirstDecisive(fates, outs, first)
    decreases i
  {
    if j: nat :| j < i && Merging.Decisive(fates[j], outs[j]) {
      first := SomeFirst(fates, outs, j);
    } else {
      first := i;
    }
  }

  lemma BlockReports(fates: seq<Fate>, outs: seq<Out>, site: Site, fallback: string, w: World, d: Decision)
    requires |fates| == |outs|
    ensures Merged(fates, outs, site, fallback, w).outcome == Halt(d) <==>
      exists i :: FirstDecisive(fates, outs, i) && d == Merging.Reported(fates[i], outs[i], i, fallback)
  {
    if i: nat :| i < |outs| && Merging.Decisive(fates[i], outs[i]) {
      var first := SomeFirst(fates, outs, i);
      Merging.FirstBranchDecides(fates, outs, site, fallback, w, first);
    } else {
      Merging.NoBranchDecides(fates, outs, site, fallback, w);
    }
  }

  lemma AnsweredIs(env: Env, call: PdpCall, site: Site, p: Payload)
    ensures AskPdp(env, call, site, p) == Answered(env, call, site, p)
  {
  }

  /** Every run, of every tree under every schedule, halts with exactly the decision its first failing gate reports. */
  lemma {:induction false} ReportsExactly(env: Env, e: Effect, site: Site, fallback: string, w: World, d: Decision)
    ensures Run(env, e, site, fallback, w).outcome == Halt(d) <==> Reports(env, e, site, fallback, w, d)
    decreases e, 2
  {
    match e {
      case Sequential(effects) => ListReportsExactly(env, effects, site, 0, fallback, w, d);
      case Parallel(effects) =>
        var outs := RunBranches(env, effects, site, 0, fallback, w);
        BlockReports(Effective(Fates(env, site, 0, |effects|), outs), outs, site, fallback, w, d);
      case When(guard, body, source) => WhenReports(env, guard, body, source, site, fallback, w, d);
      case Pdp(call, onAllow, onDeny) => PdpReports(env, call, onAllow, onDeny, site, fallback, w, d);
      case _ => LeafReportsExactly(env, e, site, fallback, w, d);
    }
  }

  lemma {:induction false} WhenReports(env: Env, guard: Expression, body: seq<Effect>, source: string, site: Site,
                                       fallback: string, w: World, d: Decision)
    ensures var e := When(guard, body, source);
      Run(env, e, site, fallback, w).outcome == Halt(d) <==> Reports(env, e, site, fallback, w, d)
    decreases body, 3
  {
    ListReportsExactly(env, body, site, 0, source, w, d);
  }

  lemma {:induction false} PdpReports(env: Env, call: PdpCall, onAllow: seq<Effect>, onDeny: seq<Effect>, site: Site,
                                      fallback: string, w: World, d: Decision)
    ensures var e := Pdp(call, onAllow, onDeny);
      Run(env, e, site, fallback, w).outcome == Halt(d) <==> Reports(env, e, site, fallback, w, d)
    decreases Pdp(call, onAllow, onDeny), 1
  {
    AnsweredIs(env, call, site, w.payload);
    if AskPdp(env, call, site, w.payload) == Ok(Allowed) {
      ListReportsExactly(env, onAllow, site + [0], 0, fallback, w, d);
    } else if AskPdp(env, call, site, w.payload).Ok? {
      ListReportsExactly(env, onDeny, site + [1], 0, fallback, w, d);
    }
  }

  lemma {:induction false} ListReportsExactly(env: Env, es: seq<Effect>, site: Site, k: nat, fallback: string,
                                              w: World, d: Decision)
    ensures RunList(env, es, site, k, fallback, w).outcome == Halt(d) <==>
      ListReports(env, es, site, k, fallback, w, d)
    decreases es, 1
  {
    if es != [] {
      var first := Run(env, es[0], site + [k], fallback, w);
      ListStep(env, es, site, k, fallback, w, first);
      if first.outcome.Continue? {
        ListReportsExactly(env, es[1..], site, k + 1, fallback, first.world, d);
      } else {
        ReportsExactly(env, es[0], site + [k], fallback, w, d);
      }
    }
  }
}
