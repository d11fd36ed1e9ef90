/**
 * What each effect does, as functions of the world it runs in.
 *
 * A run yields an outcome, the world it leaves and a log of what it appended: taints, constraints,
 * payload changes, and the events it reached. The evaluator's accumulators are the caller's followed
 * by this log.
 */
module Effects {
  import opened Values
  import opened Attributes
  import opened Rules
  import opened Constraints
  import opened Hosts
  import opened Payloads
  import opened Elicitations
  import Pipelines

  datatype World = World(bag: Bag, payload: Payload)

  datatype Log = Log(
    taints: seq<TaintEvent>,
    constraints: seq<CandidateConstraint>,
    argsModified: bool,
    resultModified: bool,
    events: seq<Event>)

  datatype Out = Out(outcome: Outcome, world: World, log: Log)

  const SILENT := Log([], [], false, false, [])

  function Told(events: seq<Event>): (log: Log)
  {
    Log([], [], false, false, events)
  }

  /** One log followed by another; the modified flags only go from false to true. */
  function Join(a: Log, b: Log): (r: Log)
  {
    Log(a.taints + b.taints, a.constraints + b.constraints,
        a.argsModified || b.argsModified, a.resultModified || b.resultModified, a.events + b.events)
  }

  /** A run seen after an earlier log. */
  function After(log: Log, out: Out): (r: Out)
  {
    Out(out.outcome, out.world, Join(log, out.log))
  }

  lemma JoinLaws(a: Log, b: Log, c: Log)
    ensures Join(a, Join(b, c)) == Join(Join(a, b), c)
    ensures Join(SILENT, a) == a && Join(a, SILENT) == a
  {
    assert a.taints + (b.taints + c.taints) == (a.taints + b.taints) + c.taints;
    assert a.constraints + (b.constraints + c.constraints) == (a.constraints + b.constraints) + c.constraints;
    assert a.events + (b.events + c.events) == (a.events + b.events) + c.events;
    assert [] + a.taints == a.taints == a.taints + [];
    assert [] + a.constraints == a.constraints == a.constraints + [];
    assert [] + a.events == a.events == a.events + [];
  }

  lemma AfterLaws(a: Log, b: Log, out: Out)
    ensures After(a, After(b, out)) == After(Join(a, b), out)
    ensures After(SILENT, out) == out
  {
    JoinLaws(a, b, out.log);
    JoinLaws(out.log, SILENT, SILENT);
  }

  function Stays(outcome: Outcome, w: World, events: seq<Event>): (r: Out)
  {
    Out(outcome, w, Told(events))
  }

  // ---- Single effects

  function AsReason(text: Option<string>): (r: Option<Reason>)
  {
    if text.Some? then Some(Written(text.value)) else None
  }

  function RunPlugin(env: Env, name: string, site: Site, w: World): (r: Out)
  {
    var reply := env.host.plugin(site);
    var events := [PluginAsked(site, name, reply)];
    match reply
    case Err(detail) => Stays(Halt(Denied(Some(PluginFailed(name, detail)), "plugin:" + name)), w, events)
    case Ok(outcome) =>
      Out(if outcome.decision.Allowed? then Continue else Halt(outcome.decision), w,
          Log(outcome.taints, [], false, false, events))
  }

  /** The bag after a delegation was granted. */
  function RecordGrant(bag: Bag, o: DelegationOutcome): (r: Bag)
  {
    var b1 := bag["delegation.granted" := BoolValue(true)];
    var b2 :=
      if o.permissions == [] then b1
      else b1["delegation.granted.permissions" := StringSetValue(set p | p in o.permissions)];
    SetText(SetText(b2, "delegation.granted.audience", o.audience), "delegation.granted.expires_at", o.expiresAt)
  }

  function RunDelegate(env: Env, step: DelegateStep, site: Site, w: World): (r: Out)
  {
    var reply := env.host.delegate(site);
    var events := [Delegated(site, step, reply)];
    match reply
    case Err(detail) =>
      Stays(if OnErrorContinues(step.onError) then Continue
            else Halt(Denied(Some(DelegationFailed(step.pluginName, detail)), step.source)), w, events)
    case Ok(o) =>
      if o.decision.Allowed? then Stays(Continue, w.(bag := RecordGrant(w.bag, o)), events)
      else Stays(if OnErrorContinues(step.onError) then Continue else Halt(o.decision), w, events)
  }

  function RunRestrict(env: Env, spec: RestrictSpec, site: Site, fallback: string, w: World): (r: Out)
  {
    match env.language.resolve(spec, w.bag)
    case Err(path) =>
      Stays(Halt(Denied(Some(UnresolvedDenyList(path)), fallback)), w, [Restricted(site, spec, false)])
    case Ok(c) =>
      Out(Continue, w,
          Log([], if ConstrainsNothing(c) then [] else [c], false, false, [Restricted(site, spec, true)]))
  }

  /** The decision point's answer, with the two refusals made before it is called. */
  function AskPdp(env: Env, call: PdpCall, site: Site, payload: Payload): (r: PdpReply)
  {
    if call.requiresLlmRequest && !payload.structured.hasLlmRequest then
      Ok(Denied(Some(LlmRequestMissing), "pdp.llm_request_missing"))
    else if payload.structured.tooDeep then Ok(Denied(Some(InputTooDeep), "pdp.input_too_deep"))
    else env.host.pdp(site)
  }

  // ---- Field operations

  /** A field operation's loop over concrete paths: the rewritten side of the payload and what was emitted. */
  datatype FieldRun = FieldRun(
    fault: Option<StageFault>, root: Json, modified: bool, taints: seq<TaintEvent>, events: seq<Event>)

  /** The payload side after one path's pipeline, and whether the write took. */
  function Applied(root: Json, path: seq<string>, outcome: FieldOutcome): (r: (Json, bool))
  {
    var written :=
      match outcome
      case Replace(v) => SetAt(root, path, v)
      case Drop => RemoveAt(root, path)
      case _ => None;
    if written.Some? then (written.value, true) else (root, false)
  }

  function RunPaths(env: Env, bag: Bag, stages: seq<Stage>, site: Site, k: nat, paths: seq<seq<string>>, root: Json)
    : (r: FieldRun)
    decreases |paths|
  {
    if paths == [] then FieldRun(None, root, false, [], [])
    else
      match GetAt(root, paths[0])
      case None => RunPaths(env, bag, stages, site, k + 1, paths[1..], root)
      case Some(current) =>
        var run := Pipelines.RunStages(env, bag, stages, site + [k], 0, current, false);
        var events := run.events + [FieldRan(site + [k], run.outcome)];
        if run.outcome.Reject? then FieldRun(Some(run.outcome.fault), root, false, run.taints, events)
        else
          var (next, wrote) := Applied(root, paths[0], run.outcome);
          FieldBehind(wrote, run.taints, events, RunPaths(env, bag, stages, site, k + 1, paths[1..], next))
  }

  function FieldBehind(wrote: bool, taints: seq<TaintEvent>, events: seq<Event>, r: FieldRun): (b: FieldRun)
  {
    FieldRun(r.fault, r.root, wrote || r.modified, taints + r.taints, events + r.events)
  }

  lemma PathsStep(env: Env, bag: Bag, stages: seq<Stage>, site: Site, k: nat, paths: seq<seq<string>>, root: Json,
                  current: Json, run: Pipelines.PipelineRun)
    requires paths != [] && GetAt(root, paths[0]) == Some(current)
    requires run == Pipelines.RunStages(env, bag, stages, site + [k], 0, current, false)
    ensures var events := run.events + [FieldRan(site + [k], run.outcome)];
      RunPaths(env, bag, stages, site, k, paths, root) ==
      if run.outcome.Reject? then FieldRun(Some(run.outcome.fault), root, false, run.taints, events)
      else
        var (next, wrote) := Applied(root, paths[0], run.outcome);
        FieldBehind(wrote, run.taints, events, RunPaths(env, bag, stages, site, k + 1, paths[1..], next))
  {
  }

  predicate Redacts(stages: seq<Stage>)
  {
    exists i :: 0 <= i < |stages| && stages[i].Redact?
  }

  datatype Side = ArgsSide | ResultSide

  /** Which side of the payload a path names, and the path within it. */
  function SideOf(path: string): (r: Option<(Side, string)>)
  {
    if "args." <= path then Some((ArgsSide, path[5..]))
    else if "result." <= path then Some((ResultSide, path[7..]))
    else None
  }

  /** The value at a side, when that side is in phase and present. */
  function InPhase(env: Env, side: Side, p: Payload): (r: Option<Json>)
  {
    match side
    case ArgsSide => if env.phase.Pre? then Some(p.args) else None
    case ResultSide => if env.phase.Post? then p.result else None
  }

  function WithSide(p: Payload, side: Side, root: Json): (r: Payload)
  {
    if side.ArgsSide? then p.(args := root) else p.(result := Some(root))
  }

  function FieldOut(run: FieldRun, side: Side, fallback: string, w: World): (r: Out)
  {
    Out(if run.fault.None? then Continue else Halt(Denied(Some(FieldRejected(run.fault.value)), fallback)),
        w.(payload := WithSide(w.payload, side, run.root)),
        Log(run.taints, [], run.modified && side.ArgsSide?, run.modified && side.ResultSide?, run.events))
  }

  /** `dispatch_field_op`. */
  function RunFieldOp(env: Env, path: string, stages: seq<Stage>, site: Site, fallback: string, w: World): (r: Out)
  {
    match SideOf(path)
    case None => Stays(Halt(Denied(Some(FieldPathRoot(path)), fallback)), w, [FieldRefused(site)])
    case Some((side, subpath)) =>
      match InPhase(env, side, w.payload)
      case None => Stays(Continue, w, [FieldVisited(site)])
      case Some(root) =>
        match env.foreign.expand(root, subpath, Redacts(stages))
        case None => Stays(Halt(Denied(Some(FieldFanOut(path)), fallback)), w, [FieldRefused(site)])
        case Some(paths) =>
          var run := RunPaths(env, w.bag, stages, site, 0, paths, root);
          FieldOut(run.(events := [FieldVisited(site)] + run.events), side, fallback, w)
  }

  // ---- Leaves and nesting

  predicate Leaf(e: Effect)
  {
    !e.Sequential? && !e.Parallel? && !e.When? && !e.Pdp?
  }

  function RunLeaf(env: Env, e: Effect, site: Site, fallback: string, w: World): (r: Out)
    requires Leaf(e)
  {
    match e
    case Allow => Out(Continue, w, SILENT)
    case Deny(reason, code) =>
      Stays(Halt(Denied(AsReason(reason), Coded(code, fallback))), w, [DenyReached(site)])
    case Plugin(name) => RunPlugin(env, name, site, w)
    case Delegate(step) => RunDelegate(env, step, site, w)
    case Elicit(step) =>
      var run := RunElicit(env, step, site, w.bag);
      Stays(run.outcome, w.(bag := run.bag), run.events)
    case Taint(tag, scopes) => Out(Continue, w, Log([TaintEvent(tag, scopes)], [], false, false, []))
    case Restrict(spec) => RunRestrict(env, spec, site, fallback, w)
    case FieldOp(path, stages) => RunFieldOp(env, path, stages, site, fallback, w)
  }
}
