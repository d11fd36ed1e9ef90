/** Field pipelines: validators, transforms and effects applied to one value, left to right. */
module Pipelines {
  import opened Values
  import opened Text
  import opened Attributes
  import opened Rules
  import opened Hosts

  const REDACTED := Str("[REDACTED]")

  predicate IsHex(c: char)
  {
    IsDigit(c) || 'a' <= c <= 'f' || 'A' <= c <= 'F'
  }

  /** 8-4-4-4-12 hexadecimal digits separated by `-`. */
  predicate IsUuidShape(s: string)
  {
    |s| == 36 && forall i :: 0 <= i < 36 ==> if i in {8, 13, 18, 23} then s[i] == '-' else IsHex(s[i])
  }

  predicate TypeChecks(check: TypeCheck, v: Json)
  {
    match check
    case StrType => v.Str?
    case IntType => v.Num? && AsI64(v.n).Some?
    case BoolType => v.Bool?
    case FloatType => v.Num? && (v.n.Fractional? || AsI64(v.n).Some?)
    case EmailType => v.Str? && '@' in v.s && '.' in v.s
    case UrlType => v.Str? && (StartsWith(v.s, "http://") || StartsWith(v.s, "https://"))
    case UuidType => v.Str? && IsUuidShape(v.s)
  }

  /** All but the last `keep` characters starred. */
  function Masked(s: string, keep: nat): (r: string)
  {
    var kept := if keep < |s| then keep else |s|;
    seq(|s| - kept, _ => '*') + s[|s| - kept..]
  }

  /** What one stage does to the value. */
  datatype StageResult = Kept(value: Json, changed: bool) | Dropped | Rejected(fault: StageFault)

  datatype StageRun = StageRun(result: StageResult, taints: seq<TaintEvent>, events: seq<Event>)

  function Quiet(result: StageResult): (r: StageRun)
  {
    StageRun(result, [], [])
  }

  function Verified(ok: bool, v: Json, fault: StageFault): (r: StageRun)
  {
    Quiet(if ok then Kept(v, false) else Rejected(fault))
  }

  function RunPluginStage(env: Env, name: string, site: Site, v: Json): (r: StageRun)
  {
    var reply := env.host.plugin(site);
    var events := [PluginAsked(site, name, reply)];
    match reply
    case Err(detail) => StageRun(Rejected(StagePluginFailed(name, detail)), [], events)
    case Ok(outcome) =>
      var result :=
        match outcome.decision
        case Denied(reason, _) => Rejected(StagePluginDenied(name, reason))
        case Allowed =>
          if outcome.modifiedValue.Some? then Kept(outcome.modifiedValue.value, true) else Kept(v, false);
      StageRun(result, outcome.taints, events)
  }

  /** One turn of the pipeline loop. */
  function RunStage(env: Env, bag: Bag, stage: Stage, site: Site, v: Json): (r: StageRun)
  {
    match stage
    case Type(check) => Verified(TypeChecks(check, v), v, WrongType(check))
    case Length(min, max) =>
      if !v.Str? then Quiet(Rejected(NotAString("len")))
      else
        Verified((min.Some? ==> min.value <= |v.s|) && (max.Some? ==> |v.s| <= max.value), v, OutsideLength(|v.s|))
    case Range(min, max) =>
      if !(v.Num? && AsI64(v.n).Some?) then Quiet(Rejected(NotAnInteger))
      else
        var n := AsI64(v.n).value;
        Verified((min.Some? ==> min.value <= n) && (max.Some? ==> n <= max.value), v, OutsideRange(n))
    case Enum(values) =>
      if !v.Str? then Quiet(Rejected(NotAString("enum"))) else Verified(v.s in values, v, NotListed(v.s))
    case Regex(pattern) =>
      if env.foreign.regexMatch(pattern, "").None? then Quiet(Rejected(BadPattern(pattern)))
      else if !v.Str? then Quiet(Rejected(NotAString("regex")))
      else Verified(env.foreign.regexMatch(pattern, v.s) == Some(true), v, NoMatch(pattern))
    case Validate(name) => Quiet(Rejected(NoValidator(name)))
    case Mask(keep) =>
      if !v.Str? then Quiet(Rejected(NotAString("mask"))) else Quiet(Kept(Str(Masked(v.s, keep)), true))
    case Redact(None) => Quiet(Kept(REDACTED, true))
    case Redact(Some(condition)) =>
      (match env.language.eval(condition, bag)
       case Definite(b) => Quiet(if b then Kept(REDACTED, true) else Kept(v, false))
       case Unorderable(key) => Quiet(Rejected(UnorderableCondition(key))))
    case Omit => Quiet(Dropped)
    case Hash => Quiet(Kept(Str("hash:" + env.foreign.digest(v)), true))
    case TaintStage(tag, scopes) => StageRun(Kept(v, false), [TaintEvent(tag, scopes)], [])
    case PluginStage(name) => RunPluginStage(env, name, site, v)
    case Scan(kind) =>
      var tag := if kind.InjectionScan? then "injection" else "PII";
      StageRun(if kind.PiiRedact? then Kept(REDACTED, true) else Kept(v, false), [TaintEvent(tag, [Session])], [])
  }

  datatype PipelineRun = PipelineRun(outcome: FieldOutcome, taints: seq<TaintEvent>, events: seq<Event>)

  function Finish(v: Json, replaced: bool): (r: FieldOutcome)
  {
    if replaced then Replace(v) else Pass
  }

  /** The stages from number `index` on, applied to `v`; `replaced` says whether an earlier stage rewrote it. */
  function RunStages(env: Env, bag: Bag, stages: seq<Stage>, site: Site, index: nat, v: Json, replaced: bool)
    : (r: PipelineRun)
    decreases |stages|
  {
    if stages == [] then PipelineRun(Finish(v, replaced), [], [])
    else
      var step := RunStage(env, bag, stages[0], site + [index], v);
      match step.result
      case Rejected(fault) => PipelineRun(Reject(fault, index), step.taints, step.events)
      case Dropped => PipelineRun(Drop, step.taints, step.events)
      case Kept(w, changed) =>
        var rest := RunStages(env, bag, stages[1..], site, index + 1, w, replaced || changed);
        PipelineRun(rest.outcome, step.taints + rest.taints, step.events + rest.events)
  }

  /** A run behind taints and events already emitted. */
  function Behind(taints: seq<TaintEvent>, events: seq<Event>, r: PipelineRun): (b: PipelineRun)
  {
    PipelineRun(r.outcome, taints + r.taints, events + r.events)
  }

  lemma BehindBehind(t1: seq<TaintEvent>, e1: seq<Event>, t2: seq<TaintEvent>, e2: seq<Event>, r: PipelineRun)
    ensures Behind(t1, e1, Behind(t2, e2, r)) == Behind(t1 + t2, e1 + e2, r)
    ensures Behind([], [], r) == r
  {
    assert t1 + (t2 + r.taints) == t1 + t2 + r.taints && e1 + (e2 + r.events) == e1 + e2 + r.events;
    assert [] + r.taints == r.taints && [] + r.events == r.events;
  }

  lemma StagesUnfold(env: Env, bag: Bag, stages: seq<Stage>, site: Site, index: nat, v: Json, replaced: bool)
    requires stages != []
    ensures var step := RunStage(env, bag, stages[0], site + [index], v);
      RunStages(env, bag, stages, site, index, v, replaced) ==
      match step.result
      case Rejected(fault) => PipelineRun(Reject(fault, index), step.taints, step.events)
      case Dropped => PipelineRun(Drop, step.taints, step.events)
      case Kept(w, changed) =>
        Behind(step.taints, step.events,
               RunStages(env, bag, stages[1..], site, index + 1, w, replaced || changed))
  {
  }

  /** `evaluate_pipeline` as written: `current`, `replaced` and the taints updated stage by stage. */
  method EvaluatePipeline(env: Env, bag: Bag, stages: seq<Stage>, site: Site, value: Json) returns (r: PipelineRun)
    ensures r == RunStages(env, bag, stages, site, 0, value, false)
  {
    var current, replaced := value, false;
    var taints, events := [], [];
    ghost var rest := RunStages(env, bag, stages, site, 0, value, false);
    BehindBehind([], [], [], [], rest);
    assert stages[0..] == stages;
    for index := 0 to |stages|
      invariant rest == RunStages(env, bag, stages[index..], site, index, current, replaced)
      invariant RunStages(env, bag, stages, site, 0, value, false) == Behind(taints, events, rest)
    {
      StagesUnfold(env, bag, stages[index..], site, index, current, replaced);
      assert stages[index..][0] == stages[index] && stages[index..][1..] == stages[index + 1..];
      var step := RunStage(env, bag, stages[index], site + [index], current);
      match step.result {
        case Rejected(fault) =>
          return PipelineRun(Reject(fault, index), taints + step.taints, events + step.events);
        case Dropped =>
          return PipelineRun(Drop, taints + step.taints, events + step.events);
        case Kept(next, changed) =>
          rest := RunStages(env, bag, stages[index + 1..], site, index + 1, next, replaced || changed);
          BehindBehind(taints, events, step.taints, step.events, rest);
          current, replaced := next, replaced || changed;
          taints, events := taints + step.taints, events + step.events;
      }
    }
    return PipelineRun(Finish(current, replaced), taints, events);
  }
}
