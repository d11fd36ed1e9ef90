/** What each stage of a field pipeline does, in terms of the values it meets. */
module Stages {
  import opened Values
  import opened Text
  import opened Attributes
  import opened Rules
  import opened Predicates
  import opened Hosts
  import opened Pipelines
  import opened PipelineLaws

  // ---- Judging stages

  /** Neither bound, where there is one, is crossed. */
  ghost predicate Between(lo: Option<int>, n: int, hi: Option<int>)
  {
    (forall b :: lo == Some(b) ==> b <= n) && (forall b :: hi == Some(b) ==> n <= b)
  }

  /** The value is of the type: text, a 64-bit integer, a number a double can stand for, and so on. */
  ghost predicate OfType(check: TypeCheck, v: Json)
  {
    match check
    case StrType => exists s :: v == Str(s)
    case BoolType => exists b :: v == Bool(b)
    case IntType => exists n: i64 :: v == Num(Whole(n))
    case FloatType => (exists n: i64 :: v == Num(Whole(n))) || (exists x :: v == Num(Fractional(x)))
    case EmailType => exists s: string :: v == Str(s) && '@' in s && '.' in s
    case UrlType => exists s: string :: v == Str("http://" + s) || v == Str("https://" + s)
    case UuidType => exists a, b, c, d, e :: IsUuid(a, b, c, d, e) && v == Str(UuidText(a, b, c, d, e))
  }

  predicate AllHex(s: string, n: nat)
  {
    |s| == n && forall i :: 0 <= i < n ==> s[i] in "0123456789abcdefABCDEF"
  }

  /** The same, as the code tells them. */
  predicate HexRun(s: string, n: nat)
  {
    |s| == n && forall i :: 0 <= i < n ==> IsHex(s[i])
  }

  lemma HexExactly(s: string, n: nat)
    ensures AllHex(s, n) <==> HexRun(s, n)
  {
    var hex := "0123456789abcdefABCDEF";
    forall c: char
      ensures IsHex(c) <==> c in hex
    {
      assert IsHex(c) ==> hex[if c <= '9' then c as int - '0' as int
                              else if c <= 'F' then 16 + (c as int - 'A' as int)
                              else 10 + (c as int - 'a' as int)] == c;
    }
  }

  predicate IsUuid(a: string, b: string, c: string, d: string, e: string)
  {
    AllHex(a, 8) && AllHex(b, 4) && AllHex(c, 4) && AllHex(d, 4) && AllHex(e, 12)
  }

  function UuidText(a: string, b: string, c: string, d: string, e: string): (s: string)
  {
    a + "-" + b + "-" + c + "-" + d + "-" + e
  }

  /** What a judging stage asks of a value. */
  ghost predicate Admits(env: Env, stage: Stage, v: Json)
    requires Judges(stage)
  {
    match stage
    case Type(check) => OfType(check, v)
    case Length(min, max) => exists s: string :: v == Str(s) && Between(min, |s|, max)
    case Range(min, max) => exists n: i64 :: v == Num(Whole(n)) && Between(min, n, max)
    case Enum(values) => exists i :: 0 <= i < |values| && v == Str(values[i])
    case Regex(pattern) =>
      && env.foreign.regexMatch(pattern, "").Some?
      && exists s :: v == Str(s) && env.foreign.regexMatch(pattern, s) == Some(true)
    case Validate(_) => false
    case TaintStage(_, _) => true
  }

  lemma UrlExactly(v: Json)
    ensures TypeChecks(UrlType, v) <==> OfType(UrlType, v)
  {
    if TypeChecks(UrlType, v) {
      if StartsWith(v.s, "http://") {
        assert v == Str("http://" + v.s[7..]);
      } else {
        assert v == Str("https://" + v.s[8..]);
      }
    }
    if OfType(UrlType, v) {
      var s: string :| v == Str("http://" + s) || v == Str("https://" + s);
      assert ("http://" + s)[..7] == "http://" && ("https://" + s)[..8] == "https://";
    }
  }

  lemma UuidParts(s: string)
    requires IsUuidShape(s)
    ensures exists a, b, c, d, e :: IsUuid(a, b, c, d, e) && Str(s) == Str(UuidText(a, b, c, d, e))
  {
    var a, b, c, d, e := s[..8], s[9..13], s[14..18], s[19..23], s[24..];
    assert s == a + [s[8]] + b + [s[13]] + c + [s[18]] + d + [s[23]] + e;
    assert s[8] == '-' && s[13] == '-' && s[18] == '-' && s[23] == '-';
    assert IsUuid(a, b, c, d, e) by {
      assert HexRun(a, 8) && HexRun(b, 4) && HexRun(c, 4) && HexRun(d, 4) && HexRun(e, 12);
      RunsAreParts(a, b, c, d, e);
    }
    assert Str(s) == Str(UuidText(a, b, c, d, e));
  }

  lemma RunsAreParts(a: string, b: string, c: string, d: string, e: string)
    ensures IsUuid(a, b, c, d, e) <==>
      HexRun(a, 8) && HexRun(b, 4) && HexRun(c, 4) && HexRun(d, 4) && HexRun(e, 12)
  {
    HexExactly(a, 8);
    HexExactly(b, 4);
    HexExactly(c, 4);
    HexExactly(d, 4);
    HexExactly(e, 12);
  }

  lemma UuidShaped(a: string, b: string, c: string, d: string, e: string)
    requires HexRun(a, 8) && HexRun(b, 4) && HexRun(c, 4) && HexRun(d, 4) && HexRun(e, 12)
    ensures IsUuidShape(UuidText(a, b, c, d, e))
  {
    var s := UuidText(a, b, c, d, e);
    assert s[8] == '-' && s[13] == '-' && s[18] == '-' && s[23] == '-';
    assert s[..8] == a && s[9..13] == b && s[14..18] == c && s[19..23] == d && s[24..] == e;
    forall i | 0 <= i < 36 && i !in {8, 13, 18, 23}
      ensures IsHex(s[i])
    {
      if i < 8 {
        assert s[i] == a[i];
      } else if i < 13 {
        assert s[i] == b[i - 9];
      } else if i < 18 {
        assert s[i] == c[i - 14];
      } else if i < 23 {
        assert s[i] == d[i - 19];
      } else {
        assert s[i] == e[i - 24];
      }
    }
  }

  lemma UuidExactly(v: Json)
    ensures TypeChecks(UuidType, v) <==> OfType(UuidType, v)
  {
    if TypeChecks(UuidType, v) {
      UuidParts(v.s);
    }
    if OfType(UuidType, v) {
      var a, b, c, d, e :| IsUuid(a, b, c, d, e) && v == Str(UuidText(a, b, c, d, e));
      RunsAreParts(a, b, c, d, e);
      UuidShaped(a, b, c, d, e);
    }
  }

  /** The type tests are these sets of values. */
  lemma {:induction false} TypesExactly(check: TypeCheck, v: Json)
    ensures TypeChecks(check, v) <==> OfType(check, v)
  {
    match check
    case UrlType => UrlExactly(v);
    case UuidType => UuidExactly(v);
    case _ =>
  }

  /** A judging stage lets by exactly the values it admits. */
  lemma {:induction false} AdmitsExactly(env: Env, bag: Bag, stage: Stage, v: Json)
    requires Judges(stage)
    ensures Accepts(env, bag, stage, v) <==> Admits(env, stage, v)
  {
    match stage
    case Type(check) => TypesExactly(check, v);
    case Enum(values) =>
      if v.Str? && v.s in values {
        var i :| 0 <= i < |values| && values[i] == v.s;
        assert v == Str(values[i]);
      }
    case _ =>
  }

  /** The first stage that does not admit the value is the one whose rejection is reported. */
  lemma {:induction false} FirstRejects(env: Env, bag: Bag, stages: seq<Stage>, site: Site, index: nat, v: Json,
                                        r: PipelineRun, i: nat)
    requires AllJudge(stages) && r == RunStages(env, bag, stages, site, index, v, false)
    requires i < |stages| && !Admits(env, stages[i], v) && forall j :: 0 <= j < i ==> Admits(env, stages[j], v)
    ensures r.outcome.Reject? && r.outcome.stage == index + i
    decreases |stages|
  {
    StagesUnfold(env, bag, stages, site, index, v, false);
    JudgeStep(env, bag, stages[0], site + [index], v);
    AdmitsExactly(env, bag, stages[0], v);
    if i > 0 {
      assert Admits(env, stages[0], v);
      assert forall j :: 0 <= j < i - 1 ==> stages[1..][j] == stages[j + 1];
      FirstRejects(env, bag, stages[1..], site, index + 1, v,
                   RunStages(env, bag, stages[1..], site, index + 1, v, false), i - 1);
    }
  }

  /** A pipeline of one stage. */
  function Alone(env: Env, bag: Bag, stage: Stage, site: Site, v: Json): (r: PipelineRun)
  {
    RunStages(env, bag, [stage], site, 0, v, false)
  }

  lemma AloneIs(env: Env, bag: Bag, stage: Stage, site: Site, v: Json)
    ensures var step := RunStage(env, bag, stage, site + [0], v);
      var r := Alone(env, bag, stage, site, v);
      && r.taints == step.taints && r.events == step.events
      && r.outcome == match step.result
                      case Rejected(fault) => Reject(fault, 0)
                      case Dropped => Drop
                      case Kept(w, changed) => if changed then Replace(w) else Pass
  {
    SingleIs(env, bag, stage, site, 0, v);
  }

  // ---- The course of a pipeline

  /** One stage on its own, at its place in the pipeline. */
  function Single(env: Env, bag: Bag, stage: Stage, site: Site, index: nat, v: Json): (r: PipelineRun)
  {
    RunStages(env, bag, [stage], site, index, v, false)
  }

  lemma SingleIs(env: Env, bag: Bag, stage: Stage, site: Site, index: nat, v: Json)
    ensures var step := RunStage(env, bag, stage, site + [index], v);
      var r := Single(env, bag, stage, site, index, v);
      && r.taints == step.taints && r.events == step.events
      && r.outcome == match step.result
                      case Rejected(fault) => Reject(fault, index)
                      case Dropped => Drop
                      case Kept(w, changed) => if changed then Replace(w) else Pass
  {
    StagesUnfold(env, bag, [stage], site, index, v, false);
    assert [stage][1..] == [];
    var step := RunStage(env, bag, stage, site + [index], v);
    assert step.taints + [] == step.taints && step.events + [] == step.events;
  }

  predicate Ends(o: FieldOutcome)
  {
    o.Drop? || o.Reject?
  }

  /** What the next stage meets. */
  function Onward(v: Json, o: FieldOutcome): (w: Json)
  {
    if o.Replace? then o.value else v
  }

  function AllTaints(steps: seq<PipelineRun>): (ts: seq<TaintEvent>)
  {
    if steps == [] then [] else steps[0].taints + AllTaints(steps[1..])
  }

  /** `steps` are the stages, each on its own, on the value that reached it, up to one that drops or rejects. */
  predicate IsCourse(env: Env, bag: Bag, stages: seq<Stage>, site: Site, index: nat, v: Json, vs: seq<Json>,
                     steps: seq<PipelineRun>)
  {
    && |steps| <= |stages| && |vs| == |steps| + 1 && vs[0] == v
    && forall i :: 0 <= i < |steps| ==>
         && IsStep(env, bag, stages[i], site, index + i, vs[i], steps[i], vs[i + 1])
         && (Ends(steps[i].outcome) ==> i == |steps| - 1)
  }

  predicate IsStep(env: Env, bag: Bag, stage: Stage, site: Site, index: nat, v: Json, step: PipelineRun, w: Json)
  {
    step == Single(env, bag, stage, site, index, v) && w == Onward(v, step.outcome)
  }

  predicate Stopped(steps: seq<PipelineRun>)
  {
    steps != [] && Ends(steps[|steps| - 1].outcome)
  }

  predicate SomeReplaced(steps: seq<PipelineRun>)
  {
    exists i :: 0 <= i < |steps| && steps[i].outcome.Replace?
  }

  /**
   * A pipeline hands each stage what the one before left. It ends as the first stage that drops or rejects
   * does; else with the last value, as a replacement exactly when some stage replaced. Its taints are those
   * of the stages it reached, in order.
   */
  lemma {:induction false} PipelineRuns(env: Env, bag: Bag, stages: seq<Stage>, site: Site, v: Json, r: PipelineRun)
    returns (vs: seq<Json>, steps: seq<PipelineRun>)
    requires r == RunStages(env, bag, stages, site, 0, v, false)
    ensures IsCourse(env, bag, stages, site, 0, v, vs, steps) && r.taints == AllTaints(steps)
    ensures Stopped(steps) ==> r.outcome == steps[|steps| - 1].outcome
    ensures !Stopped(steps) ==>
      |steps| == |stages| && r.outcome == if SomeReplaced(steps) then Replace(vs[|vs| - 1]) else Pass
  {
    vs, steps := CourseOf(env, bag, stages, site, 0, v, false, r);
  }

  lemma {:induction false} CourseOf(env: Env, bag: Bag, stages: seq<Stage>, site: Site, index: nat, v: Json, was: bool,
                                    r: PipelineRun)
    returns (vs: seq<Json>, steps: seq<PipelineRun>)
    requires r == RunStages(env, bag, stages, site, index, v, was)
    ensures IsCourse(env, bag, stages, site, index, v, vs, steps) && r.taints == AllTaints(steps)
    ensures Stopped(steps) ==> r.outcome == steps[|steps| - 1].outcome
    ensures !Stopped(steps) ==>
      |steps| == |stages| && r.outcome == if was || SomeReplaced(steps) then Replace(vs[|vs| - 1]) else Pass
    decreases |stages|
  {
    if stages == [] {
      return [v], [];
    }
    var first := Single(env, bag, stages[0], site, index, v);
    var w := Onward(v, first.outcome);
    var tail := RunStages(env, bag, stages[1..], site, index + 1, w, was || first.outcome.Replace?);
    CourseStep(env, bag, stages, site, index, v, was, first, tail);
    if Ends(first.outcome) {
      assert AllTaints([first]) == first.taints + [];
      return [v, w], [first];
    }
    var ws, rest := CourseOf(env, bag, stages[1..], site, index + 1, w, was || first.outcome.Replace?, tail);
    vs, steps := [v] + ws, [first] + rest;
    CourseLonger(env, bag, stages, site, index, v, first, ws, rest);
    StepsLonger(first, rest);
  }

  lemma CourseStep(env: Env, bag: Bag, stages: seq<Stage>, site: Site, index: nat, v: Json, was: bool,
                   first: PipelineRun, tail: PipelineRun)
    requires stages != [] && first == Single(env, bag, stages[0], site, index, v)
    requires tail == RunStages(env, bag, stages[1..], site, index + 1, Onward(v, first.outcome),
                               was || first.outcome.Replace?)
    ensures var r := RunStages(env, bag, stages, site, index, v, was);
      if Ends(first.outcome) then r.outcome == first.outcome && r.taints == first.taints
      else r.outcome == tail.outcome && r.taints == first.taints + tail.taints
  {
    StagesUnfold(env, bag, stages, site, index, v, was);
    SingleIs(env, bag, stages[0], site, index, v);
    StageKeeps(env, bag, stages[0], site + [index], v);
  }

  /** A stage that changes nothing hands on what it met. */
  lemma StageKeeps(env: Env, bag: Bag, stage: Stage, site: Site, v: Json)
    ensures var step := RunStage(env, bag, stage, site, v);
      step.result.Kept? && !step.result.changed ==> step.result.value == v
  {
  }

  lemma CourseLonger(env: Env, bag: Bag, stages: seq<Stage>, site: Site, index: nat, v: Json, first: PipelineRun,
                     ws: seq<Json>, rest: seq<PipelineRun>)
    requires stages != [] && first == Single(env, bag, stages[0], site, index, v) && !Ends(first.outcome)
    requires IsCourse(env, bag, stages[1..], site, index + 1, Onward(v, first.outcome), ws, rest)
    ensures IsCourse(env, bag, stages, site, index, v, [v] + ws, [first] + rest)
  {
    var vs, steps := [v] + ws, [first] + rest;
    forall i | 0 <= i < |steps|
      ensures IsStep(env, bag, stages[i], site, index + i, vs[i], steps[i], vs[i + 1])
      ensures Ends(steps[i].outcome) ==> i == |steps| - 1
    {
      if i > 0 {
        assert IsStep(env, bag, stages[1..][i - 1], site, index + 1 + (i - 1), ws[i - 1], rest[i - 1], ws[i]);
      }
    }
  }

  lemma StepsLonger(first: PipelineRun, rest: seq<PipelineRun>)
    requires !Ends(first.outcome)
    ensures AllTaints([first] + rest) == first.taints + AllTaints(rest)
    ensures Stopped([first] + rest) <==> Stopped(rest)
    ensures SomeReplaced([first] + rest) <==> first.outcome.Replace? || SomeReplaced(rest)
  {
    var steps := [first] + rest;
    assert steps[1..] == rest;
    if SomeReplaced(rest) {
      var i :| 0 <= i < |rest| && rest[i].outcome.Replace?;
      assert steps[i + 1].outcome.Replace?;
    }
    if first.outcome.Replace? {
      assert steps[0].outcome.Replace?;
    }
  }

  // ---- Stages that rewrite

  /** A redaction fires when it has no condition or the condition definitely holds, and never on a guess. */
  lemma {:induction false} RedactMeans(env: Env, bag: Bag, condition: Option<Expression>, site: Site, v: Json)
    ensures var o := Alone(env, bag, Redact(condition), site, v).outcome;
      && (o == Replace(Str("[REDACTED]")) <==>
            condition.None? || env.language.eval(condition.value, bag) == Definite(true))
      && (o == Pass <==> condition.Some? && env.language.eval(condition.value, bag) == Definite(false))
      && (o.Reject? <==> condition.Some? && env.language.eval(condition.value, bag).Unorderable?)
  {
    AloneIs(env, bag, Redact(condition), site, v);
  }

  /** Omitting drops whatever is there; hashing and masking replace it, masking only text. */
  lemma {:induction false} TransformsMean(env: Env, bag: Bag, keep: nat, site: Site, v: Json)
    ensures Alone(env, bag, Omit, site, v).outcome == Drop
    ensures Alone(env, bag, Hash, site, v).outcome == Replace(Str("hash:" + env.foreign.digest(v)))
    ensures v.Str? ==> Alone(env, bag, Mask(keep), site, v).outcome == Replace(Str(Masked(v.s, keep)))
    ensures !v.Str? ==> Alone(env, bag, Mask(keep), site, v).outcome.Reject?
  {
    AloneIs(env, bag, Omit, site, v);
    AloneIs(env, bag, Hash, site, v);
    AloneIs(env, bag, Mask(keep), site, v);
  }

  /** Scans taint the session with what they look for, and only the redacting one touches the value. */
  lemma {:induction false} ScansMean(env: Env, bag: Bag, kind: ScanKind, site: Site, v: Json)
    ensures var r := Alone(env, bag, Scan(kind), site, v);
      && r.taints == [TaintEvent(if kind == InjectionScan then "injection" else "PII", [Session])]
      && r.outcome == if kind == PiiRedact then Replace(Str("[REDACTED]")) else Pass
  {
    AloneIs(env, bag, Scan(kind), site, v);
  }

  /** A taint stage records its tag and lets the value by. */
  lemma {:induction false} TaintStageMeans(env: Env, bag: Bag, tag: string, scopes: seq<TaintScope>, site: Site,
                                           v: Json)
    ensures Alone(env, bag, TaintStage(tag, scopes), site, v) == PipelineRun(Pass, [TaintEvent(tag, scopes)], [])
  {
    AloneIs(env, bag, TaintStage(tag, scopes), site, v);
  }

  /** A plugin stage passes on the plugin's value, keeps the old one when it gave none, and rejects otherwise. */
  lemma {:induction false} PluginStageMeans(env: Env, bag: Bag, name: string, site: Site, v: Json)
    ensures var r := Alone(env, bag, PluginStage(name), site, v);
      match env.host.plugin(site + [0])
      case Err(detail) => r.outcome == Reject(StagePluginFailed(name, detail), 0) && r.taints == []
      case Ok(PluginOutcome(Denied(reason, _), taints, _)) =>
        r.outcome == Reject(StagePluginDenied(name, reason), 0) && r.taints == taints
      case Ok(PluginOutcome(Allowed, taints, None)) => r.outcome == Pass && r.taints == taints
      case Ok(PluginOutcome(Allowed, taints, Some(rewritten))) => r.outcome == Replace(rewritten) && r.taints == taints
  {
    AloneIs(env, bag, PluginStage(name), site, v);
  }
}
