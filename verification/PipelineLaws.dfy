/** Laws of field pipelines: composition, masking, and what redaction erases. */
module PipelineLaws {
  import opened Values
  import opened Attributes
  import opened Rules
  import opened Hosts
  import opened Pipelines

  predicate Halted(o: FieldOutcome)
  {
    o.Drop? || o.Reject?
  }

  /** What a finished prefix hands on: its value, and whether it rewrote anything. */
  function Handed(o: FieldOutcome, v: Json): (r: Json)
  {
    if o.Replace? then o.value else v
  }

  /** A stage that reports no change hands its value on. */
  lemma UnchangedIsSame(env: Env, bag: Bag, stage: Stage, site: Site, v: Json)
    ensures var r := RunStage(env, bag, stage, site, v).result; r.Kept? && !r.changed ==> r.value == v
  {
  }

  /** A run of a prefix, continued by the run of the rest unless the prefix halted. */
  function Then(first: PipelineRun, second: PipelineRun): (r: PipelineRun)
  {
    if Halted(first.outcome) then first else Behind(first.taints, first.events, second)
  }

  lemma BehindThen(taints: seq<TaintEvent>, events: seq<Event>, first: PipelineRun, second: PipelineRun)
    ensures Behind(taints, events, Then(first, second)) == Then(Behind(taints, events, first), second)
  {
    BehindBehind(taints, events, first.taints, first.events, second);
  }

  lemma HeadOfConcat(p: seq<Stage>, q: seq<Stage>)
    ensures [] + q == q
    ensures p != [] ==> (p + q)[0] == p[0] && (p + q)[1..] == p[1..] + q
  {
  }

  /** A run whose first stage gave `step` and whose later stages gave `rest`. */
  function Onward(step: StageRun, index: nat, rest: PipelineRun): (r: PipelineRun)
  {
    match step.result
    case Rejected(fault) => PipelineRun(Reject(fault, index), step.taints, step.events)
    case Dropped => PipelineRun(Drop, step.taints, step.events)
    case Kept(_, _) => Behind(step.taints, step.events, rest)
  }

  /** One stage of a run, and the rest of the run behind it. */
  lemma StepOff(env: Env, bag: Bag, q: seq<Stage>, site: Site, index: nat, v: Json, replaced: bool, step: StageRun)
    returns (rest: PipelineRun)
    requires q != [] && step == RunStage(env, bag, q[0], site + [index], v)
    ensures RunStages(env, bag, q, site, index, v, replaced) == Onward(step, index, rest)
    ensures step.result.Kept? ==>
      rest == RunStages(env, bag, q[1..], site, index + 1, step.result.value, replaced || step.result.changed)
  {
    StagesUnfold(env, bag, q, site, index, v, replaced);
    rest := if step.result.Kept? then
      RunStages(env, bag, q[1..], site, index + 1, step.result.value, replaced || step.result.changed)
    else PipelineRun(Drop, [], []);
  }

  /** A pipeline entered with a rewritten value never ends in `Pass`. */
  lemma {:induction false} HandedOn(
    env: Env, bag: Bag, p: seq<Stage>, site: Site, index: nat, v: Json, replaced: bool)
    ensures replaced ==> !RunStages(env, bag, p, site, index, v, replaced).outcome.Pass?
    decreases |p|
  {
    if p != [] {
      StagesUnfold(env, bag, p, site, index, v, replaced);
      var step := RunStage(env, bag, p[0], site + [index], v);
      if step.result.Kept? {
        HandedOn(env, bag, p[1..], site, index + 1, step.result.value, replaced || step.result.changed);
      }
    }
  }

  /** `first` is the run of `p` and `whole` the run of `p ++ q`. */
  ghost predicate RunsOf(env: Env, bag: Bag, p: seq<Stage>, q: seq<Stage>, site: Site, index: nat, v: Json,
                         replaced: bool, first: PipelineRun, whole: PipelineRun)
  {
    && first == RunStages(env, bag, p, site, index, v, replaced)
    && whole == RunStages(env, bag, p + q, site, index, v, replaced)
  }

  /** `whole` is `first`, then `q` on what `first` handed on, its stages numbered after the first `n`. */
  ghost predicate Composed(env: Env, bag: Bag, q: seq<Stage>, site: Site, n: nat, v: Json,
                           first: PipelineRun, whole: PipelineRun)
  {
    whole == Then(first, RunStages(env, bag, q, site, n, Handed(first.outcome, v), first.outcome.Replace?))
  }

  /** What the later stages hand on does not depend on whether the first stage's value is looked at instead. */
  lemma SameHanded(env: Env, bag: Bag, p: seq<Stage>, site: Site, index: nat, v: Json, replaced: bool, step: StageRun,
                   rest: PipelineRun)
    requires p != [] && step == RunStage(env, bag, p[0], site + [index], v) && step.result.Kept?
    requires rest ==
      RunStages(env, bag, p[1..], site, index + 1, step.result.value, replaced || step.result.changed)
    ensures Handed(rest.outcome, v) == Handed(rest.outcome, step.result.value) || Halted(rest.outcome)
  {
    UnchangedIsSame(env, bag, p[0], site + [index], v);
    HandedOn(env, bag, p[1..], site, index + 1, step.result.value, replaced || step.result.changed);
  }

  lemma OnwardComposed(env: Env, bag: Bag, q: seq<Stage>, site: Site, index: nat, n: nat, v: Json, step: StageRun,
                       rest: PipelineRun, tail: PipelineRun)
    requires step.result.Kept? ==>
      && Composed(env, bag, q, site, n, step.result.value, rest, tail)
      && (Handed(rest.outcome, v) == Handed(rest.outcome, step.result.value) || Halted(rest.outcome))
    ensures Composed(env, bag, q, site, n, v, Onward(step, index, rest), Onward(step, index, tail))
  {
    if step.result.Kept? {
      BehindThen(step.taints, step.events, rest,
                 RunStages(env, bag, q, site, n, Handed(rest.outcome, step.result.value), rest.outcome.Replace?));
    }
  }

  lemma ComposeStep(env: Env, bag: Bag, p: seq<Stage>, q: seq<Stage>, site: Site, index: nat, v: Json,
                    replaced: bool, first: PipelineRun, whole: PipelineRun)
    returns (kept: bool, w: Json, again: bool, rest: PipelineRun, tail: PipelineRun)
    requires p != [] && RunsOf(env, bag, p, q, site, index, v, replaced, first, whole)
    ensures kept ==> RunsOf(env, bag, p[1..], q, site, index + 1, w, again, rest, tail)
    ensures !kept || Composed(env, bag, q, site, index + |p|, w, rest, tail) ==>
      Composed(env, bag, q, site, index + |p|, v, first, whole)
  {
    HeadOfConcat(p, q);
    var step := RunStage(env, bag, p[0], site + [index], v);
    rest := StepOff(env, bag, p, site, index, v, replaced, step);
    tail := StepOff(env, bag, p + q, site, index, v, replaced, step);
    kept, w, again := StepTaken(step, v, replaced);
    if kept {
      SameHanded(env, bag, p, site, index, v, replaced, step, rest);
    }
    if !kept || Composed(env, bag, q, site, index + |p|, w, rest, tail) {
      OnwardComposed(env, bag, q, site, index, index + |p|, v, step, rest, tail);
    }
  }

  /**
   * Running `p ++ q` is running `p`, then `q` on what `p` handed on, its stages numbered after `p`'s:
   * a drop or a rejection absorbs `q`, and taints concatenate.
   */
  lemma {:induction false} PipelineComposes(
    env: Env, bag: Bag, p: seq<Stage>, q: seq<Stage>, site: Site, index: nat, v: Json, replaced: bool,
    first: PipelineRun, whole: PipelineRun)
    requires RunsOf(env, bag, p, q, site, index, v, replaced, first, whole)
    ensures Composed(env, bag, q, site, index + |p|, v, first, whole)
    decreases |p|
  {
    if p == [] {
      HeadOfConcat(p, q);
      BehindBehind([], [], [], [], whole);
    } else {
      var kept, w, again, rest, tail := ComposeStep(env, bag, p, q, site, index, v, replaced, first, whole);
      if kept {
        PipelineComposes(env, bag, p[1..], q, site, index + 1, w, again, rest, tail);
      }
    }
  }

  predicate PluginFree(stages: seq<Stage>)
  {
    forall i :: 0 <= i < |stages| ==> !stages[i].PluginStage?
  }

  /** A rejection renumbered. */
  function Renumbered(o: FieldOutcome, shift: nat): (r: FieldOutcome)
  {
    if o.Reject? then Reject(o.fault, o.stage + shift) else o
  }

  /** Two runs alike up to the numbering of a rejection. */
  predicate Alike(a: PipelineRun, b: PipelineRun, shift: nat)
  {
    b == PipelineRun(Renumbered(a.outcome, shift), a.taints, a.events)
  }

  lemma StageAsksNoOne(env: Env, other: Env, bag: Bag, stage: Stage, here: Site, there: Site, v: Json)
    requires !stage.PluginStage? && env.foreign == other.foreign && env.language == other.language
    ensures RunStage(env, bag, stage, here, v) == RunStage(other, bag, stage, there, v)
  {
  }

  lemma OnwardAlike(step: StageRun, index: nat, shift: nat, x: PipelineRun, y: PipelineRun)
    requires step.result.Kept? ==> Alike(x, y, shift)
    ensures Alike(Onward(step, index, x), Onward(step, index + shift, y), shift)
  {
  }

  /** Two runs of one plugin-free pipeline, the second under another host, in another place and numbered anew. */
  ghost predicate Lockstep(env: Env, other: Env, bag: Bag, q: seq<Stage>, here: Site, there: Site, from: nat, to: nat,
                           v: Json, replaced: bool, a: PipelineRun, b: PipelineRun)
  {
    && PluginFree(q) && env.foreign == other.foreign && env.language == other.language
    && a == RunStages(env, bag, q, here, from, v, replaced)
    && b == RunStages(other, bag, q, there, to, v, replaced)
  }

  lemma SameStep(env: Env, other: Env, bag: Bag, q: seq<Stage>, here: Site, there: Site, from: nat, to: nat, v: Json,
                 replaced: bool, a: PipelineRun, b: PipelineRun)
    returns (step: StageRun, kept: bool, w: Json, again: bool, x: PipelineRun, y: PipelineRun)
    requires q != [] && Lockstep(env, other, bag, q, here, there, from, to, v, replaced, a, b)
    ensures kept == step.result.Kept? && a == Onward(step, from, x) && b == Onward(step, to, y)
    ensures kept ==> Lockstep(env, other, bag, q[1..], here, there, from + 1, to + 1, w, again, x, y)
  {
    step := RunStage(env, bag, q[0], here + [from], v);
    assert step == RunStage(other, bag, q[0], there + [to], v) by {
      StageAsksNoOne(env, other, bag, q[0], here + [from], there + [to], v);
    }
    x := StepOff(env, bag, q, here, from, v, replaced, step);
    y := StepOff(other, bag, q, there, to, v, replaced, step);
    kept, w, again := StepTaken(step, v, replaced);
  }

  /** What a stage hands on, if it keeps the value. */
  lemma StepTaken(step: StageRun, v: Json, replaced: bool) returns (kept: bool, w: Json, again: bool)
    ensures kept == step.result.Kept?
    ensures kept ==> w == step.result.value && again == (replaced || step.result.changed)
  {
    kept := step.result.Kept?;
    w, again := if kept then step.result.value else v, kept && (replaced || step.result.changed);
  }

  /** A plugin-free pipeline asks no one: its host, its field and its place only renumber rejections. */
  lemma {:induction false} PluginFreeShift(
    env: Env, other: Env, bag: Bag, q: seq<Stage>, here: Site, there: Site, index: nat, shift: nat, v: Json,
    replaced: bool, a: PipelineRun, b: PipelineRun)
    requires Lockstep(env, other, bag, q, here, there, index, index + shift, v, replaced, a, b)
    ensures Alike(a, b, shift)
    decreases |q|
  {
    if q != [] {
      var step, kept, w, again, x, y :=
        SameStep(env, other, bag, q, here, there, index, index + shift, v, replaced, a, b);
      if kept {
        PluginFreeShift(env, other, bag, q[1..], here, there, index + 1, shift, w, again, x, y);
      }
      OnwardAlike(step, index, shift, x, y);
    }
  }

  // ----- What stages may do -----

  /** Stages that only judge the value or record something about it. */
  predicate Judges(stage: Stage)
  {
    || stage.Type? || stage.Regex? || stage.Validate? || stage.Length? || stage.Range? || stage.Enum?
    || stage.TaintStage?
  }

  predicate AllJudge(stages: seq<Stage>)
  {
    forall i :: 0 <= i < |stages| ==> Judges(stages[i])
  }

  /** The stage lets the value by, wherever it stands. */
  predicate Accepts(env: Env, bag: Bag, stage: Stage, v: Json)
  {
    RunStage(env, bag, stage, [], v).result.Kept?
  }

  lemma JudgeStep(env: Env, bag: Bag, stage: Stage, site: Site, v: Json)
    requires Judges(stage)
    ensures var r := RunStage(env, bag, stage, site, v).result;
      if Accepts(env, bag, stage, v) then r == Kept(v, false) else r.Rejected?
  {
    StageAsksNoOne(env, env, bag, stage, site, [], v);
  }

  /**
   * A pipeline of judging stages never rewrites or drops: it passes the value exactly when every one of
   * its stages accepts that value, and rejects it otherwise.
   */
  lemma {:induction false} JudgingPassesExactly(env: Env, bag: Bag, stages: seq<Stage>, site: Site, index: nat, v: Json,
                                                r: PipelineRun)
    requires AllJudge(stages) && r == RunStages(env, bag, stages, site, index, v, false)
    ensures r.outcome.Pass? || r.outcome.Reject?
    ensures r.outcome.Pass? <==> forall i :: 0 <= i < |stages| ==> Accepts(env, bag, stages[i], v)
    decreases |stages|
  {
    if stages != [] {
      StagesUnfold(env, bag, stages, site, index, v, false);
      JudgeStep(env, bag, stages[0], site + [index], v);
      if Accepts(env, bag, stages[0], v) {
        JudgingPassesExactly(env, bag, stages[1..], site, index + 1, v,
                             RunStages(env, bag, stages[1..], site, index + 1, v, false));
        assert forall i :: 1 <= i < |stages| ==> stages[i] == stages[1..][i - 1];
        assert forall i :: 0 <= i < |stages[1..]| ==> stages[1..][i] == stages[i + 1];
      }
    }
  }

  /** So the order of judging stages decides only which rejection is reported. */
  lemma {:induction false} JudgingOrderIrrelevant(env: Env, bag: Bag, p: seq<Stage>, q: seq<Stage>, site: Site, v: Json)
    requires AllJudge(p) && multiset(p) == multiset(q)
    ensures RunStages(env, bag, p, site, 0, v, false).outcome.Pass? <==>
      RunStages(env, bag, q, site, 0, v, false).outcome.Pass?
  {
    SameStages(p, q);
    SameStages(q, p);
    JudgingPassesExactly(env, bag, p, site, 0, v, RunStages(env, bag, p, site, 0, v, false));
    JudgingPassesExactly(env, bag, q, site, 0, v, RunStages(env, bag, q, site, 0, v, false));
  }

  lemma SameStages(p: seq<Stage>, q: seq<Stage>)
    requires multiset(p) == multiset(q)
    ensures forall i :: 0 <= i < |q| ==> q[i] in p
  {
    forall i | 0 <= i < |q|
      ensures q[i] in p
    {
      assert q[i] in multiset(q);
      assert q[i] in multiset(p);
    }
  }

  /** The last `keep` characters show, and every other one is a star. */
  lemma {:induction false} MaskShows(s: string, keep: nat, i: nat)
    requires i < |s|
    ensures |Masked(s, keep)| == |s| && Masked(s, keep)[i] == if i + keep < |s| then '*' else s[i]
  {
  }

  // ----- Masking -----

  /** Masking twice keeps what both masks keep. */
  lemma MaskTwice(s: string, a: nat, b: nat)
    ensures Masked(Masked(s, a), b) == Masked(s, if a < b then a else b)
  {
    var n, least := |s|, if a < b then a else b;
    var once, twice, direct := Masked(s, a), Masked(Masked(s, a), b), Masked(s, least);
    assert |once| == n && |twice| == n && |direct| == n;
    forall i | 0 <= i < n ensures twice[i] == direct[i] {
      assert once[i] == if i < n - a then '*' else s[i];
      assert twice[i] == if i < n - b then '*' else once[i];
      assert direct[i] == if i < n - least then '*' else s[i];
    }
  }

  lemma {:induction false} MaskPipelineTwice(env: Env, bag: Bag, site: Site, index: nat, a: nat, b: nat, v: Json,
                                             replaced: bool)
    ensures RunStages(env, bag, [Mask(a), Mask(b)], site, index, v, replaced) ==
      RunStages(env, bag, [Mask(if a < b then a else b)], site, index, v, replaced)
  {
    var least := if a < b then a else b;
    StagesUnfold(env, bag, [Mask(a), Mask(b)], site, index, v, replaced);
    StagesUnfold(env, bag, [Mask(least)], site, index, v, replaced);
    if v.Str? {
      MaskTwice(v.s, a, b);
      assert [Mask(a), Mask(b)][1..] == [Mask(b)];
      StagesUnfold(env, bag, [Mask(b)], site, index + 1, Str(Masked(v.s, a)), true);
      assert [Mask(b)][1..] == [] && [Mask(least)][1..] == [];
    }
  }

  // ----- Redaction -----

  /**
   * Past an unconditional redact, and with no plugin after it, nothing about the value or about what
   * plugins said survives: any two inputs that reach it, under any two hosts, leave the same outcome.
   */
  lemma {:induction false} RedactErases(
    env: Env, other: Env, bag: Bag, p: seq<Stage>, q: seq<Stage>, site: Site, v: Json, w: Json,
    x: PipelineRun, y: PipelineRun)
    requires PluginFree(q) && env.foreign == other.foreign && env.language == other.language
    requires !Halted(RunStages(env, bag, p, site, 0, v, false).outcome)
    requires !Halted(RunStages(other, bag, p, site, 0, w, false).outcome)
    requires x == RunStages(env, bag, p + ([Redact(None)] + q), site, 0, v, false)
    requires y == RunStages(other, bag, p + ([Redact(None)] + q), site, 0, w, false)
    ensures x.outcome == y.outcome && !x.outcome.Pass?
  {
    RedactStep(env, bag, p, q, site, v, false);
    RedactStep(other, bag, p, q, site, w, false);
    AfterRedact(env, other, bag, q, site, |p| + 1, RunStages(env, bag, q, site, |p| + 1, REDACTED, true),
                RunStages(other, bag, q, site, |p| + 1, REDACTED, true));
  }

  lemma AfterRedact(env: Env, other: Env, bag: Bag, q: seq<Stage>, site: Site, index: nat, x: PipelineRun,
                    y: PipelineRun)
    requires PluginFree(q) && env.foreign == other.foreign && env.language == other.language
    requires x == RunStages(env, bag, q, site, index, REDACTED, true)
    requires y == RunStages(other, bag, q, site, index, REDACTED, true)
    ensures x.outcome == y.outcome && !x.outcome.Pass?
  {
    PluginFreeShift(env, other, bag, q, site, site, index, 0, REDACTED, true, x, y);
    HandedOn(env, bag, q, site, index, REDACTED, true);
  }

  lemma RedactStep(env: Env, bag: Bag, p: seq<Stage>, q: seq<Stage>, site: Site, v: Json, replaced: bool)
    requires !Halted(RunStages(env, bag, p, site, 0, v, replaced).outcome)
    ensures RunStages(env, bag, p + ([Redact(None)] + q), site, 0, v, replaced).outcome ==
      RunStages(env, bag, q, site, |p| + 1, REDACTED, true).outcome
  {
    var rest := [Redact(None)] + q;
    var first := RunStages(env, bag, p, site, 0, v, replaced);
    PipelineComposes(env, bag, p, rest, site, 0, v, replaced, first,
                     RunStages(env, bag, p + rest, site, 0, v, replaced));
    Redacted(env, bag, q, site, |p|, Handed(first.outcome, v), first.outcome.Replace?);
  }

  lemma Redacted(env: Env, bag: Bag, q: seq<Stage>, site: Site, index: nat, v: Json, replaced: bool)
    ensures RunStages(env, bag, [Redact(None)] + q, site, index, v, replaced).outcome ==
      RunStages(env, bag, q, site, index + 1, REDACTED, true).outcome
  {
    HeadOfConcat([Redact(None)], q);
    assert ([Redact(None)] + q)[1..] == q;
    StagesUnfold(env, bag, [Redact(None)] + q, site, index, v, replaced);
  }
}
