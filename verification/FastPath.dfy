/** The synchronous rule evaluator, and its agreement with the effect interpreter. */
module FastPath {
  import opened Values
  import opened Attributes
  import opened Rules
  import opened Hosts
  import opened Elicitations
  import opened Effects
  import opened Interpreter
  import Predicates

  /** The first deny among a fired rule's effects; the synchronous path skips everything else. */
  function FirstDeny(effects: seq<Effect>, source: string): (r: Option<Decision>)
    decreases |effects|
  {
    if effects == [] then None
    else if effects[0].Deny? then Some(Denied(AsReason(effects[0].reason), Coded(effects[0].code, source)))
    else FirstDeny(effects[1..], source)
  }

  /** What one rule decides on its own: nothing, or a deny. */
  function RuleDenies(language: Language, rule: Rule, bag: Bag): (r: Option<Decision>)
  {
    match language.eval(rule.guard, bag)
    case Definite(false) => None
    case Definite(true) => FirstDeny(rule.effects, rule.source)
    case Unorderable(key) => Some(Denied(Some(UnorderableKey(key)), rule.source))
  }

  function DecideRules(language: Language, rules: seq<Rule>, bag: Bag): (d: Decision)
    decreases |rules|
  {
    if rules == [] then Allowed
    else
      var first := RuleDenies(language, rules[0], bag);
      if first.Some? then first.value else DecideRules(language, rules[1..], bag)
  }

  /** `evaluate_rules` as written. */
  method EvaluateRules(language: Language, rules: seq<Rule>, bag: Bag) returns (d: Decision)
    ensures d == DecideRules(language, rules, bag)
  {
    assert rules[0..] == rules;
    for i := 0 to |rules|
      invariant DecideRules(language, rules, bag) == DecideRules(language, rules[i..], bag)
    {
      var rule := rules[i];
      assert rules[i..][0] == rule && rules[i..][1..] == rules[i + 1..];
      match language.eval(rule.guard, bag) {
        case Definite(holds) =>
          if holds {
            assert rule.effects[0..] == rule.effects;
            for j := 0 to |rule.effects|
              invariant FirstDeny(rule.effects, rule.source) == FirstDeny(rule.effects[j..], rule.source)
            {
              var effect := rule.effects[j];
              assert rule.effects[j..][0] == effect && rule.effects[j..][1..] == rule.effects[j + 1..];
              if effect.Deny? {
                return Denied(AsReason(effect.reason), Coded(effect.code, rule.source));
              }
            }
          }
        case Unorderable(key) =>
          return Denied(Some(UnorderableKey(key)), rule.source);
      }
    }
    return Allowed;
  }

  /** Rules as `when:` effects, field for field. */
  function Converted(rules: seq<Rule>): (r: seq<Effect>)
    ensures |r| == |rules|
    decreases |rules|
  {
    if rules == [] then []
    else [When(rules[0].guard, rules[0].effects, rules[0].source)] + Converted(rules[1..])
  }

  predicate ControlOnly(effects: seq<Effect>)
  {
    forall i :: 0 <= i < |effects| ==> effects[i].Allow? || effects[i].Deny? || effects[i].Taint?
  }

  predicate AllControl(rules: seq<Rule>)
  {
    forall i :: 0 <= i < |rules| ==> ControlOnly(rules[i].effects)
  }

  /** The run halted with this decision, or continued when there is none, and changed nothing else. */
  predicate Decides(out: Out, w: World, d: Option<Decision>)
  {
    && out.world == w
    && out.outcome == if d.Some? then Halt(d.value) else Continue
  }

  lemma {:induction false} BodyDecides(env: Env, effects: seq<Effect>, site: Site, k: nat, source: string, w: World)
    requires ControlOnly(effects)
    ensures Decides(RunList(env, effects, site, k, source, w), w, FirstDeny(effects, source))
    decreases |effects|
  {
    if effects != [] {
      var first := Run(env, effects[0], site + [k], source, w);
      ListStep(env, effects, site, k, source, w, first);
      assert first == RunLeaf(env, effects[0], site + [k], source, w);
      BodyDecides(env, effects[1..], site, k + 1, source, w);
    }
  }

  lemma RuleDecides(env: Env, rule: Rule, site: Site, fallback: string, w: World)
    requires ControlOnly(rule.effects)
    ensures Decides(Run(env, When(rule.guard, rule.effects, rule.source), site, fallback, w), w,
                    RuleDenies(env.language, rule, w.bag))
  {
    BodyDecides(env, rule.effects, site, 0, rule.source, w);
  }

  lemma {:induction false} RulesDecide(env: Env, rules: seq<Rule>, site: Site, k: nat, w: World)
    requires AllControl(rules)
    ensures var d := DecideRules(env.language, rules, w.bag);
      Decides(RunList(env, Converted(rules), site, k, "", w), w, if d.Denied? then Some(d) else None)
    decreases |rules|
  {
    if rules != [] {
      var es := Converted(rules);
      assert es[0] == When(rules[0].guard, rules[0].effects, rules[0].source) && es[1..] == Converted(rules[1..]);
      var first := Run(env, es[0], site + [k], "", w);
      RuleDecides(env, rules[0], site + [k], "", w);
      ListStep(env, es, site, k, "", w, first);
      FirstDenyDenies(rules[0].effects, rules[0].source);
      if first.outcome.Continue? {
        RulesDecide(env, rules[1..], site, k + 1, w);
      }
    }
  }

  lemma {:induction false} FirstDenyDenies(effects: seq<Effect>, source: string)
    ensures FirstDeny(effects, source).Some? ==> FirstDeny(effects, source).value.Denied?
    decreases |effects|
  {
    if effects != [] {
      FirstDenyDenies(effects[1..], source);
    }
  }

  /**
   * On rules whose effects are Allow, Deny or Taint, the synchronous path returns the decision of the
   * effect interpreter, reason and source included; the interpreter leaves the world alone and never
   * suspends.
   */
  lemma {:induction false} FastPathRefines(env: Env, rules: seq<Rule>, w: World)
    requires AllControl(rules)
    ensures var out := RunPhase(env, Converted(rules), w);
      && Report(out).decision == DecideRules(env.language, rules, w.bag)
      && Report(out).pending.None? && out.world == w
  {
    RulesDecide(env, rules, [], 0, w);
  }

  /**
   * Beyond those effects the two paths part: a rule that only runs a plugin never denies on the
   * synchronous path, whatever the plugin answers.
   */
  lemma {:induction false} PluginSkipped(env: Env, guard: Expression, name: string, source: string, w: World)
    requires env.language.eval(guard, w.bag) == Predicates.Definite(true)
    requires env.host.plugin([0, 0]).Err?
    ensures var rules := [Rule(guard, [Plugin(name)], source)];
      && DecideRules(env.language, rules, w.bag) == Allowed
      && RunPhase(env, Converted(rules), w).outcome.Halt?
  {
    var body := [Plugin(name)];
    var rules := [Rule(guard, body, source)];
    var es := Converted(rules);
    assert es == [When(guard, body, source)];
    assert [0] + [0] == [0, 0];
    var inner := Run(env, body[0], [0] + [0], source, w);
    assert inner.outcome.Halt?;
    ListStep(env, body, [0], 0, source, w, inner);
    var whole := Run(env, es[0], [] + [0], "", w);
    assert [] + [0] == [0];
    assert whole.outcome.Halt?;
    ListStep(env, es, [], 0, "", w, whole);
    assert FirstDeny(body, source) == FirstDeny(body[1..], source);
  }
}
