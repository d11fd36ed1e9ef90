/** Policy layers stacked from least to most specific. */
module Layers {
  import opened Values
  import opened Rules
  import opened Hosts
  import opened Effects
  import opened Interpreter
  import Composition

  /** A compiled block; overrides and the denial response are opaque to the evaluator. */
  datatype Layer = Layer(
    routeKey: string,
    args: seq<FieldRule>,
    preInvocation: seq<Effect>,
    result: seq<FieldRule>,
    postInvocation: seq<Effect>,
    pluginOverrides: map<string, Json>,
    response: Option<Json>)

  function Fields(rules: seq<FieldRule>): (r: set<string>)
  {
    set i | 0 <= i < |rules| :: rules[i].field
  }

  /** The rules whose field is not in `dropped`, in order. */
  function Keep(rules: seq<FieldRule>, dropped: set<string>): (r: seq<FieldRule>)
    decreases |rules|
  {
    if rules == [] then []
    else (if rules[0].field in dropped then [] else [rules[0]]) + Keep(rules[1..], dropped)
  }

  /** Field rules with a more specific layer's on top. */
  function Override(outer: seq<FieldRule>, inner: seq<FieldRule>): (r: seq<FieldRule>)
  {
    Keep(outer, Fields(inner)) + inner
  }

  /** `apply_layer` as a function: identity and response stay those of the outer layer. */
  function Layered(outer: Layer, inner: Layer): (r: Layer)
  {
    Layer(outer.routeKey,
          Override(outer.args, inner.args),
          outer.preInvocation + inner.preInvocation,
          Override(outer.result, inner.result),
          outer.postInvocation + inner.postInvocation,
          outer.pluginOverrides + inner.pluginOverrides,
          outer.response)
  }

  lemma {:induction false} KeepSnoc(rules: seq<FieldRule>, rule: FieldRule, dropped: set<string>)
    ensures Keep(rules + [rule], dropped) ==
      Keep(rules, dropped) + (if rule.field in dropped then [] else [rule])
    decreases |rules|
  {
    if rules != [] {
      assert (rules + [rule])[1..] == rules[1..] + [rule];
      KeepSnoc(rules[1..], rule, dropped);
    }
  }

  /** The route under construction. */
  class Route {
    var routeKey: string
    var args: seq<FieldRule>
    var preInvocation: seq<Effect>
    var result: seq<FieldRule>
    var postInvocation: seq<Effect>
    var pluginOverrides: map<string, Json>
    var response: Option<Json>

    ghost function Contents(): (l: Layer)
      reads this
    {
      Layer(routeKey, args, preInvocation, result, postInvocation, pluginOverrides, response)
    }

    constructor (key: string)
      ensures Contents() == Empty(key)
    {
      routeKey, args, preInvocation, result, postInvocation := key, [], [], [], [];
      pluginOverrides, response := map[], None;
    }

    static method Declared(rules: seq<FieldRule>) returns (fields: set<string>)
      ensures fields == Fields(rules)
    {
      fields := {};
      for i := 0 to |rules|
        invariant fields == Fields(rules[..i])
      {
        fields := fields + {rules[i].field};
        assert rules[..i + 1] == rules[..i] + [rules[i]];
        assert forall f :: f in Fields(rules[..i + 1]) <==> f in fields by {
          assert rules[..i + 1][i].field == rules[i].field;
          assert forall j :: 0 <= j < i ==> rules[..i + 1][j] == rules[..i][j];
        }
      }
      assert rules[..|rules|] == rules;
    }

    static method Retain(rules: seq<FieldRule>, dropped: set<string>) returns (kept: seq<FieldRule>)
      ensures kept == Keep(rules, dropped)
    {
      kept := [];
      for i := 0 to |rules|
        invariant kept == Keep(rules[..i], dropped)
      {
        KeepSnoc(rules[..i], rules[i], dropped);
        assert rules[..i + 1] == rules[..i] + [rules[i]];
        if rules[i].field !in dropped {
          kept := kept + [rules[i]];
        }
      }
      assert rules[..|rules|] == rules;
    }

    /** Adds a more specific layer on top, in place. */
    method ApplyLayer(inner: Layer)
      modifies this
      ensures Contents() == Layered(old(Contents()), inner)
    {
      preInvocation := preInvocation + inner.preInvocation;
      postInvocation := postInvocation + inner.postInvocation;
      var declared := Declared(inner.args);
      var kept := Retain(args, declared);
      args := kept + inner.args;
      declared := Declared(inner.result);
      kept := Retain(result, declared);
      result := kept + inner.result;
      pluginOverrides := pluginOverrides + inner.pluginOverrides;
    }

    /** Layers applied one after the other, least specific first. */
    method ApplyAll(layers: seq<Layer>)
      modifies this
      ensures Contents() == Stack(old(Contents()), layers)
    {
      assert layers[..0] == [];
      for i := 0 to |layers|
        invariant Contents() == Stack(old(Contents()), layers[..i])
      {
        ApplyLayer(layers[i]);
        assert layers[..i + 1] == layers[..i] + [layers[i]];
      }
      assert layers[..|layers|] == layers;
    }
  }

  function Empty(key: string): (l: Layer)
  {
    Layer(key, [], [], [], [], map[], None)
  }

  function Stack(base: Layer, layers: seq<Layer>): (r: Layer)
    decreases |layers|
  {
    if layers == [] then base
    else Layered(Stack(base, layers[..|layers| - 1]), layers[|layers| - 1])
  }

  lemma Regroup(a: seq<FieldRule>, b: seq<FieldRule>, c: seq<FieldRule>)
    ensures a + (b + c) == a + b + c
  {
  }

  // ---- Associativity

  lemma {:induction false} KeepConcat(a: seq<FieldRule>, b: seq<FieldRule>, dropped: set<string>)
    ensures Keep(a + b, dropped) == Keep(a, dropped) + Keep(b, dropped)
    decreases |a|
  {
    if a == [] {
      assert a + b == b;
    } else {
      assert (a + b)[1..] == a[1..] + b;
      KeepConcat(a[1..], b, dropped);
      Regroup(if a[0].field in dropped then [] else [a[0]], Keep(a[1..], dropped), Keep(b, dropped));
    }
  }

  lemma {:induction false} KeepTwice(a: seq<FieldRule>, s: set<string>, t: set<string>)
    ensures Keep(Keep(a, s), t) == Keep(a, s + t)
    decreases |a|
  {
    if a != [] {
      KeepTwice(a[1..], s, t);
      if a[0].field in s {
        assert [] + Keep(a[1..], s) == Keep(a[1..], s);
      } else {
        assert ([a[0]] + Keep(a[1..], s))[1..] == Keep(a[1..], s);
      }
    }
  }

  lemma {:induction false} KeptFields(a: seq<FieldRule>, s: set<string>, f: string)
    ensures f in Fields(Keep(a, s)) <==> f in Fields(a) && f !in s
    decreases |a|
  {
    if a != [] {
      KeptFields(a[1..], s, f);
      assert a == [a[0]] + a[1..];
      FieldsConcat([a[0]], a[1..], f);
      FieldsConcat(if a[0].field in s then [] else [a[0]], Keep(a[1..], s), f);
      assert f in Fields([a[0]]) <==> f == a[0].field by {
        assert [a[0]][0] == a[0];
      }
    }
  }

  lemma FieldsConcat(a: seq<FieldRule>, b: seq<FieldRule>, f: string)
    ensures f in Fields(a + b) <==> f in Fields(a) || f in Fields(b)
  {
    if f in Fields(a) {
      var i :| 0 <= i < |a| && a[i].field == f;
      assert (a + b)[i] == a[i];
    }
    if f in Fields(b) {
      var i :| 0 <= i < |b| && b[i].field == f;
      assert (a + b)[|a| + i] == b[i];
    }
  }

  lemma OverrideFields(b: seq<FieldRule>, c: seq<FieldRule>)
    ensures Fields(Override(b, c)) == Fields(b) + Fields(c)
  {
    forall f
      ensures f in Fields(Override(b, c)) <==> f in Fields(b) + Fields(c)
    {
      FieldsConcat(Keep(b, Fields(c)), c, f);
      KeptFields(b, Fields(c), f);
    }
  }

  lemma OverrideAssociative(a: seq<FieldRule>, b: seq<FieldRule>, c: seq<FieldRule>)
    ensures Override(Override(a, b), c) == Override(a, Override(b, c))
  {
    KeepConcat(Keep(a, Fields(b)), b, Fields(c));
    KeepTwice(a, Fields(b), Fields(c));
    OverrideFields(b, c);
  }

  /** Stacking does not depend on how layers are grouped. */
  lemma {:induction false} LayeredAssociative(a: Layer, b: Layer, c: Layer)
    ensures Layered(Layered(a, b), c) == Layered(a, Layered(b, c))
  {
    OverrideAssociative(a.args, b.args, c.args);
    OverrideAssociative(a.result, b.result, c.result);
    assert a.preInvocation + b.preInvocation + c.preInvocation == a.preInvocation + (b.preInvocation + c.preInvocation);
    assert a.postInvocation + b.postInvocation + c.postInvocation ==
           a.postInvocation + (b.postInvocation + c.postInvocation);
  }

  // ---- The rule in force for a field

  function RulesFor(f: string, rules: seq<FieldRule>): (r: seq<FieldRule>)
    decreases |rules|
  {
    if rules == [] then [] else (if rules[0].field == f then [rules[0]] else []) + RulesFor(f, rules[1..])
  }

  lemma {:induction false} RulesForConcat(f: string, a: seq<FieldRule>, b: seq<FieldRule>)
    ensures RulesFor(f, a + b) == RulesFor(f, a) + RulesFor(f, b)
    decreases |a|
  {
    if a == [] {
      assert a + b == b;
    } else {
      assert (a + b)[1..] == a[1..] + b;
      RulesForConcat(f, a[1..], b);
      Regroup(if a[0].field == f then [a[0]] else [], RulesFor(f, a[1..]), RulesFor(f, b));
    }
  }

  lemma {:induction false} RulesForKept(f: string, a: seq<FieldRule>, s: set<string>)
    ensures RulesFor(f, Keep(a, s)) == if f in s then [] else RulesFor(f, a)
    decreases |a|
  {
    if a != [] {
      RulesForKept(f, a[1..], s);
      RulesForConcat(f, if a[0].field in s then [] else [a[0]], Keep(a[1..], s));
    }
  }

  lemma {:induction false} RulesForNone(f: string, a: seq<FieldRule>)
    requires f !in Fields(a)
    ensures RulesFor(f, a) == []
    decreases |a|
  {
    if a != [] {
      assert a[0].field in Fields(a);
      assert forall i :: 0 <= i < |a[1..]| ==> a[1..][i] == a[i + 1];
      RulesForNone(f, a[1..]);
    }
  }

  lemma OverrideRules(f: string, outer: seq<FieldRule>, inner: seq<FieldRule>)
    ensures RulesFor(f, Override(outer, inner)) ==
      if f in Fields(inner) then RulesFor(f, inner) else RulesFor(f, outer)
  {
    RulesForConcat(f, Keep(outer, Fields(inner)), inner);
    RulesForKept(f, outer, Fields(inner));
    if f !in Fields(inner) {
      RulesForNone(f, inner);
    }
  }

  /** A layer's field rules, for the response or for the arguments. */
  function FieldRules(l: Layer, onResult: bool): (r: seq<FieldRule>)
  {
    if onResult then l.result else l.args
  }

  /** Each field's rules are those of the last layer that declares it, or the base's if none does. */
  lemma {:induction false} LastLayerWins(base: Layer, layers: seq<Layer>, onResult: bool, f: string, last: nat)
    requires last <= |layers|
    requires forall j :: last <= j < |layers| ==> f !in Fields(FieldRules(layers[j], onResult))
    requires last > 0 ==> f in Fields(FieldRules(layers[last - 1], onResult))
    ensures RulesFor(f, FieldRules(Stack(base, layers), onResult)) ==
      RulesFor(f, FieldRules(if last > 0 then layers[last - 1] else base, onResult))
    decreases |layers|
  {
    if layers != [] {
      var n := |layers| - 1;
      OverrideRules(f, FieldRules(Stack(base, layers[..n]), onResult), FieldRules(layers[n], onResult));
      if last <= n {
        LastLayerWins(base, layers[..n], onResult, f, last);
      }
    }
  }

  // ---- Denies of outer layers

  function PhaseEffects(l: Layer, phase: Phase): (r: seq<Effect>)
  {
    if phase.Pre? then l.preInvocation else l.postInvocation
  }

  /** The layers' effects of a phase, one layer after the other. */
  function EffectsOf(layers: seq<Layer>, phase: Phase): (r: seq<Effect>)
  {
    if layers == [] then [] else EffectsOf(layers[..|layers| - 1], phase) + PhaseEffects(layers[|layers| - 1], phase)
  }

  /** A stack runs the effects of every layer, the least specific first. */
  lemma {:induction false} EffectsStack(base: Layer, layers: seq<Layer>, phase: Phase)
    ensures PhaseEffects(Stack(base, layers), phase) == PhaseEffects(base, phase) + EffectsOf(layers, phase)
    decreases |layers|
  {
    if layers == [] {
      assert PhaseEffects(base, phase) + [] == PhaseEffects(base, phase);
    } else {
      var n := |layers| - 1;
      EffectsStack(base, layers[..n], phase);
      assert PhaseEffects(base, phase) + (EffectsOf(layers[..n], phase) + PhaseEffects(layers[n], phase)) ==
             PhaseEffects(base, phase) + EffectsOf(layers[..n], phase) + PhaseEffects(layers[n], phase);
    }
  }

  /**
   * A plugin is configured by the last layer that overrides it, or as in the base; the route's key and denial
   * response are the base's, whatever the layers say; and the last layer's field rules come last, as written.
   */
  lemma {:induction false} LastOverrideWins(base: Layer, layers: seq<Layer>, plugin: string, last: nat)
    requires last <= |layers|
    requires forall j :: last <= j < |layers| ==> plugin !in layers[j].pluginOverrides
    requires last > 0 ==> plugin in layers[last - 1].pluginOverrides
    ensures var r, top := Stack(base, layers), if last > 0 then layers[last - 1] else base;
      && (plugin in r.pluginOverrides <==> plugin in top.pluginOverrides)
      && (plugin in top.pluginOverrides ==> r.pluginOverrides[plugin] == top.pluginOverrides[plugin])
      && r.routeKey == base.routeKey && r.response == base.response
    ensures layers != [] ==> forall onResult ::
      var rules := FieldRules(layers[|layers| - 1], onResult);
      var all := FieldRules(Stack(base, layers), onResult);
      |rules| <= |all| && all[|all| - |rules|..] == rules
    decreases |layers|
  {
    if layers != [] {
      var n := |layers| - 1;
      if last <= n {
        LastOverrideWins(base, layers[..n], plugin, last);
      } else {
        KeyStays(base, layers[..n]);
      }
    }
  }

  lemma {:induction false} KeyStays(base: Layer, layers: seq<Layer>)
    ensures Stack(base, layers).routeKey == base.routeKey && Stack(base, layers).response == base.response
    decreases |layers|
  {
    if layers != [] {
      KeyStays(base, layers[..|layers| - 1]);
    }
  }

  lemma {:induction false} StackExtends(base: Layer, layers: seq<Layer>, phase: Phase)
    ensures PhaseEffects(base, phase) <= PhaseEffects(Stack(base, layers), phase)
    decreases |layers|
  {
    if layers != [] {
      StackExtends(base, layers[..|layers| - 1], phase);
    }
  }

  /**
   * When the outer layers alone deny or suspend, the whole stack ends with exactly their run: no more
   * specific layer can undo it, add to it, or even be reached.
   */
  lemma {:induction false} OuterLayersFinal(env: Env, base: Layer, layers: seq<Layer>, w: World)
    requires !RunPhase(env, PhaseEffects(base, env.phase), w).outcome.Continue?
    ensures RunPhase(env, PhaseEffects(Stack(base, layers), env.phase), w) ==
      RunPhase(env, PhaseEffects(base, env.phase), w)
  {
    StackExtends(base, layers, env.phase);
    PrefixFinal(env, PhaseEffects(base, env.phase), PhaseEffects(Stack(base, layers), env.phase), w);
  }

  lemma PrefixFinal(env: Env, a: seq<Effect>, whole: seq<Effect>, w: World)
    requires a <= whole && !RunPhase(env, a, w).outcome.Continue?
    ensures RunPhase(env, whole, w) == RunPhase(env, a, w)
  {
    Composition.ListComposes(env, a, whole[|a|..], [], 0, "", w, RunPhase(env, a, w));
    assert a + whole[|a|..] == whole;
  }
}
