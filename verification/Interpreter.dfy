/** The effect interpreter as a function: one effect, a list in order, and parallel branches. */
module Interpreter {
  import opened Values
  import opened Rules
  import opened Hosts
  import opened Elicitations
  import opened Effects

  // ---- Parallel branches

  predicate Halts(out: Out)
  {
    out.outcome.Halt?
  }

  /** Some branch the scheduler lets finish halts. */
  predicate SomeHalt(fates: seq<Fate>, outs: seq<Out>)
    requires |fates| == |outs|
  {
    exists i :: 0 <= i < |outs| && fates[i].Runs? && Halts(outs[i])
  }

  /** The contract of `run_branches`: a branch is aborted only once some completed branch has halted. */
  predicate Legal(fates: seq<Fate>, outs: seq<Out>)
  {
    && |fates| == |outs|
    && ((exists i :: 0 <= i < |fates| && fates[i].Aborts?) ==> SomeHalt(fates, outs))
  }

  function Unaborted(fates: seq<Fate>): (r: seq<Fate>)
    ensures |r| == |fates|
    ensures forall i :: 0 <= i < |r| ==> r[i] == if fates[i].Aborts? then Runs else fates[i]
  {
    seq(|fates|, i requires 0 <= i < |fates| => if fates[i].Aborts? then Runs else fates[i])
  }

  /** What the scheduler asked for, with aborts nothing called for undone. */
  function Effective(fates: seq<Fate>, outs: seq<Out>): (r: seq<Fate>)
    requires |fates| == |outs|
    ensures Legal(r, outs)
    ensures Legal(fates, outs) ==> r == fates
  {
    if SomeHalt(fates, outs) then fates else Unaborted(fates)
  }

  function Cut(events: seq<Event>, n: nat): (r: seq<Event>)
  {
    if n < |events| then events[..n] else events
  }

  /** What the merge sees of one branch: its own result, or the synthetic deny of one that was lost. */
  function Branch(fate: Fate, out: Out, index: nat, site: Site, fallback: string): (r: (Option<Decision>, Log))
  {
    match fate
    case Runs =>
      (if out.outcome.Halt? then Some(out.outcome.decision) else None,
       Log(out.log.taints, out.log.constraints, false, false, out.log.events))
    case Aborts(n) => (None, Told(Cut(out.log.events, n)))
    case TimesOut(n) =>
      (Some(Denied(Some(BranchTimedOut(index)), fallback)), Told(Cut(out.log.events, n) + [BranchLost(site)]))
    case Panics(n, message) =>
      (Some(Denied(Some(BranchPanicked(index, message)), "parallel.branch_panic")),
       Told(Cut(out.log.events, n) + [BranchLost(site)]))
  }

  /** The branches from number `k` on, in input order: first halt wins, logs concatenate. */
  function Merge(fates: seq<Fate>, outs: seq<Out>, k: nat, site: Site, fallback: string)
    : (r: (Option<Decision>, Log))
    requires |fates| == |outs|
    decreases |outs|
  {
    if outs == [] then (None, SILENT)
    else
      var (halt, log) := Branch(fates[0], outs[0], k, site + [k], fallback);
      var (rest, logs) := Merge(fates[1..], outs[1..], k + 1, site, fallback);
      (if halt.Some? then halt else rest, Join(log, logs))
  }

  function Merged(fates: seq<Fate>, outs: seq<Out>, site: Site, fallback: string, w: World): (r: Out)
    requires |fates| == |outs|
  {
    var (halt, log) := Merge(fates, outs, 0, site, fallback);
    Out(if halt.Some? then Halt(halt.value) else Continue, w, log)
  }

  function Fates(env: Env, site: Site, k: nat, n: nat): (r: seq<Fate>)
    ensures |r| == n
  {
    seq(n, i requires 0 <= i => env.host.fate(site + [k + i]))
  }

  // ---- The interpreter

  /** `dispatch_effect`. */
  function Run(env: Env, e: Effect, site: Site, fallback: string, w: World): (r: Out)
    decreases e, 2
  {
    match e
    case Sequential(effects) => RunList(env, effects, site, 0, fallback, w)
    case Parallel(effects) =>
      var outs := RunBranches(env, effects, site, 0, fallback, w);
      Merged(Effective(Fates(env, site, 0, |effects|), outs), outs, site, fallback, w)
    case When(guard, body, source) =>
      var verdict := env.language.eval(guard, w.bag);
      var seen := Told([GuardChecked(site, guard, w.bag, verdict)]);
      (match verdict
       case Definite(false) => Out(Continue, w, seen)
       case Unorderable(key) => Out(Halt(Denied(Some(UnorderableKey(key)), source)), w, seen)
       case Definite(true) => After(seen, RunList(env, body, site, 0, source, w)))
    case Pdp(call, onAllow, onDeny) =>
      var reply := AskPdp(env, call, site, w.payload);
      var seen := Told([PdpAsked(site, call, reply)]);
      (match reply
       case Err(detail) => Out(Halt(Denied(Some(PdpFailed(detail)), "pdp:" + call.dialect)), w, seen)
       case Ok(Allowed) => After(seen, RunList(env, onAllow, site + [0], 0, fallback, w))
       case Ok(denied) => After(seen, Denying(denied, RunList(env, onDeny, site + [1], 0, fallback, w))))
    case _ => RunLeaf(env, e, site, fallback, w)
  }

  /** Reactions to a deny that end clean leave the deny standing. */
  function Denying(denied: Decision, reactions: Out): (r: Out)
  {
    if reactions.outcome.Continue? then reactions.(outcome := Halt(denied)) else reactions
  }

  /** A list of effects in order, numbered from `k`, up to the first that does not continue. */
  function RunList(env: Env, es: seq<Effect>, site: Site, k: nat, fallback: string, w: World): (r: Out)
    decreases es, 1
  {
    if es == [] then Out(Continue, w, SILENT)
    else
      var first := Run(env, es[0], site + [k], fallback, w);
      if !first.outcome.Continue? then first
      else After(first.log, RunList(env, es[1..], site, k + 1, fallback, first.world))
  }

  /** Each branch on its own clone of the world. */
  function RunBranches(env: Env, es: seq<Effect>, site: Site, k: nat, fallback: string, w: World): (r: seq<Out>)
    ensures |r| == |es|
    decreases es, 1
  {
    if es == [] then []
    else [Run(env, es[0], site + [k], fallback, w)] + RunBranches(env, es[1..], site, k + 1, fallback, w)
  }

  /** The result of a phase: `decision` is Allow for a suspended phase too. */
  datatype Evaluation = Evaluation(
    decision: Decision,
    log: Log,
    pending: Option<PendingElicitation>)

  function Report(out: Out): (r: Evaluation)
  {
    match out.outcome
    case Continue => Evaluation(Allowed, out.log, None)
    case Halt(decision) => Evaluation(decision, out.log, None)
    case Pending(bundle) => Evaluation(Allowed, out.log, Some(bundle))
  }

  /** Allow with nothing pending: what lets a request through. */
  predicate CleanAllow(r: Evaluation)
  {
    r.decision.Allowed? && r.pending.None?
  }

  /** `evaluate_effects`. */
  function RunPhase(env: Env, es: seq<Effect>, w: World): (r: Out)
  {
    RunList(env, es, [], 0, "", w)
  }

  // ---- One-step facts

  lemma ListStep(env: Env, es: seq<Effect>, site: Site, k: nat, fallback: string, w: World, first: Out)
    requires es != [] && first == Run(env, es[0], site + [k], fallback, w)
    ensures RunList(env, es, site, k, fallback, w) ==
      if !first.outcome.Continue? then first
      else After(first.log, RunList(env, es[1..], site, k + 1, fallback, first.world))
  {
  }

  lemma BranchStep(env: Env, es: seq<Effect>, site: Site, k: nat, fallback: string, w: World, outs: seq<Out>)
    requires es != [] && outs == RunBranches(env, es, site, k, fallback, w)
    ensures outs[0] == Run(env, es[0], site + [k], fallback, w)
    ensures outs[1..] == RunBranches(env, es[1..], site, k + 1, fallback, w)
  {
  }
}
