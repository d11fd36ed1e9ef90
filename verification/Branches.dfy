/** The branch pool behind `parallel:`: endings collected in whatever order the runtime joins branches. */
module Branches {
  import opened Hosts
  import Interpreter
  import Effects

  datatype Ending<T> = Completed(value: T) | TimedOut | Aborted | Panicked(message: string)

  /** What joining the next branch reports, with its input index. */
  datatype Joined<T> =
    | Finished(index: nat, value: T)
    | Expired(index: nat)
    | Crashed(index: nat, message: string)
    | Cancelled(index: nat)

  /** The runtime: which branch is joined next, given those still out, whether an abort was asked for, and when. */
  datatype Runtime<!T> = Runtime(next: (set<nat>, bool, nat) -> Joined<T>, result: nat -> T)

  /**
   * What a runtime guarantees: it joins a branch that is still out, a finished branch with its own
   * result, and cancels only after an abort was asked for.
   */
  ghost predicate Obeys<T(!new)>(runtime: Runtime<T>)
  {
    forall running: set<nat>, aborting: bool, step: nat :: running != {} ==>
      JoinObeys(runtime, running, aborting, runtime.next(running, aborting, step))
  }

  ghost predicate JoinObeys<T>(runtime: Runtime<T>, running: set<nat>, aborting: bool, j: Joined<T>)
  {
    && j.index in running
    && (j.Finished? ==> j.value == runtime.result(j.index))
    && (j.Cancelled? ==> aborting)
  }

  function EndingOf<T>(j: Joined<T>): (e: Ending<T>)
  {
    match j
    case Finished(_, v) => Completed(v)
    case Expired(_) => TimedOut
    case Crashed(_, m) => Panicked(m)
    case Cancelled(_) => Aborted
  }

  function SlotOf<T>(done: map<nat, Ending<T>>, i: nat): (e: Ending<T>)
  {
    if i in done then done[i] else Aborted
  }

  ghost predicate SomeDeny<T>(done: map<nat, Ending<T>>, isDeny: T -> bool)
  {
    exists i :: i in done && done[i].Completed? && isDeny(done[i].value)
  }

  /** Every branch is still out or was joined, once, into its own slot. */
  ghost predicate Accounted<T>(n: nat, running: set<nat>, done: map<nat, Ending<T>>, joins: seq<Joined<T>>)
  {
    && (forall i :: i in running ==> i < n && i !in done)
    && (forall p :: 0 <= p < |joins| ==> joins[p].index < n && joins[p].index !in running
                                         && SlotOf(done, joins[p].index) == EndingOf(joins[p]))
    && (forall p, q :: 0 <= p < q < |joins| ==> joins[p].index != joins[q].index)
    && (forall i :: 0 <= i < n && i !in running ==> JoinedIn(joins, i))
    && (forall i :: i in done ==> i < n)
  }

  ghost predicate JoinedIn<T>(joins: seq<Joined<T>>, i: nat)
  {
    exists p :: 0 <= p < |joins| && joins[p].index == i
  }

  lemma AccountedStep<T>(n: nat, running: set<nat>, done: map<nat, Ending<T>>, joins: seq<Joined<T>>, j: Joined<T>)
    requires Accounted(n, running, done, joins) && j.index in running
    ensures Accounted(n, running - {j.index}, if j.Cancelled? then done else done[j.index := EndingOf(j)], joins + [j])
  {
    var all := joins + [j];
    assert all[|joins|] == j;
    forall i | 0 <= i < n && i !in running - {j.index}
      ensures JoinedIn(all, i)
    {
      if i != j.index {
        assert JoinedIn(joins, i);
        var p :| 0 <= p < |joins| && joins[p].index == i;
        assert all[p] == joins[p];
      }
    }
    forall p | 0 <= p < |joins|
      ensures joins[p].index != j.index
    {
    }
  }

  /** The join loop: outcomes keyed by input index; with `shortCircuit` the first deny has the rest aborted. */
  method Collect<T(!new)>(runtime: Runtime<T>, n: nat, shortCircuit: bool, isDeny: T -> bool)
    returns (done: map<nat, Ending<T>>, aborted: bool, ghost joins: seq<Joined<T>>)
    requires Obeys(runtime)
    ensures Accounted(n, {}, done, joins)
    ensures aborted ==> shortCircuit && SomeDeny(done, isDeny)
    ensures forall p :: 0 <= p < |joins| && joins[p].Cancelled? ==> aborted
    ensures forall i :: i in done && done[i].Completed? ==> done[i].value == runtime.result(i)
  {
    var running: set<nat> := {};
    for i := 0 to n
      invariant forall k :: k in running <==> 0 <= k < i
    {
      running := running + {i};
    }
    var step := 0;
    done, aborted, joins := map[], false, [];
    while running != {}
      invariant Accounted(n, running, done, joins)
      invariant aborted ==> shortCircuit && SomeDeny(done, isDeny)
      invariant forall p :: 0 <= p < |joins| && joins[p].Cancelled? ==> aborted
      invariant forall i :: i in done && done[i].Completed? ==> done[i].value == runtime.result(i)
      decreases |running|
    {
      var j := runtime.next(running, aborted, step);
      assert JoinObeys(runtime, running, aborted, j);
      AccountedStep(n, running, done, joins, j);
      DenyKept(done, isDeny, j, running);
      if !j.Cancelled? {
        done := done[j.index := EndingOf(j)];
      }
      if j.Finished? && isDeny(j.value) && shortCircuit && !aborted {
        aborted := true;
        assert done[j.index] == Completed(j.value);
      }
      running, joins, step := running - {j.index}, joins + [j], step + 1;
    }
  }

  lemma DenyKept<T>(done: map<nat, Ending<T>>, isDeny: T -> bool, j: Joined<T>, running: set<nat>)
    requires j.index !in done
    ensures SomeDeny(done, isDeny) ==> SomeDeny(done[j.index := EndingOf(j)], isDeny)
  {
    if SomeDeny(done, isDeny) {
      var i :| i in done && done[i].Completed? && isDeny(done[i].value);
      assert done[j.index := EndingOf(j)][i] == done[i];
    }
  }

  /**
   * `run_branches` under any runtime: every branch is joined once and its ending comes back in its own
   * slot, and a branch is aborted only when short-circuiting and some branch completed with a deny.
   */
  method RunBranches<T(!new)>(runtime: Runtime<T>, n: nat, shortCircuit: bool, isDeny: T -> bool)
    returns (out: seq<Ending<T>>, ghost joins: seq<Joined<T>>)
    requires Obeys(runtime)
    ensures |out| == n
    ensures forall i :: 0 <= i < n ==> JoinedIn(joins, i)
    ensures forall p, q :: 0 <= p < q < |joins| ==> joins[p].index != joins[q].index
    ensures forall p :: 0 <= p < |joins| ==> joins[p].index < n && out[joins[p].index] == EndingOf(joins[p])
    ensures forall i :: 0 <= i < n && out[i].Completed? ==> out[i].value == runtime.result(i)
    ensures (exists i :: 0 <= i < n && out[i].Aborted?) ==>
      shortCircuit && exists i :: 0 <= i < n && out[i].Completed? && isDeny(out[i].value)
  {
    var done, aborted;
    done, aborted, joins := Collect(runtime, n, shortCircuit, isDeny);
    out := [];
    for i := 0 to n
      invariant |out| == i
      invariant forall k :: 0 <= k < i ==> out[k] == SlotOf(done, k)
    {
      out := out + [SlotOf(done, i)];
    }
    if i :| 0 <= i < n && out[i].Aborted? {
      AbortedWasCancelled(n, done, joins, i);
      var k :| k in done && done[k].Completed? && isDeny(done[k].value);
      assert out[k] == done[k];
    }
  }

  lemma AbortedWasCancelled<T>(n: nat, done: map<nat, Ending<T>>, joins: seq<Joined<T>>, i: nat)
    requires Accounted(n, {}, done, joins) && i < n && SlotOf(done, i).Aborted?
    ensures exists p :: 0 <= p < |joins| && joins[p].Cancelled?
  {
    assert JoinedIn(joins, i);
    var p :| 0 <= p < |joins| && joins[p].index == i;
    assert SlotOf(done, joins[p].index) == EndingOf(joins[p]);
  }

  /** How a merge of the interpreter sees an ending; a lost branch got `seen` events far. */
  function FateOf<T>(e: Ending<T>, seen: nat): (f: Fate)
  {
    match e
    case Completed(_) => Runs
    case TimedOut => TimesOut(seen)
    case Aborted => Aborts(seen)
    case Panicked(m) => Panics(seen, m)
  }

  /**
   * The pool as `parallel:` uses it: whatever the runtime does with branches that would run to `outs`,
   * what it hands back meets the contract the interpreter's merge is proved under.
   */
  method PoolFates(runtime: Runtime<Effects.Out>, outs: seq<Effects.Out>, seen: nat -> nat) returns (fates: seq<Fate>)
    requires Obeys(runtime) && forall i :: 0 <= i < |outs| ==> runtime.result(i) == outs[i]
    ensures Interpreter.Legal(fates, outs)
  {
    var endings, _ := RunBranches(runtime, |outs|, true, Interpreter.Halts);
    fates := [];
    for i := 0 to |outs|
      invariant |fates| == i
      invariant forall k :: 0 <= k < i ==> fates[k] == FateOf(endings[k], seen(k))
    {
      fates := fates + [FateOf(endings[i], seen(i))];
    }
    EndingsLegal(endings, outs, fates);
  }

  lemma EndingsLegal(endings: seq<Ending<Effects.Out>>, outs: seq<Effects.Out>, fates: seq<Fate>)
    requires |endings| == |outs| == |fates|
    requires forall i :: 0 <= i < |outs| ==> (fates[i].Aborts? <==> endings[i].Aborted?)
    requires forall i :: 0 <= i < |outs| && endings[i].Completed? ==> fates[i].Runs? && endings[i].value == outs[i]
    requires (exists i :: 0 <= i < |outs| && endings[i].Aborted?) ==>
      exists i :: 0 <= i < |outs| && endings[i].Completed? && Interpreter.Halts(endings[i].value)
    ensures Interpreter.Legal(fates, outs)
  {
    if i :| 0 <= i < |fates| && fates[i].Aborts? {
      assert endings[i].Aborted?;
      var k :| 0 <= k < |outs| && endings[k].Completed? && Interpreter.Halts(endings[k].value);
      assert fates[k].Runs? && Interpreter.Halts(outs[k]);
    }
  }
}
