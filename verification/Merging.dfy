/** What a `parallel:` block reports: which branch's decision, and whose taints and constraints. */
module Merging {
  import opened Values
  import opened Rules
  import opened Constraints
  import opened Hosts
  import opened Elicitations
  import opened Effects
  import opened Interpreter

  /** The branch ended the block: it finished with a halt, or was lost. */
  predicate Decisive(fate: Fate, out: Out)
  {
    (fate.Runs? && out.outcome.Halt?) || fate.TimesOut? || fate.Panics?
  }

  /** The decision a decisive branch reports, under its own number. */
  function Reported(fate: Fate, out: Out, index: nat, fallback: string): (d: Decision)
    requires Decisive(fate, out)
  {
    match fate
    case Runs => out.outcome.decision
    case TimesOut(_) => Denied(Some(BranchTimedOut(index)), fallback)
    case Panics(_, message) => Denied(Some(BranchPanicked(index, message)), "parallel.branch_panic")
  }

  lemma {:induction false} MergeReports(fates: seq<Fate>, outs: seq<Out>, k: nat, site: Site, fallback: string, i: nat)
    requires |fates| == |outs| && i < |outs| && Decisive(fates[i], outs[i])
    requires forall j :: 0 <= j < i ==> !Decisive(fates[j], outs[j])
    ensures Merge(fates, outs, k, site, fallback).0 == Some(Reported(fates[i], outs[i], k + i, fallback))
    decreases |outs|
  {
    if i > 0 {
      assert forall j :: 0 <= j < i - 1 ==> fates[1..][j] == fates[j + 1] && outs[1..][j] == outs[j + 1];
      MergeReports(fates[1..], outs[1..], k + 1, site, fallback, i - 1);
    }
  }

  /** The first decisive branch, by its place in the list and not by when it ended, decides the block. */
  lemma {:induction false} FirstBranchDecides(fates: seq<Fate>, outs: seq<Out>, site: Site, fallback: string, w: World,
                                              i: nat)
    requires |fates| == |outs| && i < |outs| && Decisive(fates[i], outs[i])
    requires forall j :: 0 <= j < i ==> !Decisive(fates[j], outs[j])
    ensures Merged(fates, outs, site, fallback, w).outcome == Halt(Reported(fates[i], outs[i], i, fallback))
  {
    MergeReports(fates, outs, 0, site, fallback, i);
  }

  lemma {:induction false} MergeSilent(fates: seq<Fate>, outs: seq<Out>, k: nat, site: Site, fallback: string)
    requires |fates| == |outs| && forall j :: 0 <= j < |outs| ==> !Decisive(fates[j], outs[j])
    ensures Merge(fates, outs, k, site, fallback).0 == None
    decreases |outs|
  {
    if outs != [] {
      assert forall j :: 0 <= j < |outs[1..]| ==> fates[1..][j] == fates[j + 1] && outs[1..][j] == outs[j + 1];
      MergeSilent(fates[1..], outs[1..], k + 1, site, fallback);
    }
  }

  /** With no decisive branch the block continues. */
  lemma {:induction false} NoBranchDecides(fates: seq<Fate>, outs: seq<Out>, site: Site, fallback: string, w: World)
    requires |fates| == |outs| && forall j :: 0 <= j < |outs| ==> !Decisive(fates[j], outs[j])
    ensures Merged(fates, outs, site, fallback, w).outcome == Continue
  {
    MergeSilent(fates, outs, 0, site, fallback);
  }

  /** The logs of the finished branches, in input order. */
  function Finished(fates: seq<Fate>, outs: seq<Out>): (r: seq<Log>)
    requires |fates| == |outs|
    decreases |outs|
  {
    if outs == [] then []
    else (if fates[0].Runs? then [outs[0].log] else []) + Finished(fates[1..], outs[1..])
  }

  function AllTaints(logs: seq<Log>): (r: seq<TaintEvent>)
  {
    if logs == [] then [] else logs[0].taints + AllTaints(logs[1..])
  }

  function AllConstraints(logs: seq<Log>): (r: seq<CandidateConstraint>)
  {
    if logs == [] then [] else logs[0].constraints + AllConstraints(logs[1..])
  }

  lemma {:induction false} MergeCollects(fates: seq<Fate>, outs: seq<Out>, k: nat, site: Site, fallback: string)
    requires |fates| == |outs|
    ensures var log := Merge(fates, outs, k, site, fallback).1;
      && log.taints == AllTaints(Finished(fates, outs)) && log.constraints == AllConstraints(Finished(fates, outs))
      && !log.argsModified && !log.resultModified
    decreases |outs|
  {
    if outs != [] {
      MergeCollects(fates[1..], outs[1..], k + 1, site, fallback);
      var rest := Finished(fates[1..], outs[1..]);
      if fates[0].Runs? {
        assert ([outs[0].log] + rest)[1..] == rest;
      } else {
        assert [] + rest == rest;
      }
    }
  }

  /** Halted or not, a block keeps the taints and constraints of its finished branches, in input order. */
  lemma {:induction false} BlockCollects(fates: seq<Fate>, outs: seq<Out>, site: Site, fallback: string, w: World)
    requires |fates| == |outs|
    ensures var r := Merged(fates, outs, site, fallback, w);
      && r.log.taints == AllTaints(Finished(fates, outs)) && r.log.constraints == AllConstraints(Finished(fates, outs))
      && !r.log.argsModified && !r.log.resultModified && r.world == w
  {
    MergeCollects(fates, outs, 0, site, fallback);
  }
}
