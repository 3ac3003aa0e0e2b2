/**
 The workload readiness counter (pkg/k8s/client.go): the closure returned by
 WorkloadsReadyConditionWithContextFunc, with its two captured counters as fields.
 */
module Readiness {
  import opened Wrappers

  datatype WorkloadState = WorkloadState(name: string, ok: bool)

  /** What one call finds: the states of the workloads, or an error. */
  type Finding = Option<seq<WorkloadState>>

  /** What the callback is told. */
  datatype Report = Report(
    allReady: bool, total: nat, ready: seq<WorkloadState>, unready: seq<WorkloadState>,
    iteration: nat, okIterations: nat)

  function Those(states: seq<WorkloadState>, ok: bool): seq<WorkloadState> {
    if states == [] then []
    else Those(states[..|states| - 1], ok) + if states[|states| - 1].ok == ok then [states[|states| - 1]] else []
  }

  predicate AllReady(states: seq<WorkloadState>) {
    forall i :: 0 <= i < |states| ==> states[i].ok
  }

  /** The calls that found states, in order. */
  function Found(calls: seq<Finding>): seq<seq<WorkloadState>> {
    if calls == [] then []
    else
      var last := calls[|calls| - 1];
      Found(calls[..|calls| - 1]) + if last.None? then [] else [last.value]
  }

  /** `n` is the length of the longest run of all-ready findings at the end. */
  predicate IsStreak(found: seq<seq<WorkloadState>>, n: nat) {
    && n <= |found|
    && (forall i :: |found| - n <= i < |found| ==> AllReady(found[i]))
    && (n < |found| ==> !AllReady(found[|found| - n - 1]))
  }

  /** The list of the ready, or of the unready: exactly those states, each once, in the order of the
      states. `at` says where each of them stood. */
  lemma {:induction false} ThoseInOrder(states: seq<WorkloadState>, ok: bool) returns (at: seq<nat>)
    ensures |at| == |Those(states, ok)|
    ensures forall i :: 0 <= i < |at| ==> at[i] < |states| && states[at[i]] == Those(states, ok)[i]
    ensures forall i, j :: 0 <= i < j < |at| ==> at[i] < at[j]
    ensures forall k: nat :: k < |states| ==> (states[k].ok == ok <==> k in at)
  {
    if states == [] {
      at := [];
    } else {
      var n := |states| - 1;
      var before := ThoseInOrder(states[..n], ok);
      at := before + if states[n].ok == ok then [n] else [];
    }
  }

  class Counter {
    var iteration: nat
    var okIterations: nat
    ghost var calls: seq<Finding>

    ghost predicate Valid()
      reads this
    {
      iteration == |Found(calls)| && IsStreak(Found(calls), okIterations)
    }

    constructor ()
      ensures Valid() && calls == []
    {
      iteration, okIterations, calls := 0, 0, [];
    }

    /** One call. `answer` is the callback, if there is one. Iteration counts the calls without
        error before this one, okIterations the all-ready calls up to this one since the last that
        was not; a call with an error neither extends nor ends that run. */
    method Call(finding: Finding, answer: Option<Report -> bool>) returns (done: Option<bool>, told: Option<Report>)
      requires Valid()
      modifies this
      ensures Valid() && calls == old(calls) + [finding]
      ensures finding.None? ==> done.None? && told.None?
      ensures finding.None? ==> iteration == old(iteration) && okIterations == old(okIterations)
      ensures finding.Some? ==> iteration == old(iteration) + 1
      ensures finding.Some? ==> told == Some(Report(AllReady(finding.value), |finding.value|,
                Those(finding.value, true), Those(finding.value, false), old(iteration), okIterations))
      ensures finding.Some? ==>
                done == Some(if answer.Some? then answer.value(told.value) else AllReady(finding.value))
    {
      ghost var before := Found(calls);
      ghost var streak := okIterations;
      FoundNext(calls, finding);
      calls := calls + [finding];
      if finding.None? {
        return None, None;
      }
      var states := finding.value;
      var allReady := true;
      var ready, unready := [], [];
      for i := 0 to |states|
        invariant ready == Those(states[..i], true) && unready == Those(states[..i], false)
        invariant allReady == AllReady(states[..i])
        invariant okIterations == if allReady then streak else 0
        invariant iteration == |before| && calls == old(calls) + [finding]
      {
        OneMoreState(states, i);
        if !states[i].ok {
          allReady := false;
          okIterations := 0;
          unready := unready + [states[i]];
        } else {
          ready := ready + [states[i]];
        }
      }
      assert states[..|states|] == states;
      if allReady {
        okIterations := okIterations + 1;
      }
      var report := Report(allReady, |states|, ready, unready, iteration, okIterations);
      told := Some(report);
      done := Some(if answer.Some? then answer.value(report) else allReady);
      iteration := iteration + 1;
      StreakGoesOn(before, streak, states, okIterations);
    }
  }

  lemma OneMoreState(states: seq<WorkloadState>, i: nat)
    requires i < |states|
    ensures Those(states[..i + 1], true) == Those(states[..i], true) + if states[i].ok then [states[i]] else []
    ensures Those(states[..i + 1], false) == Those(states[..i], false) + if states[i].ok then [] else [states[i]]
    ensures AllReady(states[..i + 1]) <==> AllReady(states[..i]) && states[i].ok
  {
    assert states[..i + 1][..i] == states[..i];
  }

  lemma FoundNext(calls: seq<Finding>, finding: Finding)
    ensures Found(calls + [finding]) == Found(calls) + if finding.None? then [] else [finding.value]
  {
    assert (calls + [finding])[..|calls|] == calls;
  }

  lemma StreakGoesOn(found: seq<seq<WorkloadState>>, n: nat, states: seq<WorkloadState>, m: nat)
    requires IsStreak(found, n) && m == if AllReady(states) then n + 1 else 0
    ensures IsStreak(found + [states], m)
  {
  }
}
