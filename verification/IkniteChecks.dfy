/**
 The checks iknite really runs (pkg/checkers/phases.go) and why they can never deadlock.

 A forest is called backward when every check depends only on results that lie, with all their
 sub-results, before it in pre-order, and phases depend on nothing. Backward forests meet the
 hypotheses of the executor theorems; iknite's forest is one, with either API backend.
 */
module IkniteChecks {
  import opened Wrappers
  import opened CheckGraph
  import opened CheckSafety
  import opened CheckConfluence
  import opened CheckPrepare

  /** For each result of a forest numbered from `base`, the number after its last sub-result. */
  function EndsOf(cs: seq<Check>, base: nat): (ends: seq<nat>)
    ensures |ends| == |Pre(cs)|
    decreases cs
  {
    if cs == [] then [] else
    var end := Beside(cs, base);
    [end] + EndsOf(cs[0].subChecks, base + 1) + EndsOf(cs[1..], end)
  }

  ghost predicate LooksBack(pre: seq<Check>, ends: seq<nat>, i: nat)
    requires i < |pre| == |ends|
  {
    var ids := Resolve(pre, pre[i].dependsOn);
    && (forall k :: 0 <= k < |ids| ==> ends[ids[k]] <= i)
    && (pre[i].subChecks == [] || ids == [])
  }

  ghost predicate Backward(cs: seq<Check>) {
    forall i :: 0 <= i < |Pre(cs)| ==> LooksBack(Pre(cs), EndsOf(cs, 0), i)
  }

  // ----- backward forests are acyclic ------------------------------------------------------

  /** Sub-results come later than their phase, and end no later than it. */
  ghost predicate NodeNested(n: Node, ends: seq<nat>, base: nat, k: nat)
    requires k < |ends|
  {
    && base + k < ends[k] <= base + |ends|
    && forall m :: 0 <= m < |n.subs| ==>
         base + k < n.subs[m] < base + |ends| && ends[n.subs[m] - base] <= ends[k]
  }

  ghost predicate Nested(ns: seq<Node>, ends: seq<nat>, base: nat) {
    |ns| == |ends| && forall k {:trigger ns[k]} :: 0 <= k < |ns| ==> NodeNested(ns[k], ends, base, k)
  }

  ghost predicate TopsEnd(ids: seq<nat>, ends: seq<nat>, base: nat) {
    forall m :: 0 <= m < |ids| ==> base <= ids[m] < base + |ends| && ends[ids[m] - base] <= base + |ends|
  }

  lemma {:induction false} NodesNest(all: seq<Check>, cs: seq<Check>, base: nat, parent: Option<nat>)
    ensures Nested(NodesOf(all, cs, base, parent), EndsOf(cs, base), base)
    ensures TopsEnd(TopIds(cs, base), EndsOf(cs, base), base)
    decreases cs
  {
    if cs != [] {
      var c, base2 := cs[0], Beside(cs, base);
      NodesNest(all, c.subChecks, base + 1, Some(base));
      NodesNest(all, cs[1..], base2, parent);
      var head := Node(parent, TopIds(c.subChecks, base + 1), Resolve(all, c.dependsOn), c.fn);
      var inner, outer := NodesOf(all, c.subChecks, base + 1, Some(base)), NodesOf(all, cs[1..], base2, parent);
      ForestNests(head, inner, EndsOf(c.subChecks, base + 1), outer, EndsOf(cs[1..], base2), TopIds(cs[1..], base2),
                  base, base2);
      assert NodesOf(all, cs, base, parent) == [head] + inner + outer;
      assert EndsOf(cs, base) == [base2] + EndsOf(c.subChecks, base + 1) + EndsOf(cs[1..], base2);
    }
  }

  lemma ForestNests(head: Node, inner: seq<Node>, ends1: seq<nat>, outer: seq<Node>, ends2: seq<nat>, tops: seq<nat>,
                    base: nat, base2: nat)
    requires base2 == base + 1 + |ends1|
    requires Nested(inner, ends1, base + 1) && Nested(outer, ends2, base2)
    requires TopsEnd(head.subs, ends1, base + 1) && TopsEnd(tops, ends2, base2)
    ensures Nested([head] + inner + outer, [base2] + ends1 + ends2, base)
    ensures TopsEnd([base] + tops, [base2] + ends1 + ends2, base)
  {
  }

  /** Later ends first, and of two results with the same end the outer one last. */
  function BackRank(ends: seq<nat>): (rank: seq<nat>)
    ensures |rank| == |ends|
  {
    seq(|ends|, i requires 0 <= i < |ends| => ends[i] * (|ends| + 1) + (|ends| - i))
  }

  lemma RankDrops(ends: seq<nat>, j: nat, i: nat)
    requires i < |ends| && j < |ends| && (ends[j] < ends[i] || (ends[j] == ends[i] && j > i))
    ensures BackRank(ends)[j] < BackRank(ends)[i]
  {
    if ends[j] < ends[i] {
      Scale(ends[j], ends[i], |ends| + 1);
    }
  }

  lemma Scale(a: nat, b: nat, m: nat)
    requires a < b
    ensures a * m + m <= b * m
  {
    var c := b - a - 1;
    assert b * m == (a + 1 + c) * m == a * m + m + c * m;
    assert c * m >= 0;
  }

  /** Every backward forest meets the hypotheses of `FullRunEvaluates` and `DeadlockFree`. */
  lemma BackwardIsAcyclic(cs: seq<Check>)
    requires Backward(cs)
    ensures WellFormed(Doubled(GraphOf(cs))) && NoPhaseDeps(Doubled(GraphOf(cs)))
    ensures Ranked(Doubled(GraphOf(cs)), BackRank(EndsOf(cs, 0)))
  {
    var pre, h, ends := Pre(cs), GraphOf(cs), EndsOf(cs, 0);
    GraphOfWellFormed(cs);
    DoubledWellFormed(h);
    NodesOfFields(pre, cs, 0, None, h.nodes, pre);
    NodesNest(pre, cs, 0, None);
    forall i: nat | i < |pre|
      ensures RanksDrop(h.nodes[i], BackRank(ends), i) && (h.nodes[i].subs == [] || h.nodes[i].deps == [])
    {
      assert LooksBack(pre, ends, i) && NodeNested(h.nodes[i], ends, 0, i) && Describes(pre, h.nodes[i], pre[i]);
      NodeRanksDrop(pre, ends, h.nodes[i], i);
    }
    DoubledRanked(h, BackRank(ends));
  }

  /** All that a node waits for has a lower rank. */
  ghost predicate RanksDrop(n: Node, rank: seq<nat>, i: nat)
    requires i < |rank|
  {
    && (forall k :: 0 <= k < |n.deps| ==> n.deps[k] < |rank| && rank[n.deps[k]] < rank[i])
    && (forall k :: 0 <= k < |n.subs| ==> n.subs[k] < |rank| && rank[n.subs[k]] < rank[i])
  }

  lemma NodeRanksDrop(pre: seq<Check>, ends: seq<nat>, n: Node, i: nat)
    requires i < |pre| == |ends| && LooksBack(pre, ends, i) && NodeNested(n, ends, 0, i) && Describes(pre, n, pre[i])
    ensures RanksDrop(n, BackRank(ends), i)
  {
    forall k | 0 <= k < |n.deps|
      ensures n.deps[k] < |ends| && BackRank(ends)[n.deps[k]] < BackRank(ends)[i]
    {
      assert ends[n.deps[k]] <= i < ends[i];
      RankDrops(ends, n.deps[k], i);
    }
    forall k | 0 <= k < |n.subs|
      ensures n.subs[k] < |ends| && BackRank(ends)[n.subs[k]] < BackRank(ends)[i]
    {
      RankDrops(ends, n.subs[k], i);
    }
  }

  lemma DoubledRanked(h: Graph, rank: seq<nat>)
    requires |rank| == |h.nodes| && forall i: nat :: i < |rank| ==> RanksDrop(h.nodes[i], rank, i)
    ensures Ranked(Doubled(h), rank)
  {
    var g := Doubled(h);
    forall i: nat | i < |g.nodes|
      ensures RanksDrop(g.nodes[i], rank, i)
    {
      var deps := h.nodes[i].deps;
      assert RanksDrop(h.nodes[i], rank, i) && g.nodes[i] == h.nodes[i].(deps := deps + deps);
    }
  }

  // ----- the forest of ConfigureIkniteClusterChecker ---------------------------------------

  /** What each check function answers in a run. */
  type Answers = string -> bool

  function Leaf(answers: Answers, name: string, dependsOn: seq<string>): Check {
    Check(name, dependsOn, [], Fn(answers(name)))
  }

  function Phase(name: string, subChecks: seq<Check>): Check {
    Check(name, [], subChecks, NoFn)
  }

  function EnvironmentPhase(answers: Answers): Check {
    Phase("environment", [
            Leaf(answers, "ip_forward", []), Leaf(answers, "bridge_nf_call_iptables", []),
            Leaf(answers, "machine_id", []), Leaf(answers, "crictl_yaml", []),
            Leaf(answers, "prevented_service_kubelet", []), Leaf(answers, "iknite_service", []),
            Leaf(answers, "ip_bound", []), Leaf(answers, "domain_name", [])])
  }

  function ManifestsPhase(answers: Answers, backend: string): Check {
    Phase("manifests", [
            Leaf(answers, "manifest_" + backend, []), Leaf(answers, "manifest_apiserver", []),
            Leaf(answers, "manifest_controller", []), Leaf(answers, "manifest_scheduler", [])])
  }

  function ConfigurationPhase(answers: Answers, useEtcd: bool): Check {
    var backend := if useEtcd then "etcd" else "kine";
    Phase("configuration", [Leaf(answers, "pki", []), ManifestsPhase(answers, backend)] + [
            Leaf(answers, "kubelet_conf", []), Leaf(answers, "admin_conf", []),
            Leaf(answers, "kubelet_config", []), Leaf(answers, "kubeadm_flags", []),
            Leaf(answers, "iknite_conf", []), Leaf(answers, "api_backend_" + backend + "_data", [])])
  }

  function RuntimeLeaves(answers: Answers): seq<Check> {
    [ Leaf(answers, "openrc", []),
      Leaf(answers, "iknite_running", ["openrc"]),
      Leaf(answers, "containerd_running", ["openrc"]),
      Leaf(answers, "buildkitd_running", ["openrc"]),
      Leaf(answers, "kubelet_running", ["iknite_running"]),
      Leaf(answers, "kubelet_health", ["kubelet_running"]),
      Leaf(answers, "apiserver_health", ["kubelet_running"]),
      Leaf(answers, "iknite_server_health", ["apiserver_health"]) ]
  }

  function RuntimePart(answers: Answers): seq<Check> {
    [Phase("runtime", RuntimeLeaves(answers)), Leaf(answers, "workload_status", ["runtime"])]
  }

  function ClusterChecks(answers: Answers, useEtcd: bool): seq<Check> {
    [EnvironmentPhase(answers), ConfigurationPhase(answers, useEtcd)] + RuntimePart(answers)
  }

  // ----- its pre-order ---------------------------------------------------------------------

  lemma {:induction false} PreLeaves(cs: seq<Check>, base: nat)
    requires forall i :: 0 <= i < |cs| ==> cs[i].subChecks == []
    ensures Pre(cs) == cs
    ensures |EndsOf(cs, base)| == |cs| && forall i :: 0 <= i < |cs| ==> EndsOf(cs, base)[i] == base + i + 1
    decreases |cs|
  {
    if cs != [] {
      PreLeaves(cs[1..], base + 1);
      assert cs == [cs[0]] + [] + cs[1..];
    }
  }

  lemma ConsForest(c: Check, rest: seq<Check>, base: nat)
    ensures |Pre([c] + rest)| == |Pre([c])| + |Pre(rest)| && |Pre([c])| == 1 + |Pre(c.subChecks)|
    ensures |EndsOf([c] + rest, base)| == |Pre([c])| + |Pre(rest)|
    ensures EndsOf([c] + rest, base)[|Pre([c])|..] == EndsOf(rest, base + |Pre([c])|)
  {
  }

  ghost predicate Independent(cs: seq<Check>) {
    cs != [] ==> cs[0].dependsOn == [] && Independent(cs[0].subChecks) && Independent(cs[1..])
  }

  lemma {:induction false} IndependentPre(cs: seq<Check>)
    requires Independent(cs)
    ensures forall i :: 0 <= i < |Pre(cs)| ==> Pre(cs)[i].dependsOn == []
    decreases cs
  {
    if cs != [] {
      IndependentPre(cs[0].subChecks);
      IndependentPre(cs[1..]);
    }
  }

  lemma {:induction false} IndependentLeaves(cs: seq<Check>)
    requires forall i :: 0 <= i < |cs| ==> cs[i].subChecks == [] && cs[i].dependsOn == []
    ensures Independent(cs)
    decreases |cs|
  {
    if cs != [] {
      IndependentLeaves(cs[1..]);
    }
  }

  lemma FirstPhase(answers: Answers)
    ensures Independent([EnvironmentPhase(answers)]) && |Pre([EnvironmentPhase(answers)])| == 9
  {
    var leaves := EnvironmentPhase(answers).subChecks;
    PreLeaves(leaves, 0);
    IndependentLeaves(leaves);
  }

  lemma {:induction false} IndependentAppend(xs: seq<Check>, ys: seq<Check>)
    requires Independent(xs) && Independent(ys)
    ensures Independent(xs + ys)
    decreases |xs|
  {
    if xs == [] {
      assert xs + ys == ys;
    } else {
      IndependentAppend(xs[1..], ys);
      assert (xs + ys)[1..] == xs[1..] + ys;
    }
  }

  lemma SecondPhase(answers: Answers, useEtcd: bool)
    ensures Independent([ConfigurationPhase(answers, useEtcd)])
    ensures |Pre([ConfigurationPhase(answers, useEtcd)])| == 13
  {
    var backend := if useEtcd then "etcd" else "kine";
    var all := ConfigurationPhase(answers, useEtcd).subChecks;
    var pki, m, rest := [Leaf(answers, "pki", [])], ManifestsPhase(answers, backend).subChecks, all[2..];
    assert all == pki + [Phase("manifests", m)] + rest;
    PhaseBetween(pki, "manifests", m, rest);
  }

  /** Leaves, a phase of leaves, and leaves again. */
  lemma PhaseBetween(xs: seq<Check>, name: string, ys: seq<Check>, zs: seq<Check>)
    requires forall i :: 0 <= i < |xs| ==> xs[i].subChecks == [] && xs[i].dependsOn == []
    requires forall i :: 0 <= i < |ys| ==> ys[i].subChecks == [] && ys[i].dependsOn == []
    requires forall i :: 0 <= i < |zs| ==> zs[i].subChecks == [] && zs[i].dependsOn == []
    ensures Independent(xs + [Phase(name, ys)] + zs)
    ensures |Pre(xs + [Phase(name, ys)] + zs)| == |xs| + 1 + |ys| + |zs|
  {
    var m := [Phase(name, ys)];
    PreLeaves(xs, 0);
    PreLeaves(ys, 0);
    PreLeaves(zs, 0);
    IndependentLeaves(xs);
    IndependentLeaves(ys);
    IndependentLeaves(zs);
    PreConcat(xs, m);
    PreConcat(xs + m, zs);
    IndependentAppend(xs, m);
    IndependentAppend(xs + m, zs);
  }

  lemma ThirdPart(answers: Answers)
    ensures Pre(RuntimePart(answers)) ==
            [RuntimePart(answers)[0]] + RuntimeLeaves(answers) + [RuntimePart(answers)[1]]
    ensures EndsOf(RuntimePart(answers), 22) == [31, 24, 25, 26, 27, 28, 29, 30, 31, 32]
  {
    var part, leaves := RuntimePart(answers), RuntimeLeaves(answers);
    PreLeaves(leaves, 23);
    PreLeaves(part[1..], 31);
    assert EndsOf(leaves, 23) == [24, 25, 26, 27, 28, 29, 30, 31];
    assert EndsOf(part[1..], 31) == [32];
  }

  /** The pre-order of iknite's checks: 22 results without dependencies, then the runtime phase
      (number 22), its eight checks, and the workload check (number 31). */
  lemma ClusterPre(answers: Answers, useEtcd: bool) returns (first: seq<Check>)
    ensures |first| == 22 && forall i :: 0 <= i < 22 ==> first[i].dependsOn == []
    ensures Pre(ClusterChecks(answers, useEtcd)) ==
            first + ([RuntimePart(answers)[0]] + RuntimeLeaves(answers) + [RuntimePart(answers)[1]])
    ensures |EndsOf(ClusterChecks(answers, useEtcd), 0)| == 32
    ensures EndsOf(ClusterChecks(answers, useEtcd), 0)[22..] == [31, 24, 25, 26, 27, 28, 29, 30, 31, 32]
  {
    var a, b, part := [EnvironmentPhase(answers)], [ConfigurationPhase(answers, useEtcd)], RuntimePart(answers);
    FirstPhase(answers);
    SecondPhase(answers, useEtcd);
    ThirdPart(answers);
    IndependentPre(a);
    IndependentPre(b);
    PreConcat(a, b);
    PreConcat(a + b, part);
    ConsForest(a[0], b + part, 0);
    ConsForest(b[0], part, 9);
    assert EndsOf(a + (b + part), 0)[22..] == EndsOf(a + (b + part), 0)[9..][13..];
    assert a + (b + part) == a + b + part;
    first := Pre(a) + Pre(b);
    assert ClusterChecks(answers, useEtcd) == a + b + part;
  }

  ghost predicate RuntimeNames(pre: seq<Check>) {
    && |pre| == 32
    && pre[22].name == "runtime" && pre[23].name == "openrc" && pre[24].name == "iknite_running"
    && pre[25].name == "containerd_running" && pre[26].name == "buildkitd_running"
    && pre[27].name == "kubelet_running" && pre[28].name == "kubelet_health"
    && pre[29].name == "apiserver_health" && pre[30].name == "iknite_server_health"
    && pre[31].name == "workload_status"
  }

  /** Which numbers the dependency names of the runtime checks lead to. */
  lemma ClusterNames(pre: seq<Check>)
    requires RuntimeNames(pre)
    ensures Resolve(pre, ["runtime"]) == [22] && Resolve(pre, ["openrc"]) == [23]
    ensures Resolve(pre, ["iknite_running"]) == [24] && Resolve(pre, ["kubelet_running"]) == [27]
    ensures Resolve(pre, ["apiserver_health"]) == [29]
  {
  }

  lemma OneBackward(pre: seq<Check>, ends: seq<nat>, i: nat, c: Check, d: nat)
    requires i < |pre| == |ends| && pre[i] == c && c.subChecks == []
    requires Resolve(pre, c.dependsOn) == [d] && d < |ends| && ends[d] <= i
    ensures LooksBack(pre, ends, i)
  {
  }

  lemma RuntimeLooksBack(answers: Answers, pre: seq<Check>, ends: seq<nat>, i: nat)
    requires |pre| == |ends| == 32 && 23 < i < 31 && pre[23..31] == RuntimeLeaves(answers)
    requires ends[23] == 24 && ends[24] == 25 && ends[27] == 28 && ends[29] == 30
    requires Resolve(pre, ["openrc"]) == [23] && Resolve(pre, ["iknite_running"]) == [24]
    requires Resolve(pre, ["kubelet_running"]) == [27] && Resolve(pre, ["apiserver_health"]) == [29]
    ensures LooksBack(pre, ends, i)
  {
    var leaves := RuntimeLeaves(answers);
    assert pre[i] == pre[23..31][i - 23] == leaves[i - 23];
    if i <= 26 {
      OneBackward(pre, ends, i, leaves[i - 23], 23);
    } else if i == 27 {
      OneBackward(pre, ends, i, leaves[4], 24);
    } else if i <= 29 {
      OneBackward(pre, ends, i, leaves[i - 23], 27);
    } else {
      OneBackward(pre, ends, i, leaves[7], 29);
    }
  }

  ghost predicate RuntimeShape(answers: Answers, pre: seq<Check>, ends: seq<nat>) {
    && |pre| == |ends| == 32
    && (forall k :: 0 <= k < 22 ==> pre[k].dependsOn == [])
    && pre[22] == RuntimePart(answers)[0] && pre[23..31] == RuntimeLeaves(answers) && pre[31] == RuntimePart(answers)[1]
    && ends[22] == 31 && ends[23] == 24 && ends[24] == 25 && ends[27] == 28 && ends[29] == 30
  }

  lemma ClusterShape(answers: Answers, useEtcd: bool)
    ensures RuntimeShape(answers, Pre(ClusterChecks(answers, useEtcd)), EndsOf(ClusterChecks(answers, useEtcd), 0))
  {
    var first := ClusterPre(answers, useEtcd);
    var pre, ends := Pre(ClusterChecks(answers, useEtcd)), EndsOf(ClusterChecks(answers, useEtcd), 0);
    assert forall k :: 0 <= k < 22 ==> pre[k] == first[k];
    assert forall k :: 22 <= k < 32 ==> ends[k] == ends[22..][k - 22];
  }

  lemma ShapeNames(answers: Answers, pre: seq<Check>, ends: seq<nat>)
    requires RuntimeShape(answers, pre, ends)
    ensures RuntimeNames(pre) && pre[23].dependsOn == []
  {
    var leaves := RuntimeLeaves(answers);
    assert forall k :: 23 <= k < 31 ==> pre[k] == pre[23..31][k - 23] == leaves[k - 23];
  }

  lemma ShapeLooksBack(answers: Answers, pre: seq<Check>, ends: seq<nat>, i: nat)
    requires RuntimeShape(answers, pre, ends) && i < 32
    ensures LooksBack(pre, ends, i)
  {
    ShapeNames(answers, pre, ends);
    ClusterNames(pre);
    if i <= 23 {
      assert pre[i].dependsOn == [];
    } else if i == 31 {
      OneBackward(pre, ends, 31, RuntimePart(answers)[1], 22);
    } else {
      RuntimeLooksBack(answers, pre, ends, i);
    }
  }

  lemma ClusterIsBackward(answers: Answers, useEtcd: bool)
    ensures Backward(ClusterChecks(answers, useEtcd))
  {
    var pre, ends := Pre(ClusterChecks(answers, useEtcd)), EndsOf(ClusterChecks(answers, useEtcd), 0);
    ClusterShape(answers, useEtcd);
    forall i: nat | i < |pre|
      ensures LooksBack(pre, ends, i)
    {
      ShapeLooksBack(answers, pre, ends, i);
    }
  }

  /** For both API backends and whatever the check functions answer: the graph PrepareRun builds
      for iknite's checks is acyclic and no phase has dependencies, so every uncancelled run
      of them ends with every Done closed and the evaluated statuses. */
  lemma ClusterChecksTerminate(answers: Answers, useEtcd: bool, actions: seq<Action>, states: seq<State>)
    requires IsFullRun(Doubled(GraphOf(ClusterChecks(answers, useEtcd))), actions, states)
    ensures var g, rank := Doubled(GraphOf(ClusterChecks(answers, useEtcd))),
                           BackRank(EndsOf(ClusterChecks(answers, useEtcd), 0));
            && Ranked(g, rank) && |g.nodes| == 32
            && Last(states).returned
            && forall i: nat :: i < |g.nodes| ==> DoneWith(Last(states), i, Eval(g, rank, i))
  {
    var cs := ClusterChecks(answers, useEtcd);
    ClusterIsBackward(answers, useEtcd);
    BackwardIsAcyclic(cs);
    GraphOfWellFormed(cs);
    var first := ClusterPre(answers, useEtcd);
    FullRunEvaluates(Doubled(GraphOf(cs)), BackRank(EndsOf(cs, 0)), actions, states);
  }

  // ----- who ends how ----------------------------------------------------------------------

  /** The statuses a run ends with. */
  function Statuses(locals: seq<Local>): (f: seq<Status>)
    ensures |f| == |locals|
  {
    seq(|locals|, i requires 0 <= i < |locals| => locals[i].status)
  }

  /** The verdict on a check of a forest, given the verdicts `f` on all of them. */
  ghost predicate Judged(cs: seq<Check>, f: seq<Status>, i: nat)
    requires i < |Pre(cs)| == |f|
  {
    var c, deps, subs := Pre(cs)[i], Resolve(Pre(cs), Pre(cs)[i].dependsOn), TopIds(Pre(cs)[i].subChecks, i + 1);
    && (forall k :: 0 <= k < |subs| ==> subs[k] < |f|)
    && f[i] == if exists k :: 0 <= k < |deps| && f[deps[k]] != Success then Skipped
               else if c.subChecks == [] then if c.fn == Fn(true) then Success else Failed
               else if exists k :: 0 <= k < |subs| && f[subs[k]] == Failed then Failed
               else Success
  }

  /** What a node of the doubled graph waits for, in terms of the forest. */
  lemma DoubledNode(cs: seq<Check>, i: nat)
    requires i < |Pre(cs)|
    ensures var pre, n := Pre(cs), Doubled(GraphOf(cs)).nodes[i];
            && n.deps == Resolve(pre, pre[i].dependsOn) + Resolve(pre, pre[i].dependsOn)
            && n.subs == TopIds(pre[i].subChecks, i + 1) && n.fn == pre[i].fn
  {
    var pre, ns := Pre(cs), NodesOf(Pre(cs), cs, 0, None);
    NodesOfFields(pre, cs, 0, None, ns, pre);
    NodesOfSubs(pre, cs, 0, None);
    assert Describes(pre, ns[i], pre[i]) && ns[i].subs == TopIds(pre[i].subChecks, i + 1);
  }

  lemma SomeTwice(f: seq<Status>, deps: seq<nat>, twice: seq<nat>)
    requires twice == deps + deps && forall k :: 0 <= k < |deps| ==> deps[k] < |f|
    ensures (exists k :: 0 <= k < |twice| && f[twice[k]] != Success) <==>
            (exists k :: 0 <= k < |deps| && f[deps[k]] != Success)
  {
    if k :| 0 <= k < |twice| && f[twice[k]] != Success {
      var m := if k < |deps| then k else k - |deps|;
      assert f[deps[m]] != Success;
    }
    if k :| 0 <= k < |deps| && f[deps[k]] != Success {
      assert f[twice[k]] != Success;
    }
  }

  lemma EvalJudges(cs: seq<Check>, f: seq<Status>, rank: seq<nat>, i: nat)
    requires i < |Pre(cs)| == |f| && Ranked(Doubled(GraphOf(cs)), rank)
    requires forall k: nat :: k < |f| ==> f[k] == Eval(Doubled(GraphOf(cs)), rank, k)
    ensures Judged(cs, f, i)
  {
    var g, deps := Doubled(GraphOf(cs)), Resolve(Pre(cs), Pre(cs)[i].dependsOn);
    DoubledNode(cs, i);
    SomeTwice(f, deps, g.nodes[i].deps);
    EvalIs(g, rank, f, i);
  }

  lemma EvalIs(g: Graph, rank: seq<nat>, f: seq<Status>, i: nat)
    requires Ranked(g, rank) && i < |f| == |g.nodes|
    requires forall k: nat :: k < |f| ==> f[k] == Eval(g, rank, k)
    ensures var n := g.nodes[i];
            && (forall k :: 0 <= k < |n.deps| ==> n.deps[k] < |f|)
            && (forall k :: 0 <= k < |n.subs| ==> n.subs[k] < |f|)
            && f[i] == if exists k :: 0 <= k < |n.deps| && f[n.deps[k]] != Success then Skipped
                       else if n.subs == [] then if n.fn == Fn(true) then Success else Failed
                       else if exists k :: 0 <= k < |n.subs| && f[n.subs[k]] == Failed then Failed
                       else Success
  {
  }

  /** Every full run of a backward forest judges every check by the checks it names and contains. */
  lemma ForestIsJudged(cs: seq<Check>, actions: seq<Action>, states: seq<State>)
    requires Backward(cs) && IsFullRun(Doubled(GraphOf(cs)), actions, states)
    ensures |Last(states).locals| == |Pre(cs)|
    ensures forall i: nat :: i < |Pre(cs)| ==> Judged(cs, Statuses(Last(states).locals), i)
  {
    var g, rank := Doubled(GraphOf(cs)), BackRank(EndsOf(cs, 0));
    BackwardIsAcyclic(cs);
    FullRunEvaluates(g, rank, actions, states);
    RunInv(g, actions, states, |states| - 1);
    var f := Statuses(Last(states).locals);
    forall i: nat | i < |Pre(cs)|
      ensures f[i] == Eval(g, rank, i)
    {
      assert DoneWith(Last(states), i, Eval(g, rank, i));
    }
    forall i: nat | i < |Pre(cs)|
      ensures Judged(cs, f, i)
    {
      EvalJudges(cs, f, rank, i);
    }
  }

  /** The verdict on a check that depends on one other. */
  function After(before: Status, answer: bool): Status {
    if before != Success then Skipped else if answer then Success else Failed
  }

  lemma JudgedAfter(cs: seq<Check>, f: seq<Status>, i: nat, answers: Answers, name: string, dep: string, d: nat)
    requires i < |Pre(cs)| == |f| && d < |f| && Judged(cs, f, i)
    requires Pre(cs)[i] == Leaf(answers, name, [dep]) && Resolve(Pre(cs), [dep]) == [d]
    ensures f[i] == After(f[d], answers(name))
  {
    assert Resolve(Pre(cs), Pre(cs)[i].dependsOn)[0] == d;
  }

  lemma {:induction false} LeafIds(cs: seq<Check>, base: nat)
    requires forall i :: 0 <= i < |cs| ==> cs[i].subChecks == []
    ensures forall i :: 0 <= i < |cs| ==> TopIds(cs, base)[i] == base + i
    decreases |cs|
  {
    if cs != [] {
      LeafIds(cs[1..], base + 1);
    }
  }

  /** The verdicts on the runtime checks, given what the check functions answer. */
  ghost predicate RuntimeJudged(answers: Answers, f: seq<Status>)
    requires |f| == 32
  {
    && f[23] == After(Success, answers("openrc"))
    && f[24] == After(f[23], answers("iknite_running"))
    && f[25] == After(f[23], answers("containerd_running"))
    && f[26] == After(f[23], answers("buildkitd_running"))
    && f[27] == After(f[24], answers("kubelet_running"))
    && f[28] == After(f[27], answers("kubelet_health"))
    && f[29] == After(f[27], answers("apiserver_health"))
    && f[30] == After(f[29], answers("iknite_server_health"))
    && f[22] == (if exists k :: 23 <= k < 31 && f[k] == Failed then Failed else Success)
    && f[31] == After(f[22], answers("workload_status"))
  }

  lemma RuntimeVerdicts(answers: Answers, cs: seq<Check>, ends: seq<nat>, f: seq<Status>)
    requires RuntimeShape(answers, Pre(cs), ends) && |f| == 32 && forall i: nat :: i < 32 ==> Judged(cs, f, i)
    ensures RuntimeJudged(answers, f)
  {
    ShapeNames(answers, Pre(cs), ends);
    ClusterNames(Pre(cs));
    FirstVerdicts(answers, cs, f);
    LaterVerdicts(answers, cs, f);
    JudgedAfter(cs, f, 31, answers, "workload_status", "runtime", 22);
    PhaseVerdict(cs, f, answers);
  }

  lemma FirstVerdicts(answers: Answers, cs: seq<Check>, f: seq<Status>)
    requires |Pre(cs)| == |f| == 32 && forall i: nat :: i < 32 ==> Judged(cs, f, i)
    requires Pre(cs)[23..31] == RuntimeLeaves(answers) && Resolve(Pre(cs), ["openrc"]) == [23]
    ensures f[23] == After(Success, answers("openrc"))
    ensures f[24] == After(f[23], answers("iknite_running"))
    ensures f[25] == After(f[23], answers("containerd_running"))
    ensures f[26] == After(f[23], answers("buildkitd_running"))
  {
    var leaves := Pre(cs)[23..31];
    assert leaves[0] == Pre(cs)[23] && leaves[1] == Pre(cs)[24] && leaves[2] == Pre(cs)[25] && leaves[3] == Pre(cs)[26];
    assert Judged(cs, f, 23);
    JudgedAfter(cs, f, 24, answers, "iknite_running", "openrc", 23);
    JudgedAfter(cs, f, 25, answers, "containerd_running", "openrc", 23);
    JudgedAfter(cs, f, 26, answers, "buildkitd_running", "openrc", 23);
  }

  lemma LaterVerdicts(answers: Answers, cs: seq<Check>, f: seq<Status>)
    requires |Pre(cs)| == |f| == 32 && forall i: nat :: i < 32 ==> Judged(cs, f, i)
    requires Pre(cs)[23..31] == RuntimeLeaves(answers) && Resolve(Pre(cs), ["iknite_running"]) == [24]
    requires Resolve(Pre(cs), ["kubelet_running"]) == [27] && Resolve(Pre(cs), ["apiserver_health"]) == [29]
    ensures f[27] == After(f[24], answers("kubelet_running"))
    ensures f[28] == After(f[27], answers("kubelet_health"))
    ensures f[29] == After(f[27], answers("apiserver_health"))
    ensures f[30] == After(f[29], answers("iknite_server_health"))
  {
    var leaves := Pre(cs)[23..31];
    assert leaves[4] == Pre(cs)[27] && leaves[5] == Pre(cs)[28] && leaves[6] == Pre(cs)[29] && leaves[7] == Pre(cs)[30];
    JudgedAfter(cs, f, 27, answers, "kubelet_running", "iknite_running", 24);
    JudgedAfter(cs, f, 28, answers, "kubelet_health", "kubelet_running", 27);
    JudgedAfter(cs, f, 29, answers, "apiserver_health", "kubelet_running", 27);
    JudgedAfter(cs, f, 30, answers, "iknite_server_health", "apiserver_health", 29);
  }

  lemma PhaseVerdict(cs: seq<Check>, f: seq<Status>, answers: Answers)
    requires |Pre(cs)| == |f| == 32 && Judged(cs, f, 22) && Pre(cs)[22] == RuntimePart(answers)[0]
    ensures f[22] == if exists k :: 23 <= k < 31 && f[k] == Failed then Failed else Success
  {
    var subs := TopIds(RuntimeLeaves(answers), 23);
    LeafIds(RuntimeLeaves(answers), 23);
    assert Resolve(Pre(cs), Pre(cs)[22].dependsOn) == [];
    assert f[22] == if exists k :: 0 <= k < |subs| && f[subs[k]] == Failed then Failed else Success;
    if k :| 23 <= k < 31 && f[k] == Failed {
      assert f[subs[k - 23]] == Failed;
    }
  }

  /** In every full run of iknite's checks each runtime check is skipped if the one it names did not
      succeed and otherwise ends as its function answers; so the check of the workloads is made exactly
      if all eight runtime checks answer well. */
  lemma ClusterVerdicts(answers: Answers, useEtcd: bool, actions: seq<Action>, states: seq<State>)
    requires IsFullRun(Doubled(GraphOf(ClusterChecks(answers, useEtcd))), actions, states)
    ensures var f := Statuses(Last(states).locals);
            && |f| == 32 && RuntimeJudged(answers, f)
            && (f[31] != Skipped <==>
                && answers("openrc") && answers("iknite_running") && answers("containerd_running")
                && answers("buildkitd_running") && answers("kubelet_running") && answers("kubelet_health")
                && answers("apiserver_health") && answers("iknite_server_health"))
  {
    var cs := ClusterChecks(answers, useEtcd);
    ClusterIsBackward(answers, useEtcd);
    ClusterShape(answers, useEtcd);
    ForestIsJudged(cs, actions, states);
    var f := Statuses(Last(states).locals);
    RuntimeVerdicts(answers, cs, EndsOf(cs, 0), f);
    AllAnswered(answers, f);
  }

  lemma AllAnswered(answers: Answers, f: seq<Status>)
    requires |f| == 32 && RuntimeJudged(answers, f)
    ensures f[31] != Skipped <==>
            && answers("openrc") && answers("iknite_running") && answers("containerd_running")
            && answers("buildkitd_running") && answers("kubelet_running") && answers("kubelet_health")
            && answers("apiserver_health") && answers("iknite_server_health")
  {
    assert f[22] == Failed <==> exists k :: 23 <= k < 31 && f[k] == Failed;
    if f[31] == Skipped {
      var k :| 23 <= k < 31 && f[k] == Failed;
      assert k == 23 || k == 24 || k == 25 || k == 26 || k == 27 || k == 28 || k == 29 || k == 30;
    }
  }
}
