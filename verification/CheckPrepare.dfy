/**
 Preparing a run (pkg/check/status_check.go): results are built from the check tree, a map from
 names to results is filled in pre-order, and dependencies are resolved through it. PrepareRun
 does the last step twice, the second time through a map it keeps from one run to the next.
 */
module CheckPrepare {
  import opened Wrappers
  import opened CheckGraph
  import opened CheckConfluence

  datatype Check = Check(name: string, dependsOn: seq<string>, subChecks: seq<Check>, fn: CheckFn)

  /** The fields Check and SubResults are set once, by NewResult; ParentResults is appended to. */
  class CheckResult {
    const check: Check
    const subResults: seq<CheckResult>
    var parents: seq<CheckResult>

    constructor (check: Check, subResults: seq<CheckResult>)
      ensures this.check == check && this.subResults == subResults && parents == []
    {
      this.check, this.subResults, this.parents := check, subResults, [];
    }
  }

  // ----- pre-order -------------------------------------------------------------------------

  /** The checks of a forest in pre-order; positions in this list number the results. */
  function Pre(cs: seq<Check>): seq<Check> {
    if cs == [] then [] else [cs[0]] + Pre(cs[0].subChecks) + Pre(cs[1..])
  }

  ghost predicate Mirrors(rs: seq<CheckResult>, cs: seq<Check>)
    decreases cs
  {
    && |rs| == |cs|
    && (cs != [] ==>
          rs[0].check == cs[0] && Mirrors(rs[0].subResults, cs[0].subChecks) && Mirrors(rs[1..], cs[1..]))
  }

  /** The results of a forest in pre-order. */
  ghost function Flat(rs: seq<CheckResult>, cs: seq<Check>): seq<CheckResult>
    requires Mirrors(rs, cs)
    decreases cs
  {
    if cs == [] then [] else [rs[0]] + Flat(rs[0].subResults, cs[0].subChecks) + Flat(rs[1..], cs[1..])
  }

  ghost predicate Distinct(rs: seq<CheckResult>) {
    forall i, j :: 0 <= i < j < |rs| ==> rs[i] != rs[j]
  }

  lemma DistinctConcat(xs: seq<CheckResult>, ys: seq<CheckResult>)
    requires Distinct(xs) && Distinct(ys) && forall x :: x in xs ==> x !in ys
    ensures Distinct(xs + ys)
  {
    forall i, j | 0 <= i < j < |xs + ys|
      ensures (xs + ys)[i] != (xs + ys)[j]
    {
      if i < |xs| <= j {
        assert xs[i] in xs && ys[j - |xs|] in ys;
      }
    }
  }

  lemma {:induction false} MirrorsAppend(rs: seq<CheckResult>, cs: seq<Check>, r: CheckResult, c: Check)
    requires Mirrors(rs, cs) && r.check == c && Mirrors(r.subResults, c.subChecks)
    ensures Mirrors(rs + [r], cs + [c])
    decreases cs
  {
    if cs == [] {
      assert rs + [r] == [r] && cs + [c] == [c];
    } else {
      MirrorsAppend(rs[1..], cs[1..], r, c);
      assert (rs + [r])[1..] == rs[1..] + [r] && (cs + [c])[1..] == cs[1..] + [c];
    }
  }

  lemma {:induction false} FlatAppend(rs: seq<CheckResult>, cs: seq<Check>, r: CheckResult, c: Check)
    requires Mirrors(rs, cs) && Mirrors(rs + [r], cs + [c])
    requires r.check == c && Mirrors(r.subResults, c.subChecks)
    ensures Flat(rs + [r], cs + [c]) == Flat(rs, cs) + [r] + Flat(r.subResults, c.subChecks)
    decreases cs
  {
    var rs', cs' := rs + [r], cs + [c];
    if cs == [] {
      assert rs' == [r] && cs' == [c] && rs'[1..] == [] && cs'[1..] == [];
      assert Flat(rs'[1..], cs'[1..]) == [];
    } else {
      assert rs'[0] == rs[0] && cs'[0] == cs[0] && rs'[1..] == rs[1..] + [r] && cs'[1..] == cs[1..] + [c];
      FlatAppend(rs[1..], cs[1..], r, c);
      var inner, outer := Flat(rs[0].subResults, cs[0].subChecks), Flat(rs[1..], cs[1..]);
      assert Flat(rs', cs') == [rs[0]] + inner + (outer + [r] + Flat(r.subResults, c.subChecks));
    }
  }

  lemma OneMore(
    rs: seq<CheckResult>, cs: seq<Check>, i: nat, flat: seq<CheckResult>, r: CheckResult, more: seq<CheckResult>)
    requires i < |cs| && Mirrors(rs, cs[..i]) && r.check == cs[i] && Mirrors(r.subResults, cs[i].subChecks)
    requires flat == Flat(rs, cs[..i]) && more == [r] + Flat(r.subResults, cs[i].subChecks)
    requires Distinct(flat) && Distinct(more) && forall x :: x in flat ==> x !in more
    ensures Mirrors(rs + [r], cs[..i + 1])
    ensures flat + more == Flat(rs + [r], cs[..i + 1]) && Distinct(flat + more)
  {
    DistinctConcat(flat, more);
    assert flat + more == flat + [r] + Flat(r.subResults, cs[i].subChecks);
    MirrorsAppend(rs, cs[..i], r, cs[i]);
    FlatAppend(rs, cs[..i], r, cs[i]);
    assert cs[..i + 1] == cs[..i] + [cs[i]];
  }

  method NewResult(c: Check) returns (r: CheckResult, ghost flat: seq<CheckResult>)
    ensures r.check == c && Mirrors(r.subResults, c.subChecks)
    ensures flat == [r] + Flat(r.subResults, c.subChecks) && Distinct(flat)
    ensures forall k :: 0 <= k < |flat| ==> fresh(flat[k]) && flat[k].parents == []
    decreases c, 1
  {
    var subResults;
    subResults, flat := NewResults(c.subChecks);
    r := new CheckResult(c, subResults);
    DistinctConcat([r], flat);
    flat := [r] + flat;
  }

  /** The loop of NewResult over the sub-checks, and the first loop of PrepareChecks. */
  method NewResults(cs: seq<Check>) returns (rs: seq<CheckResult>, ghost flat: seq<CheckResult>)
    ensures Mirrors(rs, cs) && flat == Flat(rs, cs) && Distinct(flat)
    ensures forall k :: 0 <= k < |flat| ==> fresh(flat[k]) && flat[k].parents == []
    decreases cs, 0
  {
    rs, flat := [], [];
    for i := 0 to |cs|
      invariant Mirrors(rs, cs[..i]) && flat == Flat(rs, cs[..i]) && Distinct(flat)
      invariant forall k :: 0 <= k < |flat| ==> fresh(flat[k]) && flat[k].parents == []
    {
      var r;
      ghost var more;
      r, more := NewResult(cs[i]);
      assert forall x :: x in flat ==> x !in more;
      OneMore(rs, cs, i, flat, r, more);
      rs, flat := rs + [r], flat + more;
    }
    assert cs[..|cs|] == cs;
  }

  // ----- names -----------------------------------------------------------------------------

  type NameMap = map<string, CheckResult>

  ghost function Named(m: NameMap, rs: seq<CheckResult>): NameMap
    decreases |rs|
  {
    if rs == [] then m else Named(m[rs[0].check.name := rs[0]], rs[1..])
  }

  lemma {:induction false} NamedConcat(m: NameMap, xs: seq<CheckResult>, ys: seq<CheckResult>)
    ensures Named(m, xs + ys) == Named(Named(m, xs), ys)
    decreases |xs|
  {
    if xs == [] {
      assert xs + ys == ys;
    } else {
      assert (xs + ys)[1..] == xs[1..] + ys;
      NamedConcat(m[xs[0].check.name := xs[0]], xs[1..], ys);
    }
  }

  method FillResultNameMap(results: seq<CheckResult>, ghost cs: seq<Check>, names: NameMap) returns (m: NameMap)
    requires Mirrors(results, cs)
    ensures m == Named(names, Flat(results, cs))
    decreases cs
  {
    m := names;
    assert results[0..] == results && cs[0..] == cs;
    for i := 0 to |results|
      invariant Mirrors(results[i..], cs[i..])
      invariant Named(m, Flat(results[i..], cs[i..])) == Named(names, Flat(results, cs))
    {
      ghost var sub, rest := Flat(results[i].subResults, cs[i].subChecks), Flat(results[i + 1..], cs[i + 1..]);
      ghost var m' := m[results[i].check.name := results[i]];
      assert ([results[i]] + sub + rest)[1..] == sub + rest;
      NamedConcat(m', sub, rest);
      m := m[results[i].check.name := results[i]];
      if |results[i].subResults| > 0 {
        m := FillResultNameMap(results[i].subResults, cs[i].subChecks, m);
      }
    }
  }

  /** The position of the last check of that name. */
  function LastNamed(pre: seq<Check>, name: string): (k: Option<nat>)
    ensures k.None? ==> forall i :: 0 <= i < |pre| ==> pre[i].name != name
    ensures k.Some? ==> k.value < |pre| && pre[k.value].name == name
    ensures k.Some? ==> forall i :: k.value < i < |pre| ==> pre[i].name != name
  {
    if pre == [] then None
    else if pre[|pre| - 1].name == name then Some(|pre| - 1)
    else LastNamed(pre[..|pre| - 1], name)
  }

  /** The positions of the known names among `names`, in order. */
  function Resolve(pre: seq<Check>, names: seq<string>): (ids: seq<nat>)
    ensures forall k :: 0 <= k < |ids| ==> ids[k] < |pre|
  {
    if names == [] then [] else
    match LastNamed(pre, names[0])
    case None => Resolve(pre, names[1..])
    case Some(k) => [k] + Resolve(pre, names[1..])
  }

  lemma {:induction false} NamedLooksUpLast(m: NameMap, rs: seq<CheckResult>, pre: seq<Check>, name: string)
    requires |rs| == |pre| && forall i :: 0 <= i < |rs| ==> rs[i].check == pre[i]
    ensures LastNamed(pre, name).Some? ==> name in Named(m, rs) && Named(m, rs)[name] == rs[LastNamed(pre, name).value]
    ensures LastNamed(pre, name).None? ==>
              (name in Named(m, rs) <==> name in m) && (name in m ==> Named(m, rs)[name] == m[name])
    decreases |rs|
  {
    if rs != [] {
      var n := |rs| - 1;
      NamedLooksUpLast(m, rs[..n], pre[..n], name);
      assert rs == rs[..n] + [rs[n]];
      NamedConcat(m, rs[..n], [rs[n]]);
      assert [rs[n]][1..] == [];
    }
  }

  // ----- dependencies ----------------------------------------------------------------------

  ghost function Looked(m: NameMap, names: seq<string>): seq<CheckResult> {
    if names == [] then [] else
    if names[0] in m then [m[names[0]]] + Looked(m, names[1..]) else Looked(m, names[1..])
  }

  lemma {:induction false} LookedAppend(m: NameMap, names: seq<string>, name: string)
    ensures Looked(m, names + [name]) == Looked(m, names) + if name in m then [m[name]] else []
    decreases |names|
  {
    if names == [] {
      assert [name][1..] == [] && names + [name] == [name];
    } else {
      assert (names + [name])[1..] == names[1..] + [name];
      LookedAppend(m, names[1..], name);
    }
  }

  /** Every result of `flat` got the results its dependency names lead to appended. */
  twostate predicate Filled(flat: seq<CheckResult>, names: NameMap)
    reads flat
  {
    forall k :: 0 <= k < |flat| ==> flat[k].parents == old(flat[k].parents) + Looked(names, flat[k].check.dependsOn)
  }

  method FillDependencies(r: CheckResult, ghost flat: seq<CheckResult>, names: NameMap)
    requires Mirrors(r.subResults, r.check.subChecks) && flat == [r] + Flat(r.subResults, r.check.subChecks)
    requires Distinct(flat)
    modifies flat
    ensures Filled(flat, names)
    decreases r.check, 1
  {
    ghost var subs := flat[1..];
    assert r == flat[0] && forall k :: 0 <= k < |subs| ==> subs[k] == flat[k + 1] && subs[k] != r;
    AppendDependencies(r, names);
    label L:
    assert Distinct(subs);
    FillAll(r.subResults, r.check.subChecks, subs, names);
    assert Filled@L(subs, names);
    assert r !in subs;
  }

  /** The first loop of FillDependencies. */
  method AppendDependencies(r: CheckResult, names: NameMap)
    modifies r
    ensures r.parents == old(r.parents) + Looked(names, r.check.dependsOn)
  {
    for i := 0 to |r.check.dependsOn|
      invariant r.parents == old(r.parents) + Looked(names, r.check.dependsOn[..i])
    {
      var depName := r.check.dependsOn[i];
      LookedAppend(names, r.check.dependsOn[..i], depName);
      assert r.check.dependsOn[..i + 1] == r.check.dependsOn[..i] + [depName];
      if depName in names {
        r.parents := r.parents + [names[depName]];
      }
    }
    assert r.check.dependsOn[..|r.check.dependsOn|] == r.check.dependsOn;
  }

  /** The loop that calls FillDependencies on each result of a list. */
  method FillAll(results: seq<CheckResult>, ghost cs: seq<Check>, ghost flat: seq<CheckResult>, names: NameMap)
    requires Mirrors(results, cs) && flat == Flat(results, cs) && Distinct(flat)
    modifies flat
    ensures Filled(flat, names)
    decreases cs, 0
  {
    ghost var done: nat := 0;
    assert results[0..] == results && cs[0..] == cs && flat[0..] == flat;
    for i := 0 to |results|
      invariant Mirrors(results[i..], cs[i..]) && done <= |flat| && flat[done..] == Flat(results[i..], cs[i..])
      invariant forall k :: 0 <= k < done ==>
                  flat[k].parents == old(flat[k].parents) + Looked(names, flat[k].check.dependsOn)
      invariant forall k :: done <= k < |flat| ==> flat[k].parents == old(flat[k].parents)
    {
      ghost var next := NextSlice(results, cs, flat, i, done);
      FillSlice(results[i], flat, done, next, names);
      done := next;
    }
  }

  /** FillDependencies on the result at position `lo`, seen from the whole pre-order. */
  method FillSlice(r: CheckResult, ghost flat: seq<CheckResult>, ghost lo: nat, ghost hi: nat, names: NameMap)
    requires Mirrors(r.subResults, r.check.subChecks) && lo <= hi <= |flat| && Distinct(flat)
    requires flat[lo..hi] == [r] + Flat(r.subResults, r.check.subChecks)
    modifies flat[lo..hi]
    ensures forall k :: lo <= k < hi ==>
              flat[k].parents == old(flat[k].parents) + Looked(names, flat[k].check.dependsOn)
    ensures forall k :: 0 <= k < lo || hi <= k < |flat| ==> flat[k].parents == old(flat[k].parents)
    decreases r.check, 2
  {
    ghost var here := flat[lo..hi];
    assert forall k {:trigger flat[k]} :: lo <= k < hi ==> flat[k] == here[k - lo];
    FillDependencies(r, here, names);
  }

  /** Where the pre-order of the result at `i` and all below it ends. */
  lemma NextSlice(results: seq<CheckResult>, cs: seq<Check>, flat: seq<CheckResult>, i: nat, lo: nat) returns (hi: nat)
    requires i < |results| == |cs| && Mirrors(results[i..], cs[i..]) && Distinct(flat)
    requires lo <= |flat| && flat[lo..] == Flat(results[i..], cs[i..])
    ensures results[i].check == cs[i] && Mirrors(results[i].subResults, cs[i].subChecks)
    ensures lo <= hi <= |flat| && flat[lo..hi] == [results[i]] + Flat(results[i].subResults, cs[i].subChecks)
    ensures Mirrors(results[i + 1..], cs[i + 1..]) && flat[hi..] == Flat(results[i + 1..], cs[i + 1..])
  {
    var here := [results[i]] + Flat(results[i].subResults, cs[i].subChecks);
    hi := lo + |here|;
  }

  // ----- the prepared graph ----------------------------------------------------------------

  /** The number after the first result of a forest numbered from `base` and all below it. */
  function Beside(cs: seq<Check>, base: nat): nat
    requires cs != []
  {
    base + 1 + |Pre(cs[0].subChecks)|
  }

  /** The numbers of the top results of a forest whose pre-order starts at `base`. */
  function TopIds(cs: seq<Check>, base: nat): (ids: seq<nat>)
    ensures |ids| == |cs|
  {
    if cs == [] then [] else [base] + TopIds(cs[1..], Beside(cs, base))
  }

  function NodesOf(all: seq<Check>, cs: seq<Check>, base: nat, parent: Option<nat>): (ns: seq<Node>)
    ensures |ns| == |Pre(cs)|
    decreases cs
  {
    if cs == [] then [] else
    var c := cs[0];
    [Node(parent, TopIds(c.subChecks, base + 1), Resolve(all, c.dependsOn), c.fn)]
    + NodesOf(all, c.subChecks, base + 1, Some(base))
    + NodesOf(all, cs[1..], Beside(cs, base), parent)
  }

  /** The run a check forest stands for, each dependency resolved once. */
  function GraphOf(cs: seq<Check>): Graph {
    Graph(NodesOf(Pre(cs), cs, 0, None), TopIds(cs, 0))
  }

  lemma {:induction false} PreConcat(xs: seq<Check>, ys: seq<Check>)
    ensures Pre(xs + ys) == Pre(xs) + Pre(ys)
    decreases |xs|
  {
    if xs == [] {
      assert xs + ys == ys;
    } else {
      assert (xs + ys)[1..] == xs[1..] + ys;
      PreConcat(xs[1..], ys);
    }
  }

  lemma {:induction false} FlatChecks(rs: seq<CheckResult>, cs: seq<Check>)
    requires Mirrors(rs, cs)
    ensures |Flat(rs, cs)| == |Pre(cs)|
    ensures forall i :: 0 <= i < |Flat(rs, cs)| ==> Flat(rs, cs)[i].check == Pre(cs)[i]
    decreases cs
  {
    if cs != [] {
      FlatChecks(rs[0].subResults, cs[0].subChecks);
      FlatChecks(rs[1..], cs[1..]);
    }
  }

  /** What `ns`, numbered from `base`, has to be for the top results `tops` of parent `parent`. */
  ghost predicate NodeFits(ns: seq<Node>, base: nat, parent: Option<nat>, tops: seq<nat>, total: nat, k: nat)
    requires k < |ns|
  {
    var n, id := ns[k], base + k;
    && (forall m :: 0 <= m < |n.deps| ==> n.deps[m] < total)
    && (forall m :: 0 <= m < |n.subs| ==> id < n.subs[m] < base + |ns| && ns[n.subs[m] - base].parent == Some(id))
    && Increasing(n.subs)
    && if id in tops then n.parent == parent
       else n.parent.Some? && base <= n.parent.value < id && id in ns[n.parent.value - base].subs
  }

  predicate Increasing(ids: seq<nat>) {
    forall i, j :: 0 <= i < j < |ids| ==> ids[i] < ids[j]
  }

  ghost predicate Within(ids: seq<nat>, lo: nat, hi: nat) {
    Increasing(ids) && forall k :: 0 <= k < |ids| ==> lo <= ids[k] < hi
  }

  /** `ns` is a well formed forest numbered from `base`, with the given top results. */
  ghost predicate Fits(ns: seq<Node>, base: nat, parent: Option<nat>, tops: seq<nat>, total: nat) {
    && Within(tops, base, base + |ns|)
    && forall k: nat {:trigger NodeFits(ns, base, parent, tops, total, k)} ::
         k < |ns| ==> NodeFits(ns, base, parent, tops, total, k)
  }

  /** How the nodes of a forest come about. */
  lemma ForestParts(all: seq<Check>, cs: seq<Check>, base: nat, parent: Option<nat>)
    returns (head: Node, inner: seq<Node>, outer: seq<Node>)
    requires cs != []
    ensures head == Node(parent, TopIds(cs[0].subChecks, base + 1), Resolve(all, cs[0].dependsOn), cs[0].fn)
    ensures inner == NodesOf(all, cs[0].subChecks, base + 1, Some(base)) && Beside(cs, base) == base + 1 + |inner|
    ensures outer == NodesOf(all, cs[1..], Beside(cs, base), parent)
    ensures NodesOf(all, cs, base, parent) == [head] + inner + outer
  {
    head := Node(parent, TopIds(cs[0].subChecks, base + 1), Resolve(all, cs[0].dependsOn), cs[0].fn);
    inner := NodesOf(all, cs[0].subChecks, base + 1, Some(base));
    outer := NodesOf(all, cs[1..], Beside(cs, base), parent);
  }

  lemma {:induction false} NodesFit(
    all: seq<Check>, cs: seq<Check>, base: nat, parent: Option<nat>, ns: seq<Node>, ids: seq<nat>)
    requires ns == NodesOf(all, cs, base, parent) && ids == TopIds(cs, base)
    ensures Fits(ns, base, parent, ids, |all|)
    decreases cs
  {
    if cs != [] {
      var base2 := Beside(cs, base);
      var head, inner, outer := ForestParts(all, cs, base, parent);
      NodesFit(all, cs[0].subChecks, base + 1, Some(base), inner, head.subs);
      NodesFit(all, cs[1..], base2, parent, outer, TopIds(cs[1..], base2));
      ForestFits(ns, head, inner, outer, base, base2, parent, TopIds(cs[1..], base2), ids, |all|);
    }
  }

  /** A top node, the forest below it and the forest beside it make a forest. */
  lemma ForestFits(ns: seq<Node>, head: Node, inner: seq<Node>, outer: seq<Node>, base: nat, base2: nat,
                   parent: Option<nat>, tops: seq<nat>, ids: seq<nat>, total: nat)
    requires ns == [head] + inner + outer && base2 == base + 1 + |inner| && head.parent == parent
    requires forall m :: 0 <= m < |head.deps| ==> head.deps[m] < total
    requires Fits(inner, base + 1, Some(base), head.subs, total)
    requires ids == [base] + tops && Fits(outer, base2, parent, tops, total)
    ensures Fits(ns, base, parent, ids, total)
  {
    forall k: nat | k < |ns|
      ensures NodeFits(ns, base, parent, ids, total, k)
    {
      ForestFitsAt(ns, head, inner, outer, base, base2, parent, tops, total, k);
    }
  }

  lemma ForestFitsAt(ns: seq<Node>, head: Node, inner: seq<Node>, outer: seq<Node>, base: nat, base2: nat,
                     parent: Option<nat>, tops: seq<nat>, total: nat, k: nat)
    requires ns == [head] + inner + outer && base2 == base + 1 + |inner| && head.parent == parent && k < |ns|
    requires forall m :: 0 <= m < |head.deps| ==> head.deps[m] < total
    requires Fits(inner, base + 1, Some(base), head.subs, total) && Fits(outer, base2, parent, tops, total)
    ensures NodeFits(ns, base, parent, [base] + tops, total, k)
  {
    assert ns[1..|inner| + 1] == inner && ns[base2 - base..] == outer;
    if k == 0 {
      TopsHaveParent(inner, base + 1, Some(base), head.subs, total);
    } else if k <= |inner| {
      var i := k - 1;
      assert inner[i] == ns[k] && NodeFits(inner, base + 1, Some(base), head.subs, total, i);
      InnerFits(ns, inner, base, parent, head.subs, tops, total, k);
    } else {
      var i := k - (base2 - base);
      assert outer[i] == ns[k] && NodeFits(outer, base2, parent, tops, total, i);
      OuterFits(ns, outer, base, base2, parent, tops, total, k);
    }
  }

  lemma TopsHaveParent(ns: seq<Node>, base: nat, parent: Option<nat>, tops: seq<nat>, total: nat)
    requires Fits(ns, base, parent, tops, total)
    ensures forall m :: 0 <= m < |tops| ==> base <= tops[m] < base + |ns| && ns[tops[m] - base].parent == parent
  {
    forall m | 0 <= m < |tops|
      ensures ns[tops[m] - base].parent == parent
    {
      assert NodeFits(ns, base, parent, tops, total, tops[m] - base) && tops[m] in tops;
    }
  }

  lemma InnerFits(ns: seq<Node>, inner: seq<Node>, base: nat, parent: Option<nat>, kids: seq<nat>, tops: seq<nat>,
                  total: nat, k: nat)
    requires 0 < k <= |inner| < |ns| && ns[1..|inner| + 1] == inner && ns[0].subs == kids
    requires forall x :: x in tops ==> base + |inner| < x
    requires NodeFits(inner, base + 1, Some(base), kids, total, k - 1)
    ensures NodeFits(ns, base, parent, [base] + tops, total, k)
  {
  }

  lemma OuterFits(ns: seq<Node>, outer: seq<Node>, base: nat, base2: nat, parent: Option<nat>, tops: seq<nat>,
                  total: nat, k: nat)
    requires base < base2 && |ns| == base2 - base + |outer| && ns[base2 - base..] == outer
    requires base2 - base <= k < |ns|
    requires NodeFits(outer, base2, parent, tops, total, k - (base2 - base))
    ensures NodeFits(ns, base, parent, [base] + tops, total, k)
  {
  }

  /** The prepared graph is a forest numbered in pre-order with valid dependencies, whatever the
      checks: repeated names, unknown names, cycles and dependencies on phases included. */
  lemma GraphOfWellFormed(cs: seq<Check>)
    ensures WellFormed(GraphOf(cs)) && |GraphOf(cs).nodes| == |Pre(cs)|
  {
    var g := GraphOf(cs);
    NodesFit(Pre(cs), cs, 0, None, g.nodes, g.roots);
    FitsIsWellFormed(g);
  }

  lemma FitsIsWellFormed(g: Graph)
    requires Fits(g.nodes, 0, None, g.roots, |g.nodes|)
    ensures WellFormed(g)
  {
    TopsHaveParent(g.nodes, 0, None, g.roots, |g.nodes|);
    forall i: nat | i < |g.nodes|
      ensures NodeWellFormed(g, i)
    {
      assert NodeFits(g.nodes, 0, None, g.roots, |g.nodes|, i);
    }
  }

  lemma IndexThree<T>(x: T, ys: seq<T>, zs: seq<T>, i: nat)
    requires i < 1 + |ys| + |zs|
    ensures ([x] + ys + zs)[i] == if i == 0 then x else if i <= |ys| then ys[i - 1] else zs[i - 1 - |ys|]
  {
  }

  ghost predicate Describes(all: seq<Check>, n: Node, c: Check) {
    n.deps == Resolve(all, c.dependsOn) && n.fn == c.fn && |n.subs| == |c.subChecks|
  }

  lemma {:induction false} NodesOfFields(
    all: seq<Check>, cs: seq<Check>, base: nat, parent: Option<nat>, ns: seq<Node>, pre: seq<Check>)
    requires ns == NodesOf(all, cs, base, parent) && pre == Pre(cs)
    ensures forall i :: 0 <= i < |pre| ==> Describes(all, ns[i], pre[i])
    decreases cs
  {
    if cs != [] {
      var c, base2 := cs[0], Beside(cs, base);
      var inner, outer := NodesOf(all, c.subChecks, base + 1, Some(base)), NodesOf(all, cs[1..], base2, parent);
      NodesOfFields(all, c.subChecks, base + 1, Some(base), inner, Pre(c.subChecks));
      NodesOfFields(all, cs[1..], base2, parent, outer, Pre(cs[1..]));
      var head := Node(parent, TopIds(c.subChecks, base + 1), Resolve(all, c.dependsOn), c.fn);
      assert ns == [head] + inner + outer && pre == [c] + Pre(c.subChecks) + Pre(cs[1..]);
    }
  }

  /** The sub-results of a phase are numbered right after it. */
  ghost predicate SubsFollow(ns: seq<Node>, pre: seq<Check>, base: nat) {
    |ns| == |pre| && forall i :: 0 <= i < |pre| ==> ns[i].subs == TopIds(pre[i].subChecks, base + i + 1)
  }

  lemma {:induction false} NodesOfSubs(all: seq<Check>, cs: seq<Check>, base: nat, parent: Option<nat>)
    ensures SubsFollow(NodesOf(all, cs, base, parent), Pre(cs), base)
    decreases cs
  {
    if cs != [] {
      var c, base2 := cs[0], Beside(cs, base);
      NodesOfSubs(all, c.subChecks, base + 1, Some(base));
      NodesOfSubs(all, cs[1..], base2, parent);
      var head := Node(parent, TopIds(c.subChecks, base + 1), Resolve(all, c.dependsOn), c.fn);
      var inner, outer := NodesOf(all, c.subChecks, base + 1, Some(base)), NodesOf(all, cs[1..], base2, parent);
      ForestFollows(head, inner, outer, c, Pre(c.subChecks), Pre(cs[1..]), base);
      assert NodesOf(all, cs, base, parent) == [head] + inner + outer;
      assert Pre(cs) == [c] + Pre(c.subChecks) + Pre(cs[1..]);
    }
  }

  lemma ForestFollows(
    head: Node, inner: seq<Node>, outer: seq<Node>, c: Check, pre1: seq<Check>, pre2: seq<Check>, base: nat)
    requires head.subs == TopIds(c.subChecks, base + 1)
    requires SubsFollow(inner, pre1, base + 1) && SubsFollow(outer, pre2, base + 1 + |pre1|)
    ensures SubsFollow([head] + inner + outer, [c] + pre1 + pre2, base)
  {
  }

  /** `ids` lists the positions in `whole` of the results `rs`. */
  ghost predicate Located(whole: seq<CheckResult>, ids: seq<nat>, rs: seq<CheckResult>) {
    |rs| == |ids| && forall k :: 0 <= k < |ids| ==> ids[k] < |whole| && rs[k] == whole[ids[k]]
  }

  ghost predicate At(whole: seq<CheckResult>, base: nat, flat: seq<CheckResult>) {
    base + |flat| <= |whole| && whole[base..base + |flat|] == flat
  }

  lemma SegmentRest(whole: seq<CheckResult>, base: nat, r: CheckResult, xs: seq<CheckResult>, ys: seq<CheckResult>)
    requires At(whole, base, [r] + xs + ys)
    ensures base < |whole| && whole[base] == r && At(whole, base + 1, xs) && At(whole, base + 1 + |xs|, ys)
  {
    var f, n := [r] + xs + ys, 1 + |xs|;
    assert forall k {:trigger f[k]} :: 0 <= k < |f| ==> f[k] == whole[base..base + |f|][k] == whole[base + k];
    assert whole[base] == f[0] && xs == f[1..n] && ys == f[n..];
    assert forall k {:trigger xs[k]} :: 0 <= k < |xs| ==> xs[k] == f[k + 1];
    assert forall k {:trigger ys[k]} :: 0 <= k < |ys| ==> ys[k] == f[k + n];
  }

  lemma {:induction false} TopsLocated(whole: seq<CheckResult>, rs: seq<CheckResult>, cs: seq<Check>, base: nat)
    requires Mirrors(rs, cs) && At(whole, base, Flat(rs, cs))
    ensures Located(whole, TopIds(cs, base), rs)
    decreases |cs|
  {
    if cs != [] {
      FlatChecks(rs[0].subResults, cs[0].subChecks);
      SegmentRest(whole, base, rs[0], Flat(rs[0].subResults, cs[0].subChecks), Flat(rs[1..], cs[1..]));
      TopsLocated(whole, rs[1..], cs[1..], Beside(cs, base));
    }
  }

  /** The sub-results are where the nodes say. */
  ghost predicate AllLocated(whole: seq<CheckResult>, ns: seq<Node>, flat: seq<CheckResult>) {
    && |ns| == |flat|
    && forall i: nat {:trigger LocatedAt(whole, ns, flat, i)} :: i < |ns| ==> LocatedAt(whole, ns, flat, i)
  }

  ghost predicate LocatedAt(whole: seq<CheckResult>, ns: seq<Node>, flat: seq<CheckResult>, i: nat)
    requires i < |ns| == |flat|
  {
    Located(whole, ns[i].subs, flat[i].subResults)
  }

  lemma LocatedForest(
    whole: seq<CheckResult>, n: Node, inner: seq<Node>, outer: seq<Node>, r: CheckResult, xs: seq<CheckResult>,
    ys: seq<CheckResult>)
    requires Located(whole, n.subs, r.subResults) && AllLocated(whole, inner, xs) && AllLocated(whole, outer, ys)
    ensures AllLocated(whole, [n] + inner + outer, [r] + xs + ys)
  {
    forall i: nat | i < 1 + |xs| + |ys|
      ensures LocatedAt(whole, [n] + inner + outer, [r] + xs + ys, i)
    {
      IndexThree(n, inner, outer, i);
      IndexThree(r, xs, ys, i);
      if 0 < i <= |xs| {
        assert LocatedAt(whole, inner, xs, i - 1);
      } else if i > |xs| {
        assert LocatedAt(whole, outer, ys, i - 1 - |xs|);
      }
    }
  }

  lemma {:induction false} SubsLocated(
    whole: seq<CheckResult>, all: seq<Check>, rs: seq<CheckResult>, cs: seq<Check>, base: nat, parent: Option<nat>)
    requires Mirrors(rs, cs) && At(whole, base, Flat(rs, cs))
    ensures AllLocated(whole, NodesOf(all, cs, base, parent), Flat(rs, cs))
    decreases cs
  {
    if cs != [] {
      var base2 := Beside(cs, base);
      var xs, ys := FlatParts(whole, base, rs, cs);
      var head, inner, outer := ForestParts(all, cs, base, parent);
      TopsLocated(whole, rs[0].subResults, cs[0].subChecks, base + 1);
      SubsLocated(whole, all, rs[0].subResults, cs[0].subChecks, base + 1, Some(base));
      SubsLocated(whole, all, rs[1..], cs[1..], base2, parent);
      LocatedForest(whole, head, inner, outer, rs[0], xs, ys);
    }
  }

  lemma FlatParts(whole: seq<CheckResult>, base: nat, rs: seq<CheckResult>, cs: seq<Check>)
    returns (xs: seq<CheckResult>, ys: seq<CheckResult>)
    requires cs != [] && Mirrors(rs, cs) && At(whole, base, Flat(rs, cs))
    ensures Mirrors(rs[0].subResults, cs[0].subChecks) && xs == Flat(rs[0].subResults, cs[0].subChecks)
    ensures Mirrors(rs[1..], cs[1..]) && ys == Flat(rs[1..], cs[1..])
    ensures Flat(rs, cs) == [rs[0]] + xs + ys
    ensures At(whole, base + 1, xs) && At(whole, Beside(cs, base), ys)
  {
    FlatChecks(rs[0].subResults, cs[0].subChecks);
    xs, ys := Flat(rs[0].subResults, cs[0].subChecks), Flat(rs[1..], cs[1..]);
    SegmentRest(whole, base, rs[0], xs, ys);
  }

  // ----- the executor ----------------------------------------------------------------------

  /** The map leads every name to the last result of that name, and no other name anywhere. */
  ghost predicate LeadsToLast(m: NameMap, flat: seq<CheckResult>, pre: seq<Check>)
    requires |flat| == |pre|
  {
    forall name :: match LastNamed(pre, name)
                   case None => name !in m
                   case Some(k) => name in m && m[name] == flat[k]
  }

  lemma NamedLeadsToLast(m: NameMap, flat: seq<CheckResult>, pre: seq<Check>)
    requires |flat| == |pre| && forall i :: 0 <= i < |flat| ==> flat[i].check == pre[i]
    requires forall name :: name in m ==> LastNamed(pre, name).Some?
    ensures LeadsToLast(Named(m, flat), flat, pre)
  {
    forall name: string
      ensures match LastNamed(pre, name)
              case None => name !in Named(m, flat)
              case Some(k) => name in Named(m, flat) && Named(m, flat)[name] == flat[k]
    {
      NamedLooksUpLast(m, flat, pre, name);
    }
  }

  lemma {:induction false} LookedIsResolved(m: NameMap, flat: seq<CheckResult>, pre: seq<Check>, names: seq<string>)
    requires |flat| == |pre| && LeadsToLast(m, flat, pre)
    ensures Located(flat, Resolve(pre, names), Looked(m, names))
    decreases |names|
  {
    if names != [] {
      LookedIsResolved(m, flat, pre, names[1..]);
    }
  }

  /** The results are wired as the graph says: `flat` numbers them, and sub-results and
      dependencies are those of the nodes, each dependency listed twice. */
  ghost predicate Prepared(results: seq<CheckResult>, checks: seq<Check>, flat: seq<CheckResult>)
    reads flat
  {
    var g := Doubled(GraphOf(checks));
    && Mirrors(results, checks) && flat == Flat(results, checks) && Distinct(flat)
    && |flat| == |g.nodes| == |Pre(checks)|
    && Located(flat, g.roots, results)
    && forall i :: 0 <= i < |flat| ==>
         && flat[i].check == Pre(checks)[i] && g.nodes[i].fn == Pre(checks)[i].fn
         && Located(flat, g.nodes[i].subs, flat[i].subResults)
         && Located(flat, g.nodes[i].deps, flat[i].parents)
  }

  lemma LocatedTwice(flat: seq<CheckResult>, ids: seq<nat>, rs: seq<CheckResult>)
    requires Located(flat, ids, rs)
    ensures Located(flat, ids + ids, rs + rs)
  {
  }

  lemma WiringIsPrepared(results: seq<CheckResult>, checks: seq<Check>, flat: seq<CheckResult>, m: NameMap, m': NameMap)
    requires Mirrors(results, checks) && flat == Flat(results, checks) && Distinct(flat)
    requires |flat| == |Pre(checks)| && LeadsToLast(m, flat, Pre(checks)) && LeadsToLast(m', flat, Pre(checks))
    requires forall i :: 0 <= i < |flat| ==>
        flat[i].parents == Looked(m, flat[i].check.dependsOn) + Looked(m', flat[i].check.dependsOn)
    ensures Prepared(results, checks, flat)
  {
    var pre, h := Pre(checks), GraphOf(checks);
    FlatChecks(results, checks);
    NodesOfFields(pre, checks, 0, None, h.nodes, pre);
    assert flat[0..|flat|] == flat;
    TopsLocated(flat, results, checks, 0);
    SubsLocated(flat, pre, results, checks, 0, None);
    forall i: nat | i < |flat|
      ensures Located(flat, h.nodes[i].subs, flat[i].subResults)
      ensures Located(flat, h.nodes[i].deps + h.nodes[i].deps, flat[i].parents)
    {
      assert LocatedAt(flat, h.nodes, flat, i);
      var names := flat[i].check.dependsOn;
      LookedIsResolved(m, flat, pre, names);
      LookedIsResolved(m', flat, pre, names);
      assert Looked(m, names) == Looked(m', names);
      LocatedTwice(flat, h.nodes[i].deps, Looked(m, names));
    }
  }

  class CheckExecutor {
    var resultNameMap: NameMap
    var checks: seq<Check>
    var results: seq<CheckResult>

    /** The kept name map knows only names of current checks, although its results may be old. */
    ghost predicate Valid()
      reads this
    {
      forall name :: name in resultNameMap ==> LastNamed(Pre(checks), name).Some?
    }

    constructor ()
      ensures Valid() && checks == [] && results == []
    {
      resultNameMap, checks, results := map[], [], [];
    }

    method AddCheck(check: seq<Check>)
      requires Valid()
      modifies this
      ensures Valid() && checks == old(checks) + check
      ensures results == old(results) && resultNameMap == old(resultNameMap)
    {
      PreConcat(checks, check);
      forall name | name in resultNameMap
        ensures LastNamed(Pre(checks + check), name).Some?
      {
        var k := LastNamed(Pre(checks), name).value;
        assert Pre(checks + check)[k].name == name;
      }
      checks := checks + check;
    }

    /** However often runs were prepared before and checks added in between, the new results
        depend only on new results: no stale entry of the kept map is ever used. */
    method PrepareRun() returns (ghost flat: seq<CheckResult>)
      requires Valid()
      modifies this
      ensures Valid() && checks == old(checks)
      ensures forall k :: 0 <= k < |flat| ==> fresh(flat[k])
      ensures Prepared(results, checks, flat)
    {
      ghost var m;
      results, flat, m := PrepareChecks(checks);
      label L:
      FlatChecks(results, checks);
      NamedLeadsToLast(resultNameMap, flat, Pre(checks));
      resultNameMap := FillResultNameMap(results, checks, resultNameMap);
      FillAll(results, checks, flat, resultNameMap);
      assert Filled@L(flat, resultNameMap);
      WiringIsPrepared(results, checks, flat, m, resultNameMap);
    }
  }

  method PrepareChecks(checks: seq<Check>)
    returns (results: seq<CheckResult>, ghost flat: seq<CheckResult>, ghost m: NameMap)
    ensures Mirrors(results, checks) && flat == Flat(results, checks) && Distinct(flat)
    ensures forall k :: 0 <= k < |flat| ==> fresh(flat[k])
    ensures |flat| == |Pre(checks)| && LeadsToLast(m, flat, Pre(checks))
    ensures forall k :: 0 <= k < |flat| ==> flat[k].parents == Looked(m, flat[k].check.dependsOn)
  {
    results, flat := NewResults(checks);
    label L:
    FlatChecks(results, checks);
    NamedLeadsToLast(map[], flat, Pre(checks));
    var names := FillResultNameMap(results, checks, map[]);
    m := names;
    FillAll(results, checks, flat, names);
    assert Filled@L(flat, m);
  }
}
