/**
 What a set of prepared checks means, independently of any schedule, and the proof that every
 uncancelled schedule computes exactly that.

 `Value(g, i, n)` is what can be known about result `i` after `n` rounds of deduction: `None`
 until its final status is determined. On a graph with cycles, or with checks waiting for the
 sub-results of a skipped phase, it stays `None` for ever, and `Done` then never closes.
 */
module CheckMeaning {
  import opened Wrappers
  import opened CheckGraph
  import opened CheckSafety

  datatype Scan = Blocked | Skip | Pass

  /** Is Run ever called on result `i`? Sub-results of a phase that is skipped are not started. */
  predicate Starts(g: Graph, i: nat, n: nat)
    decreases n, 2, i
  {
    && i < |g.nodes|
    && match g.nodes[i].parent
       case None => true
       case Some(p) => p < i && Starts(g, p, n) && ScanDeps(g, g.nodes[p].deps, n) == Pass
  }

  /** Dependencies are looked at in order, and the first one that is not a success decides. */
  function ScanDeps(g: Graph, deps: seq<nat>, n: nat): Scan
    decreases n, 1, |deps|
  {
    if deps == [] then Pass else
    match Value(g, deps[0], n)
    case None => Blocked
    case Some(v) => if v == Success then ScanDeps(g, deps[1..], n) else Skip
  }

  /** Has some sub-result failed? All of them have to be known. */
  function ScanSubs(g: Graph, subs: seq<nat>, n: nat): Option<bool>
    decreases n, 1, |subs|
  {
    if subs == [] then Some(false) else
    match (Value(g, subs[0], n), ScanSubs(g, subs[1..], n))
    case (Some(v), Some(f)) => Some(v == Failed || f)
    case _ => None
  }

  function Value(g: Graph, i: nat, n: nat): Option<Status>
    decreases n, 0
  {
    if n == 0 || !Starts(g, i, n - 1) then None else
    var node := g.nodes[i];
    match ScanDeps(g, node.deps, n - 1)
    case Blocked => None
    case Skip => Some(Skipped)
    case Pass =>
      if node.subs == [] then Some(if node.fn == Fn(true) then Success else Failed) else
      match ScanSubs(g, node.subs, n - 1)
      case None => None
      case Some(failed) => Some(if failed then Failed else Success)
  }

  // ----- deduction only ever adds knowledge ------------------------------------------------

  lemma {:induction false} ValueOnce(g: Graph, i: nat, n: nat)
    ensures Value(g, i, n).Some? ==> Value(g, i, n + 1) == Value(g, i, n)
    decreases n, 0
  {
    if n > 0 && Value(g, i, n).Some? {
      StartsOnce(g, i, n - 1);
      DepsOnce(g, g.nodes[i].deps, n - 1);
      SubsOnce(g, g.nodes[i].subs, n - 1);
    }
  }

  lemma {:induction false} DepsOnce(g: Graph, deps: seq<nat>, n: nat)
    ensures ScanDeps(g, deps, n) != Blocked ==> ScanDeps(g, deps, n + 1) == ScanDeps(g, deps, n)
    decreases n, 1, |deps|
  {
    if deps != [] {
      ValueOnce(g, deps[0], n);
      DepsOnce(g, deps[1..], n);
    }
  }

  lemma {:induction false} SubsOnce(g: Graph, subs: seq<nat>, n: nat)
    ensures ScanSubs(g, subs, n).Some? ==> ScanSubs(g, subs, n + 1) == ScanSubs(g, subs, n)
    decreases n, 1, |subs|
  {
    if subs != [] {
      ValueOnce(g, subs[0], n);
      SubsOnce(g, subs[1..], n);
    }
  }

  lemma {:induction false} StartsOnce(g: Graph, i: nat, n: nat)
    ensures Starts(g, i, n) ==> Starts(g, i, n + 1)
    decreases n, 2, i
  {
    if Starts(g, i, n) && g.nodes[i].parent.Some? {
      var p := g.nodes[i].parent.value;
      StartsOnce(g, p, n);
      DepsOnce(g, g.nodes[p].deps, n);
    }
  }

  lemma {:induction false} ValueStays(g: Graph, i: nat, n: nat, m: nat)
    requires n <= m && Value(g, i, n).Some?
    ensures Value(g, i, m) == Value(g, i, n)
    decreases m
  {
    if n < m {
      ValueStays(g, i, n, m - 1);
      ValueOnce(g, i, m - 1);
    }
  }

  // ----- and is complete after as many rounds as there are results --------------------------

  ghost predicate SameTable(g: Graph, n: nat, m: nat) {
    forall i: nat {:trigger Value(g, i, n)} {:trigger Value(g, i, m)} :: Value(g, i, n) == Value(g, i, m)
  }

  lemma {:induction false} SameDeps(g: Graph, deps: seq<nat>, n: nat, m: nat)
    requires SameTable(g, n, m)
    ensures ScanDeps(g, deps, n) == ScanDeps(g, deps, m)
    decreases |deps|
  {
    if deps != [] {
      assert Value(g, deps[0], n) == Value(g, deps[0], m);
      SameDeps(g, deps[1..], n, m);
    }
  }

  lemma {:induction false} SameSubs(g: Graph, subs: seq<nat>, n: nat, m: nat)
    requires SameTable(g, n, m)
    ensures ScanSubs(g, subs, n) == ScanSubs(g, subs, m)
    decreases |subs|
  {
    if subs != [] {
      assert Value(g, subs[0], n) == Value(g, subs[0], m);
      SameSubs(g, subs[1..], n, m);
    }
  }

  lemma {:induction false} SameStarts(g: Graph, i: nat, n: nat, m: nat)
    requires SameTable(g, n, m)
    ensures Starts(g, i, n) == Starts(g, i, m)
    decreases i
  {
    if i < |g.nodes| && g.nodes[i].parent.Some? && g.nodes[i].parent.value < i {
      var p := g.nodes[i].parent.value;
      SameStarts(g, p, n, m);
      SameDeps(g, g.nodes[p].deps, n, m);
    }
  }

  lemma SameNext(g: Graph, n: nat, m: nat)
    requires SameTable(g, n, m)
    ensures SameTable(g, n + 1, m + 1)
  {
    var n', m' := n + 1, m + 1;
    forall i: nat
      ensures Value(g, i, n') == Value(g, i, m')
    {
      SameStarts(g, i, n, m);
      if Starts(g, i, n) {
        SameDeps(g, g.nodes[i].deps, n, m);
        SameSubs(g, g.nodes[i].subs, n, m);
      }
    }
  }

  /** Round `k` finds out nothing new. */
  ghost predicate AtRest(g: Graph, k: nat) {
    SameTable(g, k, k + 1)
  }

  lemma {:induction false} TableStays(g: Graph, k: nat, m: nat)
    requires AtRest(g, k) && k <= m
    ensures SameTable(g, k, m)
    decreases m
  {
    if k < m {
      TableStays(g, k, m - 1);
      SameNext(g, k, m - 1);
      var k' := k + 1;
      forall i: nat
        ensures Value(g, i, k) == Value(g, i, m)
      {
        assert Value(g, i, k) == Value(g, i, k');
      }
    }
  }

  /** How many of the results below `m` are known after `n` rounds. */
  function Known(g: Graph, n: nat, m: nat): (r: nat)
    ensures r <= m
  {
    if m == 0 then 0 else Known(g, n, m - 1) + if Value(g, m - 1, n).Some? then 1 else 0
  }

  lemma {:induction false} KnownGrows(g: Graph, n: nat, m: nat, i: nat)
    ensures Known(g, n, m) <= Known(g, n + 1, m)
    ensures i < m && Value(g, i, n) != Value(g, i, n + 1) ==> Known(g, n, m) < Known(g, n + 1, m)
    decreases m
  {
    if m > 0 {
      ValueOnce(g, m - 1, n);
      KnownGrows(g, n, m - 1, i);
    }
  }

  /** Either deduction has come to rest, or every round so far has found out something. */
  lemma {:induction false} RoundsLearn(g: Graph, n: nat)
    ensures (exists k: nat :: k < n && AtRest(g, k)) || Known(g, n, |g.nodes|) >= n
  {
    if n > 0 {
      RoundsLearn(g, n - 1);
      if !AtRest(g, n - 1) {
        var i: nat :| Value(g, i, n - 1) != Value(g, i, n);
        ValueOnce(g, i, n - 1);
        assert Value(g, i, n).Some? && Starts(g, i, n - 1);
        KnownGrows(g, n - 1, |g.nodes|, i);
      }
    }
  }

  /** Whatever can be deduced at all can be deduced in |nodes| rounds. */
  lemma EnoughRounds(g: Graph, i: nat, n: nat)
    requires Value(g, i, n).Some?
    ensures Value(g, i, |g.nodes|) == Value(g, i, n)
  {
    var max := |g.nodes|;
    RoundsLearn(g, max + 1);
    var k: nat :| k < max + 1 && AtRest(g, k);
    if n < max {
      ValueStays(g, i, n, max);
    } else {
      TableStays(g, k, n);
      TableStays(g, k, max);
      assert Value(g, i, k) == Value(g, i, n) && Value(g, i, k) == Value(g, i, max);
    }
  }

  // ----- every uncancelled run agrees with the meaning -------------------------------------

  predicate Final(v: Status) {
    v == Skipped || v == Success || v == Failed
  }

  ghost predicate SeenSubs(s: State, subs: seq<nat>, k: nat, failed: bool)
    requires k <= |subs|
  {
    && (forall m :: 0 <= m < k ==> Done(s, subs[m]))
    && (failed <==> exists m :: 0 <= m < k && DoneWith(s, subs[m], Failed))
  }

  ghost predicate Agrees(g: Graph, s: State, i: nat, n: nat)
    requires Shaped(g, s) && i < |g.nodes|
  {
    var node, l := g.nodes[i], s.locals[i];
    && (!l.pc.Unstarted? ==> Starts(g, i, n))
    && (Final(l.status) ==> Value(g, i, n) == Some(l.status))
    && (l.pc.Exiting? || l.pc.Exited? ==> Final(l.status))
    && (l.pc.AwaitSub? ==> l.pc.sub <= |node.subs| && SeenSubs(s, node.subs, l.pc.sub, l.pc.failed))
    && (l.pc.SawSub? ==> l.pc.sub <= |node.subs| && SeenSubs(s, node.subs, l.pc.sub, l.pc.failed))
    && (l.pc.Verdict? ==> SeenSubs(s, node.subs, |node.subs|, l.pc.failed))
    && (l.pc.WriteFn? ==> l.pc.ok == (node.fn == Fn(true)))
  }

  ghost predicate Sound(g: Graph, s: State, n: nat) {
    && Inv(g, s) && !s.cancelled
    && forall i: nat {:trigger Agrees(g, s, i, n)} :: i < |g.nodes| ==> Agrees(g, s, i, n)
  }

  lemma {:induction false} ScanDepsPass(g: Graph, s: State, deps: seq<nat>, n: nat)
    requires Sound(g, s, n)
    requires forall k :: 0 <= k < |deps| ==> DoneWith(s, deps[k], Success)
    ensures ScanDeps(g, deps, n) == Pass
    decreases |deps|
  {
    if deps != [] {
      assert NodeInv(g, s, deps[0]) && Agrees(g, s, deps[0], n);
      ScanDepsPass(g, s, deps[1..], n);
    }
  }

  lemma {:induction false} ScanDepsSkip(g: Graph, s: State, deps: seq<nat>, k: nat, n: nat)
    requires Sound(g, s, n) && k < |deps|
    requires forall m :: 0 <= m < k ==> DoneWith(s, deps[m], Success)
    requires Done(s, deps[k]) && s.locals[deps[k]].status != Success
    ensures ScanDeps(g, deps, n) == Skip
    decreases |deps|
  {
    assert NodeInv(g, s, deps[0]) && Agrees(g, s, deps[0], n);
    if k > 0 {
      ScanDepsSkip(g, s, deps[1..], k - 1, n);
    }
  }

  lemma {:induction false} ScanSubsKnown(g: Graph, s: State, subs: seq<nat>, failed: bool, n: nat)
    requires Sound(g, s, n) && SeenSubs(s, subs, |subs|, failed)
    ensures ScanSubs(g, subs, n) == Some(failed)
    decreases |subs|
  {
    if subs != [] {
      assert NodeInv(g, s, subs[0]) && Agrees(g, s, subs[0], n);
      var rest := exists m :: 0 <= m < |subs[1..]| && DoneWith(s, subs[1..][m], Failed);
      ScanSubsKnown(g, s, subs[1..], rest, n);
      if failed && !DoneWith(s, subs[0], Failed) {
        var m :| 0 <= m < |subs| && DoneWith(s, subs[m], Failed);
        assert subs[1..][m - 1] == subs[m];
      }
      if rest {
        var m :| 0 <= m < |subs[1..]| && DoneWith(s, subs[1..][m], Failed);
        assert subs[m + 1] == subs[1..][m];
      }
    }
  }

  /** Knowledge about a result that a step does not touch, or moves without finishing it. */
  lemma AgreesStarted(g: Graph, s: State, a: Action, j: nat, n: nat)
    requires WellFormed(g) && Sound(g, s, n) && Enabled(g, s, a) && j < |g.nodes|
    requires Shaped(g, Apply(g, s, a)) && !Apply(g, s, a).locals[j].pc.Unstarted?
    ensures Starts(g, j, n + 1)
  {
    assert Agrees(g, s, j, n) && NodeWellFormed(g, j);
    if !s.locals[j].pc.Unstarted? {
      StartsOnce(g, j, n);
    } else if g.nodes[j].parent.Some? {
      var p := g.nodes[j].parent.value;
      assert NodeInv(g, s, p) && Agrees(g, s, p, n);
      var k :| 0 <= k < |g.nodes[p].subs| && g.nodes[p].subs[k] == j;
      StepSubStarted(g, s, a, p, k);
      LocalSteps(g, s, a, p);
      assert s.locals[p].pc.SpawnSub?;
      ScanDepsPass(g, s, g.nodes[p].deps, n);
      StartsOnce(g, p, n);
      DepsOnce(g, g.nodes[p].deps, n);
    }
  }

  lemma AgreesFinished(g: Graph, s: State, a: Action, j: nat, n: nat)
    requires WellFormed(g) && Sound(g, s, n) && Enabled(g, s, a) && j < |g.nodes|
    requires Shaped(g, Apply(g, s, a)) && Final(Apply(g, s, a).locals[j].status)
    ensures Value(g, j, n + 1) == Some(Apply(g, s, a).locals[j].status)
  {
    assert Agrees(g, s, j, n) && NodeInv(g, s, j);
    LocalSteps(g, s, a, j);
    var node, l := g.nodes[j], s.locals[j];
    if Final(l.status) {
      ValueOnce(g, j, n);
      StepEvolves(g, s, a, j);
    } else if l.pc.Skipping? {
      ScanDepsSkip(g, s, node.deps, l.pc.dep, n);
    } else {
      ScanDepsPass(g, s, node.deps, n);
      if l.pc.Verdict? {
        ScanSubsKnown(g, s, node.subs, l.pc.failed, n);
      }
    }
  }

  lemma SeenSubsStay(g: Graph, s: State, a: Action, j: nat, k: nat, failed: bool)
    requires WellFormed(g) && Inv(g, s) && Enabled(g, s, a) && j < |g.nodes| && k <= |g.nodes[j].subs|
    requires SeenSubs(s, g.nodes[j].subs, k, failed)
    ensures SeenSubs(Apply(g, s, a), g.nodes[j].subs, k, failed)
  {
    assert NodeWellFormed(g, j);
    EvolveAll(g, s, a, g.nodes[j].subs);
    var s', subs := Apply(g, s, a), g.nodes[j].subs;
    if failed {
      var m :| 0 <= m < k && DoneWith(s, subs[m], Failed);
      assert DoneWith(s', subs[m], Failed);
    }
    if m :| 0 <= m < k && DoneWith(s', subs[m], Failed) {
      assert DoneWith(s, subs[m], Failed);
    }
  }

  /** How a goroutine gets to where it waits for its sub-results. */
  lemma SubPcFrom(g: Graph, s: State, a: Action, j: nat)
    requires WellFormed(g) && Inv(g, s) && Enabled(g, s, a) && j < |g.nodes|
    ensures Shaped(g, Apply(g, s, a))
    ensures var pc, pc' := s.locals[j].pc, Apply(g, s, a).locals[j].pc;
            pc'.AwaitSub? || pc'.SawSub? || pc'.Verdict? ==>
              || pc' == pc
              || pc' == AwaitSub(0, false)
              || (pc.AwaitSub? && pc' == SawSub(pc.sub, pc.failed))
              || (pc.SawSub? && pc.sub < |g.nodes[j].subs| && Done(s, g.nodes[j].subs[pc.sub]) &&
                  pc' == NextSub(g.nodes[j], pc.sub + 1,
                                 pc.failed || s.locals[g.nodes[j].subs[pc.sub]].status == Failed))
  {
    assert NodeInv(g, s, j);
    LocalSteps(g, s, a, j);
  }

  lemma AgreesSubs(g: Graph, s: State, a: Action, j: nat, n: nat)
    requires WellFormed(g) && Sound(g, s, n) && Enabled(g, s, a) && a != Cancel && j < |g.nodes|
    ensures var s', node := Apply(g, s, a), g.nodes[j];
            && Shaped(g, s')
            && var pc := s'.locals[j].pc;
               && (pc.AwaitSub? ==> pc.sub <= |node.subs| && SeenSubs(s', node.subs, pc.sub, pc.failed))
               && (pc.SawSub? ==> pc.sub <= |node.subs| && SeenSubs(s', node.subs, pc.sub, pc.failed))
               && (pc.Verdict? ==> SeenSubs(s', node.subs, |node.subs|, pc.failed))
  {
    assert Agrees(g, s, j, n);
    SubPcFrom(g, s, a, j);
    var pc, subs, s' := s.locals[j].pc, g.nodes[j].subs, Apply(g, s, a);
    if pc.AwaitSub? || pc.SawSub? {
      SeenSubsStay(g, s, a, j, pc.sub, pc.failed);
    } else if pc.Verdict? {
      SeenSubsStay(g, s, a, j, |subs|, pc.failed);
    }
    if pc.SawSub? && pc.sub < |subs| && Done(s, subs[pc.sub]) {
      StepEvolves(g, s, a, subs[pc.sub]);
      SeenNext(s', subs, pc.sub, pc.failed);
    }
  }

  lemma SeenNext(s: State, subs: seq<nat>, k: nat, failed: bool)
    requires k < |subs| && SeenSubs(s, subs, k, failed) && Done(s, subs[k])
    ensures SeenSubs(s, subs, k + 1, failed || s.locals[subs[k]].status == Failed)
  {
  }

  lemma StepSound(g: Graph, s: State, a: Action, n: nat)
    requires WellFormed(g) && Sound(g, s, n) && Enabled(g, s, a) && a != Cancel
    ensures Sound(g, Apply(g, s, a), n + 1)
  {
    StepInv(g, s, a);
    var s', n' := Apply(g, s, a), n + 1;
    forall j: nat | j < |g.nodes|
      ensures Agrees(g, s', j, n')
    {
      assert Agrees(g, s, j, n) && NodeInv(g, s, j);
      LocalSteps(g, s, a, j);
      AgreesSubs(g, s, a, j, n);
      if !s'.locals[j].pc.Unstarted? {
        AgreesStarted(g, s, a, j, n);
      }
      if Final(s'.locals[j].status) {
        AgreesFinished(g, s, a, j, n);
      }
    }
  }

  lemma {:induction false} RunSound(g: Graph, actions: seq<Action>, states: seq<State>, k: nat)
    requires WellFormed(g) && IsRun(g, actions, states) && k < |states| && !states[k].cancelled
    ensures Sound(g, states[k], k)
  {
    if k == 0 {
      InitInv(g);
      forall j: nat | j < |g.nodes|
        ensures Agrees(g, states[0], j, 0)
      {
      }
    } else {
      RunInv(g, actions, states, k - 1);
      RunSound(g, actions, states, k - 1);
      StepSound(g, states[k - 1], actions[k - 1], k - 1);
    }
  }

  // ----- a complete run has found out everything there is to know --------------------------

  /** In a complete state a goroutine is blocked in a select, or has exited, or never started. */
  lemma WhereBlocked(g: Graph, s: State, i: nat)
    requires WellFormed(g) && Inv(g, s) && Complete(g, s) && i < |g.nodes|
    ensures var n, pc := g.nodes[i], s.locals[i].pc;
            || pc.Unstarted?
            || pc.Exited?
            || (pc.AwaitDep? && pc.dep < |n.deps| && !Done(s, n.deps[pc.dep]))
            || (pc.AwaitSub? && pc.sub < |n.subs| && !Done(s, n.subs[pc.sub]))
  {
    assert NodeInv(g, s, i) && NodeWellFormed(g, i);
    assert !Enabled(g, s, Advance(i));
  }

  lemma {:induction false} CompleteKnowsValue(g: Graph, s: State, i: nat, n: nat, r: nat)
    requires WellFormed(g) && Sound(g, s, r) && Complete(g, s) && Value(g, i, n).Some?
    ensures i < |g.nodes| && Done(s, i)
    decreases n, 0
  {
    var node := g.nodes[i];
    CompleteKnowsStarts(g, s, i, n - 1, r);
    WhereBlocked(g, s, i);
    assert NodeInv(g, s, i) && Agrees(g, s, i, r);
    var pc := s.locals[i].pc;
    if pc.AwaitDep? {
      CompleteKnowsDeps(g, s, node.deps, pc.dep, n - 1, r);
    } else if pc.AwaitSub? {
      assert ScanDeps(g, node.deps, n - 1) == Pass by {
        ScanDepsPass(g, s, node.deps, r);
        ScansAgree(g, node.deps, n - 1, r);
      }
      CompleteKnowsSubs(g, s, node.subs, pc.sub, n - 1, r);
    }
  }

  lemma {:induction false} ScansAgree(g: Graph, deps: seq<nat>, n: nat, r: nat)
    requires ScanDeps(g, deps, n) != Blocked && ScanDeps(g, deps, r) != Blocked
    ensures ScanDeps(g, deps, n) == ScanDeps(g, deps, r)
    decreases |deps|
  {
    if deps != [] {
      ValueStays(g, deps[0], n, if n < r then r else n);
      ValueStays(g, deps[0], r, if n < r then r else n);
      if Value(g, deps[0], n) == Some(Success) {
        ScansAgree(g, deps[1..], n, r);
      }
    }
  }

  /** If the scan reaches dependency `k` and is not blocked, that dependency is Done. */
  lemma {:induction false} CompleteKnowsDeps(g: Graph, s: State, deps: seq<nat>, k: nat, n: nat, r: nat)
    requires WellFormed(g) && Sound(g, s, r) && Complete(g, s) && k < |deps|
    requires ScanDeps(g, deps, n) != Blocked
    requires forall m :: 0 <= m < k ==> DoneWith(s, deps[m], Success)
    ensures Done(s, deps[k])
    decreases n, 1, |deps|
  {
    CompleteKnowsValue(g, s, deps[0], n, r);
    if k > 0 {
      assert Agrees(g, s, deps[0], r) && NodeInv(g, s, deps[0]);
      ValueStays(g, deps[0], n, if n < r then r else n);
      ValueStays(g, deps[0], r, if n < r then r else n);
      CompleteKnowsDeps(g, s, deps[1..], k - 1, n, r);
    }
  }

  lemma {:induction false} CompleteKnowsSubs(g: Graph, s: State, subs: seq<nat>, k: nat, n: nat, r: nat)
    requires WellFormed(g) && Sound(g, s, r) && Complete(g, s) && k < |subs|
    requires ScanSubs(g, subs, n).Some?
    ensures Done(s, subs[k])
    decreases n, 1, |subs|
  {
    if k == 0 {
      CompleteKnowsValue(g, s, subs[0], n, r);
    } else {
      CompleteKnowsSubs(g, s, subs[1..], k - 1, n, r);
    }
  }

  lemma {:induction false} CompleteKnowsStarts(g: Graph, s: State, i: nat, n: nat, r: nat)
    requires WellFormed(g) && Sound(g, s, r) && Complete(g, s) && Starts(g, i, n)
    ensures !s.locals[i].pc.Unstarted?
    decreases n, 2, i
  {
    assert NodeWellFormed(g, i) && NodeInv(g, s, i);
    match g.nodes[i].parent {
      case None =>
        assert !Enabled(g, s, StartRoot);
        var k :| 0 <= k < |g.roots| && g.roots[k] == i;
      case Some(p) =>
        CompleteKnowsStarts(g, s, p, n, r);
        WhereBlocked(g, s, p);
        assert NodeInv(g, s, p) && Agrees(g, s, p, r) && NodeWellFormed(g, p);
        var l, deps := s.locals[p], g.nodes[p].deps;
        if l.pc.AwaitDep? {
          CompleteKnowsDeps(g, s, deps, l.pc.dep, n, r);
        } else if l.status == Skipped {
          if r > 0 {
            assert ScanDeps(g, deps, r - 1) == Skip;
            ScansAgree(g, deps, n, r - 1);
          }
        }
        assert Began(l.status);
        var k :| 0 <= k < |g.nodes[p].subs| && g.nodes[p].subs[k] == i;
        assert HasSpawned(l, k);
    }
  }
}
