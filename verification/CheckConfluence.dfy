/**
 The main results about the executor: one possible end for all uncancelled schedules, the
 recursive evaluation it agrees with, bounded runs, freedom from deadlock, and the harmlessness
 of the doubled dependency lists that PrepareRun builds.
 */
module CheckConfluence {
  import opened Wrappers
  import opened CheckGraph
  import opened CheckSafety
  import opened CheckMeaning
  import opened Budgets

  function Last<T>(s: seq<T>): T
    requires s != []
  {
    s[|s| - 1]
  }

  /** A maximal uncancelled run. */
  ghost predicate IsFullRun(g: Graph, actions: seq<Action>, states: seq<State>) {
    IsRun(g, actions, states) && Complete(g, Last(states)) && !Last(states).cancelled
  }

  // ----- exactness -------------------------------------------------------------------------

  /** Whatever the graph, a full run closes Done of exactly the results whose value can be
      deduced, and leaves them with that value; |nodes| rounds of deduction find out which. */
  lemma FullRunComputesValue(g: Graph, actions: seq<Action>, states: seq<State>, i: nat, v: Status)
    requires WellFormed(g) && IsFullRun(g, actions, states) && i < |g.nodes|
    ensures DoneWith(Last(states), i, v) <==> exists n: nat :: Value(g, i, n) == Some(v)
    ensures DoneWith(Last(states), i, v) <==> Value(g, i, |g.nodes|) == Some(v)
  {
    var s, r := Last(states), |states| - 1;
    RunSound(g, actions, states, r);
    assert NodeInv(g, s, i) && Agrees(g, s, i, r);
    if DoneWith(s, i, v) {
      assert Value(g, i, r) == Some(v);
    }
    if n: nat :| Value(g, i, n) == Some(v) {
      EnoughRounds(g, i, n);
      CompleteKnowsValue(g, s, i, n, r);
      ValueStays(g, i, n, if n < r then r else n);
      ValueStays(g, i, r, if n < r then r else n);
    }
  }

  // ----- confluence ------------------------------------------------------------------------

  lemma SameDone(g: Graph, s: State, t: State, r: nat, q: nat, i: nat)
    requires WellFormed(g) && Sound(g, s, r) && Sound(g, t, q) && Complete(g, s) && Complete(g, t)
    requires i < |g.nodes|
    ensures Done(s, i) <==> Done(t, i)
    ensures Done(s, i) ==> s.locals[i] == t.locals[i]
    ensures s.locals[i].pc.Unstarted? <==> t.locals[i].pc.Unstarted?
  {
    assert NodeInv(g, s, i) && Agrees(g, s, i, r);
    assert NodeInv(g, t, i) && Agrees(g, t, i, q);
    if !s.locals[i].pc.Unstarted? {
      CompleteKnowsStarts(g, t, i, r, q);
    }
    if !t.locals[i].pc.Unstarted? {
      CompleteKnowsStarts(g, s, i, q, r);
    }
    if Done(s, i) {
      CompleteKnowsValue(g, t, i, r, q);
    }
    if Done(t, i) {
      CompleteKnowsValue(g, s, i, q, r);
    }
    if Done(s, i) && Done(t, i) {
      ValueStays(g, i, r, if r < q then q else r);
      ValueStays(g, i, q, if r < q then q else r);
    }
  }

  lemma SameLocal(g: Graph, s: State, t: State, r: nat, q: nat, i: nat)
    requires WellFormed(g) && Sound(g, s, r) && Sound(g, t, q) && Complete(g, s) && Complete(g, t)
    requires i < |g.nodes|
    requires forall j: nat {:trigger s.locals[j]} {:trigger t.locals[j]} :: j < |g.nodes| ==>
        (Done(s, j) <==> Done(t, j)) && (Done(s, j) ==> s.locals[j] == t.locals[j])
    requires s.locals[i].pc.Unstarted? <==> t.locals[i].pc.Unstarted?
    ensures s.locals[i] == t.locals[i]
  {
    assert NodeInv(g, s, i) && Agrees(g, s, i, r) && NodeWellFormed(g, i);
    assert NodeInv(g, t, i) && Agrees(g, t, i, q);
    WhereBlocked(g, s, i);
    WhereBlocked(g, t, i);
    var n, b, c := g.nodes[i], s.locals[i].pc, t.locals[i].pc;
    if b.AwaitDep? || c.AwaitDep? {
      assert b.AwaitDep? ==> !DoneWith(t, n.deps[b.dep], Success);
      assert c.AwaitDep? ==> !DoneWith(s, n.deps[c.dep], Success);
      assert b.AwaitDep? && c.AwaitDep? && b.dep == c.dep;
    } else if b.AwaitSub? && c.AwaitSub? {
      assert !Done(t, n.subs[b.sub]) && !Done(s, n.subs[c.sub]);
      assert b.sub == c.sub;
      assert forall k :: 0 <= k < b.sub ==> (DoneWith(s, n.subs[k], Failed) <==> DoneWith(t, n.subs[k], Failed));
    }
  }

  /** All uncancelled schedules of a graph that run to completion end in the same state. */
  lemma Confluence(
    g: Graph, actions: seq<Action>, states: seq<State>, actions': seq<Action>, states': seq<State>)
    requires WellFormed(g) && IsFullRun(g, actions, states) && IsFullRun(g, actions', states')
    ensures Last(states) == Last(states')
  {
    var s, t, r, q := Last(states), Last(states'), |states| - 1, |states'| - 1;
    RunSound(g, actions, states, r);
    RunSound(g, actions', states', q);
    forall j: nat | j < |g.nodes|
      ensures Done(s, j) <==> Done(t, j)
      ensures Done(s, j) ==> s.locals[j] == t.locals[j]
      ensures s.locals[j].pc.Unstarted? <==> t.locals[j].pc.Unstarted?
    {
      SameDone(g, s, t, r, q, j);
    }
    forall j: nat | j < |g.nodes|
      ensures s.locals[j] == t.locals[j]
    {
      SameLocal(g, s, t, r, q, j);
    }
    assert s.locals == t.locals;
    MainBlocked(g, s);
    MainBlocked(g, t);
  }

  /** Where CheckExecutor.Run stands when nothing can move. */
  lemma MainBlocked(g: Graph, s: State)
    requires WellFormed(g) && Inv(g, s) && Complete(g, s)
    ensures s.nextRoot == |g.roots|
    ensures s.drained < |g.roots| ==> !Done(s, g.roots[s.drained])
    ensures forall k :: 0 <= k < s.drained ==> Done(s, g.roots[k])
    ensures s.returned <==> s.cancelled || s.drained == |g.roots|
  {
    assert !Enabled(g, s, StartRoot) && !Enabled(g, s, DrainRoot) && !Enabled(g, s, Return);
  }

  // ----- the recursive evaluation ----------------------------------------------------------

  /** `rank` witnesses that waiting for dependencies and for sub-results is acyclic. */
  ghost predicate Ranked(g: Graph, rank: seq<nat>) {
    && |rank| == |g.nodes|
    && forall i :: 0 <= i < |g.nodes| ==>
         && (forall k :: 0 <= k < |g.nodes[i].deps| ==>
               g.nodes[i].deps[k] < |rank| && rank[g.nodes[i].deps[k]] < rank[i])
         && (forall k :: 0 <= k < |g.nodes[i].subs| ==>
               g.nodes[i].subs[k] < |rank| && rank[g.nodes[i].subs[k]] < rank[i])
  }

  predicate NoPhaseDeps(g: Graph) {
    forall i :: 0 <= i < |g.nodes| ==> g.nodes[i].subs == [] || g.nodes[i].deps == []
  }

  /** Skipped if some dependency is not a success, else the answer of the check function, or for
      a phase Failed exactly when some sub-check failed. No order, no schedule. */
  ghost function Eval(g: Graph, rank: seq<nat>, i: nat): Status
    requires Ranked(g, rank) && i < |g.nodes|
    decreases rank[i]
  {
    var n := g.nodes[i];
    if exists k :: 0 <= k < |n.deps| && Eval(g, rank, n.deps[k]) != Success then Skipped
    else if n.subs == [] then (if n.fn == Fn(true) then Success else Failed)
    else if exists k :: 0 <= k < |n.subs| && Eval(g, rank, n.subs[k]) == Failed then Failed
    else Success
  }

  lemma {:induction false} AllStart(g: Graph, i: nat, n: nat)
    requires WellFormed(g) && NoPhaseDeps(g) && i < |g.nodes|
    ensures Starts(g, i, n)
    decreases i
  {
    assert NodeWellFormed(g, i);
    if g.nodes[i].parent.Some? {
      AllStart(g, g.nodes[i].parent.value, n);
    }
  }

  lemma {:induction false} EvalIsValue(g: Graph, rank: seq<nat>, i: nat, n: nat)
    requires WellFormed(g) && Ranked(g, rank) && NoPhaseDeps(g) && i < |g.nodes| && n > rank[i]
    ensures Value(g, i, n) == Some(Eval(g, rank, i))
    decreases rank[i], 1
  {
    var node := g.nodes[i];
    AllStart(g, i, n - 1);
    EvalDeps(g, rank, i, 0, n - 1);
    EvalSubs(g, rank, i, 0, n - 1);
    assert node.deps[0..] == node.deps && node.subs[0..] == node.subs;
  }

  lemma {:induction false} EvalDeps(g: Graph, rank: seq<nat>, i: nat, j: nat, n: nat)
    requires WellFormed(g) && Ranked(g, rank) && NoPhaseDeps(g) && i < |g.nodes| && n >= rank[i]
    requires j <= |g.nodes[i].deps|
    ensures ScanDeps(g, g.nodes[i].deps[j..], n) ==
            if exists k :: j <= k < |g.nodes[i].deps| && Eval(g, rank, g.nodes[i].deps[k]) != Success
            then Skip else Pass
    decreases rank[i], 0, |g.nodes[i].deps| - j
  {
    var deps := g.nodes[i].deps;
    if j < |deps| {
      EvalIsValue(g, rank, deps[j], n);
      EvalDeps(g, rank, i, j + 1, n);
      assert deps[j..][1..] == deps[j + 1..];
    }
  }

  lemma {:induction false} EvalSubs(g: Graph, rank: seq<nat>, i: nat, j: nat, n: nat)
    requires WellFormed(g) && Ranked(g, rank) && NoPhaseDeps(g) && i < |g.nodes| && n >= rank[i]
    requires j <= |g.nodes[i].subs|
    ensures ScanSubs(g, g.nodes[i].subs[j..], n) ==
            Some(exists k :: j <= k < |g.nodes[i].subs| && Eval(g, rank, g.nodes[i].subs[k]) == Failed)
    decreases rank[i], 0, |g.nodes[i].subs| - j
  {
    var subs := g.nodes[i].subs;
    if j < |subs| {
      EvalIsValue(g, rank, subs[j], n);
      EvalSubs(g, rank, i, j + 1, n);
      assert subs[j..][1..] == subs[j + 1..];
    }
  }

  lemma FullRunEvaluatesOne(g: Graph, rank: seq<nat>, actions: seq<Action>, states: seq<State>, i: nat)
    requires WellFormed(g) && Ranked(g, rank) && NoPhaseDeps(g) && IsFullRun(g, actions, states)
    requires i < |g.nodes|
    ensures DoneWith(Last(states), i, Eval(g, rank, i))
  {
    EvalIsValue(g, rank, i, rank[i] + 1);
    FullRunComputesValue(g, actions, states, i, Eval(g, rank, i));
  }

  /** With an acyclic graph and no phase that has dependencies, every full run closes every Done with
      the evaluated status, and CheckExecutor.Run returns. */
  lemma FullRunEvaluates(g: Graph, rank: seq<nat>, actions: seq<Action>, states: seq<State>)
    requires WellFormed(g) && Ranked(g, rank) && NoPhaseDeps(g) && IsFullRun(g, actions, states)
    ensures forall i: nat :: i < |g.nodes| ==> DoneWith(Last(states), i, Eval(g, rank, i))
    ensures Last(states).returned
  {
    forall i: nat | i < |g.nodes|
      ensures DoneWith(Last(states), i, Eval(g, rank, i))
    {
      FullRunEvaluatesOne(g, rank, actions, states, i);
    }
    forall k | 0 <= k < |g.roots|
      ensures Done(Last(states), g.roots[k])
    {
      FullRunEvaluatesOne(g, rank, actions, states, g.roots[k]);
    }
    RunInv(g, actions, states, |states| - 1);
    MainBlocked(g, Last(states));
  }

  /** For every graph: an uncancelled run that has come to its end has returned exactly if |nodes|
      rounds of deduction give every top-level result a value. */
  lemma ReturnsExactly(g: Graph, actions: seq<Action>, states: seq<State>)
    requires WellFormed(g) && IsFullRun(g, actions, states)
    ensures Last(states).returned <==> forall k :: 0 <= k < |g.roots| ==> Value(g, g.roots[k], |g.nodes|).Some?
  {
    var s := Last(states);
    RunInv(g, actions, states, |states| - 1);
    MainBlocked(g, s);
    forall k | 0 <= k < |g.roots|
      ensures Done(s, g.roots[k]) <==> Value(g, g.roots[k], |g.nodes|).Some?
    {
      DoneExactly(g, actions, states, g.roots[k]);
    }
  }

  lemma DoneExactly(g: Graph, actions: seq<Action>, states: seq<State>, i: nat)
    requires WellFormed(g) && IsFullRun(g, actions, states) && i < |g.nodes|
    ensures Done(Last(states), i) <==> Value(g, i, |g.nodes|).Some?
  {
    var s, v := Last(states), Value(g, i, |g.nodes|);
    RunInv(g, actions, states, |states| - 1);
    FullRunComputesValue(g, actions, states, i, s.locals[i].status);
    if v.Some? {
      FullRunComputesValue(g, actions, states, i, v.value);
    }
  }

  // ----- progress --------------------------------------------------------------------------

  /** In every reachable uncancelled state in which some Done is still open, a goroutine can move. */
  lemma DeadlockFree(
    g: Graph, rank: seq<nat>, actions: seq<Action>, states: seq<State>, i: nat)
    requires WellFormed(g) && Ranked(g, rank) && NoPhaseDeps(g) && IsRun(g, actions, states)
    requires !Last(states).cancelled && i < |g.nodes| && !Done(Last(states), i)
    ensures exists a: Action :: Enabled(g, Last(states), a) && a != Cancel
  {
    if Complete(g, Last(states)) {
      FullRunEvaluatesOne(g, rank, actions, states, i);
      assert false;
    }
  }

  /** Cancelling unblocks everything, whatever the graph: once nothing can move, every goroutine
      that was started has closed its Done and Run has returned. */
  lemma CancelledRunsEnd(g: Graph, actions: seq<Action>, states: seq<State>)
    requires WellFormed(g) && IsRun(g, actions, states) && Complete(g, Last(states)) && Last(states).cancelled
    ensures Last(states).returned
    ensures forall i: nat :: i < |g.nodes| ==>
              Shaped(g, Last(states)) && (Last(states).locals[i].pc.Unstarted? || Done(Last(states), i))
  {
    var s := Last(states);
    RunInv(g, actions, states, |states| - 1);
    MainBlocked(g, s);
    forall i: nat | i < |g.nodes|
      ensures s.locals[i].pc.Unstarted? || Done(s, i)
    {
      WhereBlocked(g, s, i);
      assert NodeInv(g, s, i);
      assert !Enabled(g, s, Abort(i));
    }
  }

  /** One step leads from `s` to `t`. */
  ghost predicate Leads(g: Graph, s: State, t: State) {
    exists a: Action :: Enabled(g, s, a) && t == Apply(g, s, a)
  }

  /** In every state of every run, CheckExecutor.Run can return exactly if it has not, every top-level
      result is started, and the run is cancelled or every top-level Done has been received. It does not
      wait for a check function that is still executing in a cancelled run, and it changes no result. */
  lemma CanReturnExactly(g: Graph, actions: seq<Action>, states: seq<State>)
    requires WellFormed(g) && IsRun(g, actions, states)
    ensures var s := Last(states);
            var may := !s.returned && s.nextRoot == |g.roots| && (s.cancelled || s.drained == |g.roots|);
            && ((exists t :: Leads(g, s, t) && t.returned && !s.returned) <==> may)
            && (may ==> Leads(g, s, s.(returned := true)))
  {
    var s := Last(states);
    RunInv(g, actions, states, |states| - 1);
    if !s.returned && s.nextRoot == |g.roots| && (s.cancelled || s.drained == |g.roots|) {
      assert Enabled(g, s, Return) && Apply(g, s, Return) == s.(returned := true);
      assert Leads(g, s, s.(returned := true));
    }
  }

  /** The Done channel a goroutine waits for: of a dependency or of a sub-result. */
  function Awaited(n: Node, pc: Pc): Option<nat> {
    match pc
    case AwaitDep(k) => if k < |n.deps| then Some(n.deps[k]) else None
    case AwaitSub(k, _) => if k < |n.subs| then Some(n.subs[k]) else None
    case _ => None
  }

  /** In every state of every run, a goroutine that has been started and has not ended can go on unless it
      waits for a Done that is open in a run that is not cancelled; and it can end with its status as it is,
      leaving everything else alone, if it waits in a cancelled run. */
  lemma GoesOnExactly(g: Graph, actions: seq<Action>, states: seq<State>, i: nat)
    requires WellFormed(g) && IsRun(g, actions, states) && i < |g.nodes|
    ensures var s := Last(states);
            && Shaped(g, s)
            && var l := s.locals[i];
               var awaited := Awaited(g.nodes[i], l.pc);
               && (awaited.Some? <==> l.pc.AwaitDep? || l.pc.AwaitSub?)
               && (l.pc != Unstarted ==>
                     ((exists t :: Leads(g, s, t) && Shaped(g, t) && t.locals[i] != l) <==>
                      l.pc != Exited && (awaited.None? || s.cancelled || Done(s, awaited.value))))
               && (awaited.Some? ==>
                     (Leads(g, s, s.(locals := s.locals[i := l.(pc := Exiting)])) <==> s.cancelled))
  {
    var s := Last(states);
    RunInv(g, actions, states, |states| - 1);
    assert NodeInv(g, s, i) && NodeWellFormed(g, i);
    var l := s.locals[i];
    var awaited := Awaited(g.nodes[i], l.pc);
    if l.pc != Unstarted {
      if l.pc != Exited && (awaited.None? || s.cancelled || Done(s, awaited.value)) {
        CanMove(g, s, i);
      }
      CannotMove(g, s, i);
    }
    if awaited.Some? {
      CanLeave(g, s, i);
    }
  }

  lemma CanMove(g: Graph, s: State, i: nat)
    requires WellFormed(g) && Inv(g, s) && i < |g.nodes|
    requires s.locals[i].pc != Unstarted && s.locals[i].pc != Exited
    requires var d := Awaited(g.nodes[i], s.locals[i].pc); d.None? || s.cancelled || Done(s, d.value)
    ensures exists t :: Leads(g, s, t) && Shaped(g, t) && t.locals[i] != s.locals[i]
  {
    assert NodeInv(g, s, i) && NodeWellFormed(g, i);
    var a := if CanAdvance(g, s, i) then Advance(i) else Abort(i);
    assert Enabled(g, s, a);
    LocalDrops(g, s, a, i);
    assert Leads(g, s, Apply(g, s, a));
  }

  lemma CannotMove(g: Graph, s: State, i: nat)
    requires WellFormed(g) && Inv(g, s) && i < |g.nodes| && s.locals[i].pc != Unstarted
    ensures var d := Awaited(g.nodes[i], s.locals[i].pc);
            forall t :: Leads(g, s, t) && Shaped(g, t) && t.locals[i] != s.locals[i] ==>
              s.locals[i].pc != Exited && (d.None? || s.cancelled || Done(s, d.value))
  {
    forall t | Leads(g, s, t) && Shaped(g, t) && t.locals[i] != s.locals[i]
      ensures s.cancelled || CanAdvance(g, s, i)
      ensures s.locals[i].pc != Exited
    {
      var a: Action :| Enabled(g, s, a) && t == Apply(g, s, a);
      LocalSteps(g, s, a, i);
    }
  }

  lemma CanLeave(g: Graph, s: State, i: nat)
    requires WellFormed(g) && Inv(g, s) && i < |g.nodes| && Awaited(g.nodes[i], s.locals[i].pc).Some?
    ensures Leads(g, s, s.(locals := s.locals[i := s.locals[i].(pc := Exiting)])) <==> s.cancelled
  {
    var t := s.(locals := s.locals[i := s.locals[i].(pc := Exiting)]);
    if s.cancelled {
      assert Enabled(g, s, Abort(i)) && Apply(g, s, Abort(i)) == t;
    }
    if Leads(g, s, t) {
      var a: Action :| Enabled(g, s, a) && t == Apply(g, s, a);
      LocalSteps(g, s, a, i);
      assert t.locals[i].pc == Exiting;
    }
  }

  // ----- every run is finite ---------------------------------------------------------------

  /** An upper bound on the steps a goroutine at `pc` can still make. */
  function Left(n: Node, pc: Pc): int {
    var d, c := |n.deps|, |n.subs|;
    match pc
    case Unstarted => 2 * d + 3 * c + 10
    case Spawned => 2 * d + 3 * c + 9
    case AwaitDep(k) => 2 * (d - k) + 3 * c + 8
    case SawDep(k) => 2 * (d - k) + 3 * c + 7
    case Skipping(_) => 2
    case Ready => 3 * c + 6
    case SpawnSub(k) => (c - k) + 2 * c + 5
    case AwaitSub(k, _) => 2 * (c - k) + 4
    case SawSub(k, _) => 2 * (c - k) + 3
    case Verdict(_) => 2
    case CallFn => 4
    case InFn => 3
    case WriteFn(_) => 2
    case Exiting => 1
    case Exited => 0
  }

  function Total(nodes: seq<Node>, locals: seq<Local>): int
    requires |nodes| == |locals|
  {
    if nodes == [] then 0 else Left(nodes[0], locals[0].pc) + Total(nodes[1..], locals[1..])
  }

  function Budget(g: Graph, s: State): int
    requires Shaped(g, s)
  {
    Total(g.nodes, s.locals) + (|g.roots| - s.nextRoot) + (|g.roots| - s.drained)
    + (if s.returned then 0 else 1) + (if s.cancelled then 0 else 1)
  }

  lemma {:induction false} TotalNonNegative(nodes: seq<Node>, locals: seq<Local>)
    requires |nodes| == |locals|
    requires forall i :: 0 <= i < |nodes| ==> Left(nodes[i], locals[i].pc) >= 0
    ensures Total(nodes, locals) >= 0
    decreases |nodes|
  {
    if nodes != [] {
      TotalNonNegative(nodes[1..], locals[1..]);
    }
  }

  lemma {:induction false} TotalDrops(nodes: seq<Node>, locals: seq<Local>, locals': seq<Local>)
    requires |nodes| == |locals| == |locals'|
    requires forall i :: 0 <= i < |nodes| ==> Left(nodes[i], locals'[i].pc) <= Left(nodes[i], locals[i].pc)
    ensures Total(nodes, locals') <= Total(nodes, locals)
    ensures (exists i :: 0 <= i < |nodes| && Left(nodes[i], locals'[i].pc) < Left(nodes[i], locals[i].pc)) ==>
              Total(nodes, locals') < Total(nodes, locals)
    decreases |nodes|
  {
    if nodes != [] {
      TotalDrops(nodes[1..], locals[1..], locals'[1..]);
      if i :| 0 <= i < |nodes| && Left(nodes[i], locals'[i].pc) < Left(nodes[i], locals[i].pc) {
        if i > 0 {
          assert Left(nodes[1..][i - 1], locals'[1..][i - 1].pc) < Left(nodes[1..][i - 1], locals[1..][i - 1].pc);
        }
      }
    }
  }

  lemma StepDropsBudget(g: Graph, s: State, a: Action)
    requires WellFormed(g) && Inv(g, s) && Enabled(g, s, a)
    ensures Shaped(g, Apply(g, s, a)) && Budget(g, Apply(g, s, a)) < Budget(g, s)
  {
    var s' := Apply(g, s, a);
    forall j: nat | j < |g.nodes|
      ensures Left(g.nodes[j], s'.locals[j].pc) <= Left(g.nodes[j], s.locals[j].pc)
      ensures a == Advance(j) || a == Abort(j) ==> Left(g.nodes[j], s'.locals[j].pc) < Left(g.nodes[j], s.locals[j].pc)
    {
      LocalDrops(g, s, a, j);
    }
    TotalDrops(g.nodes, s.locals, s'.locals);
    if a.Advance? || a.Abort? {
      assert Left(g.nodes[a.i], s'.locals[a.i].pc) < Left(g.nodes[a.i], s.locals[a.i].pc);
    }
  }

  lemma LocalDrops(g: Graph, s: State, a: Action, j: nat)
    requires WellFormed(g) && Inv(g, s) && Enabled(g, s, a) && j < |g.nodes|
    ensures Shaped(g, Apply(g, s, a))
    ensures Left(g.nodes[j], Apply(g, s, a).locals[j].pc) <= Left(g.nodes[j], s.locals[j].pc)
    ensures a == Advance(j) || a == Abort(j) ==>
              Left(g.nodes[j], Apply(g, s, a).locals[j].pc) < Left(g.nodes[j], s.locals[j].pc)
  {
    LocalSteps(g, s, a, j);
    assert NodeInv(g, s, j);
    if CanAdvance(g, s, j) {
      AdvancedDrops(g, s, j);
    }
    if a == Advance(j) && s.locals[j].pc.SpawnSub? {
      SpawnTarget(g, s, j);
    }
  }

  lemma AdvancedDrops(g: Graph, s: State, j: nat)
    requires CanAdvance(g, s, j) && PcInv(g.nodes[j], s.locals[j])
    ensures Left(g.nodes[j], Advanced(g, s, j).pc) < Left(g.nodes[j], s.locals[j].pc)
  {
  }

  lemma BudgetNonNegative(g: Graph, s: State)
    requires WellFormed(g) && Inv(g, s)
    ensures Budget(g, s) >= 0
  {
    forall i | 0 <= i < |g.nodes|
      ensures Left(g.nodes[i], s.locals[i].pc) >= 0
    {
      assert NodeInv(g, s, i);
    }
    TotalNonNegative(g.nodes, s.locals);
  }

  /** No run, cancelled or not, is longer than the budget of the initial state: with
      `DeadlockFree` every Done is closed after finitely many steps of any schedule. */
  lemma RunsAreBounded(g: Graph, actions: seq<Action>, states: seq<State>, k: nat)
    requires WellFormed(g) && IsRun(g, actions, states) && k < |states|
    ensures Shaped(g, Init(g)) && Shaped(g, states[k])
    ensures Budget(g, states[k]) >= 0 && k + Budget(g, states[k]) <= Budget(g, Init(g))
  {
    forall i: nat | i < |states|
      ensures Shaped(g, states[i]) && Budget(g, states[i]) >= 0
    {
      RunInv(g, actions, states, i);
      BudgetNonNegative(g, states[i]);
    }
    var budgets := seq(|states|, i requires 0 <= i < |states| =>
      if Shaped(g, states[i]) then Budget(g, states[i]) else 0);
    forall i: nat, j: nat | j == i + 1 < |states|
      ensures budgets[j] < budgets[i]
    {
      RunInv(g, actions, states, i);
      StepDropsBudget(g, states[i], actions[i]);
    }
    Falls(budgets, k);
  }

  lemma NotCancelled(g: Graph, s: State, a: Action)
    requires Enabled(g, s, a) && a != Cancel
    ensures Apply(g, s, a).cancelled == s.cancelled
  {
  }

  /** Every uncancelled run can be continued to a full run, without cancelling it. */
  lemma {:induction false} RunCompletes(g: Graph, actions: seq<Action>, states: seq<State>)
    returns (actions': seq<Action>, states': seq<State>)
    requires WellFormed(g) && IsRun(g, actions, states) && !Last(states).cancelled
    ensures IsFullRun(g, actions', states') && actions <= actions' && states <= states'
    decreases if Shaped(g, Last(states)) then Budget(g, Last(states)) else 0
  {
    var s := Last(states);
    RunInv(g, actions, states, |states| - 1);
    if Complete(g, s) {
      return actions, states;
    }
    var a: Action :| Enabled(g, s, a) && a != Cancel;
    StepDropsBudget(g, s, a);
    BudgetNonNegative(g, s);
    RunExtends(g, actions, states, a);
    NotCancelled(g, s, a);
    actions', states' := RunCompletes(g, actions + [a], states + [Apply(g, s, a)]);
  }

  // ----- the doubled dependency lists ------------------------------------------------------

  function DoubleNode(n: Node): Node {
    n.(deps := n.deps + n.deps)
  }

  /** The graph PrepareRun really builds: each dependency list written twice. */
  function Doubled(g: Graph): Graph {
    Graph(seq(|g.nodes|, i requires 0 <= i < |g.nodes| => DoubleNode(g.nodes[i])), g.roots)
  }

  lemma {:induction false} ScanTwice(g: Graph, xs: seq<nat>, ys: seq<nat>, n: nat)
    ensures ScanDeps(g, xs + ys, n) == if ScanDeps(g, xs, n) == Pass then ScanDeps(g, ys, n) else ScanDeps(g, xs, n)
    decreases |xs|
  {
    if xs == [] {
      assert xs + ys == ys;
    } else {
      assert (xs + ys)[1..] == xs[1..] + ys;
      ScanTwice(g, xs[1..], ys, n);
    }
  }

  lemma {:induction false} DoubledValue(g: Graph, i: nat, n: nat)
    ensures Value(Doubled(g), i, n) == Value(g, i, n)
    decreases n, 0
  {
    if n > 0 {
      DoubledStarts(g, i, n - 1);
      if i < |g.nodes| {
        var deps := g.nodes[i].deps;
        ScanTwice(Doubled(g), deps, deps, n - 1);
        DoubledDeps(g, deps, n - 1);
        DoubledSubs(g, g.nodes[i].subs, n - 1);
      }
    }
  }

  lemma {:induction false} DoubledDeps(g: Graph, deps: seq<nat>, n: nat)
    ensures ScanDeps(Doubled(g), deps, n) == ScanDeps(g, deps, n)
    decreases n, 1, |deps|
  {
    if deps != [] {
      DoubledValue(g, deps[0], n);
      DoubledDeps(g, deps[1..], n);
    }
  }

  lemma {:induction false} DoubledSubs(g: Graph, subs: seq<nat>, n: nat)
    ensures ScanSubs(Doubled(g), subs, n) == ScanSubs(g, subs, n)
    decreases n, 1, |subs|
  {
    if subs != [] {
      DoubledValue(g, subs[0], n);
      DoubledSubs(g, subs[1..], n);
    }
  }

  lemma {:induction false} DoubledStarts(g: Graph, i: nat, n: nat)
    ensures Starts(Doubled(g), i, n) == Starts(g, i, n)
    decreases n, 2, i
  {
    if i < |g.nodes| && g.nodes[i].parent.Some? && g.nodes[i].parent.value < i {
      var p := g.nodes[i].parent.value;
      DoubledStarts(g, p, n);
      ScanTwice(Doubled(g), g.nodes[p].deps, g.nodes[p].deps, n);
      DoubledDeps(g, g.nodes[p].deps, n);
    }
  }

  lemma DoubledWellFormed(g: Graph)
    requires WellFormed(g)
    ensures WellFormed(Doubled(g))
  {
    var d := Doubled(g);
    forall i: nat | i < |d.nodes|
      ensures NodeWellFormed(d, i)
    {
      assert NodeWellFormed(g, i);
    }
  }

  /** Waiting for each dependency twice changes no final status: a full run of the doubled graph
      closes the same Done channels with the same statuses as a full run of the plain one. */
  lemma DoublingIsHarmless(
    g: Graph, actions: seq<Action>, states: seq<State>, actions': seq<Action>, states': seq<State>,
    i: nat, v: Status)
    requires WellFormed(g) && i < |g.nodes|
    requires IsFullRun(g, actions, states) && IsFullRun(Doubled(g), actions', states')
    ensures DoneWith(Last(states), i, v) <==> DoneWith(Last(states'), i, v)
  {
    DoubledWellFormed(g);
    FullRunComputesValue(g, actions, states, i, v);
    FullRunComputesValue(Doubled(g), actions', states', i, v);
    if n: nat :| Value(g, i, n) == Some(v) {
      DoubledValue(g, i, n);
    }
    if n: nat :| Value(Doubled(g), i, n) == Some(v) {
      DoubledValue(g, i, n);
    }
  }

  // ----- waiting for the sub-results of a skipped phase -------------------------------------

  /** Why phases must not have dependencies: when a phase is skipped its sub-results are never
      started, and a check `i` that reaches one of them in its dependency list waits for ever. If
      such a check is at top level, Run does not return unless it is cancelled. */
  lemma SkippedPhaseStrandsDependents(
    g: Graph, actions: seq<Action>, states: seq<State>, p: nat, c: nat, i: nat, k: nat)
    requires WellFormed(g) && IsFullRun(g, actions, states) && p < |g.nodes| && i < |g.nodes|
    requires DoneWith(Last(states), p, Skipped) && c in g.nodes[p].subs
    requires k < |g.nodes[i].deps| && g.nodes[i].deps[k] == c
    requires forall m :: 0 <= m < k ==> DoneWith(Last(states), g.nodes[i].deps[m], Success)
    ensures !Done(Last(states), c) && !Done(Last(states), i)
    ensures i in g.roots ==> !Last(states).returned
  {
    var s, r := Last(states), |states| - 1;
    RunSound(g, actions, states, r);
    assert NodeInv(g, s, p) && NodeWellFormed(g, p);
    assert NodeInv(g, s, c);
    assert NodeInv(g, s, i) && Agrees(g, s, i, r);
    if Done(s, i) {
      CompleteKnowsDeps(g, s, g.nodes[i].deps, k, r - 1, r);
    }
    MainBlocked(g, s);
  }

  /** A failing check 0, a phase 1 that depends on it and contains check 2, and a check 3 that
      depends on check 2: acyclic, and yet check 3 has no value. */
  predicate IsStranded(g: Graph) {
    && |g.nodes| == 4 && g.roots == [0, 1, 3]
    && g.nodes[0] == Node(None, [], [], Fn(false))
    && g.nodes[1] == Node(None, [2], [0], NoFn)
    && g.nodes[2] == Node(Some(1), [], [], Fn(true))
    && g.nodes[3] == Node(None, [], [2], Fn(true))
  }

  lemma {:induction false} StrandedValues(g: Graph, n: nat)
    requires IsStranded(g)
    ensures ScanDeps(g, [0], n) != Pass
    ensures Value(g, 2, n) == None && Value(g, 3, n) == None
  {
    if n > 0 {
      StrandedValues(g, n - 1);
    }
  }

  lemma StrandedWellFormed(g: Graph)
    requires IsStranded(g)
    ensures WellFormed(g)
  {
    assert 2 in g.nodes[1].subs && 0 in g.roots && 1 in g.roots && 3 in g.roots;
    forall i: nat | i < |g.nodes|
      ensures NodeWellFormed(g, i)
    {
      assert i == 0 || i == 1 || i == 2 || i == 3;
    }
  }

  /** Acyclicity is not enough: this well-formed acyclic graph has full runs, and in none of them
      check 3 ends or Run returns. */
  lemma AcyclicityIsNotEnough(g: Graph) returns (actions: seq<Action>, states: seq<State>)
    requires IsStranded(g)
    ensures WellFormed(g) && Ranked(g, [0, 2, 1, 2])
    ensures IsFullRun(g, actions, states)
    ensures forall actions', states' :: IsFullRun(g, actions', states') ==>
              !Last(states').returned && !Done(Last(states'), 3)
  {
    StrandedWellFormed(g);
    StrandedValues(g, |g.nodes|);
    actions, states := RunCompletes(g, [], [Init(g)]);
    forall actions', states' | IsFullRun(g, actions', states')
      ensures !Last(states').returned && !Done(Last(states'), 3)
    {
      ReturnsExactly(g, actions', states');
      DoneExactly(g, actions', states', 3);
      assert g.roots[2] == 3;
    }
  }
}
