/**
 What holds in every run of the executor, cancelled runs included and for every dependency
 graph: what a step may do to a status, and when a check function may run.
 */
module CheckSafety {
  import opened Wrappers
  import opened CheckGraph

  /** The result passed its dependencies: Running has been written. */
  predicate Began(v: Status) {
    v == Running || v == Success || v == Failed
  }

  /** Pending to Skipped, or Pending to Running to Success or Failed, or no move. */
  predicate Moves(u: Status, v: Status) {
    || u == v
    || (u == Pending)
    || (u == Running && (v == Success || v == Failed))
  }

  /** One step of a status: as `Moves`, without the two-step moves. */
  predicate MovesOnce(u: Status, v: Status) {
    || u == v
    || (u == Pending && (v == Skipped || v == Running))
    || (u == Running && (v == Success || v == Failed))
  }

  // ----- the invariant ---------------------------------------------------------------------

  predicate PcInv(n: Node, l: Local) {
    match l.pc
    case Unstarted => l == Local(Unstarted, Pending, 0, 0)
    case Spawned => l == Local(Spawned, Pending, 0, 0)
    case AwaitDep(k) => l == Local(AwaitDep(k), Pending, 0, 0) && k < |n.deps|
    case SawDep(k) => l == Local(SawDep(k), Pending, 0, 0) && k < |n.deps|
    case Skipping(k) => l == Local(Skipping(k), Pending, 0, 0) && k < |n.deps|
    case Ready => l == Local(Ready, Pending, 0, 0)
    case SpawnSub(k) => l == Local(SpawnSub(k), Running, 0, 0) && k < |n.subs|
    case AwaitSub(k, f) => l == Local(AwaitSub(k, f), Running, 0, 0) && k < |n.subs|
    case SawSub(k, f) => l == Local(SawSub(k, f), Running, 0, 0) && k < |n.subs|
    case Verdict(f) => l == Local(Verdict(f), Running, 0, 0) && n.subs != []
    case CallFn => l == Local(CallFn, Running, 0, 0) && n.subs == []
    case InFn => l == Local(InFn, Running, 0, 1) && n.subs == [] && n.fn.Fn?
    case WriteFn(ok) => l == Local(WriteFn(ok), Running, 0, if n.fn.Fn? then 1 else 0) && n.subs == []
    case Exiting => l == Local(Exiting, l.status, 0, FnRuns(n, l.status))
    case Exited => l == Local(Exited, l.status, 1, FnRuns(n, l.status))
  }

  /** How often the check function has run when the goroutine ends with this status. */
  function FnRuns(n: Node, v: Status): nat {
    if n.subs == [] && n.fn.Fn? && (v == Success || v == Failed) then 1 else 0
  }

  /** How many dependencies have been found Done with Success. */
  function Cleared(n: Node, l: Local): nat {
    match l.pc
    case AwaitDep(k) => k
    case SawDep(k) => k
    case Skipping(k) => k
    case Ready => |n.deps|
    case _ => if Began(l.status) then |n.deps| else 0
  }

  ghost predicate DepsInv(g: Graph, s: State, i: nat)
    requires Shaped(g, s) && i < |g.nodes|
  {
    var n, l := g.nodes[i], s.locals[i];
    && Cleared(n, l) <= |n.deps|
    && (forall k :: 0 <= k < Cleared(n, l) ==> DoneWith(s, n.deps[k], Success))
    && (l.pc.SawDep? && l.pc.dep < |n.deps| ==> Done(s, n.deps[l.pc.dep]))
    && (l.pc.Skipping? && l.pc.dep < |n.deps| ==>
          Done(s, n.deps[l.pc.dep]) && s.locals[n.deps[l.pc.dep]].status != Success)
    && (l.fnRuns > 0 ==> Began(l.status))
  }

  /** Has the goroutine with local state `l` called Run on its sub-result number `k`? */
  predicate HasSpawned(l: Local, k: nat) {
    if l.pc.SpawnSub? then k < l.pc.sub else Began(l.status)
  }

  ghost predicate SubsInv(g: Graph, s: State, i: nat)
    requires Shaped(g, s) && i < |g.nodes|
  {
    var n, l := g.nodes[i], s.locals[i];
    && (forall k :: 0 <= k < |n.subs| ==>
          n.subs[k] < |s.locals| && (s.locals[n.subs[k]].pc.Unstarted? <==> !HasSpawned(l, k)))
    && (l.pc.SawSub? && l.pc.sub < |n.subs| ==> Done(s, n.subs[l.pc.sub]))
  }

  ghost predicate NodeInv(g: Graph, s: State, i: nat)
    requires Shaped(g, s) && i < |g.nodes|
  {
    PcInv(g.nodes[i], s.locals[i]) && DepsInv(g, s, i) && SubsInv(g, s, i)
  }

  ghost predicate RootsInv(g: Graph, s: State) {
    && s.nextRoot <= |g.roots|
    && s.drained <= |g.roots|
    && (forall k :: 0 <= k < |g.roots| ==>
          g.roots[k] < |s.locals| && (s.locals[g.roots[k]].pc.Unstarted? <==> k >= s.nextRoot))
    && (forall k :: 0 <= k < s.drained ==> Done(s, g.roots[k]))
    && (s.returned && !s.cancelled ==> s.nextRoot == |g.roots| && s.drained == |g.roots|)
  }

  ghost predicate Inv(g: Graph, s: State) {
    && Shaped(g, s)
    && RootsInv(g, s)
    && (forall i: nat {:trigger NodeInv(g, s, i)} :: i < |g.nodes| ==> NodeInv(g, s, i))
  }

  // ----- one step --------------------------------------------------------------------------

  /** What a step does to every result: statuses move legally and never after Done closed,
      Done never reopens, a started goroutine stays started. */
  ghost predicate Evolves(s: State, s': State, i: nat) {
    && i < |s.locals| == |s'.locals|
    && var l, l' := s.locals[i], s'.locals[i];
       && MovesOnce(l.status, l'.status)
       && (l.closes > 0 ==> l' == l)
       && (!l.pc.Unstarted? ==> !l'.pc.Unstarted?)
  }

  lemma InitInv(g: Graph)
    requires WellFormed(g)
    ensures Inv(g, Init(g))
  {
    forall i: nat | i < |g.nodes|
      ensures NodeInv(g, Init(g), i)
    {
      assert NodeWellFormed(g, i);
    }
  }

  const IDLE := Local(Unstarted, Pending, 0, 0)

  /** A result whose Run is about to be called by its phase has no goroutine yet. */
  lemma SpawnTarget(g: Graph, s: State, i: nat)
    requires WellFormed(g) && Inv(g, s) && i < |g.nodes| && s.locals[i].pc.SpawnSub?
    ensures s.locals[i].pc.sub < |g.nodes[i].subs|
    ensures var j := g.nodes[i].subs[s.locals[i].pc.sub];
            i < j < |g.nodes| && s.locals[j] == IDLE && g.nodes[j].parent == Some(i)
  {
    assert NodeInv(g, s, i) && NodeWellFormed(g, i);
    var j := g.nodes[i].subs[s.locals[i].pc.sub];
    assert NodeInv(g, s, j) && NodeWellFormed(g, j);
  }

  /** The four ways in which a step can leave result `j`. */
  ghost predicate LocalStep(g: Graph, s: State, a: Action, j: nat, l': Local)
    requires Shaped(g, s) && j < |g.nodes|
  {
    var l := s.locals[j];
    || l' == l
    || (a == Advance(j) && CanAdvance(g, s, j) && l' == Advanced(g, s, j))
    || (a == Abort(j) && (l.pc.AwaitDep? || l.pc.AwaitSub?) && l' == l.(pc := Exiting))
    || (l == IDLE && l' == IDLE.(pc := Spawned))
  }

  lemma LocalSteps(g: Graph, s: State, a: Action, j: nat)
    requires WellFormed(g) && Inv(g, s) && Enabled(g, s, a) && j < |g.nodes|
    ensures Shaped(g, Apply(g, s, a))
    ensures LocalStep(g, s, a, j, Apply(g, s, a).locals[j])
  {
    if a.Advance? && s.locals[a.i].pc.SpawnSub? {
      SpawnTarget(g, s, a.i);
    }
    if a.StartRoot? {
      assert NodeInv(g, s, g.roots[s.nextRoot]);
    }
  }

  lemma StepEvolves(g: Graph, s: State, a: Action, j: nat)
    requires WellFormed(g) && Inv(g, s) && Enabled(g, s, a) && j < |g.nodes|
    ensures Shaped(g, Apply(g, s, a)) && Evolves(s, Apply(g, s, a), j)
  {
    LocalSteps(g, s, a, j);
    assert NodeInv(g, s, j);
  }

  lemma EvolveAll(g: Graph, s: State, a: Action, js: seq<nat>)
    requires WellFormed(g) && Inv(g, s) && Enabled(g, s, a)
    requires forall k :: 0 <= k < |js| ==> js[k] < |g.nodes|
    ensures forall k :: 0 <= k < |js| ==> Evolves(s, Apply(g, s, a), js[k])
  {
    forall k | 0 <= k < |js| ensures Evolves(s, Apply(g, s, a), js[k]) {
      StepEvolves(g, s, a, js[k]);
    }
  }

  lemma PcFrame(g: Graph, s: State, a: Action, j: nat, l': Local)
    requires Shaped(g, s) && j < |g.nodes| && PcInv(g.nodes[j], s.locals[j]) && LocalStep(g, s, a, j, l')
    ensures PcInv(g.nodes[j], l')
  {
  }

  lemma DepsFrame(g: Graph, s: State, s': State, a: Action, j: nat)
    requires Shaped(g, s) && Shaped(g, s') && j < |g.nodes|
    requires PcInv(g.nodes[j], s.locals[j]) && DepsInv(g, s, j) && LocalStep(g, s, a, j, s'.locals[j])
    requires forall k :: 0 <= k < |g.nodes[j].deps| ==> Evolves(s, s', g.nodes[j].deps[k])
    ensures DepsInv(g, s', j)
  {
  }

  lemma StepDeps(g: Graph, s: State, a: Action, j: nat)
    requires WellFormed(g) && Inv(g, s) && Enabled(g, s, a) && j < |g.nodes|
    ensures Shaped(g, Apply(g, s, a))
    ensures PcInv(g.nodes[j], Apply(g, s, a).locals[j]) && DepsInv(g, Apply(g, s, a), j)
  {
    assert NodeInv(g, s, j) && NodeWellFormed(g, j);
    LocalSteps(g, s, a, j);
    EvolveAll(g, s, a, g.nodes[j].deps);
    PcFrame(g, s, a, j, Apply(g, s, a).locals[j]);
    DepsFrame(g, s, Apply(g, s, a), a, j);
  }

  /** The step calls Run on result `c`. */
  predicate Launches(g: Graph, s: State, a: Action, c: nat)
    requires Enabled(g, s, a)
  {
    || (a.StartRoot? && g.roots[s.nextRoot] == c)
    || (a.Advance? && s.locals[a.i].pc.SpawnSub? && g.nodes[a.i].subs[s.locals[a.i].pc.sub] == c)
  }

  lemma StepStarted(g: Graph, s: State, a: Action, c: nat)
    requires WellFormed(g) && Inv(g, s) && Enabled(g, s, a) && c < |g.nodes|
    ensures Shaped(g, Apply(g, s, a))
    ensures Apply(g, s, a).locals[c].pc.Unstarted? <==> s.locals[c].pc.Unstarted? && !Launches(g, s, a, c)
  {
  }

  lemma StepSpawned(g: Graph, s: State, a: Action, j: nat, k: nat)
    requires WellFormed(g) && Inv(g, s) && Enabled(g, s, a) && j < |g.nodes| && k < |g.nodes[j].subs|
    ensures Shaped(g, Apply(g, s, a))
    ensures HasSpawned(Apply(g, s, a).locals[j], k) <==>
              HasSpawned(s.locals[j], k) || (a == Advance(j) && s.locals[j].pc == SpawnSub(k))
  {
    assert NodeInv(g, s, j);
    LocalSteps(g, s, a, j);
  }

  /** A sub-result gets started exactly by the step in which its phase calls Run on it. */
  lemma StepSubStarted(g: Graph, s: State, a: Action, j: nat, k: nat)
    requires WellFormed(g) && Inv(g, s) && Enabled(g, s, a) && j < |g.nodes| && k < |g.nodes[j].subs|
    ensures g.nodes[j].subs[k] < |g.nodes| && Shaped(g, Apply(g, s, a))
    ensures Apply(g, s, a).locals[g.nodes[j].subs[k]].pc.Unstarted? <==> !HasSpawned(Apply(g, s, a).locals[j], k)
  {
    assert NodeInv(g, s, j) && NodeWellFormed(g, j);
    var c := g.nodes[j].subs[k];
    StepStarted(g, s, a, c);
    StepSpawned(g, s, a, j, k);
    if a.Advance? {
      assert NodeWellFormed(g, a.i);
    }
  }

  lemma StepSubs(g: Graph, s: State, a: Action, j: nat)
    requires WellFormed(g) && Inv(g, s) && Enabled(g, s, a) && j < |g.nodes|
    ensures Shaped(g, Apply(g, s, a)) && SubsInv(g, Apply(g, s, a), j)
  {
    assert NodeInv(g, s, j) && NodeWellFormed(g, j);
    LocalSteps(g, s, a, j);
    EvolveAll(g, s, a, g.nodes[j].subs);
    forall k | 0 <= k < |g.nodes[j].subs|
      ensures g.nodes[j].subs[k] < |g.nodes|
      ensures Apply(g, s, a).locals[g.nodes[j].subs[k]].pc.Unstarted? <==> !HasSpawned(Apply(g, s, a).locals[j], k)
    {
      StepSubStarted(g, s, a, j, k);
    }
  }

  lemma StepRoots(g: Graph, s: State, a: Action)
    requires WellFormed(g) && Inv(g, s) && Enabled(g, s, a)
    ensures RootsInv(g, Apply(g, s, a))
  {
    var s' := Apply(g, s, a);
    EvolveAll(g, s, a, g.roots);
    MainStep(g, s, a);
    forall k: nat | k < |g.roots|
      ensures s'.locals[g.roots[k]].pc.Unstarted? <==> k >= s'.nextRoot
    {
      RootStarted(g, s, a, k);
    }
  }

  /** What a step does to the counters of CheckExecutor.Run. */
  lemma MainStep(g: Graph, s: State, a: Action)
    requires Enabled(g, s, a)
    ensures var s' := Apply(g, s, a);
            && |s'.locals| == |s.locals|
            && s'.nextRoot == (if a.StartRoot? then s.nextRoot + 1 else s.nextRoot)
            && s'.drained == (if a.DrainRoot? then s.drained + 1 else s.drained)
            && s'.returned == (a.Return? || s.returned) && s'.cancelled == (a.Cancel? || s.cancelled)
  {
  }

  lemma RootStarted(g: Graph, s: State, a: Action, k: nat)
    requires WellFormed(g) && Inv(g, s) && Enabled(g, s, a) && k < |g.roots|
    ensures Shaped(g, Apply(g, s, a))
    ensures Apply(g, s, a).locals[g.roots[k]].pc.Unstarted? <==> k >= Apply(g, s, a).nextRoot
  {
    StepStarted(g, s, a, g.roots[k]);
    MainStep(g, s, a);
    if a.Advance? && s.locals[a.i].pc.SpawnSub? {
      SpawnTarget(g, s, a.i);
    }
  }

  lemma StepInv(g: Graph, s: State, a: Action)
    requires WellFormed(g) && Inv(g, s) && Enabled(g, s, a)
    ensures Inv(g, Apply(g, s, a))
  {
    StepRoots(g, s, a);
    assert Shaped(g, Apply(g, s, a));
    forall j: nat | j < |g.nodes|
      ensures NodeInv(g, Apply(g, s, a), j)
    {
      StepDeps(g, s, a, j);
      StepSubs(g, s, a, j);
    }
  }

  // ----- whole runs ------------------------------------------------------------------------

  lemma {:induction false} RunInv(g: Graph, actions: seq<Action>, states: seq<State>, k: nat)
    requires WellFormed(g) && IsRun(g, actions, states) && k < |states|
    ensures Inv(g, states[k])
  {
    if k == 0 {
      InitInv(g);
    } else {
      RunInv(g, actions, states, k - 1);
      StepInv(g, states[k - 1], actions[k - 1]);
    }
  }

  lemma RunExtends(g: Graph, actions: seq<Action>, states: seq<State>, a: Action)
    requires IsRun(g, actions, states) && Enabled(g, states[|states| - 1], a)
    ensures IsRun(g, actions + [a], states + [Apply(g, states[|states| - 1], a)])
  {
  }

  /** In every run a check function is called at most once and Done is closed at most once. */
  lemma AtMostOnce(g: Graph, actions: seq<Action>, states: seq<State>, k: nat, i: nat)
    requires WellFormed(g) && IsRun(g, actions, states) && k < |states| && i < |g.nodes|
    ensures Shaped(g, states[k])
    ensures states[k].locals[i].fnRuns <= 1 && states[k].locals[i].closes <= 1
  {
    RunInv(g, actions, states, k);
    assert NodeInv(g, states[k], i);
  }

  lemma RunEvolves(g: Graph, actions: seq<Action>, states: seq<State>, k: nat, i: nat)
    requires WellFormed(g) && IsRun(g, actions, states) && k < |actions| && i < |g.nodes|
    ensures Shaped(g, states[k]) && Shaped(g, states[k + 1]) && Evolves(states[k], states[k + 1], i)
  {
    RunInv(g, actions, states, k);
    StepEvolves(g, states[k], actions[k], i);
  }

  lemma {:induction false} EvolvingMovesForward(states: seq<State>, lo: nat, hi: nat, i: nat)
    requires lo <= hi < |states| && forall k: nat :: k < |states| ==> i < |states[k].locals|
    requires forall k: nat, k': nat :: k' == k + 1 < |states| ==> Evolves(states[k], states[k'], i)
    ensures Moves(states[lo].locals[i].status, states[hi].locals[i].status)
    ensures Done(states[lo], i) ==> states[hi].locals[i] == states[lo].locals[i]
    decreases hi
  {
    if lo < hi {
      var mid := hi - 1;
      EvolvingMovesForward(states, lo, mid, i);
      assert Evolves(states[mid], states[hi], i);
    }
  }

  /** Between any two moments of any run a status moves only forwards, and from the moment Done
      is closed nothing of the result changes any more. */
  lemma StatusMovesForward(g: Graph, actions: seq<Action>, states: seq<State>, lo: nat, hi: nat, i: nat)
    requires WellFormed(g) && IsRun(g, actions, states) && lo <= hi < |states| && i < |g.nodes|
    ensures Shaped(g, states[lo]) && Shaped(g, states[hi])
    ensures Moves(states[lo].locals[i].status, states[hi].locals[i].status)
    ensures Done(states[lo], i) ==> states[hi].locals[i] == states[lo].locals[i]
  {
    forall k: nat, k': nat | k' == k + 1 < |states|
      ensures Evolves(states[k], states[k'], i)
    {
      RunEvolves(g, actions, states, k, i);
    }
    forall k: nat | k < |states|
      ensures Shaped(g, states[k])
    {
      RunInv(g, actions, states, k);
    }
    EvolvingMovesForward(states, lo, hi, i);
  }

  ghost predicate Encloses(g: Graph, a: nat, i: nat)
    requires WellFormed(g) && i < |g.nodes|
    decreases i
  {
    assert NodeWellFormed(g, i);
    a == i || (g.nodes[i].parent.Some? && Encloses(g, a, g.nodes[i].parent.value))
  }

  /** A result with a goroutine has only phases around it that passed their own dependencies. */
  lemma {:induction false} PhasesAroundBegan(g: Graph, s: State, a: nat, i: nat)
    requires WellFormed(g) && Inv(g, s) && i < |g.nodes| && Encloses(g, a, i)
    requires !s.locals[i].pc.Unstarted?
    ensures a < |g.nodes| && (a == i || Began(s.locals[a].status))
    decreases i
  {
    if a != i {
      assert NodeWellFormed(g, i);
      var p := g.nodes[i].parent.value;
      assert NodeInv(g, s, p);
      var k :| 0 <= k < |g.nodes[p].subs| && g.nodes[p].subs[k] == i;
      assert HasSpawned(s.locals[p], k);
      PhasesAroundBegan(g, s, a, p);
    }
  }

  /** A check function is called only when every resolved dependency of the check, and of every
      phase around it, is Done with Success. */
  lemma FnRunsAfterDependencies(
    g: Graph, actions: seq<Action>, states: seq<State>, k: nat, i: nat, a: nat, d: nat)
    requires WellFormed(g) && IsRun(g, actions, states) && k < |actions| && i < |g.nodes|
    requires Shaped(g, states[k]) && Shaped(g, states[k + 1])
    requires states[k].locals[i].fnRuns < states[k + 1].locals[i].fnRuns
    requires Encloses(g, a, i) && a < |g.nodes| && d in g.nodes[a].deps
    ensures DoneWith(states[k], d, Success)
  {
    var s := states[k];
    RunInv(g, actions, states, k);
    assert NodeInv(g, s, i);
    LocalSteps(g, s, actions[k], i);
    assert s.locals[i].pc == CallFn;
    PhasesAroundBegan(g, s, a, i);
    assert NodeInv(g, s, a);
  }
}
