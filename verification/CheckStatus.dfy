/**
 What the status of a finished result says, in every run of the executor, cancelled runs included;
 and what it does not say when a run is cancelled.
 */
module CheckStatus {
  import opened Wrappers
  import opened CheckGraph
  import opened CheckSafety
  import opened CheckMeaning

  /** Some dependency is Done and was not a success. */
  ghost predicate Hindered(g: Graph, s: State, i: nat)
    requires i < |g.nodes|
  {
    exists k :: 0 <= k < |g.nodes[i].deps| && Thwarts(s, g.nodes[i].deps[k])
  }

  predicate Thwarts(s: State, d: nat) {
    Done(s, d) && s.locals[d].status != Success
  }

  predicate LeafMeant(n: Node, l: Local) {
    && (l.pc.WriteFn? ==> l.pc.ok == (n.fn == Fn(true)))
    && (l.status == Success ==> n.fn == Fn(true))
    && (l.status == Failed ==> n.fn != Fn(true))
  }

  ghost predicate PhaseMeant(s: State, subs: seq<nat>, l: Local) {
    && (l.pc.AwaitSub? || l.pc.SawSub? ==> l.pc.sub <= |subs| && SeenSubs(s, subs, l.pc.sub, l.pc.failed))
    && (l.pc.Verdict? ==> SeenSubs(s, subs, |subs|, l.pc.failed))
    && (l.status == Success ==> SeenSubs(s, subs, |subs|, false))
    && (l.status == Failed ==> SeenSubs(s, subs, |subs|, true))
  }

  ghost predicate Meant(g: Graph, s: State, i: nat)
    requires Shaped(g, s) && i < |g.nodes|
  {
    var n, l := g.nodes[i], s.locals[i];
    && (if n.subs == [] then LeafMeant(n, l) else PhaseMeant(s, n.subs, l))
    && (l.status == Skipped ==> Hindered(g, s, i))
  }

  // ----- every step keeps it ---------------------------------------------------------------

  lemma StepLeafMeant(g: Graph, s: State, a: Action, j: nat)
    requires WellFormed(g) && Inv(g, s) && Enabled(g, s, a) && j < |g.nodes| && g.nodes[j].subs == []
    requires LeafMeant(g.nodes[j], s.locals[j])
    ensures Shaped(g, Apply(g, s, a)) && LeafMeant(g.nodes[j], Apply(g, s, a).locals[j])
  {
    assert NodeInv(g, s, j);
    LocalSteps(g, s, a, j);
  }

  /** A phase gets Success or Failed only from its verdict. */
  lemma PhaseStatusFrom(g: Graph, s: State, a: Action, j: nat)
    requires WellFormed(g) && Inv(g, s) && Enabled(g, s, a) && j < |g.nodes| && g.nodes[j].subs != []
    ensures Shaped(g, Apply(g, s, a))
    ensures var l, l' := s.locals[j], Apply(g, s, a).locals[j];
            || l'.status == l.status
            || l'.status == Running
            || l'.status == Skipped
            || (l.pc.Verdict? && l'.status == if l.pc.failed then Failed else Success)
  {
    assert NodeInv(g, s, j);
    LocalSteps(g, s, a, j);
  }

  lemma StepPhaseStatus(g: Graph, s: State, a: Action, j: nat)
    requires WellFormed(g) && Inv(g, s) && Enabled(g, s, a) && j < |g.nodes| && g.nodes[j].subs != []
    requires PhaseMeant(s, g.nodes[j].subs, s.locals[j])
    ensures var s', subs := Apply(g, s, a), g.nodes[j].subs;
            && Shaped(g, s')
            && (s'.locals[j].status == Success ==> SeenSubs(s', subs, |subs|, false))
            && (s'.locals[j].status == Failed ==> SeenSubs(s', subs, |subs|, true))
  {
    var l, subs := s.locals[j], g.nodes[j].subs;
    PhaseStatusFrom(g, s, a, j);
    if l.pc.Verdict? {
      SeenSubsStay(g, s, a, j, |subs|, l.pc.failed);
    }
    if l.status == Success || l.status == Failed {
      SeenSubsStay(g, s, a, j, |subs|, l.status == Failed);
    }
  }

  lemma StepPhasePc(g: Graph, s: State, a: Action, j: nat)
    requires WellFormed(g) && Inv(g, s) && Enabled(g, s, a) && j < |g.nodes|
    requires PhaseMeant(s, g.nodes[j].subs, s.locals[j])
    ensures var s', subs := Apply(g, s, a), g.nodes[j].subs;
            && Shaped(g, s')
            && var pc := s'.locals[j].pc;
               && (pc.AwaitSub? || pc.SawSub? ==> pc.sub <= |subs| && SeenSubs(s', subs, pc.sub, pc.failed))
               && (pc.Verdict? ==> SeenSubs(s', subs, |subs|, pc.failed))
  {
    SubPcFrom(g, s, a, j);
    var pc, subs, s' := s.locals[j].pc, g.nodes[j].subs, Apply(g, s, a);
    if pc.AwaitSub? || pc.SawSub? {
      SeenSubsStay(g, s, a, j, pc.sub, pc.failed);
    } else if pc.Verdict? {
      SeenSubsStay(g, s, a, j, |subs|, pc.failed);
    }
    if pc.SawSub? && pc.sub < |subs| && Done(s, subs[pc.sub]) {
      assert NodeWellFormed(g, j);
      StepEvolves(g, s, a, subs[pc.sub]);
      SeenNext(s', subs, pc.sub, pc.failed);
    }
  }

  lemma StepHindered(g: Graph, s: State, a: Action, j: nat)
    requires WellFormed(g) && Inv(g, s) && Enabled(g, s, a) && j < |g.nodes|
    requires s.locals[j].status == Skipped ==> Hindered(g, s, j)
    ensures Shaped(g, Apply(g, s, a))
    ensures Apply(g, s, a).locals[j].status == Skipped ==> Hindered(g, Apply(g, s, a), j)
  {
    var l, s', deps := s.locals[j], Apply(g, s, a), g.nodes[j].deps;
    assert NodeInv(g, s, j) && NodeWellFormed(g, j);
    LocalSteps(g, s, a, j);
    EvolveAll(g, s, a, deps);
    if l.status == Skipped {
      var k :| 0 <= k < |deps| && Thwarts(s, deps[k]);
      assert Thwarts(s', deps[k]);
    } else if l.pc.Skipping? {
      assert Thwarts(s', deps[l.pc.dep]);
    }
  }

  lemma StepMeant(g: Graph, s: State, a: Action, i: nat)
    requires WellFormed(g) && Inv(g, s) && Enabled(g, s, a) && i < |g.nodes| && Meant(g, s, i)
    ensures Shaped(g, Apply(g, s, a)) && Meant(g, Apply(g, s, a), i)
  {
    StepHindered(g, s, a, i);
    if g.nodes[i].subs == [] {
      StepLeafMeant(g, s, a, i);
    } else {
      StepPhaseStatus(g, s, a, i);
      StepPhasePc(g, s, a, i);
    }
  }

  lemma {:induction false} RunMeant(g: Graph, actions: seq<Action>, states: seq<State>, k: nat, i: nat)
    requires WellFormed(g) && IsRun(g, actions, states) && k < |states| && i < |g.nodes|
    ensures Inv(g, states[k]) && Meant(g, states[k], i)
  {
    RunInv(g, actions, states, k);
    if k > 0 {
      RunMeant(g, actions, states, k - 1, i);
      StepMeant(g, states[k - 1], actions[k - 1], i);
    }
  }

  /** In every run, cancelled ones included: a Done result is Skipped only if some dependency is Done
      without success; Success or Failed only if all dependencies are Done with success; and then a
      leaf has the answer of its function, and a phase has all sub-results Done and is Failed
      exactly if one of them is. */
  lemma StatusMeans(g: Graph, actions: seq<Action>, states: seq<State>, k: nat, i: nat)
    requires WellFormed(g) && IsRun(g, actions, states) && k < |states| && i < |g.nodes|
    ensures Shaped(g, states[k])
    ensures var s, n, v := states[k], g.nodes[i], states[k].locals[i].status;
            && (v == Skipped ==> Hindered(g, s, i))
            && (v == Success || v == Failed ==> forall m :: 0 <= m < |n.deps| ==> DoneWith(s, n.deps[m], Success))
            && (n.subs == [] && (v == Success || v == Failed) ==> (v == Success <==> n.fn == Fn(true)))
            && (n.subs != [] && (v == Success || v == Failed) ==>
                  && (forall m :: 0 <= m < |n.subs| ==> Done(s, n.subs[m]))
                  && (v == Failed <==> exists m :: 0 <= m < |n.subs| && DoneWith(s, n.subs[m], Failed)))
  {
    RunMeant(g, actions, states, k, i);
    assert NodeInv(g, states[k], i);
  }

  // ----- results that did not finish -------------------------------------------------------

  predicate Ended(l: Local) {
    l.pc.Exiting? || l.pc.Exited?
  }

  ghost predicate Aborted(actions: seq<Action>, k: nat, i: nat) {
    exists j :: 0 <= j < k && j < |actions| && actions[j] == Abort(i)
  }

  lemma StepEnded(g: Graph, s: State, a: Action, i: nat)
    requires WellFormed(g) && Inv(g, s) && Enabled(g, s, a) && i < |g.nodes|
    ensures Shaped(g, Apply(g, s, a))
    ensures var l, l' := s.locals[i], Apply(g, s, a).locals[i];
            Ended(l') && !Final(l'.status) <==> a == Abort(i) || (Ended(l) && !Final(l.status))
  {
    assert NodeInv(g, s, i);
    LocalSteps(g, s, a, i);
  }

  /** In every run a result ends without a final status exactly if its goroutine left a wait because
      the context was cancelled. */
  lemma {:induction false} UnfinishedExactly(g: Graph, actions: seq<Action>, states: seq<State>, k: nat, i: nat)
    requires WellFormed(g) && IsRun(g, actions, states) && k < |states| && i < |g.nodes|
    ensures Shaped(g, states[k])
    ensures Ended(states[k].locals[i]) && !Final(states[k].locals[i].status) <==> Aborted(actions, k, i)
  {
    RunInv(g, actions, states, k);
    if k > 0 {
      var j := k - 1;
      RunInv(g, actions, states, j);
      UnfinishedExactly(g, actions, states, j, i);
      StepEnded(g, states[j], actions[j], i);
      assert actions[j] == Abort(i) ==> Aborted(actions, k, i);
    }
  }

  /** So the success of a phase means that all its sub-results have finished exactly if none of them
      left a wait because of cancellation. */
  lemma SuccessMeansFinishedExactly(g: Graph, actions: seq<Action>, states: seq<State>, k: nat, p: nat)
    requires WellFormed(g) && IsRun(g, actions, states) && k < |states| && p < |g.nodes|
    requires g.nodes[p].subs != [] && DoneWith(states[k], p, Success)
    ensures Shaped(g, states[k])
    ensures forall m :: 0 <= m < |g.nodes[p].subs| ==>
              && Done(states[k], g.nodes[p].subs[m])
              && (Final(states[k].locals[g.nodes[p].subs[m]].status) <==> !Aborted(actions, k, g.nodes[p].subs[m]))
  {
    var s, subs := states[k], g.nodes[p].subs;
    StatusMeans(g, actions, states, k, p);
    RunInv(g, actions, states, k);
    assert NodeWellFormed(g, p);
    forall m | 0 <= m < |subs|
      ensures Done(s, subs[m]) && (Final(s.locals[subs[m]].status) <==> !Aborted(actions, k, subs[m]))
    {
      assert NodeInv(g, s, subs[m]);
      UnfinishedExactly(g, actions, states, k, subs[m]);
    }
  }

  /** Without cancellation nothing leaves a wait early. */
  lemma {:induction false} OnlyCancelledAborts(g: Graph, actions: seq<Action>, states: seq<State>, k: nat, i: nat)
    requires IsRun(g, actions, states) && k < |states| && Aborted(actions, k, i)
    ensures states[k].cancelled
    decreases k
  {
    var j := k - 1;
    if Aborted(actions, j, i) {
      OnlyCancelledAborts(g, actions, states, j, i);
    } else {
      assert actions[j] == Abort(i) && Enabled(g, states[j], actions[j]);
    }
  }

  // ----- a phase that succeeds over a check that never ran ---------------------------------

  /** A phase 0 with a check 1 that depends on a check 2 beside the phase. */
  predicate IsWaiting(g: Graph) {
    && |g.nodes| == 3 && g.roots == [0, 2]
    && g.nodes[0] == Node(None, [1], [], NoFn)
    && g.nodes[1] == Node(Some(0), [], [2], Fn(true))
    && g.nodes[2] == Node(None, [], [], Fn(true))
  }

  /** The phase and the check, while the third result has not been started. */
  function Scene(phase: Local, sub: Local, roots: nat, cancelled: bool): State {
    State([phase, sub, IDLE], roots, 0, false, cancelled)
  }

  function At(pc: Pc, v: Status): Local {
    Local(pc, v, 0, 0)
  }

  lemma UntilStarted(g: Graph) returns (actions: seq<Action>, states: seq<State>)
    requires IsWaiting(g)
    ensures IsRun(g, actions, states)
    ensures states[|states| - 1] == Scene(At(SpawnSub(0), Running), IDLE, 1, false)
  {
    var s0 := Scene(IDLE, IDLE, 0, false);
    var s1 := Scene(At(Spawned, Pending), IDLE, 1, false);
    var s2 := Scene(At(Ready, Pending), IDLE, 1, false);
    var s3 := Scene(At(SpawnSub(0), Running), IDLE, 1, false);
    actions, states := [], [Init(g)];
    assert Init(g) == s0;
    assert Apply(g, s0, StartRoot) == s1;
    RunExtends(g, actions, states, StartRoot);
    actions, states := actions + [StartRoot], states + [s1];
    assert Apply(g, s1, Advance(0)) == s2;
    RunExtends(g, actions, states, Advance(0));
    actions, states := actions + [Advance(0)], states + [s2];
    assert Apply(g, s2, Advance(0)) == s3;
    RunExtends(g, actions, states, Advance(0));
    actions, states := actions + [Advance(0)], states + [s3];
  }

  lemma UntilAborted(g: Graph) returns (actions: seq<Action>, states: seq<State>)
    requires IsWaiting(g)
    ensures IsRun(g, actions, states)
    ensures states[|states| - 1] == Scene(At(AwaitSub(0, false), Running), At(Exiting, Pending), 1, true)
  {
    var waiting := At(AwaitSub(0, false), Running);
    var s1 := Scene(waiting, At(Spawned, Pending), 1, false);
    var s2 := Scene(waiting, At(AwaitDep(0), Pending), 1, false);
    var s3 := Scene(waiting, At(AwaitDep(0), Pending), 1, true);
    var s4 := Scene(waiting, At(Exiting, Pending), 1, true);
    actions, states := UntilStarted(g);
    var s0 := states[|states| - 1];
    assert Apply(g, s0, Advance(0)) == s1;
    RunExtends(g, actions, states, Advance(0));
    actions, states := actions + [Advance(0)], states + [s1];
    assert Apply(g, s1, Advance(1)) == s2;
    RunExtends(g, actions, states, Advance(1));
    actions, states := actions + [Advance(1)], states + [s2];
    assert Apply(g, s2, Cancel) == s3;
    RunExtends(g, actions, states, Cancel);
    actions, states := actions + [Cancel], states + [s3];
    assert Apply(g, s3, Abort(1)) == s4;
    RunExtends(g, actions, states, Abort(1));
    actions, states := actions + [Abort(1)], states + [s4];
  }

  lemma UntilVerdict(g: Graph) returns (actions: seq<Action>, states: seq<State>)
    requires IsWaiting(g)
    ensures IsRun(g, actions, states)
    ensures states[|states| - 1] == Scene(At(Verdict(false), Running), Local(Exited, Pending, 1, 0), 1, true)
  {
    var gone := Local(Exited, Pending, 1, 0);
    var s1 := Scene(At(AwaitSub(0, false), Running), gone, 1, true);
    var s2 := Scene(At(SawSub(0, false), Running), gone, 1, true);
    var s3 := Scene(At(Verdict(false), Running), gone, 1, true);
    actions, states := UntilAborted(g);
    var s0 := states[|states| - 1];
    assert Apply(g, s0, Advance(1)) == s1;
    RunExtends(g, actions, states, Advance(1));
    actions, states := actions + [Advance(1)], states + [s1];
    assert Apply(g, s1, Advance(0)) == s2;
    RunExtends(g, actions, states, Advance(0));
    actions, states := actions + [Advance(0)], states + [s2];
    assert Apply(g, s2, Advance(0)) == s3;
    RunExtends(g, actions, states, Advance(0));
    actions, states := actions + [Advance(0)], states + [s3];
  }

  /** Success of a phase does not mean that its checks ran: here the run is cancelled while the check
      waits, the check ends Pending without its function called, and the phase ends with Success. */
  lemma SuccessOverUnrunCheck(g: Graph) returns (actions: seq<Action>, states: seq<State>)
    requires IsWaiting(g)
    ensures IsRun(g, actions, states)
    ensures var s := states[|states| - 1];
            DoneWith(s, 0, Success) && DoneWith(s, 1, Pending) && s.locals[1].fnRuns == 0
  {
    var gone := Local(Exited, Pending, 1, 0);
    var s1 := Scene(At(Exiting, Success), gone, 1, true);
    var s2 := Scene(Local(Exited, Success, 1, 0), gone, 1, true);
    actions, states := UntilVerdict(g);
    var s0 := states[|states| - 1];
    assert Apply(g, s0, Advance(0)) == s1;
    RunExtends(g, actions, states, Advance(0));
    actions, states := actions + [Advance(0)], states + [s1];
    assert Apply(g, s1, Advance(0)) == s2;
    RunExtends(g, actions, states, Advance(0));
    actions, states := actions + [Advance(0)], states + [s2];
  }
}
