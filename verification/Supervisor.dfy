/**
 The kubelet supervisor, StartAndConfigureKubelet (pkg/k8s/kubelet.go): a select loop over the
 context and four one-slot channels, each written by one goroutine; two of the goroutines are
 started by the loop itself. What the checks, Kustomize, the process and TerminateProcess
 answer, and when, is nondeterministic.
 */
module Supervisor {
  import opened Budgets

  /** What a channel holds: nothing, nil, or an error. */
  datatype Verdict = Nothing | Good | Bad

  /** process.Wait, CheckKubeletRunning, CheckClusterRunning, Kustomize. */
  datatype Job = Process | Kubelet | ApiServer | Kustomize

  /** The goroutine of a job, its channel of capacity one, and what the loop received from it. */
  datatype Lane = Lane(starts: nat, running: nat, slot: Verdict, sends: nat, received: Verdict)

  datatype Lanes = Lanes(process: Lane, kubelet: Lane, api: Lane, kustomize: Lane) {
    function Get(j: Job): Lane {
      match j case Process => process case Kubelet => kubelet case ApiServer => api case Kustomize => kustomize
    }

    function Set(j: Job, l: Lane): Lanes {
      match j
      case Process => this.(process := l)
      case Kubelet => this.(kubelet := l)
      case ApiServer => this.(api := l)
      case Kustomize => this.(kustomize := l)
    }
  }

  datatype Main = Starting | Looping | Returned(failed: bool)

  /** The function itself: `alive` and `err` are its variables; handled events and calls of RemovePidFile
      are counted. */
  datatype Loop = Loop(main: Main, alive: bool, err: bool, handled: nat, pidFileRemovals: nat)

  datatype State = State(loop: Loop, lanes: Lanes, cancelled: bool)

  datatype Action =
    | Start(ok: bool)                   // StartKubelet, and the first two goroutines
    | Send(job: Job, verdict: Verdict)  // a goroutine finishes and sends
    | Cancel
    | OnContext(terminated: bool)       // select branches, with the answer of TerminateProcess
    | OnProcess
    | OnKubelet(terminated: bool)
    | OnApiServer(terminated: bool)
    | OnKustomize(terminated: bool)
    | Exit                              // the loop condition fails: RemovePidFile, return

  const IDLE := Lane(0, 0, Nothing, 0, Nothing)

  function Init(): State {
    State(Loop(Starting, true, false, 0, 0), Lanes(IDLE, IDLE, IDLE, IDLE), false)
  }

  predicate Selecting(s: State) {
    s.loop.main == Looping && s.loop.alive
  }

  predicate Enabled(s: State, a: Action) {
    match a
    case Start(_) => s.loop.main == Starting
    case Send(j, v) => v != Nothing && s.lanes.Get(j).running > 0 && s.lanes.Get(j).slot == Nothing
    case Cancel => !s.cancelled
    case OnContext(_) => Selecting(s) && s.cancelled
    case OnProcess => Selecting(s) && s.lanes.process.slot != Nothing
    case OnKubelet(_) => Selecting(s) && s.lanes.kubelet.slot != Nothing
    case OnApiServer(_) => Selecting(s) && s.lanes.api.slot != Nothing
    case OnKustomize(_) => Selecting(s) && s.lanes.kustomize.slot != Nothing
    case Exit => s.loop.main == Looping && !s.loop.alive
  }

  function Spawned(l: Lane): Lane {
    l.(starts := l.starts + 1, running := l.running + 1)
  }

  function Sent(l: Lane, v: Verdict): Lane
    requires l.running > 0
  {
    l.(running := l.running - 1, slot := v, sends := l.sends + 1)
  }

  /** A select branch takes the verdict out of the channel. */
  function Taken(l: Lane): Lane {
    l.(slot := Nothing, received := l.slot)
  }

  /** A good verdict of one stage starts the next. */
  function Next(verdict: Verdict, l: Lane): Lane {
    if verdict == Good then Spawned(l) else l
  }

  function LanesNext(ls: Lanes, a: Action): Lanes
    requires a.Send? ==> ls.Get(a.job).running > 0
  {
    match a
    case Start(ok) => if ok then ls.(process := Spawned(ls.process), kubelet := Spawned(ls.kubelet)) else ls
    case Send(j, v) => ls.Set(j, Sent(ls.Get(j), v))
    case OnProcess => ls.(process := Taken(ls.process))
    case OnKubelet(_) => ls.(kubelet := Taken(ls.kubelet), api := Next(ls.kubelet.slot, ls.api))
    case OnApiServer(_) => ls.(api := Taken(ls.api), kustomize := Next(ls.api.slot, ls.kustomize))
    case OnKustomize(_) => ls.(kustomize := Taken(ls.kustomize))
    case _ => ls
  }

  /** A select branch after which the loop goes on. */
  function Handled(l: Loop): Loop {
    l.(handled := l.handled + 1)
  }

  /** A select branch that calls TerminateProcess, which ends the loop whether it succeeds or not. */
  function Terminated(l: Loop, ok: bool): Loop {
    Handled(l).(alive := false, err := !ok)
  }

  function LoopNext(l: Loop, ls: Lanes, a: Action): Loop {
    match a
    case Start(ok) => l.(main := if ok then Looping else Returned(true))
    case OnContext(t) => Terminated(l, t)
    case OnProcess => Handled(l).(alive := false)
    case OnKubelet(t) => if ls.kubelet.slot == Good then Handled(l) else Terminated(l, t)
    case OnApiServer(t) => if ls.api.slot == Good then Handled(l) else Terminated(l, t)
    case OnKustomize(t) => if ls.kustomize.slot == Good then Handled(l) else Terminated(l, t).(err := true)
    case Exit => l.(pidFileRemovals := l.pidFileRemovals + 1, main := Returned(l.err))
    case _ => l
  }

  function Apply(s: State, a: Action): State
    requires Enabled(s, a)
  {
    State(LoopNext(s.loop, s.lanes, a), LanesNext(s.lanes, a), s.cancelled || a == Cancel)
  }

  ghost predicate IsRun(actions: seq<Action>, states: seq<State>) {
    && |states| == |actions| + 1
    && states[0] == Init()
    && forall k :: 0 <= k < |actions| ==>
         Enabled(states[k], actions[k]) && states[k + 1] == Apply(states[k], actions[k])
  }

  // ----- the lanes ---------------------------------------------------------------------------------

  /** A job goes through: not started, running, sent, received; it is started at most once. */
  predicate LaneInv(l: Lane) {
    || l == IDLE
    || l == Lane(1, 1, Nothing, 0, Nothing)
    || (l.slot != Nothing && l == Lane(1, 0, l.slot, 1, Nothing))
    || (l.received != Nothing && l == Lane(1, 0, Nothing, 1, l.received))
  }

  /** Each stage is entered by a good verdict of the one before. */
  predicate LanesInv(ls: Lanes) {
    && LaneInv(ls.process) && LaneInv(ls.kubelet) && LaneInv(ls.api) && LaneInv(ls.kustomize)
    && (ls.process == IDLE <==> ls.kubelet == IDLE)
    && (ls.api != IDLE <==> ls.kubelet.received == Good)
    && (ls.kustomize != IDLE <==> ls.api.received == Good)
  }

  lemma SentLane(l: Lane, v: Verdict)
    requires LaneInv(l) && l.running > 0 && v != Nothing
    ensures LaneInv(Sent(l, v)) && l != IDLE && Sent(l, v) != IDLE && l.received == Sent(l, v).received == Nothing
  {
  }

  lemma TakenLane(l: Lane)
    requires LaneInv(l) && l.slot != Nothing
    ensures LaneInv(Taken(l)) && l.received == Nothing && Taken(l).received == l.slot && Taken(l) != IDLE && l != IDLE
  {
  }

  lemma SpawnedLane()
    ensures LaneInv(Spawned(IDLE)) && Spawned(IDLE) != IDLE && Spawned(IDLE).received == Nothing
  {
  }

  lemma StepLanes(s: State, a: Action)
    requires LanesInv(s.lanes) && Enabled(s, a) && (s.loop.main == Starting ==> s.lanes.process == IDLE)
    ensures LanesInv(LanesNext(s.lanes, a))
  {
    var ls := s.lanes;
    SpawnedLane();
    if a.Send? {
      SentLane(ls.Get(a.job), a.verdict);
    } else if a.OnProcess? {
      TakenLane(ls.process);
    } else if a.OnKubelet? {
      TakenLane(ls.kubelet);
    } else if a.OnApiServer? {
      TakenLane(ls.api);
    } else if a.OnKustomize? {
      TakenLane(ls.kustomize);
    }
  }

  // ----- the loop ----------------------------------------------------------------------------------

  function Receipt(l: Lane): nat {
    if l.received != Nothing then 1 else 0
  }

  /** A loop that is alive has seen neither the end of the process nor a bad verdict. */
  predicate AliveInv(l: Loop, ls: Lanes) {
    && !l.err && ls.process.received == Nothing
    && ls.kubelet.received != Bad && ls.api.received != Bad && ls.kustomize.received != Bad
    && l.handled == Receipt(ls.kubelet) + Receipt(ls.api) + Receipt(ls.kustomize)
  }

  /** Returned while alive means that the start failed. */
  predicate LoopInv(l: Loop, ls: Lanes) {
    && (l.main == Starting ==> ls.process == IDLE && l.alive)
    && (l.main == Looping ==> ls.process != IDLE)
    && (l.alive ==> AliveInv(l, ls))
    && l.handled <= (if l.alive then 3 else 4)
    && l.pidFileRemovals == (if l.main.Returned? && !l.alive then 1 else 0)
    && (l.main.Returned? ==> l.main.failed == (l.alive || l.err))
  }

  ghost predicate Inv(s: State) {
    LanesInv(s.lanes) && LoopInv(s.loop, s.lanes)
  }

  lemma StepLoop(s: State, a: Action)
    requires Inv(s) && Enabled(s, a)
    ensures LoopInv(LoopNext(s.loop, s.lanes, a), LanesNext(s.lanes, a))
  {
    var ls := s.lanes;
    SpawnedLane();
    if a.Send? {
      SentLane(ls.Get(a.job), a.verdict);
    } else if a.OnKubelet? {
      TakenLane(ls.kubelet);
    } else if a.OnApiServer? {
      TakenLane(ls.api);
    } else if a.OnKustomize? {
      TakenLane(ls.kustomize);
    } else if a.OnProcess? {
      TakenLane(ls.process);
    }
  }

  lemma {:induction false} RunInv(actions: seq<Action>, states: seq<State>, k: nat)
    requires IsRun(actions, states) && k < |states|
    ensures Inv(states[k])
  {
    if k > 0 {
      RunInv(actions, states, k - 1);
      StepLanes(states[k - 1], actions[k - 1]);
      StepLoop(states[k - 1], actions[k - 1]);
    }
  }

  // ----- staging, sending, returning ----------------------------------------------------------------

  /** In every run: API-server checking is started at most once and only after a healthy kubelet
      verdict was received, Kustomize at most once and only after a healthy API-server verdict. */
  lemma Staging(actions: seq<Action>, states: seq<State>, k: nat)
    requires IsRun(actions, states) && k < |states|
    ensures var ls := states[k].lanes;
            && ls.api.starts <= 1 && (ls.api.starts == 1 <==> ls.kubelet.received == Good)
            && ls.kustomize.starts <= 1 && (ls.kustomize.starts == 1 <==> ls.api.received == Good)
  {
    RunInv(actions, states, k);
  }

  /** In every run each channel gets at most one send, and a goroutine that wants to send can:
      also after the loop has ended and nobody receives any more. */
  lemma SendersNeverBlock(actions: seq<Action>, states: seq<State>, k: nat, j: Job, verdict: Verdict)
    requires IsRun(actions, states) && k < |states| && verdict != Nothing
    ensures states[k].lanes.Get(j).sends <= 1
    ensures states[k].lanes.Get(j).running > 0 ==> Enabled(states[k], Send(j, verdict))
  {
    RunInv(actions, states, k);
  }

  /** In every run the loop handles at most four events; and while it goes on, it can handle the end of the
      context and every verdict that was sent and not yet received, whatever TerminateProcess will answer. */
  lemma LoopIsShort(actions: seq<Action>, states: seq<State>, k: nat, t: bool)
    requires IsRun(actions, states) && k < |states|
    ensures states[k].loop.handled <= 4
    ensures states[k].loop.main == Looping && states[k].loop.alive ==>
              var s := states[k];
              && (s.cancelled ==> Enabled(s, OnContext(t)))
              && (s.lanes.process.sends == 1 ==> Enabled(s, OnProcess))
              && (s.lanes.kubelet.sends == 1 && s.lanes.kubelet.received == Nothing ==> Enabled(s, OnKubelet(t)))
              && (s.lanes.api.sends == 1 && s.lanes.api.received == Nothing ==> Enabled(s, OnApiServer(t)))
              && (s.lanes.kustomize.sends == 1 && s.lanes.kustomize.received == Nothing ==> Enabled(s, OnKustomize(t)))
  {
    RunInv(actions, states, k);
    SendsOnce(states[k].lanes.process);
    SendsOnce(states[k].lanes.kubelet);
    SendsOnce(states[k].lanes.api);
    SendsOnce(states[k].lanes.kustomize);
  }

  /** A job that was started is still running or has sent, and what it sent waits or was received. */
  lemma SendsOnce(l: Lane)
    requires LaneInv(l)
    ensures l.sends <= 1
    ensures l.received == Nothing && l.sends > 0 ==> l.slot != Nothing
    ensures l != IDLE && l.received == Nothing && l.sends == 0 ==> l.running > 0 && l.slot == Nothing
  {
  }

  /** How many steps can still be made: the start, one send for each job, a cancellation, four events
      handled by the loop, and the return. */
  function Budget(s: State): int {
    LoopBudget(s.loop) + (if s.cancelled then 0 else 1) + (4 - Sends(s.lanes))
  }

  function LoopBudget(l: Loop): int {
    (if l.main == Starting then 1 else 0) + (if l.main.Returned? then 0 else 1) + (4 - l.handled)
  }

  function Sends(ls: Lanes): nat {
    ls.process.sends + ls.kubelet.sends + ls.api.sends + ls.kustomize.sends
  }

  lemma StepDropsBudget(s: State, a: Action)
    requires Enabled(s, a)
    ensures Budget(Apply(s, a)) < Budget(s)
  {
    assert Sends(LanesNext(s.lanes, a)) == Sends(s.lanes) + if a.Send? then 1 else 0;
    assert a.Send? || a.Cancel? || LoopBudget(LoopNext(s.loop, s.lanes, a)) < LoopBudget(s.loop);
  }

  /** No run is longer than eleven steps. */
  lemma RunsAreBounded(actions: seq<Action>, states: seq<State>, k: nat)
    requires IsRun(actions, states) && k < |states|
    ensures Budget(states[k]) >= 0 && k + Budget(states[k]) <= 11
  {
    var budgets := seq(|states|, i requires 0 <= i < |states| => Budget(states[i]));
    LeftToDo(actions, states, k);
    forall i: nat, j: nat | j == i + 1 < |states|
      ensures budgets[j] < budgets[i]
    {
      LeftToDo(actions, states, i);
    }
    Falls(budgets, k);
  }

  lemma LeftToDo(actions: seq<Action>, states: seq<State>, k: nat)
    requires IsRun(actions, states) && k < |states|
    ensures Budget(states[k]) >= 0 && Budget(states[0]) == 11
    ensures k < |actions| ==> Budget(states[k + 1]) < Budget(states[k])
  {
    RunInv(actions, states, k);
    BudgetNonNegative(states[k]);
    if k < |actions| {
      StepDropsBudget(states[k], actions[k]);
    }
  }

  lemma BudgetNonNegative(s: State)
    requires Inv(s)
    ensures Budget(s) >= 0
  {
    SendsOnce(s.lanes.process);
    SendsOnce(s.lanes.kubelet);
    SendsOnce(s.lanes.api);
    SendsOnce(s.lanes.kustomize);
  }

  /** A step that is left as long as the function has not returned. */
  function Left(s: State): Action {
    if s.loop.main == Starting then Start(true)
    else if !s.loop.alive then Exit
    else if s.cancelled then OnContext(true)
    else if s.lanes.process.sends > 0 then OnProcess
    else Send(Process, Good)
  }

  /** The function returns: a run that has not returned can make a step other than a cancellation, since
      the process itself ends; and once the process or the context has ended, a step that is no send
      of a goroutine either. */
  lemma RunsReturn(actions: seq<Action>, states: seq<State>, k: nat)
    requires IsRun(actions, states) && k < |states| && !states[k].loop.main.Returned?
    ensures Enabled(states[k], Left(states[k])) && !Left(states[k]).Cancel?
    ensures states[k].lanes.process.sends > 0 || states[k].cancelled ==> !Left(states[k]).Send?
  {
    RunInv(actions, states, k);
    SendsOnce(states[k].lanes.process);
  }

  // ----- what a run has come to, from its actions ----------------------------------------------------

  /** The answers that make the result an error: a start that failed, a failed TerminateProcess on the
      end of the context or on a bad verdict, and a bad verdict of Kustomize. */
  predicate Spoils(s: State, a: Action) {
    || a == Start(false)
    || a == OnContext(false)
    || (a == OnKubelet(false) && s.lanes.kubelet.slot == Bad)
    || (a == OnApiServer(false) && s.lanes.api.slot == Bad)
    || (a.OnKustomize? && s.lanes.kustomize.slot == Bad)
  }

  /** The events that end the loop: the end of the context or of the process, and bad verdicts. */
  predicate Ends(s: State, a: Action) {
    || a.OnContext?
    || a == OnProcess
    || (a.OnKubelet? && s.lanes.kubelet.slot == Bad)
    || (a.OnApiServer? && s.lanes.api.slot == Bad)
    || (a.OnKustomize? && s.lanes.kustomize.slot == Bad)
  }

  /** Alive and returned: the start failed. */
  predicate NeverLooped(l: Loop) {
    l.main.Returned? && l.alive
  }

  lemma StepMeans(s: State, a: Action)
    requires LoopInv(s.loop, s.lanes) && Enabled(s, a)
    ensures var l' := LoopNext(s.loop, s.lanes, a);
            && (NeverLooped(l') || l'.err <==> NeverLooped(s.loop) || s.loop.err || Spoils(s, a))
            && (!l'.alive <==> !s.loop.alive || Ends(s, a))
            && (NeverLooped(l') <==> NeverLooped(s.loop) || a == Start(false))
  {
  }

  ghost predicate Happened(actions: seq<Action>, states: seq<State>, k: nat, what: (State, Action) -> bool)
    requires k <= |actions| && k <= |states|
  {
    exists j :: 0 <= j < k && what(states[j], actions[j])
  }

  lemma {:induction false} RunMeans(actions: seq<Action>, states: seq<State>, k: nat)
    requires IsRun(actions, states) && k < |states|
    ensures NeverLooped(states[k].loop) || states[k].loop.err <==> Happened(actions, states, k, Spoils)
    ensures !states[k].loop.alive <==> Happened(actions, states, k, Ends)
    ensures NeverLooped(states[k].loop) <==> Start(false) in actions[..k]
  {
    if k > 0 {
      var j := k - 1;
      RunMeans(actions, states, j);
      RunInv(actions, states, j);
      StepMeans(states[j], actions[j]);
      assert actions[..k] == actions[..j] + [actions[j]];
    }
  }

  /** When the function returns: the start failed, or the loop was ended by one of the events that end
      it. The pid file was removed exactly once if the start succeeded and not at all otherwise. And
      the result is an error exactly when some answer in the run spoils it. */
  lemma ReturnMeans(actions: seq<Action>, states: seq<State>, k: nat)
    requires IsRun(actions, states) && k < |states| && states[k].loop.main.Returned?
    ensures Start(false) in actions[..k] || Happened(actions, states, k, Ends)
    ensures states[k].loop.pidFileRemovals == if Start(false) in actions[..k] then 0 else 1
    ensures states[k].loop.main.failed <==> Happened(actions, states, k, Spoils)
  {
    RunInv(actions, states, k);
    RunMeans(actions, states, k);
  }

  /** The verdict that waits in a channel or was received from it is the one its goroutine sent. */
  lemma {:induction false} VerdictsAreSent(actions: seq<Action>, states: seq<State>, k: nat, j: Job, v: Verdict)
    requires IsRun(actions, states) && k < |states| && v != Nothing
    ensures states[k].lanes.Get(j).slot == v || states[k].lanes.Get(j).received == v <==> Send(j, v) in actions[..k]
  {
    if k > 0 {
      VerdictsAreSent(actions, states, k - 1, j, v);
      RunInv(actions, states, k - 1);
      StepVerdict(states[k - 1], actions[k - 1], j, v);
      assert actions[..k] == actions[..k - 1] + [actions[k - 1]];
    }
  }

  lemma StepVerdict(s: State, a: Action, j: Job, v: Verdict)
    requires LaneInv(s.lanes.Get(j)) && LanesInv(s.lanes) && Enabled(s, a) && v != Nothing
    ensures LanesNext(s.lanes, a).Get(j).slot == v || LanesNext(s.lanes, a).Get(j).received == v <==>
              s.lanes.Get(j).slot == v || s.lanes.Get(j).received == v || a == Send(j, v)
  {
    if a.Send? && a.job == j {
      SentLane(s.lanes.Get(j), a.verdict);
    }
  }
}
