/**
 One goroutine per worker, errors collected through a channel buffered for all of them, waiting
 before draining: HookManager.Run (pkg/utils/hooks.go) and waitForResources
 (pkg/kubewait/resources.go). The first adds all workers to the wait group up front, the second
 adds each when it starts it; `upfront` tells which.
 */
module FanOut {
  import opened Budgets

  /** Which workers return an error, and how the wait group is counted. A worker's error is
      identified by the worker. */
  datatype Job = Job(fails: seq<bool>, upfront: bool)

  /** Not started; about to call its function; about to send its error; about to call wg.Done. */
  datatype Worker = Unborn | Calling | Sending | Leaving | Left

  /** In the starting loop, at wg.Wait, in the draining loop, returned. */
  datatype Main = Spawning(next: nat) | Waiting | Draining | Returned

  datatype State = State(
    workers: seq<Worker>, runs: seq<nat>, group: int, main: Main, buffer: seq<nat>, closed: bool, errs: seq<nat>)

  datatype Action = Spawn | AllSpawned | Call(w: nat) | Send(w: nat) | Leave(w: nat) | Wait | Drain | Finish

  function Init(job: Job): State {
    var n := |job.fails|;
    State(seq(n, _ => Unborn), seq(n, _ => 0), if job.upfront then n else 0, Spawning(0), [], false, [])
  }

  /** A send waits while the buffer of capacity n is full. */
  predicate Enabled(job: Job, s: State, a: Action) {
    var n := |job.fails|;
    |s.workers| == |s.runs| == n &&
    match a
    case Spawn => s.main.Spawning? && s.main.next < n
    case AllSpawned => s.main == Spawning(n)
    case Call(w) => w < n && s.workers[w] == Calling
    case Send(w) => w < n && s.workers[w] == Sending && |s.buffer| < n
    case Leave(w) => w < n && s.workers[w] == Leaving
    case Wait => s.main == Waiting && s.group == 0
    case Drain => s.main == Draining && s.buffer != []
    case Finish => s.main == Draining && s.buffer == [] && s.closed
  }

  function Apply(job: Job, s: State, a: Action): State
    requires Enabled(job, s, a)
  {
    match a
    case Spawn =>
      s.(workers := s.workers[s.main.next := Calling], main := Spawning(s.main.next + 1),
         group := if job.upfront then s.group else s.group + 1)
    case AllSpawned => s.(main := Waiting)
    case Call(w) =>
      s.(runs := s.runs[w := s.runs[w] + 1], workers := s.workers[w := if job.fails[w] then Sending else Leaving])
    case Send(w) => s.(buffer := s.buffer + [w], workers := s.workers[w := Leaving])
    case Leave(w) => s.(group := s.group - 1, workers := s.workers[w := Left])
    case Wait => s.(main := Draining, closed := true)
    case Drain => s.(errs := s.errs + [s.buffer[0]], buffer := s.buffer[1..])
    case Finish => s.(main := Returned)
  }

  ghost predicate IsRun(job: Job, actions: seq<Action>, states: seq<State>) {
    && |states| == |actions| + 1
    && states[0] == Init(job)
    && forall k :: 0 <= k < |actions| ==>
         Enabled(job, states[k], actions[k]) && states[k + 1] == Apply(job, states[k], actions[k])
  }

  // ----- counting workers ------------------------------------------------------------------------

  /** Counted by the wait group (those not started only if added up front); error not yet sent. */
  datatype Kind = Counted(upfront: bool) | Unsent

  predicate Has(p: Kind, x: Worker) {
    match p
    case Counted(upfront) => x != Left && (upfront || x != Unborn)
    case Unsent => x != Leaving && x != Left
  }

  function Count(ws: seq<Worker>, p: Kind): nat {
    if ws == [] then 0 else Count(ws[1..], p) + if Has(p, ws[0]) then 1 else 0
  }

  lemma {:induction false} CountUpdate(ws: seq<Worker>, p: Kind, w: nat, x: Worker)
    requires w < |ws|
    ensures Count(ws[w := x], p) == Count(ws, p) - (if Has(p, ws[w]) then 1 else 0) + (if Has(p, x) then 1 else 0)
    decreases |ws|
  {
    if w == 0 {
      assert ws[w := x][1..] == ws[1..];
    } else {
      assert ws[w := x][1..] == ws[1..][w - 1 := x];
      CountUpdate(ws[1..], p, w - 1, x);
    }
  }

  lemma {:induction false} CountAll(ws: seq<Worker>, p: Kind)
    requires forall w :: 0 <= w < |ws| ==> Has(p, ws[w])
    ensures Count(ws, p) == |ws|
    decreases |ws|
  {
    if ws != [] {
      CountAll(ws[1..], p);
    }
  }

  lemma {:induction false} CountSome(ws: seq<Worker>, p: Kind, w: nat)
    requires w < |ws| && Has(p, ws[w])
    ensures Count(ws, p) > 0
    decreases |ws|
  {
    if w > 0 {
      CountSome(ws[1..], p, w - 1);
    }
  }

  lemma {:induction false} CountFind(ws: seq<Worker>, p: Kind) returns (w: nat)
    requires Count(ws, p) > 0
    ensures w < |ws| && Has(p, ws[w])
    decreases |ws|
  {
    if Has(p, ws[0]) {
      w := 0;
    } else {
      w := CountFind(ws[1..], p);
      w := w + 1;
    }
  }

  // ----- invariant ---------------------------------------------------------------------------------

  function Started(job: Job, s: State): nat {
    if s.main.Spawning? then s.main.next else |job.fails|
  }

  predicate WorkerInv(job: Job, s: State, w: nat)
    requires w < |s.workers| == |s.runs| == |job.fails|
  {
    var x := s.workers[w];
    && (x == Unborn <==> w >= Started(job, s))
    && s.runs[w] == (if x == Unborn || x == Calling then 0 else 1)
    && (x == Sending ==> job.fails[w])
  }

  /** Has worker `w` put its error into the channel? */
  predicate HasSent(job: Job, s: State, w: nat) {
    w < |job.fails| && w < |s.workers| && job.fails[w] && !Has(Unsent, s.workers[w])
  }

  /** Where the workers are, and the wait group. */
  ghost predicate GroupInv(job: Job, s: State) {
    var n := |job.fails|;
    && |s.workers| == |s.runs| == n && Started(job, s) <= n
    && (forall w: nat :: w < n ==> WorkerInv(job, s, w))
    && s.group == Count(s.workers, Counted(job.upfront))
    && (s.closed <==> s.main == Draining || s.main == Returned)
    && (s.closed ==> forall w :: 0 <= w < n ==> s.workers[w] == Left)
  }

  /** Where the errors are: nothing is lost, doubled or invented, and there is room for the rest. */
  ghost predicate ErrorsInv(job: Job, s: State) {
    && |s.workers| == |job.fails|
    && |s.errs| + |s.buffer| + Count(s.workers, Unsent) <= |job.fails|
    && (forall w: nat :: multiset(s.errs + s.buffer)[w] == if HasSent(job, s, w) then 1 else 0)
    && (s.main == Returned ==> s.buffer == [])
  }

  ghost predicate Inv(job: Job, s: State) {
    GroupInv(job, s) && ErrorsInv(job, s)
  }

  lemma InitInv(job: Job)
    ensures Inv(job, Init(job))
  {
    var s := Init(job);
    CountAll(s.workers, Unsent);
    assert s.errs + s.buffer == [] && forall w: nat :: w < |job.fails| ==> WorkerInv(job, s, w);
    if job.upfront {
      CountAll(s.workers, Counted(true));
    } else if Count(s.workers, Counted(false)) > 0 {
      var w := CountFind(s.workers, Counted(false));
    }
  }

  lemma NoneCounted(job: Job, s: State)
    requires GroupInv(job, s) && s.main == Waiting && s.group == 0
    ensures forall w :: 0 <= w < |s.workers| ==> s.workers[w] == Left
  {
    forall w | 0 <= w < |s.workers|
      ensures s.workers[w] == Left
    {
      assert WorkerInv(job, s, w);
      if s.workers[w] != Left {
        CountSome(s.workers, Counted(job.upfront), w);
      }
    }
  }

  lemma StepWorker(job: Job, s: State, a: Action, w: nat)
    requires |s.workers| == |s.runs| == |job.fails| && w < |job.fails| && WorkerInv(job, s, w)
    requires Started(job, s) <= |job.fails| && Enabled(job, s, a)
    ensures |Apply(job, s, a).workers| == |Apply(job, s, a).runs| == |job.fails| && WorkerInv(job, Apply(job, s, a), w)
  {
  }

  lemma StepGroup(job: Job, s: State, a: Action)
    requires GroupInv(job, s) && Enabled(job, s, a)
    ensures GroupInv(job, Apply(job, s, a))
  {
    var s' := Apply(job, s, a);
    match a {
      case Spawn =>
        assert WorkerInv(job, s, s.main.next);
        CountUpdate(s.workers, Counted(job.upfront), s.main.next, Calling);
      case Call(w) =>
        assert WorkerInv(job, s, w);
        CountUpdate(s.workers, Counted(job.upfront), w, s'.workers[w]);
      case Send(w) =>
        assert WorkerInv(job, s, w);
        CountUpdate(s.workers, Counted(job.upfront), w, Leaving);
      case Leave(w) =>
        assert WorkerInv(job, s, w);
        CountUpdate(s.workers, Counted(job.upfront), w, Left);
      case Wait => NoneCounted(job, s);
      case _ =>
    }
    forall w: nat | w < |job.fails|
      ensures WorkerInv(job, s', w)
    {
      assert WorkerInv(job, s, w);
      StepWorker(job, s, a, w);
    }
  }

  lemma StepErrors(job: Job, s: State, a: Action)
    requires Inv(job, s) && Enabled(job, s, a)
    ensures ErrorsInv(job, Apply(job, s, a))
  {
    var s' := Apply(job, s, a);
    match a {
      case Spawn =>
        assert WorkerInv(job, s, s.main.next);
        MoveKeepsErrors(job, s, s', s.main.next, Calling);
      case Call(w) => MoveKeepsErrors(job, s, s', w, s'.workers[w]);
      case Send(w) => SendKeepsErrors(job, s, w);
      case Leave(w) => MoveKeepsErrors(job, s, s', w, Left);
      case _ => OtherKeepsErrors(job, s, s');
    }
  }

  lemma OtherKeepsErrors(job: Job, s: State, s': State)
    requires ErrorsInv(job, s) && s'.workers == s.workers && s'.errs + s'.buffer == s.errs + s.buffer
    requires s'.main == Returned ==> s'.buffer == []
    ensures ErrorsInv(job, s')
  {
  }

  /** A worker that moves without sending. */
  lemma MoveKeepsErrors(job: Job, s: State, s': State, w: nat, x: Worker)
    requires Inv(job, s) && w < |job.fails| && s'.workers == s.workers[w := x]
    requires s'.errs == s.errs && s'.buffer == s.buffer && s'.main != Returned
    requires s.workers[w] == Unborn || s.workers[w] == Calling || s.workers[w] == Leaving
    requires x == Calling || (x == Sending && job.fails[w]) || (x == Leaving && !job.fails[w]) || x == Left
    requires s.workers[w] == Leaving <==> x == Left
    ensures ErrorsInv(job, s')
  {
    CountUpdate(s.workers, Unsent, w, x);
    forall v: nat
      ensures HasSent(job, s', v) == HasSent(job, s, v)
    {
    }
  }

  lemma SendKeepsErrors(job: Job, s: State, w: nat)
    requires Inv(job, s) && Enabled(job, s, Send(w))
    ensures ErrorsInv(job, Apply(job, s, Send(w)))
  {
    var s' := Apply(job, s, Send(w));
    assert WorkerInv(job, s, w);
    CountUpdate(s.workers, Unsent, w, Leaving);
    assert s'.errs + s'.buffer == (s.errs + s.buffer) + [w];
    forall v: nat
      ensures HasSent(job, s', v) == (HasSent(job, s, v) || v == w)
    {
    }
  }

  lemma {:induction false} RunInv(job: Job, actions: seq<Action>, states: seq<State>, k: nat)
    requires IsRun(job, actions, states) && k < |states|
    ensures Inv(job, states[k])
  {
    if k == 0 {
      InitInv(job);
    } else {
      RunInv(job, actions, states, k - 1);
      StepGroup(job, states[k - 1], actions[k - 1]);
      StepErrors(job, states[k - 1], actions[k - 1]);
    }
  }

  // ----- results -----------------------------------------------------------------------------------

  /** In every interleaving no worker ever waits for room in the error channel, none sends after
      it was closed, and each calls its function at most once. */
  lemma SendersNeverBlock(job: Job, actions: seq<Action>, states: seq<State>, k: nat, w: nat)
    requires IsRun(job, actions, states) && k < |states| && w < |job.fails|
    ensures var s := states[k];
            && |s.workers| == |s.runs| == |job.fails| && s.runs[w] <= 1
            && (s.workers[w] == Sending ==> Enabled(job, s, Send(w)) && !s.closed)
  {
    RunInv(job, actions, states, k);
    var s := states[k];
    assert WorkerInv(job, s, w);
    if s.workers[w] == Sending {
      CountSome(s.workers, Unsent, w);
    }
  }

  /** In every interleaving a worker can go on, whatever the others and the starting loop do, exactly if
      it is started and has not left, or is the next to be started. */
  lemma WorkersGoOnExactly(job: Job, actions: seq<Action>, states: seq<State>, k: nat, w: nat)
    requires IsRun(job, actions, states) && k < |states| && w < |job.fails|
    ensures var s := states[k];
            && |s.workers| == |job.fails|
            && ((exists a :: Enabled(job, s, a) && Apply(job, s, a).workers != s.workers &&
                             forall v :: 0 <= v < |s.workers| && v != w ==> Apply(job, s, a).workers[v] == s.workers[v])
                <==> (s.workers[w] != Unborn && s.workers[w] != Left) || s.main == Spawning(w))
  {
    RunInv(job, actions, states, k);
    SendersNeverBlock(job, actions, states, k, w);
    var s := states[k];
    assert WorkerInv(job, s, w);
    var a := match s.workers[w]
      case Calling => Call(w)
      case Sending => Send(w)
      case Leaving => Leave(w)
      case _ => Spawn;
    if (s.workers[w] != Unborn && s.workers[w] != Left) || s.main == Spawning(w) {
      assert Enabled(job, s, a) && Apply(job, s, a).workers[w] != s.workers[w];
    }
    forall b | Enabled(job, s, b) && Apply(job, s, b).workers != s.workers
      ensures b.Spawn? || ((b.Call? || b.Send? || b.Leave?) && Apply(job, s, b).workers[b.w] != s.workers[b.w])
    {
    }
  }

  /** In every interleaving something can move until Run has returned: in particular waiting for
      the workers before draining the channel cannot deadlock. */
  lemma DeadlockFree(job: Job, actions: seq<Action>, states: seq<State>, k: nat)
    requires IsRun(job, actions, states) && k < |states| && states[k].main != Returned
    ensures exists a: Action :: Enabled(job, states[k], a)
  {
    RunInv(job, actions, states, k);
    var s, n := states[k], |job.fails|;
    match s.main {
      case Spawning(next) => assert Enabled(job, s, if next < n then Spawn else AllSpawned);
      case Waiting =>
        if s.group == 0 {
          assert Enabled(job, s, Wait);
        } else {
          var w := CountFind(s.workers, Counted(job.upfront));
          assert WorkerInv(job, s, w);
          SendersNeverBlock(job, actions, states, k, w);
          match s.workers[w] {
            case Calling => assert Enabled(job, s, Call(w));
            case Sending => assert Enabled(job, s, Send(w));
            case Leaving => assert Enabled(job, s, Leave(w));
          }
        }
      case Draining => assert Enabled(job, s, if s.buffer != [] then Drain else Finish);
    }
  }

  /** The failing workers, in order. */
  function Failing(fails: seq<bool>): (ids: seq<nat>)
    ensures forall w: nat :: multiset(ids)[w] == if w < |fails| && fails[w] then 1 else 0
  {
    if fails == [] then [] else
    var n := |fails| - 1;
    if fails[n] then Failing(fails[..n]) + [n] else Failing(fails[..n])
  }

  /** When Run returns, every worker has run exactly once and left, the collected errors are
      exactly the errors of the failing workers, each once, and there is none iff all succeeded. */
  lemma CollectsAllErrors(job: Job, actions: seq<Action>, states: seq<State>, k: nat)
    requires IsRun(job, actions, states) && k < |states| && states[k].main == Returned
    ensures var s := states[k];
            && |s.workers| == |s.runs| == |job.fails|
            && (forall w :: 0 <= w < |job.fails| ==> s.runs[w] == 1 && s.workers[w] == Left)
            && multiset(s.errs) == multiset(Failing(job.fails))
            && (s.errs == [] <==> forall w :: 0 <= w < |job.fails| ==> !job.fails[w])
  {
    RunInv(job, actions, states, k);
    var s := states[k];
    forall w: nat | w < |job.fails|
      ensures s.runs[w] == 1
    {
      assert WorkerInv(job, s, w);
    }
    forall w: nat
      ensures HasSent(job, s, w) <==> w < |job.fails| && job.fails[w]
    {
    }
    assert s.errs + s.buffer == s.errs;
    EmptyIffNone(job.fails, s.errs);
  }

  lemma EmptyIffNone(fails: seq<bool>, ids: seq<nat>)
    requires forall w: nat :: multiset(ids)[w] == if w < |fails| && fails[w] then 1 else 0
    ensures ids == [] <==> forall w :: 0 <= w < |fails| ==> !fails[w]
  {
    if ids != [] {
      assert ids[0] in multiset(ids);
      assert fails[ids[0]];
    } else {
      forall w: nat | w < |fails|
        ensures !fails[w]
      {
        assert multiset(ids)[w] == 0;
      }
    }
  }

  // ----- every run ends ------------------------------------------------------------------------------

  function StepsLeft(x: Worker): nat {
    match x
    case Unborn => 4
    case Calling => 3
    case Sending => 2
    case Leaving => 1
    case Left => 0
  }

  function Total(ws: seq<Worker>): nat {
    if ws == [] then 0 else Total(ws[1..]) + StepsLeft(ws[0])
  }

  lemma {:induction false} TotalUpdate(ws: seq<Worker>, w: nat, x: Worker)
    requires w < |ws|
    ensures Total(ws[w := x]) == Total(ws) - StepsLeft(ws[w]) + StepsLeft(x)
    decreases |ws|
  {
    if w == 0 {
      assert ws[w := x][1..] == ws[1..];
    } else {
      assert ws[w := x][1..] == ws[1..][w - 1 := x];
      TotalUpdate(ws[1..], w - 1, x);
    }
  }

  /** Steps the workers can make, errors not yet collected, and stages of the main routine. */
  function Budget(job: Job, s: State): int {
    Total(s.workers) + (|job.fails| - |s.errs|)
    + match s.main { case Spawning(_) => 3 case Waiting => 2 case Draining => 1 case Returned => 0 }
  }

  /** No run is longer than 5 n + 3 steps. */
  lemma RunsAreBounded(job: Job, actions: seq<Action>, states: seq<State>, k: nat)
    requires IsRun(job, actions, states) && k < |states|
    ensures Budget(job, states[k]) >= 0 && k + Budget(job, states[k]) <= 5 * |job.fails| + 3
  {
    var budgets := seq(|states|, i requires 0 <= i < |states| => Budget(job, states[i]));
    InitTotal(|job.fails|);
    LeftToDo(job, actions, states, k);
    forall i: nat, j: nat | j == i + 1 < |states|
      ensures budgets[j] < budgets[i]
    {
      LeftToDo(job, actions, states, i);
    }
    Falls(budgets, k);
  }

  lemma LeftToDo(job: Job, actions: seq<Action>, states: seq<State>, k: nat)
    requires IsRun(job, actions, states) && k < |states|
    ensures Budget(job, states[k]) >= 0
    ensures k < |actions| ==> Budget(job, states[k + 1]) < Budget(job, states[k])
  {
    RunInv(job, actions, states, k);
    if k < |actions| {
      StepDropsBudget(job, states[k], actions[k]);
    }
  }

  lemma StepDropsBudget(job: Job, s: State, a: Action)
    requires GroupInv(job, s) && Enabled(job, s, a)
    ensures Budget(job, Apply(job, s, a)) < Budget(job, s)
  {
    match a {
      case Spawn =>
        assert WorkerInv(job, s, s.main.next);
        TotalUpdate(s.workers, s.main.next, Calling);
      case Call(w) => TotalUpdate(s.workers, w, Apply(job, s, a).workers[w]);
      case Send(w) => TotalUpdate(s.workers, w, Leaving);
      case Leave(w) => TotalUpdate(s.workers, w, Left);
      case _ =>
    }
  }

  lemma {:induction false} InitTotal(n: nat)
    ensures Total(seq(n, _ => Unborn)) == 4 * n
  {
    if n > 0 {
      assert seq(n, _ => Unborn)[1..] == seq(n - 1, _ => Unborn);
      InitTotal(n - 1);
    }
  }
}
