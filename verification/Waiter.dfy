/**
 The namespace waiter of pkg/kubewait/resources.go as a transition system.

 Actors: waitNamespaceResources with Start, the dataset watcher, one event listener per started
 poll, the callbacks of fired settle timers, and the callers of reportDone. Every section under
 the mutex, every cancel(), every timer firing and every channel operation is one atomic step;
 everything between them may interleave. What the cluster answers and when is nondeterministic.
 The state carries a log of what happened, so that properties of whole runs can be stated.
 */
module Waiter {
  import opened Wrappers

  type DataSet = set<nat>

  datatype Outcome = Ready | Err(code: nat)

  /** Why a settle timer was started. */
  datatype Cause = AllCurrent(poll: nat) | EmptyDataSet

  datatype TimerState = Pending | Stopped | Fired(at: nat)

  datatype Timer = Timer(state: TimerState, cause: Cause, since: nat)

  /** processEvent: idle; status aggregated; settle timer to be started or stopped. */
  datatype Listener = Idle | Judged(current: bool) | WillStart | WillStop

  datatype Poll = Poll(data: DataSet, cancelled: bool, launched: bool, listener: Listener)

  /** restartPolling and the calls it makes. */
  datatype Restart =
    | NoRestart
    | TakePoll                        // stopPolling, before its section
    | CancelPoll(taken: Option<nat>)  // stopPolling, before cancel()
    | StopTimer                       // before StopSettleTimer
    | SetData                         // before setCurrentDataSet
    | Choose                          // before StartSettleTimer or context.WithCancel
    | StorePoll(poll: nat)            // startPolling, before its section
    | LaunchPoll(poll: nat)           // startPolling, before Poll and ListenWithObserver

  /** How waitNamespaceResources ends: Start failed, the context ended, or an outcome was taken. */
  datatype Result = StartFailed | ContextDone | Took(outcome: Outcome)

  datatype Main = Starting | Restarting | Storing | Selecting | Returned(result: Result)

  datatype Watcher = NoWatcher | Sleeping | Comparing(data: DataSet) | Checking(data: DataSet) | Busy | Gone

  /** reportDone: before its section; before cancel() of the watch context; before the send. */
  datatype Reporter = Reporter(outcome: Outcome, stage: nat, holds: bool)

  datatype Entry =
    | Started(timer: nat)
    | FiredEntry(timer: nat)
    | Event(poll: nat, current: bool)   // logged in the last section of processEvent
    | Restarted                         // logged in the StopSettleTimer section of restartPolling

  /** The stored settle timer, all timers ever made, and the log. */
  datatype Clock = Clock(stored: Option<nat>, timers: seq<Timer>, log: seq<Entry>)

  /** pollCancel, and all polls ever started. */
  datatype Polls = Polls(cancel: Option<nat>, all: seq<Poll>)

  /** Who is where in restartPolling, Start and watchDataSetChanges, and the current dataset. */
  datatype Control = Control(main: Main, watcher: Watcher, restart: Restart, newData: DataSet, dataSet: DataSet)

  /** The contexts, the callers of reportDone, the one-slot channel, and all sends tried on it. */
  datatype Out = Out(
    watchCancel: bool, watchCancelled: bool, outerCancelled: bool,
    reporters: seq<Reporter>, channel: Option<Outcome>, reports: seq<Outcome>)

  datatype State = State(ctl: Control, clock: Clock, polls: Polls, out: Out)

  datatype Action =
    | Refresh(answer: Option<DataSet>)   // Start: the first dataset, or an error
    | RestartStep
    | StoreWatch                         // Start: store watchDatasetCancel, start the watcher
    | WatchTick(answer: Option<DataSet>)   // watcher: the next dataset, or an error
    | WatchCompare
    | WatchCheck
    | WatchExit
    | Receive(poll: nat, allCurrent: bool)
    | Look(poll: nat)                    // hasSettleTimer
    | Act(poll: nat)                     // StartSettleTimer or StopSettleTimer
    | PollError(poll: nat, code: nat)
    | Fire(timer: nat)
    | ReportStep(reporter: nat)
    | Take
    | CancelOuter
    | GiveUp

  function Init(): State {
    State(Control(Starting, NoWatcher, NoRestart, {}, {}), Clock(None, [], []), Polls(None, []),
          Out(false, false, false, [], None, []))
  }

  // ----- the critical sections ---------------------------------------------------------------

  function Log(c: Clock, e: Entry): Clock {
    c.(log := c.log + [e])
  }

  /** StartSettleTimer: nothing if a timer is stored. */
  function StartTimer(c: Clock, cause: Cause): Clock {
    if c.stored.Some? then c else
    Clock(Some(|c.timers|), c.timers + [Timer(Pending, cause, |c.log|)], c.log + [Started(|c.timers|)])
  }

  /** StopSettleTimer: Stop has no effect on a timer that has already fired. */
  function StopTimerNow(c: Clock): Clock {
    if c.stored.None? then c else
    var t := c.stored.value;
    if t < |c.timers| && c.timers[t].state == Pending
    then c.(stored := None, timers := c.timers[t := c.timers[t].(state := Stopped)])
    else c.(stored := None)
  }

  function FireTimer(c: Clock, t: nat): Clock
    requires t < |c.timers|
  {
    c.(timers := c.timers[t := c.timers[t].(state := Fired(|c.log|))], log := c.log + [FiredEntry(t)])
  }

  function SetListener(ps: Polls, p: nat, l: Listener): Polls
    requires p < |ps.all|
  {
    ps.(all := ps.all[p := ps.all[p].(listener := l)])
  }

  /** reportDone begins. */
  function Report(o: Out, outcome: Outcome): Out {
    o.(reporters := o.reporters + [Reporter(outcome, 0, false)])
  }

  function ReportNext(o: Out, r: nat): Out
    requires r < |o.reporters|
  {
    var x := o.reporters[r];
    var o' := o.(reporters := o.reporters[r := x.(stage := x.stage + 1, holds := x.stage == 0 && o.watchCancel)]);
    if x.stage == 0 then o'.(watchCancel := false)
    else if x.stage == 1 then o'.(watchCancelled := o.watchCancelled || x.holds)
    else o'.(channel := if o.channel.None? then Some(x.outcome) else o.channel, reports := o.reports + [x.outcome])
  }

  function RestartDone(k: Control): Control {
    k.(restart := NoRestart,
       main := if k.main == Restarting then Storing else k.main,
       watcher := if k.watcher == Busy then Sleeping else k.watcher)
  }

  // ----- the steps -----------------------------------------------------------------------------

  predicate Enabled(s: State, a: Action) {
    var k, ps, o := s.ctl, s.polls.all, s.out;
    match a
    case Refresh(_) => k.main == Starting
    case RestartStep =>
      && k.restart != NoRestart
      && (k.restart.CancelPoll? && k.restart.taken.Some? ==> k.restart.taken.value < |ps|)
      && (k.restart.LaunchPoll? ==> k.restart.poll < |ps|)
    case StoreWatch => k.main == Storing
    case WatchTick(_) => k.watcher == Sleeping
    case WatchCompare => k.watcher.Comparing?
    case WatchCheck => k.watcher.Checking?
    case WatchExit => k.watcher == Sleeping
    case Receive(p, _) => p < |ps| && ps[p].launched && ps[p].listener == Idle
    case Look(p) => p < |ps| && ps[p].listener.Judged?
    case Act(p) => p < |ps| && (ps[p].listener == WillStart || ps[p].listener == WillStop)
    case PollError(p, _) => p < |ps| && ps[p].launched
    case Fire(t) => t < |s.clock.timers| && s.clock.timers[t].state == Pending
    case ReportStep(r) => r < |o.reporters| && o.reporters[r].stage < 3
    case Take => k.main == Selecting && o.channel.Some?
    case CancelOuter => !o.outerCancelled
    case GiveUp => k.main == Selecting && o.outerCancelled
  }

  function RestartNext(s: State): State
    requires Enabled(s, RestartStep)
  {
    var k, ps := s.ctl, s.polls;
    match k.restart
    case NoRestart => s
    case TakePoll => s.(ctl := k.(restart := CancelPoll(ps.cancel)), polls := ps.(cancel := None))
    case CancelPoll(c) =>
      s.(ctl := k.(restart := StopTimer),
         polls := if c.None? then ps else ps.(all := ps.all[c.value := ps.all[c.value].(cancelled := true)]))
    case StopTimer => s.(ctl := k.(restart := SetData), clock := Log(StopTimerNow(s.clock), Restarted))
    case SetData => s.(ctl := k.(restart := Choose, dataSet := k.newData))
    case Choose =>
      if k.newData == {} then s.(ctl := RestartDone(k), clock := StartTimer(s.clock, EmptyDataSet))
      else s.(ctl := k.(restart := StorePoll(|ps.all|)),
              polls := ps.(all := ps.all + [Poll(k.newData, false, false, Idle)]))
    case StorePoll(p) => s.(ctl := k.(restart := LaunchPoll(p)), polls := ps.(cancel := Some(p)))
    case LaunchPoll(p) => s.(ctl := RestartDone(k), polls := ps.(all := ps.all[p := ps.all[p].(launched := true)]))
  }

  function Apply(s: State, a: Action): State
    requires Enabled(s, a)
  {
    var k, ps, o := s.ctl, s.polls, s.out;
    match a
    case Refresh(d) =>
      s.(ctl := if d.None? then k.(main := Returned(StartFailed))
                else k.(main := Restarting, restart := TakePoll, newData := d.value))
    case RestartStep => RestartNext(s)
    case StoreWatch => s.(ctl := k.(main := Selecting, watcher := Sleeping), out := o.(watchCancel := true))
    case WatchTick(d) =>
      if d.None? then s.(ctl := k.(watcher := Gone), out := Report(o, Err(0)))
      else s.(ctl := k.(watcher := Comparing(d.value)))
    case WatchCompare =>
      s.(ctl := k.(watcher := if k.dataSet == k.watcher.data then Sleeping else Checking(k.watcher.data)))
    case WatchCheck =>
      s.(ctl := if o.watchCancelled || o.outerCancelled then k.(watcher := Gone)
                else k.(watcher := Busy, restart := TakePoll, newData := k.watcher.data))
    case WatchExit => s.(ctl := k.(watcher := Gone))
    case Receive(p, c) => s.(polls := SetListener(ps, p, Judged(c)))
    case Look(p) =>
      var c := ps.all[p].listener.current;
      if c && s.clock.stored.None? then s.(polls := SetListener(ps, p, WillStart))
      else if !c && s.clock.stored.Some? then s.(polls := SetListener(ps, p, WillStop))
      else s.(polls := SetListener(ps, p, Idle), clock := Log(s.clock, Event(p, c)))
    case Act(p) =>
      s.(polls := SetListener(ps, p, Idle),
         clock := if ps.all[p].listener == WillStart
                  then StartTimer(Log(s.clock, Event(p, true)), AllCurrent(p))
                  else Log(StopTimerNow(s.clock), Event(p, false)))
    case PollError(p, e) => s.(out := Report(o, Err(e)))
    case Fire(t) => s.(clock := FireTimer(s.clock, t), out := Report(o, Ready))
    case ReportStep(r) => s.(out := ReportNext(o, r))
    case Take => s.(ctl := k.(main := Returned(Took(o.channel.value))), out := o.(channel := None))
    case CancelOuter => s.(out := o.(outerCancelled := true))
    case GiveUp => s.(ctl := k.(main := Returned(ContextDone)))
  }

  ghost predicate IsRun(actions: seq<Action>, states: seq<State>) {
    && |states| == |actions| + 1
    && states[0] == Init()
    && forall k :: 0 <= k < |actions| ==>
         Enabled(states[k], actions[k]) && states[k + 1] == Apply(states[k], actions[k])
  }

  // ----- invariants of every run --------------------------------------------------------------

  predicate Bad(e: Entry) {
    e.Restarted? || (e.Event? && !e.current)
  }

  /** From its start to `end`, the timer saw no restart and no event that was not all-Current. */
  ghost predicate Quiet(log: seq<Entry>, t: nat, timer: Timer, end: nat) {
    && timer.since < end <= |log|
    && log[timer.since] == Started(t)
    && forall k :: timer.since < k < end ==> !Bad(log[k])
  }

  /** A timer started by an event was started right after an all-Current event of that poll. */
  ghost predicate CauseLogged(log: seq<Entry>, timer: Timer) {
    timer.cause.AllCurrent? ==> 0 < timer.since <= |log| && log[timer.since - 1] == Event(timer.cause.poll, true)
  }

  ghost predicate TimerInv(c: Clock, t: nat)
    requires t < |c.timers|
  {
    var x := c.timers[t];
    CauseLogged(c.log, x) &&
    match x.state
    case Pending => c.stored == Some(t) && Quiet(c.log, t, x, |c.log|)
    case Fired(at) => at < |c.log| && c.log[at] == FiredEntry(t) && Quiet(c.log, t, x, at)
    case Stopped => true
  }

  ghost predicate ClockInv(c: Clock) {
    && (c.stored.Some? ==> c.stored.value < |c.timers|)
    && forall t: nat {:trigger c.timers[t]} :: t < |c.timers| ==> TimerInv(c, t)
  }

  /** The one poll context that may be uncancelled. */
  function LivePoll(k: Control, ps: Polls): Option<nat> {
    match k.restart
    case CancelPoll(c) => c
    case StorePoll(p) => Some(p)
    case _ => ps.cancel
  }

  ghost predicate PollsInv(k: Control, ps: Polls) {
    var live := LivePoll(k, ps);
    && (live.Some? ==> live.value < |ps.all|)
    && (forall p: nat :: p < |ps.all| && !ps.all[p].cancelled ==> live == Some(p))
    && (k.restart.CancelPoll? || k.restart.StopTimer? || k.restart.SetData? || k.restart.Choose? || k.restart.StorePoll?
        ==> ps.cancel == None)
    && (k.restart.LaunchPoll? ==> ps.cancel == Some(k.restart.poll))
    // restartPolling has one caller at a time: Start, or the watcher that Start creates last
    && (k.restart != NoRestart <==> k.main == Restarting || k.watcher == Busy)
    && (k.main == Starting || k.main == Restarting || k.main == Storing ==> k.watcher == NoWatcher)
  }

  ghost predicate HasFired(c: Clock) {
    exists t: nat :: t < |c.timers| && c.timers[t].state.Fired?
  }

  /** The outcome that gets through is the first one reported. */
  ghost predicate OutInv(m: Main, o: Out, fired: bool) {
    && (!m.Returned? ==> o.channel == if o.reports == [] then None else Some(o.reports[0]))
    && (m.Returned? && m.result.Took? ==> o.reports != [] && m.result.outcome == o.reports[0])
    && (forall r :: 0 <= r < |o.reporters| && o.reporters[r].outcome == Ready ==> fired)
    && (forall j :: 0 <= j < |o.reports| && o.reports[j] == Ready ==> fired)
  }

  ghost predicate Inv(s: State) {
    ClockInv(s.clock) && PollsInv(s.ctl, s.polls) && OutInv(s.ctl.main, s.out, HasFired(s.clock))
  }

  /** No timer is pending: what `Bad` entries may be logged on. */
  ghost predicate NonePending(c: Clock) {
    forall t: nat :: t < |c.timers| ==> c.timers[t].state != Pending
  }

  lemma LogKeeps(c: Clock, e: Entry)
    requires ClockInv(c) && (Bad(e) ==> NonePending(c))
    ensures ClockInv(Log(c, e))
  {
    forall t: nat | t < |c.timers|
      ensures TimerInv(Log(c, e), t)
    {
      assert TimerInv(c, t);
    }
  }

  lemma StartKeeps(c: Clock, cause: Cause)
    requires ClockInv(c)
    requires cause.AllCurrent? ==> c.log != [] && c.log[|c.log| - 1] == Event(cause.poll, true)
    ensures ClockInv(StartTimer(c, cause))
  {
    if c.stored.None? {
      forall t: nat | t < |c.timers|
        ensures TimerInv(StartTimer(c, cause), t)
      {
        assert TimerInv(c, t);
      }
    }
  }

  lemma StopKeeps(c: Clock)
    requires ClockInv(c)
    ensures ClockInv(StopTimerNow(c)) && NonePending(StopTimerNow(c))
  {
    forall t: nat | t < |c.timers|
      ensures TimerInv(StopTimerNow(c), t) && StopTimerNow(c).timers[t].state != Pending
    {
      assert TimerInv(c, t);
    }
  }

  lemma FireKeeps(c: Clock, t: nat)
    requires ClockInv(c) && t < |c.timers| && c.timers[t].state == Pending
    ensures ClockInv(FireTimer(c, t)) && FireTimer(c, t).timers[t].state.Fired?
  {
    forall u: nat | u < |c.timers|
      ensures TimerInv(FireTimer(c, t), u)
    {
      assert TimerInv(c, u);
    }
  }

  lemma StepClock(s: State, a: Action)
    requires ClockInv(s.clock) && Enabled(s, a)
    ensures ClockInv(Apply(s, a).clock)
  {
    var c := s.clock;
    match a {
      case RestartStep =>
        StopKeeps(c);
        LogKeeps(StopTimerNow(c), Restarted);
        StartKeeps(c, EmptyDataSet);
      case Look(p) =>
        var current := s.polls.all[p].listener.current;
        if c.stored.None? || current {
          assert c.stored.None? ==> forall t: nat :: t < |c.timers| ==> TimerInv(c, t);
          LogKeeps(c, Event(p, current));
        }
      case Act(p) =>
        StopKeeps(c);
        LogKeeps(StopTimerNow(c), Event(p, false));
        LogKeeps(c, Event(p, true));
        StartKeeps(Log(c, Event(p, true)), AllCurrent(p));
      case Fire(t) => FireKeeps(c, t);
      case _ =>
    }
  }

  lemma RestartPolls(s: State)
    requires PollsInv(s.ctl, s.polls) && Enabled(s, RestartStep)
    ensures PollsInv(RestartNext(s).ctl, RestartNext(s).polls)
  {
  }

  lemma ListenerPolls(k: Control, ps: Polls, p: nat, l: Listener)
    requires PollsInv(k, ps) && p < |ps.all|
    ensures PollsInv(k, SetListener(ps, p, l))
  {
  }

  lemma StepPolls(s: State, a: Action)
    requires PollsInv(s.ctl, s.polls) && Enabled(s, a)
    ensures PollsInv(Apply(s, a).ctl, Apply(s, a).polls)
  {
    if a.RestartStep? {
      RestartPolls(s);
    } else if a.Receive? {
      ListenerPolls(s.ctl, s.polls, a.poll, Judged(a.allCurrent));
    } else if a.Look? {
      ListenerPolls(s.ctl, s.polls, a.poll, Apply(s, a).polls.all[a.poll].listener);
    } else if a.Act? {
      ListenerPolls(s.ctl, s.polls, a.poll, Idle);
    } else {
      ControlPolls(s, a);
    }
  }

  lemma ControlPolls(s: State, a: Action)
    requires PollsInv(s.ctl, s.polls) && Enabled(s, a)
    requires !a.RestartStep? && !a.Receive? && !a.Look? && !a.Act?
    ensures PollsInv(Apply(s, a).ctl, Apply(s, a).polls)
  {
    assert Apply(s, a).polls == s.polls;
  }

  /** A timer that has fired stays fired, and only firing makes a Ready reporter. */
  lemma StepOut(s: State, a: Action)
    requires OutInv(s.ctl.main, s.out, HasFired(s.clock)) && Enabled(s, a)
    ensures OutInv(Apply(s, a).ctl.main, Apply(s, a).out, HasFired(Apply(s, a).clock))
  {
    StaysFired(s, a);
    var fired' := HasFired(Apply(s, a).clock);
    if a.ReportStep? {
      ReportNextOut(s.ctl.main, s.out, a.reporter, fired');
    } else if a.Fire? {
      ReportOut(s.ctl.main, s.out, Ready, fired');
    } else if a.PollError? {
      ReportOut(s.ctl.main, s.out, Err(a.code), fired');
    } else if a.WatchTick? {
      ReportOut(s.ctl.main, s.out, Err(0), fired');
    }
  }

  lemma ReportOut(m: Main, o: Out, outcome: Outcome, fired: bool)
    requires OutInv(m, o, fired) || OutInv(m, o, false)
    requires outcome == Ready ==> fired
    ensures OutInv(m, Report(o, outcome), fired)
  {
  }

  lemma ReportNextOut(m: Main, o: Out, r: nat, fired: bool)
    requires OutInv(m, o, fired) || OutInv(m, o, false)
    requires r < |o.reporters| && o.reporters[r].stage < 3
    ensures OutInv(m, ReportNext(o, r), fired)
  {
  }

  lemma StaysFired(s: State, a: Action)
    requires Enabled(s, a)
    ensures a.Fire? || HasFired(s.clock) ==> HasFired(Apply(s, a).clock)
  {
    var c' := Apply(s, a).clock;
    if a.Fire? {
      assert c'.timers[a.timer].state.Fired?;
    } else if HasFired(s.clock) {
      var t: nat :| t < |s.clock.timers| && s.clock.timers[t].state.Fired?;
      assert c'.timers[t].state.Fired?;
    }
  }

  lemma {:induction false} RunInv(actions: seq<Action>, states: seq<State>, k: nat)
    requires IsRun(actions, states) && k < |states|
    ensures Inv(states[k])
  {
    if k > 0 {
      RunInv(actions, states, k - 1);
      StepClock(states[k - 1], actions[k - 1]);
      StepPolls(states[k - 1], actions[k - 1]);
      StepOut(states[k - 1], actions[k - 1]);
    }
  }

  // ----- what they say -------------------------------------------------------------------------

  /** In every interleaving at most one settle timer is pending, namely the stored one. */
  lemma OnePendingTimer(actions: seq<Action>, states: seq<State>, k: nat, t: nat)
    requires IsRun(actions, states) && k < |states| && t < |states[k].clock.timers|
    ensures states[k].clock.timers[t].state == Pending ==> states[k].clock.stored == Some(t)
  {
    RunInv(actions, states, k);
    assert TimerInv(states[k].clock, t);
  }

  /** In every interleaving at most one poll context is uncancelled. */
  lemma OneLivePoll(actions: seq<Action>, states: seq<State>, k: nat, p: nat, q: nat)
    requires IsRun(actions, states) && k < |states| && p < |states[k].polls.all| && q < |states[k].polls.all|
    requires !states[k].polls.all[p].cancelled && !states[k].polls.all[q].cancelled
    ensures p == q
  {
    RunInv(actions, states, k);
  }

  /** What waitNamespaceResources takes from the channel is the first outcome reported; and while
      it waits, a reported outcome is there to be taken. No caller of reportDone ever blocks. */
  lemma FirstReportWins(actions: seq<Action>, states: seq<State>, k: nat)
    requires IsRun(actions, states) && k < |states|
    ensures var main, reports := states[k].ctl.main, states[k].out.reports;
            && (main.Returned? && main.result.Took? ==> reports != [] && main.result.outcome == reports[0])
            && (main == Selecting && reports != [] ==> Enabled(states[k], Take))
            && (forall r :: 0 <= r < |states[k].out.reporters| && states[k].out.reporters[r].stage < 3 ==>
                  Enabled(states[k], ReportStep(r)))
  {
    RunInv(actions, states, k);
  }

  /** In every interleaving: when the namespace is declared ready some settle timer has fired,
      and every timer that fired was started by an all-Current event or for an empty dataset, and
      from then until it fired no dataset restart took place and no event was processed that was
      not all-Current. */
  lemma ReadyMeansQuiet(actions: seq<Action>, states: seq<State>, k: nat)
    requires IsRun(actions, states) && k < |states| && states[k].ctl.main == Returned(Took(Ready))
    ensures HasFired(states[k].clock)
    ensures var c := states[k].clock;
            forall t: nat :: t < |c.timers| && c.timers[t].state.Fired? ==>
              CauseLogged(c.log, c.timers[t]) && Quiet(c.log, t, c.timers[t], c.timers[t].state.at)
  {
    RunInv(actions, states, k);
    var c := states[k].clock;
    forall t: nat | t < |c.timers| && c.timers[t].state.Fired?
      ensures CauseLogged(c.log, c.timers[t]) && Quiet(c.log, t, c.timers[t], c.timers[t].state.at)
    {
      assert TimerInv(c, t);
    }
  }

  // ----- is the event about the current dataset? --------------------------------------------------

  /** processEvent starts a timer only for a poll that is not cancelled, and not in the middle of
      a restart. The code does not enforce this. */
  predicate Calm(s: State, a: Action) {
    a.Act? && a.poll < |s.polls.all| && s.polls.all[a.poll].listener == WillStart ==>
      s.ctl.restart == NoRestart && !s.polls.all[a.poll].cancelled
  }

  /** The reason a timer was started for still holds of the current dataset. */
  predicate About(cause: Cause, ps: Polls, data: DataSet) {
    match cause
    case EmptyDataSet => data == {}
    case AllCurrent(p) => p < |ps.all| && ps.all[p].data == data
  }

  /** Once setCurrentDataSet has run, the current dataset is the one of the restart. */
  predicate IsSet(k: Control) {
    k.restart.Choose? || k.restart.StorePoll? || k.restart.LaunchPoll? ==> k.dataSet == k.newData
  }

  ghost predicate CalmInv(s: State) {
    var k, ps, c := s.ctl, s.polls, s.clock;
    && IsSet(k)
    && (forall p: nat :: p < |ps.all| && !ps.all[p].cancelled ==> ps.all[p].data == k.dataSet)
    && (forall t: nat :: t < |c.timers| && c.timers[t].state == Pending ==> About(c.timers[t].cause, ps, k.dataSet))
    && (k.restart.SetData? || k.restart.Choose? || k.restart.StorePoll? || k.restart.LaunchPoll? ==> NonePending(c))
  }

  lemma RestartCalm(s: State)
    requires ClockInv(s.clock) && PollsInv(s.ctl, s.polls) && CalmInv(s) && Enabled(s, RestartStep)
    ensures CalmInv(Apply(s, RestartStep))
  {
    StopKeeps(s.clock);
  }

  lemma ActCalm(s: State, p: nat)
    requires ClockInv(s.clock) && PollsInv(s.ctl, s.polls) && CalmInv(s) && Enabled(s, Act(p)) && Calm(s, Act(p))
    ensures CalmInv(Apply(s, Act(p)))
  {
    StopKeeps(s.clock);
  }

  lemma ListenerCalm(s: State, a: Action)
    requires CalmInv(s) && Enabled(s, a) && (a.Receive? || a.Look? || a.Fire?)
    ensures CalmInv(Apply(s, a))
  {
  }

  lemma StepCalm(s: State, a: Action)
    requires ClockInv(s.clock) && PollsInv(s.ctl, s.polls) && CalmInv(s) && Enabled(s, a) && Calm(s, a)
    ensures CalmInv(Apply(s, a))
  {
    match a {
      case RestartStep => RestartCalm(s);
      case Act(p) => ActCalm(s, p);
      case Receive(_, _) => ListenerCalm(s, a);
      case Look(_) => ListenerCalm(s, a);
      case Fire(_) => ListenerCalm(s, a);
      case _ =>
        var s' := Apply(s, a);
        assert s'.clock == s.clock && s'.polls == s.polls;
    }
  }

  lemma {:induction false} CalmRunInv(actions: seq<Action>, states: seq<State>, k: nat)
    requires IsRun(actions, states) && k < |states|
    requires forall j :: 0 <= j < k ==> Calm(states[j], actions[j])
    ensures CalmInv(states[k])
  {
    if k > 0 {
      CalmRunInv(actions, states, k - 1);
      RunInv(actions, states, k - 1);
      StepCalm(states[k - 1], actions[k - 1]);
    }
  }

  /** Settle soundness. In a calm run a settle timer that fires was started because the resources
      of the dataset in force at that moment were all Current, or because that dataset is empty;
      and since then there was no restart and no event that was not all-Current. */
  lemma CalmRunsSettleSoundly(actions: seq<Action>, states: seq<State>, k: nat, t: nat)
    requires IsRun(actions, states) && k < |actions| && actions[k] == Fire(t)
    requires forall j :: 0 <= j < k ==> Calm(states[j], actions[j])
    ensures var s := states[k];
            && t < |s.clock.timers|
            && About(s.clock.timers[t].cause, s.polls, s.ctl.dataSet)
            && CauseLogged(s.clock.log, s.clock.timers[t])
            && Quiet(s.clock.log, t, s.clock.timers[t], |s.clock.log|)
  {
    RunInv(actions, states, k);
    CalmRunInv(actions, states, k);
    assert TimerInv(states[k].clock, t);
  }

  lemma {:induction false} FiredBefore(actions: seq<Action>, states: seq<State>, k: nat, t: nat) returns (j: nat)
    requires IsRun(actions, states) && k < |states| && t < |states[k].clock.timers|
    requires states[k].clock.timers[t].state.Fired?
    ensures j < k && actions[j] == Fire(t)
  {
    j := k - 1;
    if actions[j] != Fire(t) {
      j := FiredBefore(actions, states, j, t);
    }
  }

  /** Put together: in a calm run a namespace is declared ready only after a settle timer fired that
      was about the dataset in force when it fired, and quiet since it began. */
  lemma ReadyIsSound(actions: seq<Action>, states: seq<State>, k: nat) returns (j: nat, t: nat)
    requires IsRun(actions, states) && k < |states| && states[k].ctl.main == Returned(Took(Ready))
    requires forall i :: 0 <= i < k ==> Calm(states[i], actions[i])
    ensures j < k && actions[j] == Fire(t) && t < |states[j].clock.timers|
    ensures About(states[j].clock.timers[t].cause, states[j].polls, states[j].ctl.dataSet)
    ensures CauseLogged(states[j].clock.log, states[j].clock.timers[t])
    ensures Quiet(states[j].clock.log, t, states[j].clock.timers[t], |states[j].clock.log|)
  {
    ReadyMeansQuiet(actions, states, k);
    t :| t < |states[k].clock.timers| && states[k].clock.timers[t].state.Fired?;
    j := FiredBefore(actions, states, k, t);
    CalmRunsSettleSoundly(actions, states, j, t);
  }

  // ----- exactly when --------------------------------------------------------------------------------

  /** The dataset in force: between the StopSettleTimer and the setCurrentDataSet of a restart this
      is already the new one. */
  function InForce(k: Control): DataSet {
    if k.restart == SetData then k.newData else k.dataSet
  }

  predicate PendingAt(s: State, t: nat) {
    t < |s.clock.timers| && s.clock.timers[t].state == Pending
  }

  /** Timers and polls stay what they are; and over a step that leaves a timer pending the
      dataset in force does not change. */
  ghost predicate Carries(s: State, s': State) {
    && |s.clock.timers| <= |s'.clock.timers| && |s.polls.all| <= |s'.polls.all|
    && (forall p :: 0 <= p < |s.polls.all| ==> s'.polls.all[p].data == s.polls.all[p].data)
    && (forall t :: 0 <= t < |s.clock.timers| ==> s'.clock.timers[t].cause == s.clock.timers[t].cause)
    && (forall t: nat :: t < |s.clock.timers| && PendingAt(s', t) ==>
          PendingAt(s, t) && InForce(s'.ctl) == InForce(s.ctl))
  }

  lemma StepPending(s: State, a: Action, t: nat)
    requires ClockInv(s.clock) && PollsInv(s.ctl, s.polls) && Enabled(s, a)
    requires t < |s.clock.timers| && PendingAt(Apply(s, a), t)
    ensures PendingAt(s, t) && InForce(Apply(s, a).ctl) == InForce(s.ctl)
  {
    assert TimerInv(s.clock, t);
  }

  lemma StepPollData(s: State, a: Action)
    requires Enabled(s, a)
    ensures |s.polls.all| <= |Apply(s, a).polls.all|
    ensures forall p :: 0 <= p < |s.polls.all| ==> Apply(s, a).polls.all[p].data == s.polls.all[p].data
  {
  }

  lemma StepCauses(s: State, a: Action)
    requires Enabled(s, a)
    ensures |s.clock.timers| <= |Apply(s, a).clock.timers|
    ensures forall t :: 0 <= t < |s.clock.timers| ==> Apply(s, a).clock.timers[t].cause == s.clock.timers[t].cause
  {
  }

  lemma StepCarries(s: State, a: Action)
    requires ClockInv(s.clock) && PollsInv(s.ctl, s.polls) && Enabled(s, a)
    ensures Carries(s, Apply(s, a))
  {
    var s' := Apply(s, a);
    StepPollData(s, a);
    StepCauses(s, a);
    forall t: nat | t < |s.clock.timers| && PendingAt(s', t)
      ensures PendingAt(s, t) && InForce(s'.ctl) == InForce(s.ctl)
    {
      StepPending(s, a, t);
    }
  }

  lemma {:induction false} ChainCarries(states: seq<State>, j: nat, k: nat)
    requires j <= k < |states|
    requires forall i: nat, i': nat :: i' == i + 1 < |states| ==> Carries(states[i], states[i'])
    ensures Carries(states[j], states[k])
    decreases k
  {
    if j < k {
      var i := k - 1;
      ChainCarries(states, j, i);
      assert Carries(states[i], states[k]);
    }
  }

  lemma RunCarries(actions: seq<Action>, states: seq<State>, j: nat, k: nat)
    requires IsRun(actions, states) && j <= k < |states|
    ensures Carries(states[j], states[k])
  {
    forall i: nat, i': nat | i' == i + 1 < |states|
      ensures Carries(states[i], states[i'])
    {
      RunInv(actions, states, i);
      StepCarries(states[i], actions[i]);
    }
    ChainCarries(states, j, k);
  }

  /** A poll that is not cancelled is a poll of the dataset in force. */
  ghost predicate LiveInForce(s: State) {
    && IsSet(s.ctl)
    && forall p: nat :: p < |s.polls.all| && !s.polls.all[p].cancelled ==> s.polls.all[p].data == InForce(s.ctl)
  }

  lemma RestartInForce(s: State)
    requires PollsInv(s.ctl, s.polls) && LiveInForce(s) && Enabled(s, RestartStep)
    ensures LiveInForce(RestartNext(s))
  {
  }

  lemma StepInForce(s: State, a: Action)
    requires PollsInv(s.ctl, s.polls) && LiveInForce(s) && Enabled(s, a)
    ensures LiveInForce(Apply(s, a))
  {
    if a == RestartStep {
      RestartInForce(s);
    }
  }

  lemma {:induction false} RunInForce(actions: seq<Action>, states: seq<State>, k: nat)
    requires IsRun(actions, states) && k < |states|
    ensures LiveInForce(states[k])
  {
    if k > 0 {
      RunInForce(actions, states, k - 1);
      RunInv(actions, states, k - 1);
      StepInForce(states[k - 1], actions[k - 1]);
    }
  }

  /** In every interleaving, calm or not: whether a timer that fires is about the dataset in force is
      decided when it is started. It is unless it was started by an event of a poll of another
      dataset than the one in force at that moment; and such a poll had been cancelled. */
  lemma SoundExactlyIfStartedSoundly(actions: seq<Action>, states: seq<State>, j: nat, k: nat)
    requires IsRun(actions, states) && j < k < |actions|
    requires |states[j].clock.timers| < |states[j + 1].clock.timers| && actions[k] == Fire(|states[j].clock.timers|)
    ensures var t, s, s0 := |states[j].clock.timers|, states[k], states[j];
            && t < |s.clock.timers|
            && (About(s.clock.timers[t].cause, s.polls, InForce(s.ctl)) <==>
                (actions[j].Act? ==>
                   actions[j].poll < |s0.polls.all| && s0.polls.all[actions[j].poll].data == InForce(s0.ctl)))
            && (!About(s.clock.timers[t].cause, s.polls, InForce(s.ctl)) ==>
                  actions[j].Act? && actions[j].poll < |s0.polls.all| && s0.polls.all[actions[j].poll].cancelled)
  {
    var t, s0, a := |states[j].clock.timers|, states[j], actions[j];
    assert Enabled(s0, a) && states[j + 1] == Apply(s0, a) && Enabled(states[k], actions[k]);
    RunInForce(actions, states, j);
    StartedBy(s0, a);
    RunCarries(actions, states, j, k);
    RunCarries(actions, states, j + 1, k);
    AboutCarries(states[j + 1], states[k], t);
  }

  lemma StartedBy(s: State, a: Action)
    requires Enabled(s, a) && LiveInForce(s) && |s.clock.timers| < |Apply(s, a).clock.timers|
    ensures var s' := Apply(s, a);
            var cause := s'.clock.timers[|s.clock.timers|].cause;
            && (cause.AllCurrent? ==> cause.poll < |s'.polls.all|)
            && (About(cause, s'.polls, InForce(s'.ctl)) <==> (a.Act? ==> s.polls.all[a.poll].data == InForce(s.ctl)))
            && (a.Act? && s.polls.all[a.poll].data != InForce(s.ctl) ==> s.polls.all[a.poll].cancelled)
  {
  }

  lemma AboutCarries(s: State, s': State, t: nat)
    requires Carries(s, s') && t < |s.clock.timers| && PendingAt(s', t)
    requires s.clock.timers[t].cause.AllCurrent? ==> s.clock.timers[t].cause.poll < |s.polls.all|
    ensures About(s'.clock.timers[t].cause, s'.polls, InForce(s'.ctl)) <==>
              About(s.clock.timers[t].cause, s.polls, InForce(s.ctl))
  {
  }

  // ----- and without that hypothesis -----------------------------------------------------------

  /** Performing a list of actions, if they are enabled one after the other. */
  function Exec(s: State, actions: seq<Action>): Option<State>
    decreases |actions|
  {
    if actions == [] then Some(s)
    else if Enabled(s, actions[0]) then Exec(Apply(s, actions[0]), actions[1..])
    else None
  }

  lemma {:induction false} ExecConcat(s: State, xs: seq<Action>, ys: seq<Action>)
    requires Exec(s, xs).Some?
    ensures Exec(s, xs + ys) == Exec(Exec(s, xs).value, ys)
    decreases |xs|
  {
    if xs == [] {
      assert xs + ys == ys;
    } else {
      assert (xs + ys)[1..] == xs[1..] + ys;
      ExecConcat(Apply(s, xs[0]), xs[1..], ys);
    }
  }

  lemma ExecCons(s: State, a: Action, rest: seq<Action>)
    requires Enabled(s, a)
    ensures Exec(s, [a] + rest) == Exec(Apply(s, a), rest)
  {
  }

  lemma {:induction false} ExecIsRun(s: State, before: seq<Action>, states: seq<State>, actions: seq<Action>)
    returns (states': seq<State>)
    requires IsRun(before, states) && states[|states| - 1] == s && Exec(s, actions).Some?
    ensures IsRun(before + actions, states') && states'[|states'| - 1] == Exec(s, actions).value
    decreases |actions|
  {
    if actions == [] {
      assert before + actions == before;
      states' := states;
    } else {
      var a := actions[0];
      assert before + actions == (before + [a]) + actions[1..];
      states' := ExecIsRun(Apply(s, a), before + [a], states + [Apply(s, a)], actions[1..]);
    }
  }

  function Restarts(n: nat): seq<Action> {
    if n == 0 then [] else [RestartStep] + Restarts(n - 1)
  }

  lemma RestartOnce(s: State, n: nat)
    requires Enabled(s, RestartStep)
    ensures Exec(s, Restarts(n + 1)) == Exec(RestartNext(s), Restarts(n))
  {
  }

  /** The state after the setCurrentDataSet of a restart, when no settle timer is stored. */
  function MidRestart(s: State): State
    requires s.polls.cancel.Some? ==> s.polls.cancel.value < |s.polls.all|
  {
    var k, ps := s.ctl, s.polls;
    var all := if ps.cancel.None? then ps.all
               else ps.all[ps.cancel.value := ps.all[ps.cancel.value].(cancelled := true)];
    State(k.(restart := Choose, dataSet := k.newData), Log(s.clock, Restarted), Polls(None, all), s.out)
  }

  lemma RestartBegins(s: State, n: nat)
    requires s.ctl.restart == TakePoll && s.clock.stored == None
    requires s.polls.cancel.Some? ==> s.polls.cancel.value < |s.polls.all|
    ensures Exec(s, Restarts(n + 4)) == Exec(MidRestart(s), Restarts(n))
  {
    var s1 := RestartNext(s);
    var s2 := RestartNext(s1);
    var s3 := RestartNext(s2);
    RestartOnce(s, n + 3);
    RestartOnce(s1, n + 2);
    RestartOnce(s2, n + 1);
    RestartOnce(s3, n);
  }

  /** restartPolling from there on, when the dataset is not empty. */
  lemma RestartEnds(s: State, n: nat)
    requires n == 3 && s.ctl.restart == Choose && s.ctl.newData != {}
    ensures Exec(s, Restarts(n)) ==
            Some(s.(ctl := RestartDone(s.ctl),
                    polls := Polls(Some(|s.polls.all|), s.polls.all + [Poll(s.ctl.newData, false, true, Idle)])))
  {
    var s1 := RestartNext(s);
    var s2 := RestartNext(s1);
    RestartOnce(s, n - 1);
    RestartOnce(s1, n - 2);
    RestartOnce(s2, n - 3);
    var p := Poll(s.ctl.newData, false, false, Idle);
    assert (s.polls.all + [p])[|s.polls.all| := p.(launched := true)] == s.polls.all + [p.(launched := true)];
  }

  /** What a whole restart with a dataset that is not empty comes to. */
  function AfterRestart(s: State): State
    requires s.polls.cancel.Some? ==> s.polls.cancel.value < |s.polls.all|
  {
    var m := MidRestart(s);
    m.(ctl := RestartDone(m.ctl),
       polls := Polls(Some(|m.polls.all|), m.polls.all + [Poll(m.ctl.newData, false, true, Idle)]))
  }

  lemma WholeRestart(s: State, n: nat)
    requires n == 7 && s.ctl.restart == TakePoll && s.ctl.newData != {} && s.clock.stored == None
    requires s.polls.cancel.Some? ==> s.polls.cancel.value < |s.polls.all|
    ensures Exec(s, Restarts(n)) == Some(AfterRestart(s))
  {
    RestartBegins(s, n - 4);
    RestartEnds(MidRestart(s), n - 4);
  }

  /** After Start: the poll of dataset `d` is running and nothing has happened yet. */
  ghost predicate Stale1(s: State, d: DataSet) {
    && s.ctl == Control(Storing, NoWatcher, NoRestart, d, d)
    && s.clock.stored == None && s.clock.timers == [] && (forall x :: x in s.clock.log ==> x == Restarted)
    && s.polls.cancel == Some(0) && |s.polls.all| == 1 && s.polls.all[0] == Poll(d, false, true, Idle)
    && s.out == Out(false, false, false, [], None, [])
  }

  /** The poll is about to start the timer, and the watcher about to restart with `e`. */
  ghost predicate Stale2(s: State, d: DataSet, e: DataSet) {
    && s.ctl == Control(Selecting, Busy, TakePoll, e, d)
    && s.clock.stored == None && s.clock.timers == [] && (forall x :: x in s.clock.log ==> x == Restarted)
    && s.polls.cancel == Some(0) && |s.polls.all| == 1 && s.polls.all[0] == Poll(d, false, true, WillStart)
    && s.out == Out(true, false, false, [], None, [])
  }

  /** The restart is complete; the old poll is cancelled, its event still under way. */
  ghost predicate Stale3(s: State, d: DataSet, e: DataSet) {
    && s.ctl == Control(Selecting, Sleeping, NoRestart, e, e)
    && s.clock.stored == None && s.clock.timers == [] && (forall x :: x in s.clock.log ==> x == Restarted)
    && |s.polls.all| == 2 && s.polls.all[0] == Poll(d, true, true, WillStart)
    && s.polls.all[1] == Poll(e, false, true, Idle)
    && s.out == Out(true, false, false, [], None, [])
  }

  /** The namespace is declared ready, although no event of the current poll was ever seen. */
  ghost predicate DeclaredReadyBlindly(s: State, e: DataSet) {
    && s.ctl.main == Returned(Took(Ready)) && s.ctl.dataSet == e
    && |s.polls.all| == 2 && s.polls.all[1] == Poll(e, false, true, Idle)
    && (forall x: Entry :: x in s.clock.log && x.Event? ==> x.poll == 0)
  }

  lemma StaleStart(d: DataSet) returns (s': State)
    requires d != {}
    ensures Exec(Init(), [Refresh(Some(d))] + Restarts(7)) == Some(s') && Stale1(s', d)
  {
    var s := Apply(Init(), Refresh(Some(d)));
    ExecCons(Init(), Refresh(Some(d)), Restarts(7));
    WholeRestart(s, 7);
    s' := AfterRestart(s);
  }

  lemma StaleEvent(s: State, d: DataSet) returns (s': State)
    requires Stale1(s, d)
    ensures Exec(s, [StoreWatch] + ([Receive(0, true)] + [Look(0)])) == Some(s')
    ensures s'.ctl == Control(Selecting, Sleeping, NoRestart, d, d) && s'.clock == s.clock
    ensures s'.out == Out(true, false, false, [], None, [])
    ensures s'.polls.cancel == Some(0) && |s'.polls.all| == 1 && s'.polls.all[0] == Poll(d, false, true, WillStart)
  {
    var s1 := Apply(s, StoreWatch);
    var s2 := Apply(s1, Receive(0, true));
    s' := Apply(s2, Look(0));
    ExecCons(s2, Look(0), []);
    ExecCons(s1, Receive(0, true), [Look(0)]);
    ExecCons(s, StoreWatch, [Receive(0, true)] + [Look(0)]);
  }

  lemma StaleWatch(s: State, d: DataSet, e: DataSet) returns (s': State)
    requires d != e
    requires s.ctl == Control(Selecting, Sleeping, NoRestart, d, d) && !s.out.watchCancelled && !s.out.outerCancelled
    ensures Exec(s, [WatchTick(Some(e))] + ([WatchCompare] + [WatchCheck])) == Some(s')
    ensures s' == s.(ctl := Control(Selecting, Busy, TakePoll, e, d))
  {
    var s1 := Apply(s, WatchTick(Some(e)));
    var s2 := Apply(s1, WatchCompare);
    s' := Apply(s2, WatchCheck);
    ExecCons(s2, WatchCheck, []);
    ExecCons(s1, WatchCompare, [WatchCheck]);
    ExecCons(s, WatchTick(Some(e)), [WatchCompare] + [WatchCheck]);
  }

  lemma StaleRestart(s: State, d: DataSet, e: DataSet) returns (s': State)
    requires e != {} && Stale2(s, d, e)
    ensures Exec(s, Restarts(7)) == Some(s') && Stale3(s', d, e)
  {
    WholeRestart(s, 7);
    s' := AfterRestart(s);
  }

  lemma StaleFire(s: State, d: DataSet, e: DataSet) returns (s': State)
    requires Stale3(s, d, e)
    ensures Exec(s, [Act(0)] + [Fire(0)]) == Some(s')
    ensures s'.ctl == s.ctl && |s'.polls.all| == 2 && s'.polls.all[1] == s.polls.all[1]
    ensures s'.out == Out(true, false, false, [Reporter(Ready, 0, false)], None, [])
    ensures forall x: Entry :: x in s'.clock.log && x.Event? ==> x.poll == 0
  {
    var s1 := Apply(s, Act(0));
    s' := Apply(s1, Fire(0));
    ExecCons(s1, Fire(0), []);
    ExecCons(s, Act(0), [Fire(0)]);
    assert s'.clock.log == s.clock.log + [Event(0, true), Started(0), FiredEntry(0)];
  }

  lemma ReportAndTake(s: State) returns (s': State)
    requires s.ctl.main == Selecting && s.out == Out(true, false, false, [Reporter(Ready, 0, false)], None, [])
    ensures Exec(s, [ReportStep(0)] + ([ReportStep(0)] + ([ReportStep(0)] + [Take]))) == Some(s')
    ensures s'.clock == s.clock && s'.polls == s.polls && s'.ctl == s.ctl.(main := Returned(Took(Ready)))
  {
    var s1 := Apply(s, ReportStep(0));
    var s2 := Apply(s1, ReportStep(0));
    var s3 := Apply(s2, ReportStep(0));
    s' := Apply(s3, Take);
    ExecCons(s3, Take, []);
    ExecCons(s2, ReportStep(0), [Take]);
    ExecCons(s1, ReportStep(0), [ReportStep(0)] + [Take]);
    ExecCons(s, ReportStep(0), [ReportStep(0)] + ([ReportStep(0)] + [Take]));
  }

  lemma Join(s: State, xs: seq<Action>, ys: seq<Action>, m: State, s': State)
    requires Exec(s, xs) == Some(m) && Exec(m, ys) == Some(s')
    ensures Exec(s, xs + ys) == Some(s')
  {
    ExecConcat(s, xs, ys);
  }

  /** Without the hypothesis settle soundness is false, for any two datasets: when the poll of the
      first is about to start the timer, the watcher finds the second and restarts; then the event
      of the cancelled poll starts the timer, and the namespace is declared ready although the
      poll of the current dataset has not delivered a single event. */
  lemma StaleEventSettlesUnsoundly(d: DataSet, e: DataSet) returns (actions: seq<Action>, states: seq<State>)
    requires d != {} && e != {} && d != e
    ensures IsRun(actions, states) && DeclaredReadyBlindly(states[|states| - 1], e)
  {
    var s1 := StaleStart(d);
    var s2 := StaleEvent(s1, d);
    var s3 := StaleWatch(s2, d, e);
    var s4 := StaleRestart(s3, d, e);
    var s5 := StaleFire(s4, d, e);
    var s6 := ReportAndTake(s5);
    actions := [Refresh(Some(d))] + Restarts(7);
    Join(Init(), actions, [StoreWatch] + ([Receive(0, true)] + [Look(0)]), s1, s2);
    actions := actions + ([StoreWatch] + ([Receive(0, true)] + [Look(0)]));
    Join(Init(), actions, [WatchTick(Some(e))] + ([WatchCompare] + [WatchCheck]), s2, s3);
    actions := actions + ([WatchTick(Some(e))] + ([WatchCompare] + [WatchCheck]));
    Join(Init(), actions, Restarts(7), s3, s4);
    actions := actions + Restarts(7);
    Join(Init(), actions, [Act(0)] + [Fire(0)], s4, s5);
    actions := actions + ([Act(0)] + [Fire(0)]);
    Join(Init(), actions, [ReportStep(0)] + ([ReportStep(0)] + ([ReportStep(0)] + [Take])), s5, s6);
    actions := actions + ([ReportStep(0)] + ([ReportStep(0)] + ([ReportStep(0)] + [Take])));
    states := FromStart(actions);
  }

  lemma FromStart(actions: seq<Action>) returns (states: seq<State>)
    requires Exec(Init(), actions).Some?
    ensures IsRun(actions, states) && states[|states| - 1] == Exec(Init(), actions).value
  {
    states := ExecIsRun(Init(), [], [Init()], actions);
    assert [] + actions == actions;
  }
}
