/**
 What the namespace waiter does in time, as opposed to what it never does: when a settle timer is
 there, that it can lead to the end, what is reported, and which dataset is polled.
 */
module WaiterProgress {
  import opened Wrappers
  import opened Waiter

  // ----- when a settle timer is stored ---------------------------------------------------------

  /** The last entry that calls for a settle timer or against one calls for it. */
  predicate Wanted(log: seq<Entry>)
    decreases |log|
  {
    log != [] &&
    match log[|log| - 1]
    case Started(_) => true
    case Event(_, current) => current
    case Restarted => false
    case FiredEntry(_) => Wanted(log[..|log| - 1])
  }

  lemma WantedNext(log: seq<Entry>, e: Entry)
    ensures Wanted(log + [e]) == match e
                                 case Started(_) => true
                                 case Event(_, current) => current
                                 case Restarted => false
                                 case FiredEntry(_) => Wanted(log)
  {
    assert (log + [e])[..|log|] == log;
  }

  /** The stored timer was not stopped, and nothing has spoken against it since it was started. */
  ghost predicate StoredInv(c: Clock) {
    c.stored.Some? ==>
      && c.stored.value < |c.timers|
      && var x := c.timers[c.stored.value];
         && x.state != Stopped && x.since < |c.log| && c.log[x.since] == Started(c.stored.value)
         && forall k :: x.since < k < |c.log| ==> !Bad(c.log[k])
  }

  ghost predicate SettleInv(c: Clock) {
    StoredInv(c) && (c.stored.Some? <==> Wanted(c.log))
  }

  lemma LogSettles(c: Clock, e: Entry)
    requires SettleInv(c) && !e.Started? && !e.FiredEntry? && !Bad(e) == c.stored.Some?
    ensures SettleInv(Log(c, e))
  {
    WantedNext(c.log, e);
  }

  lemma StopSettles(c: Clock, e: Entry)
    requires SettleInv(c) && Bad(e)
    ensures SettleInv(Log(StopTimerNow(c), e))
  {
    WantedNext(c.log, e);
  }

  lemma StartSettles(c: Clock, cause: Cause)
    requires StoredInv(c) && (c.stored.Some? ==> Wanted(c.log))
    ensures SettleInv(StartTimer(c, cause))
  {
    WantedNext(c.log, Started(|c.timers|));
  }

  lemma FireSettles(c: Clock, t: nat)
    requires SettleInv(c) && t < |c.timers|
    ensures SettleInv(FireTimer(c, t))
  {
    WantedNext(c.log, FiredEntry(t));
  }

  lemma StepSettles(s: State, a: Action)
    requires SettleInv(s.clock) && Enabled(s, a)
    ensures SettleInv(Apply(s, a).clock)
  {
    var c := s.clock;
    match a {
      case RestartStep =>
        StopSettles(c, Restarted);
        StartSettles(c, EmptyDataSet);
      case Look(p) =>
        var e := Event(p, s.polls.all[p].listener.current);
        if e.current == c.stored.Some? {
          LogSettles(c, e);
        }
      case Act(p) =>
        StopSettles(c, Event(p, false));
        WantedNext(c.log, Event(p, true));
        StartSettles(Log(c, Event(p, true)), AllCurrent(p));
      case Fire(t) => FireSettles(c, t);
      case _ =>
    }
  }

  lemma {:induction false} RunSettles(actions: seq<Action>, states: seq<State>, k: nat)
    requires IsRun(actions, states) && k < |states|
    ensures SettleInv(states[k].clock)
  {
    if k > 0 {
      RunSettles(actions, states, k - 1);
      StepSettles(states[k - 1], actions[k - 1]);
    }
  }

  /** In every interleaving a settle timer is stored exactly if there was an all-Current event or the
      start of a timer, and since then no restart and no other event; and then that timer is pending
      or has fired. */
  lemma TimerExactly(actions: seq<Action>, states: seq<State>, k: nat)
    requires IsRun(actions, states) && k < |states|
    ensures var c := states[k].clock;
            && (c.stored.Some? <==>
                exists i :: 0 <= i < |c.log| && (c.log[i].Started? || (c.log[i].Event? && c.log[i].current)) &&
                            forall j :: i < j < |c.log| ==> !Bad(c.log[j]))
            && (c.stored.Some? ==>
                  c.stored.value < |c.timers| &&
                  (c.timers[c.stored.value].state == Pending || c.timers[c.stored.value].state.Fired?))
  {
    RunSettles(actions, states, k);
    WantedMeans(states[k].clock.log);
  }

  lemma {:induction false} WantedMeans(log: seq<Entry>)
    ensures Wanted(log) <==>
            exists i :: 0 <= i < |log| && (log[i].Started? || (log[i].Event? && log[i].current)) &&
                        forall j :: i < j < |log| ==> !Bad(log[j])
    decreases |log|
  {
    if log != [] {
      var n := |log| - 1;
      var e, rest := log[n], log[..n];
      WantedMeans(rest);
      if e.FiredEntry? {
        if Wanted(rest) {
          var i :| 0 <= i < |rest| && (rest[i].Started? || (rest[i].Event? && rest[i].current)) &&
                   forall j :: i < j < |rest| ==> !Bad(rest[j]);
          assert log[i] == rest[i] && forall j :: i < j < |log| ==> j == n || log[j] == rest[j];
        }
      } else if !Bad(e) {
        assert log[n].Started? || (log[n].Event? && log[n].current);
      }
      if i :| 0 <= i < |log| && (log[i].Started? || (log[i].Event? && log[i].current)) &&
              forall j :: i < j < |log| ==> !Bad(log[j]) {
        if i < n && e.FiredEntry? {
          assert rest[i] == log[i] && forall j :: i < j < |rest| ==> rest[j] == log[j];
        }
      }
    }
  }

  // ----- an empty dataset has a timer, any other dataset a poll --------------------------------------

  function LastBad(log: seq<Entry>): Option<Entry>
    decreases |log|
  {
    if log == [] then None
    else if Bad(log[|log| - 1]) then Some(log[|log| - 1])
    else LastBad(log[..|log| - 1])
  }

  lemma LastBadNext(log: seq<Entry>, e: Entry)
    ensures LastBad(log + [e]) == if Bad(e) then Some(e) else LastBad(log)
  {
    assert (log + [e])[..|log|] == log;
  }

  lemma {:induction false} LastBadIs(log: seq<Entry>, r: nat)
    requires r < |log| && Bad(log[r]) && forall k :: r < k < |log| ==> !Bad(log[k])
    ensures LastBad(log) == Some(log[r])
    decreases |log|
  {
    if r < |log| - 1 {
      LastBadIs(log[..|log| - 1], r);
    }
  }

  /** A restart under way has not stopped the settle timer yet. */
  predicate Steady(r: Restart) {
    r == NoRestart || r == TakePoll || r.CancelPoll? || r == StopTimer
  }

  /** Unless a restart or another event came later, the timer of an empty dataset is stored. */
  ghost predicate EmptyInv(k: Control, c: Clock) {
    && (k.restart.StorePoll? || k.restart.LaunchPoll? ==> k.newData != {})
    && IsSet(k)
    && (Steady(k.restart) && k.dataSet == {} && LastBad(c.log) == Some(Restarted) ==> c.stored.Some?)
    && (k.main == Storing || k.main == Selecting || !Steady(k.restart) ==> Restarted in c.log)
  }

  lemma RestartEmpty(s: State)
    requires EmptyInv(s.ctl, s.clock) && PollsInv(s.ctl, s.polls) && Enabled(s, RestartStep)
    ensures EmptyInv(RestartNext(s).ctl, RestartNext(s).clock)
  {
    LastBadNext(s.clock.log, Restarted);
    LastBadNext(s.clock.log, Started(|s.clock.timers|));
  }

  lemma EventEmpty(s: State, a: Action)
    requires EmptyInv(s.ctl, s.clock) && Enabled(s, a) && (a.Look? || a.Act?)
    ensures EmptyInv(Apply(s, a).ctl, Apply(s, a).clock)
  {
    var log := s.clock.log;
    LastBadNext(log, Event(a.poll, true));
    LastBadNext(log, Event(a.poll, false));
    LastBadNext(log + [Event(a.poll, true)], Started(|s.clock.timers|));
  }

  lemma StepEmpty(s: State, a: Action)
    requires EmptyInv(s.ctl, s.clock) && PollsInv(s.ctl, s.polls) && Enabled(s, a)
    ensures EmptyInv(Apply(s, a).ctl, Apply(s, a).clock)
  {
    if a.RestartStep? {
      RestartEmpty(s);
    } else if a.Look? || a.Act? {
      EventEmpty(s, a);
    } else if a.Fire? {
      LastBadNext(s.clock.log, FiredEntry(a.timer));
    } else {
      assert Apply(s, a).clock == s.clock;
    }
  }

  lemma {:induction false} RunEmpty(actions: seq<Action>, states: seq<State>, k: nat)
    requires IsRun(actions, states) && k < |states|
    ensures EmptyInv(states[k].ctl, states[k].clock)
  {
    if k > 0 {
      RunEmpty(actions, states, k - 1);
      RunInv(actions, states, k - 1);
      StepEmpty(states[k - 1], actions[k - 1]);
    }
  }

  lemma {:induction false} LastRestart(log: seq<Entry>) returns (r: nat)
    requires Restarted in log
    ensures r < |log| && log[r] == Restarted && forall j :: r < j < |log| ==> log[j] != Restarted
    decreases |log|
  {
    r := |log| - 1;
    if log[r] != Restarted {
      r := LastRestart(log[..r]);
    }
  }

  /** In every interleaving: when Start is over, no restart is under way and the current dataset is
      empty, there was a restart; and unless an event was processed since the last one that was not
      all-Current, a timer that was started since is pending or has fired. If there was no event at
      all, it was started for the empty dataset. */
  lemma EmptyDataSetHasTimer(actions: seq<Action>, states: seq<State>, k: nat) returns (r: nat)
    requires IsRun(actions, states) && k < |states|
    requires states[k].ctl.main == Selecting && states[k].ctl.restart == NoRestart && states[k].ctl.dataSet == {}
    ensures var c := states[k].clock;
            && r < |c.log| && c.log[r] == Restarted && (forall j :: r < j < |c.log| ==> c.log[j] != Restarted)
            && ((forall j :: r < j < |c.log| ==> !Bad(c.log[j])) ==>
                  && c.stored.Some? && c.stored.value < |c.timers|
                  && var x := c.timers[c.stored.value];
                     && r < x.since < |c.log| && c.log[x.since] == Started(c.stored.value)
                     && (x.state == Pending || x.state.Fired?)
                     && ((forall j :: r < j < |c.log| ==> !c.log[j].Event?) ==> x.cause == EmptyDataSet))
  {
    RunInv(actions, states, k);
    RunSettles(actions, states, k);
    RunEmpty(actions, states, k);
    var c := states[k].clock;
    r := LastRestart(c.log);
    if forall j :: r < j < |c.log| ==> !Bad(c.log[j]) {
      LastBadIs(c.log, r);
      var t := c.stored.value;
      assert TimerInv(c, t);
      assert c.timers[t].since >= r;
    }
  }

  /** The poll of the current dataset runs, and its cancel function is stored. */
  predicate Polled(k: Control, ps: Polls, launched: bool) {
    && ps.cancel.Some? && ps.cancel.value < |ps.all|
    && ps.all[ps.cancel.value].data == k.dataSet && !ps.all[ps.cancel.value].cancelled
    && (launched ==> ps.all[ps.cancel.value].launched)
  }

  ghost predicate PolledInv(k: Control, ps: Polls) {
    && IsSet(k)
    && match k.restart
       case StorePoll(p) => k.dataSet != {} && p < |ps.all| && ps.all[p].data == k.dataSet && !ps.all[p].cancelled
       case LaunchPoll(p) => k.dataSet != {} && ps.cancel == Some(p) && Polled(k, ps, false)
       case NoRestart => if k.dataSet == {} then ps.cancel == None else Polled(k, ps, true)
       case TakePoll => if k.dataSet == {} then ps.cancel == None else Polled(k, ps, true)
       case _ => true
  }

  lemma StepPolled(s: State, a: Action)
    requires PolledInv(s.ctl, s.polls) && PollsInv(s.ctl, s.polls) && Enabled(s, a)
    ensures PolledInv(Apply(s, a).ctl, Apply(s, a).polls)
  {
  }

  lemma {:induction false} RunPolled(actions: seq<Action>, states: seq<State>, k: nat)
    requires IsRun(actions, states) && k < |states|
    ensures PolledInv(states[k].ctl, states[k].polls)
  {
    if k > 0 {
      RunPolled(actions, states, k - 1);
      RunInv(actions, states, k - 1);
      StepPolled(states[k - 1], actions[k - 1]);
    }
  }

  /** In every interleaving, while no restart is under way: a dataset that is not empty is polled, by
      one poll that is launched and not cancelled; and for an empty one every poll is cancelled. */
  lemma DataSetIsPolled(actions: seq<Action>, states: seq<State>, k: nat)
    requires IsRun(actions, states) && k < |states| && states[k].ctl.restart == NoRestart
    ensures var d, ps := states[k].ctl.dataSet, states[k].polls;
            if d == {} then ps.cancel == None && forall p :: 0 <= p < |ps.all| ==> ps.all[p].cancelled else
            && ps.cancel.Some? && ps.cancel.value < |ps.all|
            && (exists l :: ps.all[ps.cancel.value] == Poll(d, false, true, l))
            && forall p :: 0 <= p < |ps.all| && p != ps.cancel.value ==> ps.all[p].cancelled
  {
    RunInv(actions, states, k);
    RunPolled(actions, states, k);
    var ps := states[k].polls;
    if states[k].ctl.dataSet != {} {
      var x := ps.all[ps.cancel.value];
      assert x == Poll(x.data, false, true, x.listener);
    }
  }

  // ----- which dataset is the current one ----------------------------------------------------------------

  /** The dataset the API answered last, to Start or to the watcher. */
  function LastAnswer(actions: seq<Action>): DataSet
    decreases |actions|
  {
    if actions == [] then {} else
    match actions[|actions| - 1]
    case Refresh(Some(d)) => d
    case WatchTick(Some(d)) => d
    case _ => LastAnswer(actions[..|actions| - 1])
  }

  ghost predicate FollowInv(k: Control, answer: DataSet) {
    && IsSet(k)
    && (k.restart != NoRestart ==> k.newData == answer)
    && (k.watcher.Comparing? || k.watcher.Checking? ==> k.watcher.data == answer)
    && (k.watcher.Checking? ==> k.dataSet != answer)
    && (k.watcher == Busy && (Steady(k.restart) || k.restart == SetData) ==> k.dataSet != answer)
    && (k.watcher == Sleeping || k.main == Storing ==> k.dataSet == answer)
  }

  lemma StepFollows(s: State, a: Action, answer: DataSet)
    requires FollowInv(s.ctl, answer) && PollsInv(s.ctl, s.polls) && Enabled(s, a)
    ensures FollowInv(Apply(s, a).ctl,
                      match a
                      case Refresh(Some(d)) => d
                      case WatchTick(Some(d)) => d
                      case _ => answer)
  {
  }

  lemma {:induction false} RunFollows(actions: seq<Action>, states: seq<State>, k: nat)
    requires IsRun(actions, states) && k < |states|
    ensures FollowInv(states[k].ctl, LastAnswer(actions[..k]))
  {
    if k > 0 {
      RunFollows(actions, states, k - 1);
      RunInv(actions, states, k - 1);
      StepFollows(states[k - 1], actions[k - 1], LastAnswer(actions[..k - 1]));
      assert actions[..k][..k - 1] == actions[..k - 1];
    }
  }

  /** In every interleaving: when Start or the watcher has dealt with an answer of the API, the current
      dataset is that answer; a restart under way is for the last answer; and the watcher restarts
      only for an answer that differs from the current dataset. */
  lemma CurrentIsLastAnswer(actions: seq<Action>, states: seq<State>, k: nat)
    requires IsRun(actions, states) && k < |states|
    ensures var c, answer := states[k].ctl, LastAnswer(actions[..k]);
            && (c.watcher == Sleeping || c.main == Storing ==> c.dataSet == answer)
            && (c.restart != NoRestart ==> c.newData == answer)
            && (c.watcher == Busy && c.restart == TakePoll ==> c.dataSet != c.newData)
  {
    RunFollows(actions, states, k);
  }

  // ----- what is reported ----------------------------------------------------------------------------------

  function Outcomes(rs: seq<Reporter>): seq<Outcome> {
    seq(|rs|, i requires 0 <= i < |rs| => rs[i].outcome)
  }

  /** What each action reports: the firing of a timer success, a failed poll and a failed refresh of the
      watcher their errors. */
  function Reported(actions: seq<Action>): seq<Outcome>
    decreases |actions|
  {
    if actions == [] then [] else
    Reported(actions[..|actions| - 1]) +
    match actions[|actions| - 1]
    case Fire(_) => [Ready]
    case PollError(_, e) => [Err(e)]
    case WatchTick(None) => [Err(0)]
    case _ => []
  }

  /** Some caller that is through brought this outcome. */
  ghost predicate Sent(rs: seq<Reporter>, x: Outcome) {
    exists r :: 0 <= r < |rs| && rs[r].stage == 3 && rs[r].outcome == x
  }

  ghost predicate SentInv(o: Out) {
    && (forall r :: 0 <= r < |o.reporters| ==> o.reporters[r].stage <= 3)
    && (forall x :: x in o.reports <==> Sent(o.reporters, x))
  }

  lemma SentMore(rs: seq<Reporter>, y: Reporter, x: Outcome)
    requires y.stage == 0
    ensures Sent(rs + [y], x) <==> Sent(rs, x)
  {
    if r :| 0 <= r < |rs| && rs[r].stage == 3 && rs[r].outcome == x {
      assert (rs + [y])[r] == rs[r];
    }
  }

  lemma SentNext(rs: seq<Reporter>, i: nat, y: Reporter, x: Outcome)
    requires i < |rs| && rs[i].stage < 3
    ensures Sent(rs[i := y], x) <==> Sent(rs, x) || (y.stage == 3 && y.outcome == x)
  {
    if r :| 0 <= r < |rs| && rs[r].stage == 3 && rs[r].outcome == x {
      assert rs[i := y][r] == rs[r];
    }
    if y.stage == 3 && y.outcome == x {
      assert rs[i := y][i] == y;
    }
    var rs' := rs[i := y];
    if r :| 0 <= r < |rs'| && rs'[r].stage == 3 && rs'[r].outcome == x {
      assert r == i || rs[r] == rs'[r];
    }
  }

  lemma ReportSends(o: Out, x: Outcome)
    requires SentInv(o)
    ensures SentInv(Report(o, x)) && Outcomes(Report(o, x).reporters) == Outcomes(o.reporters) + [x]
  {
    forall y
      ensures Sent(Report(o, x).reporters, y) <==> Sent(o.reporters, y)
    {
      SentMore(o.reporters, Reporter(x, 0, false), y);
    }
  }

  lemma ReportNextSends(o: Out, i: nat)
    requires SentInv(o) && i < |o.reporters| && o.reporters[i].stage < 3
    ensures SentInv(ReportNext(o, i)) && Outcomes(ReportNext(o, i).reporters) == Outcomes(o.reporters)
  {
    var o', x := ReportNext(o, i), o.reporters[i];
    assert o'.reports == if x.stage == 2 then o.reports + [x.outcome] else o.reports;
    forall y
      ensures y in o'.reports <==> Sent(o'.reporters, y)
    {
      SentNext(o.reporters, i, o'.reporters[i], y);
    }
  }

  lemma StepSends(s: State, a: Action, before: seq<Action>)
    requires SentInv(s.out) && Outcomes(s.out.reporters) == Reported(before) && Enabled(s, a)
    ensures SentInv(Apply(s, a).out) && Outcomes(Apply(s, a).out.reporters) == Reported(before + [a])
  {
    assert (before + [a])[..|before|] == before;
    match a {
      case ReportStep(r) => ReportNextSends(s.out, r);
      case Fire(_) => ReportSends(s.out, Ready);
      case PollError(_, e) => ReportSends(s.out, Err(e));
      case WatchTick(None) => ReportSends(s.out, Err(0));
      case _ => assert Apply(s, a).out.reporters == s.out.reporters && Apply(s, a).out.reports == s.out.reports;
    }
  }

  lemma {:induction false} RunSends(actions: seq<Action>, states: seq<State>, k: nat)
    requires IsRun(actions, states) && k < |states|
    ensures SentInv(states[k].out) && Outcomes(states[k].out.reporters) == Reported(actions[..k])
  {
    if k > 0 {
      RunSends(actions, states, k - 1);
      StepSends(states[k - 1], actions[k - 1], actions[..k - 1]);
      assert actions[..k] == actions[..k - 1] + [actions[k - 1]];
    }
  }

  /** In every interleaving the callers of reportDone are, in order, the timers that fired, the polls that
      failed and the refreshes of the watcher that failed, each with its own outcome; and the outcomes
      sent are those of the callers that are through. */
  lemma ReportersExactly(actions: seq<Action>, states: seq<State>, k: nat)
    requires IsRun(actions, states) && k < |states|
    ensures var o := states[k].out;
            && Outcomes(o.reporters) == Reported(actions[..k])
            && forall x :: x in o.reports <==> Sent(o.reporters, x)
  {
    RunSends(actions, states, k);
  }

  lemma {:induction false} FiredIsReported(actions: seq<Action>, t: nat)
    requires Fire(t) in actions
    ensures Ready in Reported(actions)
    decreases |actions|
  {
    var n := |actions| - 1;
    if actions[n] != Fire(t) {
      FiredIsReported(actions[..n], t);
    }
  }

  // ----- and that it can end ----------------------------------------------------------------------------------

  function Steps(r: nat, n: nat): (steps: seq<Action>)
    ensures |steps| == n
  {
    if n == 0 then [] else [ReportStep(r)] + Steps(r, n - 1)
  }

  /** A caller of reportDone sends its outcome if nobody comes before it. */
  lemma {:induction false} ReportsThrough(s: State, r: nat)
    requires s.ctl.main == Selecting && s.out.channel == None
    requires r < |s.out.reporters| && s.out.reporters[r].stage < 3
    ensures var run := Steps(r, 3 - s.out.reporters[r].stage) + [Take];
            Exec(s, run).Some? && Exec(s, run).value.ctl.main == Returned(Took(s.out.reporters[r].outcome))
    decreases 3 - s.out.reporters[r].stage
  {
    var n := 3 - s.out.reporters[r].stage;
    var s' := Apply(s, ReportStep(r));
    assert Steps(r, n) + [Take] == [ReportStep(r)] + (Steps(r, n - 1) + [Take]);
    ExecCons(s, ReportStep(r), Steps(r, n - 1) + [Take]);
    if n == 1 {
      assert Steps(r, 0) + [Take] == [Take];
      ExecCons(s', Take, []);
    } else {
      ReportsThrough(s', r);
    }
  }

  lemma ReadyIsUnderway(actions: seq<Action>, states: seq<State>, t: nat) returns (r: nat)
    requires IsRun(actions, states) && states[|actions|].out.reports == []
    requires t < |states[|actions|].clock.timers| && states[|actions|].clock.timers[t].state.Fired?
    ensures var rs := states[|actions|].out.reporters; r < |rs| && rs[r].outcome == Ready && rs[r].stage < 3
  {
    var n := |actions|;
    var rs := states[n].out.reporters;
    RunSends(actions, states, n);
    var j := FiredBefore(actions, states, n, t);
    FiredIsReported(actions[..n], t);
    r :| r < |rs| && Outcomes(rs)[r] == Ready;
    if rs[r].stage == 3 {
      assert Sent(rs, Ready);
    }
  }

  /** In every interleaving: while waitNamespaceResources waits and nothing has been sent, a stored timer
      can fire, if it has not, and bring about the end of the wait with success. */
  lemma TimerLeadsToReady(actions: seq<Action>, states: seq<State>) returns (more: seq<Action>, states': seq<State>)
    requires IsRun(actions, states)
    requires var s := states[|actions|]; s.ctl.main == Selecting && s.out.reports == [] && s.clock.stored.Some?
    ensures |more| <= 5 && IsRun(actions + more, states')
    ensures states'[|states'| - 1].ctl.main == Returned(Took(Ready))
  {
    var s, t := states[|actions|], states[|actions|].clock.stored.value;
    RunInv(actions, states, |actions|);
    RunSettles(actions, states, |actions|);
    if s.clock.timers[t].state == Pending {
      more := FireAndReport(s, t);
    } else {
      var r := ReadyIsUnderway(actions, states, t);
      ReportsThrough(s, r);
      more := Steps(r, 3 - s.out.reporters[r].stage) + [Take];
    }
    states' := ExecIsRun(s, actions, states, more);
  }

  lemma FireAndReport(s: State, t: nat) returns (more: seq<Action>)
    requires s.ctl.main == Selecting && s.out.channel == None
    requires t < |s.clock.timers| && s.clock.timers[t].state == Pending
    ensures |more| == 5 && Exec(s, more).Some? && Exec(s, more).value.ctl.main == Returned(Took(Ready))
  {
    var r := |s.out.reporters|;
    ReportsThrough(Apply(s, Fire(t)), r);
    ExecCons(s, Fire(t), Steps(r, 3) + [Take]);
    more := [Fire(t)] + (Steps(r, 3) + [Take]);
  }

  /** A namespace without resources: whatever interleaving led there, unless an event that was not
      all-Current came in since the last restart or an outcome has been sent, the wait can end with success. */
  lemma EmptyNamespaceBecomesReady(actions: seq<Action>, states: seq<State>)
    returns (r: nat, more: seq<Action>, states': seq<State>)
    requires IsRun(actions, states)
    requires var s := states[|actions|];
             && s.ctl.main == Selecting && s.ctl.restart == NoRestart && s.ctl.dataSet == {}
             && s.out.reports == []
    ensures var log := states[|actions|].clock.log;
            && r < |log| && log[r] == Restarted && (forall j :: r < j < |log| ==> log[j] != Restarted)
            && ((forall j :: r < j < |log| ==> !Bad(log[j])) ==>
                  && |more| <= 5 && IsRun(actions + more, states')
                  && states'[|states'| - 1].ctl.main == Returned(Took(Ready)))
  {
    var log := states[|actions|].clock.log;
    r := EmptyDataSetHasTimer(actions, states, |actions|);
    more, states' := [], states;
    if forall j :: r < j < |log| ==> !Bad(log[j]) {
      more, states' := TimerLeadsToReady(actions, states);
    }
  }

  // ----- what happens to the events ---------------------------------------------------------------------------

  /** What the events of poll `p` said, as they were received, as they were logged, and under way. */
  function Received(actions: seq<Action>, p: nat): seq<bool>
    decreases |actions|
  {
    if actions == [] then [] else
    var n := |actions| - 1;
    Received(actions[..n], p) + if actions[n].Receive? && actions[n].poll == p then [actions[n].allCurrent] else []
  }

  function Logged(log: seq<Entry>, p: nat): seq<bool>
    decreases |log|
  {
    if log == [] then [] else
    var n := |log| - 1;
    Logged(log[..n], p) + if log[n].Event? && log[n].poll == p then [log[n].current] else []
  }

  function HeldBy(l: Listener): seq<bool> {
    match l
    case Idle => []
    case Judged(c) => [c]
    case WillStart => [true]
    case WillStop => [false]
  }

  function Underway(ps: seq<Poll>, p: nat): seq<bool> {
    if p < |ps| then HeldBy(ps[p].listener) else []
  }

  lemma LoggedNext(log: seq<Entry>, e: Entry, p: nat)
    ensures Logged(log + [e], p) == Logged(log, p) + if e.Event? && e.poll == p then [e.current] else []
  {
    assert (log + [e])[..|log|] == log;
  }

  lemma ReceivedNext(actions: seq<Action>, a: Action, p: nat)
    ensures Received(actions + [a], p) ==
            Received(actions, p) + if a.Receive? && a.poll == p then [a.allCurrent] else []
  {
    assert (actions + [a])[..|actions|] == actions;
  }

  lemma StartLogs(c: Clock, cause: Cause, p: nat)
    ensures Logged(StartTimer(c, cause).log, p) == Logged(c.log, p)
  {
    if c.stored.None? {
      LoggedNext(c.log, Started(|c.timers|), p);
    }
  }

  lemma RestartLogs(s: State, p: nat)
    requires Enabled(s, RestartStep)
    ensures Logged(RestartNext(s).clock.log, p) == Logged(s.clock.log, p)
  {
    if s.ctl.restart == StopTimer {
      LoggedNext(s.clock.log, Restarted, p);
    } else if s.ctl.restart == Choose {
      StartLogs(s.clock, EmptyDataSet, p);
    }
  }

  lemma RestartHolds(s: State, p: nat)
    requires Enabled(s, RestartStep)
    ensures Underway(RestartNext(s).polls.all, p) == Underway(s.polls.all, p)
  {
  }

  /** A listener goes on holding what it holds, or lays it down and logs it. */
  lemma ListenerLogs(log: seq<Entry>, log': seq<Entry>, ps: Polls, q: nat, l: Listener, p: nat)
    requires q < |ps.all|
    requires || (log' == log && HeldBy(l) == HeldBy(ps.all[q].listener))
             || exists c :: log' == log + [Event(q, c)] && HeldBy(ps.all[q].listener) == [c] && l == Idle
    ensures Logged(log', p) + Underway(SetListener(ps, q, l).all, p) == Logged(log, p) + Underway(ps.all, p)
  {
    var now := Underway(SetListener(ps, q, l).all, p);
    if p != q || log' == log {
      assert now == Underway(ps.all, p);
    }
    if log' != log {
      var c :| log' == log + [Event(q, c)] && HeldBy(ps.all[q].listener) == [c] && l == Idle;
      LoggedNext(log, Event(q, c), p);
      assert p == q ==> now == [] && Underway(ps.all, p) == [c];
    }
  }

  lemma LookLogs(s: State, q: nat, p: nat)
    requires Enabled(s, Look(q))
    ensures Logged(Apply(s, Look(q)).clock.log, p) + Underway(Apply(s, Look(q)).polls.all, p) ==
            Logged(s.clock.log, p) + Underway(s.polls.all, p)
  {
    var s', l := Apply(s, Look(q)), s.polls.all[q].listener;
    assert HeldBy(l) == [l.current];
    ListenerLogs(s.clock.log, s'.clock.log, s.polls, q, s'.polls.all[q].listener, p);
  }

  lemma ActLogs(s: State, q: nat, p: nat)
    requires Enabled(s, Act(q))
    ensures Logged(Apply(s, Act(q)).clock.log, p) + Underway(Apply(s, Act(q)).polls.all, p) ==
            Logged(s.clock.log, p) + Underway(s.polls.all, p)
  {
    var log, current := s.clock.log, s.polls.all[q].listener == WillStart;
    var log1 := log + [Event(q, current)];
    assert HeldBy(s.polls.all[q].listener) == [current];
    ListenerLogs(log, log1, s.polls, q, Idle, p);
    if current {
      StartLogs(Log(s.clock, Event(q, true)), AllCurrent(q), p);
    } else {
      assert Apply(s, Act(q)).clock.log == log1;
    }
  }

  lemma StepLogs(s: State, a: Action, p: nat)
    requires Enabled(s, a)
    ensures Logged(Apply(s, a).clock.log, p) + Underway(Apply(s, a).polls.all, p) ==
            Logged(s.clock.log, p) + Underway(s.polls.all, p) +
            if a.Receive? && a.poll == p then [a.allCurrent] else []
  {
    match a {
      case RestartStep =>
        RestartLogs(s, p);
        RestartHolds(s, p);
      case Look(q) => LookLogs(s, q, p);
      case Act(q) => ActLogs(s, q, p);
      case Fire(t) => LoggedNext(s.clock.log, FiredEntry(t), p);
      case _ => OthersLog(s, a, p);
    }
  }

  lemma OthersLog(s: State, a: Action, p: nat)
    requires Enabled(s, a) && !a.RestartStep? && !a.Look? && !a.Act? && !a.Fire?
    ensures Apply(s, a).clock == s.clock
    ensures Underway(Apply(s, a).polls.all, p) ==
            Underway(s.polls.all, p) + if a.Receive? && a.poll == p then [a.allCurrent] else []
  {
  }

  /** In every interleaving each event of a poll is processed once, in order, with what it said: the
      events logged and the one under way are the events received. */
  lemma {:induction false} EventsAreProcessed(actions: seq<Action>, states: seq<State>, k: nat, p: nat)
    requires IsRun(actions, states) && k < |states|
    ensures Logged(states[k].clock.log, p) + Underway(states[k].polls.all, p) == Received(actions[..k], p)
  {
    if k > 0 {
      var s, a := states[k - 1], actions[k - 1];
      EventsAreProcessed(actions, states, k - 1, p);
      assert actions[..k] == actions[..k - 1] + [a] && states[k] == Apply(s, a);
      OneMore(s, a, actions[..k - 1], p);
    }
  }

  lemma OneMore(s: State, a: Action, before: seq<Action>, p: nat)
    requires Enabled(s, a) && Logged(s.clock.log, p) + Underway(s.polls.all, p) == Received(before, p)
    ensures Logged(Apply(s, a).clock.log, p) + Underway(Apply(s, a).polls.all, p) == Received(before + [a], p)
  {
    StepLogs(s, a, p);
    ReceivedNext(before, a, p);
  }

  // ----- how the wait can end, and who can go on ----------------------------------------------------------------

  /** In every interleaving: the next step can end the wait with an outcome exactly if Start is over and that
      outcome was the first one sent; with the end of the context exactly if Start is over and the context has
      ended; and with the failure of Start exactly at its beginning. */
  lemma CanEndExactly(actions: seq<Action>, states: seq<State>, x: Outcome)
    requires IsRun(actions, states) && !states[|actions|].ctl.main.Returned?
    ensures var s := states[|actions|];
            && ((exists a :: Enabled(s, a) && Apply(s, a).ctl.main == Returned(Took(x))) <==>
                s.ctl.main == Selecting && s.out.reports != [] && s.out.reports[0] == x)
            && ((exists a :: Enabled(s, a) && Apply(s, a).ctl.main == Returned(ContextDone)) <==>
                s.ctl.main == Selecting && s.out.outerCancelled)
            && ((exists a :: Enabled(s, a) && Apply(s, a).ctl.main == Returned(StartFailed)) <==>
                s.ctl.main == Starting)
  {
    var s := states[|actions|];
    RunInv(actions, states, |actions|);
    forall a | Enabled(s, a) && Apply(s, a).ctl.main.Returned?
      ensures a == Take || a == GiveUp || a == Refresh(None)
    {
      EndsBy(s, a);
    }
    if s.ctl.main == Selecting && s.out.reports != [] && s.out.reports[0] == x {
      assert Enabled(s, Take) && Apply(s, Take).ctl.main == Returned(Took(x));
    }
    if s.ctl.main == Selecting && s.out.outerCancelled {
      assert Enabled(s, GiveUp) && Apply(s, GiveUp).ctl.main == Returned(ContextDone);
    }
    if s.ctl.main == Starting {
      assert Enabled(s, Refresh(None)) && Apply(s, Refresh(None)).ctl.main == Returned(StartFailed);
    }
  }

  lemma EndsBy(s: State, a: Action)
    requires Enabled(s, a) && !s.ctl.main.Returned? && Apply(s, a).ctl.main.Returned?
    ensures a == Take || a == GiveUp || a == Refresh(None)
  {
  }

  /** In every interleaving: a restart under way can go on, a pending timer can fire, and the context can end. */
  lemma RestartAndTimersGoOn(actions: seq<Action>, states: seq<State>, t: nat)
    requires IsRun(actions, states)
    ensures var s := states[|actions|];
            && (s.ctl.restart != NoRestart ==>
                  exists a :: Enabled(s, a) && Apply(s, a).ctl.restart != s.ctl.restart)
            && (t < |s.clock.timers| && s.clock.timers[t].state == Pending ==>
                  exists a :: Enabled(s, a) && Apply(s, a).clock.log == s.clock.log + [FiredEntry(t)])
            && (!s.out.outerCancelled ==>
                  exists a :: Enabled(s, a) && Apply(s, a) == s.(out := s.out.(outerCancelled := true)))
  {
    var s := states[|actions|];
    RunInv(actions, states, |actions|);
    if s.ctl.restart != NoRestart {
      assert Enabled(s, RestartStep) && Apply(s, RestartStep).ctl.restart != s.ctl.restart;
    }
    if t < |s.clock.timers| && s.clock.timers[t].state == Pending {
      assert Enabled(s, Fire(t)) && Apply(s, Fire(t)).clock.log == s.clock.log + [FiredEntry(t)];
    }
    if !s.out.outerCancelled {
      assert Enabled(s, CancelOuter) && Apply(s, CancelOuter) == s.(out := s.out.(outerCancelled := true));
    }
  }

  /** In every interleaving: the listener of a launched poll, cancelled or not, can take up an event that
      says anything if it is idle, and otherwise can go on with its event; and the poll can fail with any error. */
  lemma ListenersGoOn(actions: seq<Action>, states: seq<State>, p: nat, current: bool, code: nat)
    requires IsRun(actions, states) && p < |states[|actions|].polls.all|
    ensures var s := states[|actions|];
            var l := s.polls.all[p].listener;
            && (l == Idle && s.polls.all[p].launched ==>
                  exists a :: Enabled(s, a) && Underway(Apply(s, a).polls.all, p) == [current])
            && (l != Idle ==>
                  exists a :: Enabled(s, a) && p < |Apply(s, a).polls.all| && Apply(s, a).polls.all[p].listener != l)
            && (s.polls.all[p].launched ==>
                  exists a :: Enabled(s, a) && Apply(s, a).out.reporters ==
                                               s.out.reporters + [Reporter(Err(code), 0, false)])
  {
    var s := states[|actions|];
    if s.polls.all[p].launched {
      assert Enabled(s, PollError(p, code)) && Apply(s, PollError(p, code)).out == Report(s.out, Err(code));
    }
    match s.polls.all[p].listener {
      case Idle =>
        if s.polls.all[p].launched {
          var a := Receive(p, current);
          assert Enabled(s, a) && Underway(Apply(s, a).polls.all, p) == [current];
        }
      case Judged(_) =>
        assert Enabled(s, Look(p)) && Apply(s, Look(p)).polls.all[p].listener != s.polls.all[p].listener;
      case _ => assert Enabled(s, Act(p)) && Apply(s, Act(p)).polls.all[p].listener != s.polls.all[p].listener;
    }
  }

  /** In every interleaving: the sleeping watcher can get any dataset or an error, which it reports before it
      ends; the watcher with an answer goes on sleeping or to a restart, and which is decided by whether the
      answer is the current dataset. */
  lemma WatcherGoesOn(actions: seq<Action>, states: seq<State>, d: DataSet)
    requires IsRun(actions, states)
    ensures var s := states[|actions|];
            && (s.ctl.watcher == Sleeping ==>
                  && (exists a :: Enabled(s, a) && Apply(s, a) == s.(ctl := s.ctl.(watcher := Comparing(d))))
                  && exists a :: Enabled(s, a) && Apply(s, a).ctl.watcher == Gone &&
                                 Apply(s, a).out.reporters == s.out.reporters + [Reporter(Err(0), 0, false)])
            && (s.ctl.watcher == Comparing(d) ==>
                  && ((exists a :: Enabled(s, a) && Apply(s, a).ctl.watcher == Sleeping) <==> d == s.ctl.dataSet)
                  && ((exists a :: Enabled(s, a) && Apply(s, a).ctl.watcher == Checking(d)) <==> d != s.ctl.dataSet))
  {
    var s := states[|actions|];
    RunInv(actions, states, |actions|);
    if s.ctl.watcher == Sleeping {
      var t := WatchTick(Some(d));
      assert Enabled(s, t) && Apply(s, t) == s.(ctl := s.ctl.(watcher := Comparing(d)));
      assert Enabled(s, WatchTick(None)) && Apply(s, WatchTick(None)).out == Report(s.out, Err(0));
    }
    if s.ctl.watcher == Comparing(d) {
      var w := if d == s.ctl.dataSet then Sleeping else Checking(d);
      assert Enabled(s, WatchCompare) && Apply(s, WatchCompare).ctl.watcher == w;
      forall a | Enabled(s, a)
        ensures Apply(s, a).ctl.watcher == if a == WatchCompare then w else Comparing(d)
      {
        if a != WatchCompare {
          OthersLeaveWatcher(s, a);
        }
      }
    }
  }

  lemma OthersLeaveWatcher(s: State, a: Action)
    requires PollsInv(s.ctl, s.polls) && Enabled(s, a) && s.ctl.watcher.Comparing? && a != WatchCompare
    ensures Apply(s, a).ctl.watcher == s.ctl.watcher
  {
  }

  // ----- the watch context -----------------------------------------------------------------------------------------

  /** A caller of reportDone has taken the cancel function of the watch context and not called it yet. */
  ghost predicate Holding(rs: seq<Reporter>) {
    exists r :: 0 <= r < |rs| && rs[r].stage == 1 && rs[r].holds
  }

  ghost predicate Through(rs: seq<Reporter>) {
    exists r :: 0 <= r < |rs| && rs[r].stage >= 2
  }

  /** Once there is a watcher, the cancel function is stored or else taken or called: it is never lost. Only
      reportDone calls it. */
  ghost predicate WatchInv(k: Control, o: Out) {
    && (o.watchCancelled || Holding(o.reporters) <==> k.watcher != NoWatcher && !o.watchCancel)
    && (o.watchCancel ==> k.watcher != NoWatcher)
    && (o.watchCancelled ==> Through(o.reporters))
  }

  lemma ReportWatch(o: Out, x: Outcome)
    ensures Holding(o.reporters) <==> Holding(Report(o, x).reporters)
    ensures Through(o.reporters) ==> Through(Report(o, x).reporters)
  {
    var rs, rs' := o.reporters, Report(o, x).reporters;
    assert forall r :: 0 <= r < |rs| ==> rs'[r] == rs[r];
  }

  /** A caller of reportDone at its first step takes the cancel function if it is there, and at its second
      calls what it took. */
  lemma HoldingNext(o: Out, i: nat)
    requires i < |o.reporters| && o.reporters[i].stage < 3
    ensures var o', x := ReportNext(o, i), o.reporters[i];
            && (x.stage != 1 ==> (Holding(o'.reporters) <==> Holding(o.reporters) || (x.stage == 0 && o.watchCancel)))
            && (x.stage == 1 ==> (Holding(o.reporters) <==> Holding(o'.reporters) || x.holds))
  {
    var rs, rs', x := o.reporters, ReportNext(o, i).reporters, o.reporters[i];
    assert rs'[i] == Reporter(x.outcome, x.stage + 1, x.stage == 0 && o.watchCancel);
    assert forall r :: 0 <= r < |rs| && r != i ==> rs'[r] == rs[r];
    if r :| 0 <= r < |rs| && rs[r].stage == 1 && rs[r].holds && r != i {
      assert rs'[r] == rs[r];
    }
    if r :| 0 <= r < |rs'| && rs'[r].stage == 1 && rs'[r].holds && r != i {
      assert rs[r] == rs'[r];
    }
  }

  lemma ThroughNext(o: Out, i: nat)
    requires i < |o.reporters| && o.reporters[i].stage < 3
    ensures Through(o.reporters) || o.reporters[i].stage > 0 ==> Through(ReportNext(o, i).reporters)
  {
    var rs, rs' := o.reporters, ReportNext(o, i).reporters;
    assert rs'[i].stage == rs[i].stage + 1;
    if r :| 0 <= r < |rs| && rs[r].stage >= 2 {
      assert rs'[r].stage >= 2;
    }
  }

  lemma StepWatch(s: State, a: Action)
    requires WatchInv(s.ctl, s.out) && PollsInv(s.ctl, s.polls) && Enabled(s, a)
    ensures WatchInv(Apply(s, a).ctl, Apply(s, a).out)
  {
    match a {
      case ReportStep(r) =>
        HoldingNext(s.out, r);
        ThroughNext(s.out, r);
      case Fire(_) => ReportWatch(s.out, Ready);
      case PollError(_, e) => ReportWatch(s.out, Err(e));
      case WatchTick(None) => ReportWatch(s.out, Err(0));
      case _ => assert Apply(s, a).out.reporters == s.out.reporters;
    }
  }

  lemma {:induction false} RunWatch(actions: seq<Action>, states: seq<State>, k: nat)
    requires IsRun(actions, states) && k < |states|
    ensures WatchInv(states[k].ctl, states[k].out)
  {
    if k > 0 {
      RunWatch(actions, states, k - 1);
      RunInv(actions, states, k - 1);
      StepWatch(states[k - 1], actions[k - 1]);
    }
  }

  /** In every interleaving the cancel function of the watch context is there exactly if there is a watcher and
      no caller of reportDone has taken it; and if one has, it holds it or the context is cancelled. */
  lemma WatchCancelExactly(actions: seq<Action>, states: seq<State>, k: nat)
    requires IsRun(actions, states) && k < |states|
    ensures var w, o := states[k].ctl.watcher, states[k].out;
            && (o.watchCancelled || Holding(o.reporters) <==> w != NoWatcher && !o.watchCancel)
            && (o.watchCancel ==> w != NoWatcher)
  {
    RunWatch(actions, states, k);
  }

  lemma {:induction false} TakenStays(actions: seq<Action>, states: seq<State>, j: nat, k: nat)
    requires IsRun(actions, states) && j <= k < |states|
    requires states[j].ctl.watcher != NoWatcher && !states[j].out.watchCancel
    ensures states[k].ctl.watcher != NoWatcher && !states[k].out.watchCancel
    decreases k
  {
    if j < k {
      TakenStays(actions, states, j, k - 1);
      RunInv(actions, states, k - 1);
      TakenStep(states[k - 1], actions[k - 1]);
    }
  }

  lemma TakenStep(s: State, a: Action)
    requires PollsInv(s.ctl, s.polls) && Enabled(s, a) && s.ctl.watcher != NoWatcher && !s.out.watchCancel
    ensures Apply(s, a).ctl.watcher != NoWatcher && !Apply(s, a).out.watchCancel
  {
  }

  /** In every interleaving: once a caller of reportDone has made its first step with the watcher started, the
      watch context is cancelled as soon as no caller is about to cancel it; and from then on no restart begins.
      Nothing else cancels it. */
  lemma ReportEndsWatching(actions: seq<Action>, states: seq<State>, j: nat, k: nat, r: nat)
    requires IsRun(actions, states) && j < k < |states| && actions[j] == ReportStep(r)
    requires r < |states[j].out.reporters| && states[j].out.reporters[r].stage == 0
    requires states[j].ctl.watcher != NoWatcher
    ensures states[k].out.watchCancelled || Holding(states[k].out.reporters)
    ensures states[k].out.watchCancelled ==> Through(states[k].out.reporters)
    ensures states[k].out.watchCancelled && k < |actions| && states[k].ctl.restart == NoRestart ==>
              states[k + 1].ctl.restart == NoRestart
  {
    assert states[j + 1] == Apply(states[j], actions[j]);
    TakenStays(actions, states, j + 1, k);
    RunWatch(actions, states, k);
    RunInv(actions, states, k);
  }

  /** In every interleaving: the watcher that has found another dataset can restart with it exactly if neither
      the watch context nor the context around it has ended. */
  lemma WatcherRestartsExactly(actions: seq<Action>, states: seq<State>)
    requires IsRun(actions, states) && states[|actions|].ctl.watcher.Checking?
    ensures var s := states[|actions|];
            (exists a :: Enabled(s, a) && Apply(s, a).ctl.restart == TakePoll &&
                         Apply(s, a).ctl.newData == s.ctl.watcher.data != s.ctl.dataSet) <==>
            !s.out.watchCancelled && !s.out.outerCancelled
  {
    var s := states[|actions|];
    RunInv(actions, states, |actions|);
    RunFollows(actions, states, |actions|);
    if !s.out.watchCancelled && !s.out.outerCancelled {
      assert Enabled(s, WatchCheck) && Apply(s, WatchCheck).ctl.restart == TakePoll;
    }
  }
}
