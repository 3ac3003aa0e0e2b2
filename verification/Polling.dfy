/**
 WaitOptions.Poll (pkg/utils/wait.go): a condition wrapped in up to three stateful closures
 (retry budget, watch, consecutive successes) and polled until it says stop.

 Time is left out. The polled condition is the sequence of answers `cond(0), cond(1), ...` it
 gives to successive calls, and `ticks` is how often the poller evaluates the wrapped condition
 before the context is cancelled. Every behaviour of Poll, including one that would go on for
 ever, is described by all its values of `ticks`.
 */
module Polling {
  import opened Wrappers

  type Error = nat

  datatype Answer = Answer(done: bool, err: Option<Error>)

  type Condition = nat -> Answer

  datatype Outcome =
    | Nil                                // no error
    | Invalid                            // watch and wait together
    | Failed(err: Error)                 // an error of the condition itself
    | Exhausted(last: Option<Error>)     // the retry budget is spent
    | Cancelled                          // the context ended

  function Max(a: int, b: int): int {
    if a < b then b else a
  }

  // ----- the specification: a predicate over the trace of answers ---------------------------

  /** How many of the first `n` answers carried an error. */
  function Errors(cond: Condition, n: nat): nat {
    if n == 0 then 0 else Errors(cond, n - 1) + if cond(n - 1).err.Some? then 1 else 0
  }

  /** Does this answer count as a success? With a retry budget an error that comes together with
      `true` is swallowed, and the `true` is not. */
  predicate Accepted(retries: int, a: Answer) {
    a.done && (a.err.None? || retries > 0)
  }

  /** The number of consecutive successes at the end of the first `n` answers. */
  function Streak(retries: int, cond: Condition, n: nat): nat {
    if n == 0 || !Accepted(retries, cond(n - 1)) then 0 else Streak(retries, cond, n - 1) + 1
  }

  /** After `n` answers the poll has succeeded: it is not a watch, the last answer was asked for
      within the error budget, and it completes enough consecutive successes. */
  predicate Wins(watch: bool, retries: int, okResponses: int, cond: Condition, n: nat) {
    && !watch && n > 0
    && Errors(cond, n - 1) < Max(1, retries)
    && Streak(retries, cond, n) >= Max(1, okResponses)
  }

  ghost predicate WinsWithin(watch: bool, retries: int, okResponses: int, cond: Condition, n: nat) {
    exists k: nat :: k <= n && Wins(watch, retries, okResponses, cond, k)
  }

  /** What a looping poll has come to when it has asked `calls` times. */
  ghost predicate PollSpec(
    watch: bool, retries: int, okResponses: int, cond: Condition, ticks: nat, outcome: Outcome, calls: nat)
  {
    && calls <= ticks
    && (forall k: nat :: k < calls ==> Errors(cond, k) < Max(1, retries) && !Wins(watch, retries, okResponses, cond, k))
    && match outcome
       case Nil => Wins(watch, retries, okResponses, cond, calls)
       case Invalid => false
       case Failed(e) =>
         && retries <= 0 && calls > 0 && cond(calls - 1).err == Some(e)
         && !Wins(watch, retries, okResponses, cond, calls)
       case Exhausted(e) =>
         && retries > 0 && calls < ticks && Errors(cond, calls) >= retries
         && !Wins(watch, retries, okResponses, cond, calls) && e == LastError(cond, calls)
       case Cancelled =>
         && calls == ticks && !Wins(watch, retries, okResponses, cond, calls)
         && (retries <= 0 ==> Errors(cond, calls) == 0)
  }

  function LastError(cond: Condition, n: nat): Option<Error> {
    if n == 0 then None
    else if cond(n - 1).err.Some? then cond(n - 1).err
    else LastError(cond, n - 1)
  }

  /** It is the error of the last answer that carries one, if any does. */
  lemma {:induction false} LastErrorIsLast(cond: Condition, n: nat)
    ensures LastError(cond, n).None? <==> forall i: nat :: i < n ==> cond(i).err.None?
    ensures forall i: nat :: i < n && cond(i).err.Some? && (forall j: nat :: i < j < n ==> cond(j).err.None?) ==>
              LastError(cond, n) == cond(i).err
  {
    if n > 0 {
      LastErrorIsLast(cond, n - 1);
    }
  }

  // ----- what the specification amounts to --------------------------------------------------

  lemma {:induction false} ErrorsGrow(cond: Condition, m: nat, n: nat)
    requires m <= n
    ensures Errors(cond, m) <= Errors(cond, n)
    decreases n
  {
    if m < n {
      ErrorsGrow(cond, m, n - 1);
    }
  }

  /** Nil is returned exactly when some prefix of the answers wins, and then at the first one. */
  lemma NilExactly(
    watch: bool, retries: int, okResponses: int, cond: Condition, ticks: nat, outcome: Outcome, calls: nat)
    requires PollSpec(watch, retries, okResponses, cond, ticks, outcome, calls)
    ensures outcome == Nil <==> WinsWithin(watch, retries, okResponses, cond, ticks)
    ensures outcome == Nil ==> forall k: nat :: k < calls ==> !Wins(watch, retries, okResponses, cond, k)
  {
    if outcome == Nil {
      assert Wins(watch, retries, okResponses, cond, calls);
    }
    if k: nat :| k <= ticks && Wins(watch, retries, okResponses, cond, k) {
      if calls < k {
        ErrorsGrow(cond, calls, k - 1);
      }
    }
  }

  /** The specification leaves no choice: it determines the outcome and the number of calls. */
  lemma PollSpecIsFunctional(watch: bool, retries: int, okResponses: int, cond: Condition, ticks: nat,
                             outcome: Outcome, calls: nat, outcome': Outcome, calls': nat)
    requires PollSpec(watch, retries, okResponses, cond, ticks, outcome, calls)
    requires PollSpec(watch, retries, okResponses, cond, ticks, outcome', calls')
    ensures outcome == outcome' && calls == calls'
  {
  }

  lemma {:induction false} StreakIsSuffix(retries: int, cond: Condition, n: nat, k: nat)
    requires k <= n
    ensures Streak(retries, cond, n) >= k <==> forall i: nat :: n - k <= i < n ==> Accepted(retries, cond(i))
    decreases k
  {
    if k > 0 {
      StreakIsSuffix(retries, cond, n - 1, k - 1);
      if Accepted(retries, cond(n - 1)) && Streak(retries, cond, n - 1) >= k - 1 {
        forall i: nat | n - k <= i < n
          ensures Accepted(retries, cond(i))
        {
        }
      }
    }
  }

  lemma {:induction false} StreakFits(retries: int, cond: Condition, n: nat)
    ensures Streak(retries, cond, n) <= n
  {
    if n > 0 {
      StreakFits(retries, cond, n - 1);
    }
  }

  /** For every condition: winning means that the last max(1, OkResponses) answers are successes, and
      that the last of them was asked for with fewer than max(1, Retries) errors before it. */
  lemma WinsExactly(watch: bool, retries: int, okResponses: int, cond: Condition, n: nat)
    ensures Wins(watch, retries, okResponses, cond, n) <==>
              && !watch && n >= Max(1, okResponses) && Errors(cond, n - 1) < Max(1, retries)
              && forall i: nat :: n - Max(1, okResponses) <= i < n ==> Accepted(retries, cond(i))
  {
    StreakFits(retries, cond, n);
    if n >= Max(1, okResponses) {
      StreakIsSuffix(retries, cond, n, Max(1, okResponses));
    }
  }

  /** For a condition that never says true together with an error, winning is the plain thing:
      the last max(1, OkResponses) answers are true without error and there were fewer than
      max(1, Retries) errors altogether. */
  lemma PlainWins(watch: bool, retries: int, okResponses: int, cond: Condition, n: nat)
    requires forall i: nat :: cond(i).done ==> cond(i).err.None?
    ensures Wins(watch, retries, okResponses, cond, n) <==>
              && !watch && n >= Max(1, okResponses)
              && (forall i: nat :: n - Max(1, okResponses) <= i < n ==> cond(i) == Answer(true, None))
              && Errors(cond, n) < Max(1, retries)
  {
    WinsExactly(watch, retries, okResponses, cond, n);
    if n >= Max(1, okResponses) {
      assert forall i: nat :: Accepted(retries, cond(i)) <==> cond(i) == Answer(true, None);
      assert Accepted(retries, cond(n - 1)) ==> Errors(cond, n) == Errors(cond, n - 1);
    }
  }

  /** The hypothesis matters: an answer `(true, error)` can complete a success if and only if there is
      a retry budget with something left; then the errors may add up to the whole budget. */
  lemma TrueWithErrorWins(watch: bool, retries: int, okResponses: int, cond: Condition, n: nat)
    requires n > 0 && cond(n - 1).done && cond(n - 1).err.Some?
    ensures Wins(watch, retries, okResponses, cond, n) <==>
              && !watch && Errors(cond, n) <= retries && n >= Max(1, okResponses)
              && forall i: nat :: n - Max(1, okResponses) <= i < n ==> cond(i).done
  {
    WinsExactly(watch, retries, okResponses, cond, n);
    assert Errors(cond, n) == Errors(cond, n - 1) + 1;
    assert n >= Max(1, okResponses) ==> n - Max(1, okResponses) <= n - 1 < n;
  }

  // ----- the code ---------------------------------------------------------------------------

  class WaitOptions {
    var timeout: int
    var retries: int
    var okResponses: int
    var wait: bool
    var watch: bool

    constructor (timeout: int, retries: int, okResponses: int, wait: bool, watch: bool)
      ensures this.timeout == timeout && this.retries == retries && this.okResponses == okResponses
      ensures this.wait == wait && this.watch == watch
    {
      this.timeout, this.retries, this.okResponses, this.wait, this.watch := timeout, retries, okResponses, wait, watch;
    }

    /** Refuses watch together with wait; either of them alone means no timeout. */
    method Validate() returns (ok: bool)
      modifies this`timeout, this`wait
      ensures ok <==> !(old(watch) && old(wait))
      ensures wait == old(wait)
      ensures timeout == if ok && (watch || wait) then 0 else old(timeout)
    {
      if watch && wait {
        return false;
      }
      if watch {
        timeout := 0;
        wait := false;
      }
      if wait {
        timeout := 0;
      }
      return true;
    }

    predicate HasLoop()
      reads this
    {
      watch || wait || timeout > 0
    }

    /** The whole of Poll. `calls` is how often the condition was asked. */
    method Poll(cond: Condition, ticks: nat) returns (outcome: Outcome, calls: nat)
      modifies this`timeout, this`wait
      ensures old(watch) && old(wait) ==> outcome == Invalid && calls == 0
      ensures old(!watch && !wait && timeout <= 0) ==>
                calls == 1 && outcome == if cond(0).err.Some? then Failed(cond(0).err.value) else Nil
      ensures old((watch || wait || timeout > 0) && !(watch && wait)) ==>
                PollSpec(watch, retries, okResponses, cond, ticks, outcome, calls)
    {
      var valid := Validate();
      if !valid {
        return Invalid, 0;
      }
      if !HasLoop() {
        return if cond(0).err.Some? then Failed(cond(0).err.value) else Nil, 1;
      }
      var stack := new PollStack(cond, retries, okResponses, watch);
      outcome, calls := stack.Loop(ticks);
    }
  }

  /** The wrapped condition: the variables captured by Poll's closures. */
  class PollStack {
    const cond: Condition
    const retries: int
    const okResponses: int
    const watch: bool
    var calls: nat
    var left: int
    var lastErr: Option<Error>
    var successes: int

    constructor (cond: Condition, retries: int, okResponses: int, watch: bool)
      ensures this.cond == cond && this.retries == retries && this.okResponses == okResponses && this.watch == watch
      ensures calls == 0 && Valid()
    {
      this.cond, this.retries, this.okResponses, this.watch := cond, retries, okResponses, watch;
      calls, left, lastErr, successes := 0, retries, None, 0;
    }

    ghost predicate Valid()
      reads this
    {
      && (retries > 0 ==> left == retries - Errors(cond, calls) && lastErr == LastError(cond, calls))
      && (!watch && okResponses > 1 ==> successes == Streak(retries, cond, calls))
    }

    predicate Spent()
      reads this
    {
      retries > 0 && left <= 0
    }

    /** The closure with the retry budget, or the bare condition if there is none. */
    method Retry() returns (done: bool, failure: Option<Outcome>)
      requires Valid()
      modifies this
      ensures successes == old(successes)
      ensures old(Spent()) ==> calls == old(calls) && !done && failure == Some(Exhausted(old(lastErr)))
      ensures old(Spent()) ==> left == old(left) && lastErr == old(lastErr)
      ensures !old(Spent()) ==> calls == old(calls) + 1
      ensures !old(Spent()) && retries > 0 ==> failure == None && done == cond(calls - 1).done
      ensures retries > 0 ==> left == retries - Errors(cond, calls) && lastErr == LastError(cond, calls)
      ensures retries <= 0 ==> done == cond(calls - 1).done
      ensures retries <= 0 ==>
                failure == match cond(calls - 1).err { case None => None case Some(e) => Some(Failed(e)) }
    {
      if retries > 0 && left <= 0 {
        return false, Some(Exhausted(lastErr));
      }
      var a := cond(calls);
      calls := calls + 1;
      if retries > 0 {
        if a.err.Some? {
          left := left - 1;
          lastErr := a.err;
        }
        return a.done, None;
      }
      return a.done, if a.err.Some? then Some(Failed(a.err.value)) else None;
    }

    /** The outermost closure: watch, or the success counter, or neither. */
    method Evaluate() returns (done: bool, failure: Option<Outcome>)
      requires Valid()
      modifies this
      ensures failure == None ==> Valid()
      ensures old(Spent()) ==> calls == old(calls) && !done && failure == Some(Exhausted(old(lastErr)))
      ensures !old(Spent()) ==> calls == old(calls) + 1
      ensures !old(Spent()) && retries > 0 ==> failure == None
      ensures retries <= 0 ==>
                failure == match cond(calls - 1).err { case None => None case Some(e) => Some(Failed(e)) }
      ensures watch ==> !done
      ensures !watch && failure == None ==> (done <==> Streak(retries, cond, calls) >= Max(1, okResponses))
    {
      done, failure := Retry();
      if watch {
        return false, failure;
      }
      if okResponses > 1 {
        if failure.Some? {
          successes := 0;
          return false, failure;
        }
        if done {
          successes := successes + 1;
          if successes >= okResponses {
            return true, None;
          }
        } else {
          successes := 0;
        }
        return false, None;
      }
    }

    /** The polling loop: evaluate on every tick until done, an error or cancellation. */
    method Loop(ticks: nat) returns (outcome: Outcome, asked: nat)
      requires Valid() && calls == 0
      modifies this
      ensures PollSpec(watch, retries, okResponses, cond, ticks, outcome, asked)
    {
      for tick := 0 to ticks
        invariant Valid() && calls == tick
        invariant forall k: nat :: k < calls ==> Errors(cond, k) < Max(1, retries)
        invariant forall k: nat :: k <= calls ==> !Wins(watch, retries, okResponses, cond, k)
        invariant retries <= 0 ==> Errors(cond, calls) == 0
      {
        var done, failure := Evaluate();
        if failure.Some? {
          return failure.value, calls;
        }
        assert calls == tick + 1 && Errors(cond, tick) < Max(1, retries);
        if done {
          return Nil, calls;
        }
        assert !Wins(watch, retries, okResponses, cond, calls);
      }
      return Cancelled, calls;
    }
  }
}
