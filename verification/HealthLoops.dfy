/**
 The health retry loops: CheckClusterRunning (pkg/k8s/config.go) and CheckServerRunning
 (pkg/k8s/kubelet.go). What the server answers on each attempt is an input.
 */
module HealthLoops {
  import opened Wrappers

  type Error = string

  /** `None` is a good answer. */
  type Answers = nat -> Option<Error>

  datatype Verdict = Nil | Failure(error: Error) | Cancelled

  /** How many of the first `n` answers are good. */
  function Oks(answers: Answers, n: nat): nat {
    if n == 0 then 0 else Oks(answers, n - 1) + if answers(n - 1).None? then 1 else 0
  }

  /** The `k`-th good answer is the `p`-th answer. */
  predicate IsPosition(answers: Answers, k: int, p: nat) {
    p > 0 && answers(p - 1).None? && Oks(answers, p) == k
  }

  /** As many attempts as it takes to get `okResponses` good answers, but no more than `retries`;
      and the verdict is that of the last answer. */
  ghost predicate Tried(answers: Answers, retries: int, okResponses: int, verdict: Verdict, attempts: nat) {
    && (forall p: nat :: p <= retries && IsPosition(answers, okResponses, p) ==> attempts == p)
    && ((forall p: nat :: p <= retries ==> !IsPosition(answers, okResponses, p)) ==>
          attempts == if retries > 0 then retries else 0)
    && verdict == if attempts == 0 || answers(attempts - 1).None? then Nil else Failure(answers(attempts - 1).value)
  }

  lemma {:induction false} OksGrow(answers: Answers, m: nat, n: nat)
    requires m <= n
    ensures Oks(answers, m) <= Oks(answers, n)
    decreases n
  {
    if m < n {
      OksGrow(answers, m, n - 1);
    }
  }

  lemma PositionIsUnique(answers: Answers, k: int, p: nat, q: nat)
    requires IsPosition(answers, k, p) && IsPosition(answers, k, q)
    ensures p == q
  {
    if p < q {
      OksGrow(answers, p, q - 1);
    } else if q < p {
      OksGrow(answers, q, p - 1);
    }
  }

  /** There is exactly one way to meet the specification. */
  lemma TriedIsFunctional(answers: Answers, retries: int, okResponses: int, v: Verdict, n: nat, v': Verdict, n': nat)
    requires Tried(answers, retries, okResponses, v, n) && Tried(answers, retries, okResponses, v', n')
    ensures v == v' && n == n'
  {
  }

  /** The documented promise, that success means `okResponses` good answers. */
  ghost predicate KeepsPromise(retries: int, okResponses: int) {
    forall answers: Answers, attempts: nat ::
      Tried(answers, retries, okResponses, Nil, attempts) ==> Oks(answers, attempts) >= okResponses
  }

  /** The promise holds only for at most one good answer: with more, and any retries at all, a
      server whose last answer alone is good counts as healthy. */
  lemma PromiseExactly(retries: int, okResponses: int)
    ensures KeepsPromise(retries, okResponses) <==> okResponses <= 0 || (okResponses == 1 && retries > 0)
  {
    if okResponses >= 1 && !(okResponses == 1 && retries > 0) {
      var n: nat := if retries > 0 then retries else 0;
      var answers: Answers := i => if i == n - 1 then None else Some("not ready");
      LastAloneIsGood(answers, n, n);
      forall p: nat | p <= retries
        ensures !IsPosition(answers, okResponses, p)
      {
        LastAloneIsGood(answers, n, p);
      }
      assert Tried(answers, retries, okResponses, Nil, n);
    } else if okResponses == 1 {
      forall answers: Answers, attempts: nat | Tried(answers, retries, okResponses, Nil, attempts)
        ensures Oks(answers, attempts) >= okResponses
      {
        if p: nat :| p <= retries && IsPosition(answers, okResponses, p) {
          assert attempts == p;
        }
      }
    }
  }

  lemma {:induction false} LastAloneIsGood(answers: Answers, n: nat, p: nat)
    requires p <= n && forall i: nat :: answers(i).None? <==> i == n - 1
    ensures Oks(answers, p) == if p == n && n > 0 then 1 else 0
    decreases p
  {
    if p > 0 {
      LastAloneIsGood(answers, n, p - 1);
    }
  }

  // ----- the loops -----------------------------------------------------------------------------------

  /** `cancelled(k)` says that the wait before the k-th attempt, counting from 0, is cut short. */
  method CheckClusterRunning(answers: Answers, retries: int, okResponses: int, cancelled: nat -> bool)
    returns (verdict: Verdict, attempts: nat)
    ensures verdict != Cancelled ==> Tried(answers, retries, okResponses, verdict, attempts)
    ensures verdict != Cancelled ==> forall k :: 0 < k < attempts ==> !cancelled(k)
    ensures verdict == Cancelled ==> 0 < attempts < retries && cancelled(attempts)
    ensures verdict == Cancelled ==> forall p: nat :: p <= attempts ==> !IsPosition(answers, okResponses, p)
  {
    var err: Option<Error> := None;
    var left, okTries, first := retries, 0, true;
    attempts := 0;
    while left > 0
      invariant attempts == if retries > 0 then retries - left else 0
      invariant left >= 0 || left == retries
      invariant okTries == Oks(answers, attempts)
      invariant first <==> attempts == 0
      invariant err == if attempts == 0 then None else answers(attempts - 1)
      invariant forall p: nat :: p <= attempts ==> !IsPosition(answers, okResponses, p)
      invariant forall k :: 0 < k < attempts ==> !cancelled(k)
    {
      if !first {
        if cancelled(attempts) {
          return Cancelled, attempts;
        }
      }
      first := false;
      err := answers(attempts);
      attempts := attempts + 1;
      if err.None? {
        okTries := okTries + 1;
        if okTries == okResponses {
          assert IsPosition(answers, okResponses, attempts);
          Stopped(answers, okResponses, attempts);
          break;
        }
      }
      left := left - 1;
    }
    verdict := if err.None? then Nil else Failure(err.value);
  }

  lemma Stopped(answers: Answers, k: int, n: nat)
    requires IsPosition(answers, k, n)
    ensures forall p: nat :: IsPosition(answers, k, p) ==> p == n
  {
    forall p: nat | IsPosition(answers, k, p)
      ensures p == n
    {
      PositionIsUnique(answers, k, p, n);
    }
  }

  /** One request to an HTTP server. */
  datatype Exchange =
    | NoRequest(error: Error)
    | NoResponse(error: Error)
    | Response(status: nat, body: Option<string>)

  function Judge(x: Exchange, expected: string): Option<Error> {
    match x
    case NoRequest(e) => Some(e)
    case NoResponse(e) => Some(e)
    case Response(status, body) =>
      if status != 200 then Some("unexpected status code")
      else if body.None? then Some("unreadable body")
      else if body.value != expected then Some("unexpected response body")
      else None
  }

  /** An answer is good exactly if it is what was expected, with status 200. */
  lemma JudgedGood(x: Exchange, expected: string)
    ensures Judge(x, expected).None? <==> x == Response(200, Some(expected))
    ensures x.NoRequest? || x.NoResponse? ==> Judge(x, expected) == Some(x.error)
  {
  }

  /** This loop sleeps without looking at the context, so it is never cut short. */
  method CheckServerRunning(exchanges: nat -> Exchange, expected: string, retries: int, okResponses: int)
    returns (verdict: Verdict, attempts: nat)
    ensures Tried((i: nat) => Judge(exchanges(i), expected), retries, okResponses, verdict, attempts)
  {
    ghost var answers: Answers := (i: nat) => Judge(exchanges(i), expected);
    var err: Option<Error> := None;
    var left, okTries := retries, 0;
    attempts := 0;
    while left > 0
      invariant attempts == if retries > 0 then retries - left else 0
      invariant left >= 0 || left == retries
      invariant okTries == Oks(answers, attempts)
      invariant err == if attempts == 0 then None else answers(attempts - 1)
      invariant forall p: nat :: p <= attempts ==> !IsPosition(answers, okResponses, p)
    {
      var x := exchanges(attempts);
      attempts := attempts + 1;
      err := Judge(x, expected);
      if err.None? {
        okTries := okTries + 1;
        if okTries == okResponses {
          assert IsPosition(answers, okResponses, attempts);
          Stopped(answers, okResponses, attempts);
          break;
        }
      }
      left := left - 1;
    }
    verdict := if err.None? then Nil else Failure(err.value);
    assert Tried(answers, retries, okResponses, verdict, attempts);
  }
}
