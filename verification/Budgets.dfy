/** Runs that use up a budget are short. */
module Budgets {

  lemma {:induction false} Falls(budgets: seq<int>, k: nat)
    requires k < |budgets| && forall i: nat, j: nat :: j == i + 1 < |budgets| ==> budgets[j] < budgets[i]
    ensures k + budgets[k] <= budgets[0]
  {
    if k > 0 {
      Falls(budgets, k - 1);
    }
  }
}
