/**
 * The portable scalar kernel. The same front-to-back loop is the only kernel
 * of the plain flat-layout program and the fallback of both AVX2 programs.
 */
module Scalar {
  import opened FilteredSum
  import opened Dataset

  /**
   * Adds `balance * take` for every record, in index order, where `take` is 1
   * when the active byte is non-zero and the balance meets the threshold, and
   * 0 otherwise. The kernel only reads the view (it has no modifies clause).
   */
  method SumActiveBalances(usersView: UsersView, minimumBalance: real) returns (accumulatedBalance: real)
    requires usersView.Valid()
    ensures accumulatedBalance == PrefixSum(usersView.Balances[..], usersView.Active[..], minimumBalance, usersView.Count)
  {
    accumulatedBalance := 0.0;
    var thresholdBalance := minimumBalance;
    for i := 0 to usersView.Count
      invariant accumulatedBalance == PrefixSum(usersView.Balances[..], usersView.Active[..], minimumBalance, i)
    {
      var balanceValue := usersView.Balances[i];
      var takeValue := if usersView.Active[i] != 0 && balanceValue >= thresholdBalance then 1.0 else 0.0;
      accumulatedBalance := accumulatedBalance + balanceValue * takeValue;
    }
  }
}
