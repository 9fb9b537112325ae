/**
 * The Zen 2 tuned AVX2 kernel: 16 records per loop step as two independent
 * 8-lane halves feeding two accumulators, a horizontal reduction, then a scalar
 * tail over the records left after the last full step, continuing from the
 * same index. Software prefetch hints have no effect on the result and are
 * not modelled.
 */
module Znver2 {
  import opened FilteredSum
  import opened Dataset
  import opened Simd
  import opened Target
  import Scalar

  /** Records per loop step. */
  const VectorWidth: nat := 16

  /** A step that starts before the last multiple of 16 ends at or before it. */
  lemma NextStepFits(blocks: nat, steps: nat)
    requires blocks * 16 < steps * 16
    ensures blocks * 16 + 16 <= steps * 16
  {
  }

  /**
   * The whole kernel. The vector loop covers [0, n16) in steps of 16: lanes
   * 0..7 of each step go to `acc0` and lanes 8..15 to `acc1`; every wide load
   * `[i, i + 8)` and `[i + 8, i + 16)` lies inside the arrays because
   * `i + 16 <= n16 <= count`. Then the horizontal reduction of `acc0 + acc1`
   * (add the 128-bit halves, two `hadd`s, lane 0), and the scalar tail, which
   * continues from the index the vector loop stopped at, `n16`. The result is
   * the filtered sum of all records: no index is skipped or counted twice.
   */
  method SumActiveBalancesAvx2(usersView: UsersView, minimumBalance: real) returns (accumulatedBalance: real)
    requires usersView.Valid()
    ensures accumulatedBalance == PrefixSum(usersView.Balances[..], usersView.Active[..], minimumBalance, usersView.Count)
  {
    var count := usersView.Count;
    var n16 := (count / VectorWidth) * VectorWidth;
    var balances := usersView.Balances;
    var activeFlags := usersView.Active;
    var acc0 := Set1(0.0, 8);
    var acc1 := Set1(0.0, 8);
    ColumnsAtStart(balances[..], activeFlags[..], minimumBalance, 16, 0, 8);
    ColumnsAtStart(balances[..], activeFlags[..], minimumBalance, 16, 8, 8);
    var i := 0;
    ghost var blocks: nat := 0;
    while i < n16
      invariant i == blocks * 16 && i <= n16
      invariant acc0 == Columns(balances[..], activeFlags[..], minimumBalance, blocks, 16, 0, 8)
      invariant acc1 == Columns(balances[..], activeFlags[..], minimumBalance, blocks, 16, 8, 8)
    {
      NextStepFits(blocks, count / VectorWidth);

      // Lanes 0..7 of the step, into acc0.
      var b0 := balances[i..i + 8];
      var a8_0 := activeFlags[i..i + 8];
      var contrib0 := MaskedContribution(b0, a8_0, minimumBalance);
      ColumnsStep16(balances[..], activeFlags[..], minimumBalance, blocks, i);
      acc0 := AddPs(acc0, contrib0);

      // Lanes 8..15 of the step, into acc1.
      var b1 := balances[i + 8..i + 16];
      var a8_1 := activeFlags[i + 8..i + 16];
      var contrib1 := MaskedContribution(b1, a8_1, minimumBalance);
      acc1 := AddPs(acc1, contrib1);

      i := i + VectorWidth;
      blocks := blocks + 1;
    }

    VectorBoundIsLargestMultiple(count, VectorWidth);
    assert count - i < VectorWidth;

    var acc := AddPs(acc0, acc1);
    var low := LowHalf(acc);
    var high := HighHalf(acc);
    var sum := AddPs(low, high);
    sum := HAddPs(sum, sum);
    sum := HAddPs(sum, sum);
    accumulatedBalance := Lane0(sum);
    Reduce16(balances[..], activeFlags[..], minimumBalance, blocks, acc0, acc1);

    while i < count
      invariant i <= count
      invariant accumulatedBalance == PrefixSum(balances[..], activeFlags[..], minimumBalance, i)
    {
      PrefixSumStep(balances[..], activeFlags[..], minimumBalance, i);
      if activeFlags[i] != 0 && balances[i] >= minimumBalance {
        accumulatedBalance := accumulatedBalance + balances[i];
      }
      i := i + 1;
    }
  }

  /**
   * The dispatcher: the AVX2 kernel when it is compiled in, the compiler is GCC
   * or Clang and the processor reports AVX2; the scalar kernel in every other
   * case. Under exact arithmetic both return the filtered sum.
   */
  method SumActiveBalances(usersView: UsersView, minimumBalance: real, build: Build, cpuSupportsAvx2: bool)
    returns (accumulatedBalance: real, ghost kernel: Kernel)
    requires usersView.Valid()
    ensures kernel == if UsesAvx2(build, cpuSupportsAvx2) then Avx2Kernel else ScalarKernel
    ensures accumulatedBalance == PrefixSum(usersView.Balances[..], usersView.Active[..], minimumBalance, usersView.Count)
  {
    if build.avx2Compiled {
      if build.gccOrClang && cpuSupportsAvx2 {
        accumulatedBalance := SumActiveBalancesAvx2(usersView, minimumBalance);
        kernel := Avx2Kernel;
        return;
      }
      accumulatedBalance := Scalar.SumActiveBalances(usersView, minimumBalance);
      kernel := ScalarKernel;
    } else {
      accumulatedBalance := Scalar.SumActiveBalances(usersView, minimumBalance);
      kernel := ScalarKernel;
    }
  }
}
