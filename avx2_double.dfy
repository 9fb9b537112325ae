/**
 * The double-accumulating AVX2 kernel: 8 records per loop step; the 8 float
 * contributions are split into their low and high 4 lanes, each widened to
 * double and added into its own 4-lane double accumulator. A reduction and a
 * scalar tail that widens each balance follow. Under exact reals widening is
 * the identity, so the result is the filtered sum itself.
 */
module Avx2Double {
  import opened FilteredSum
  import opened Dataset
  import opened Simd
  import opened Target
  import Scalar

  /** Records per loop step. */
  const VectorWidth: nat := 8

  /** A step that starts before the last multiple of 8 ends at or before it. */
  lemma NextStepFits(blocks: nat, steps: nat)
    requires blocks * 8 < steps * 8
    ensures blocks * 8 + 8 <= steps * 8
  {
  }

  /**
   * The whole kernel. The vector loop covers [0, n8) in steps of 8; each load
   * `[i, i + 8)` lies inside the arrays because `i + 8 <= n8 <= count`. The
   * take value is computed on the float balance and threshold before any
   * widening. `acc0` receives the widened low lanes and `acc1` the widened
   * high lanes. The tail continues from `n8`, the index the vector loop
   * stopped at, so every record is visited exactly once.
   */
  method SumActiveBalancesAvx2(usersView: UsersView, minimumBalance: real) returns (accumulatedBalance: real)
    requires usersView.Valid()
    ensures accumulatedBalance == PrefixSum(usersView.Balances[..], usersView.Active[..], minimumBalance, usersView.Count)
  {
    var count := usersView.Count;
    var balances := usersView.Balances;
    var activeFlags := usersView.Active;

    var acc0 := Set1(0.0, 4);
    var acc1 := Set1(0.0, 4);
    ColumnsAtStart(balances[..], activeFlags[..], minimumBalance, 8, 0, 4);
    ColumnsAtStart(balances[..], activeFlags[..], minimumBalance, 8, 4, 4);

    var n8 := (count / VectorWidth) * VectorWidth;
    var i := 0;
    ghost var blocks: nat := 0;
    while i < n8
      invariant i == blocks * 8 && i <= n8
      invariant acc0 == Columns(balances[..], activeFlags[..], minimumBalance, blocks, 8, 0, 4)
      invariant acc1 == Columns(balances[..], activeFlags[..], minimumBalance, blocks, 8, 4, 4)
    {
      NextStepFits(blocks, count / VectorWidth);

      var b := balances[i..i + 8];
      var bytes := activeFlags[i..i + 8];
      var contrib := MaskedContribution(b, bytes, minimumBalance);
      var low := LowHalf(contrib);
      var high := HighHalf(contrib);
      HalvesStep8(balances[..], activeFlags[..], minimumBalance, blocks, i);
      acc0 := AddPs(acc0, CvtPsPd(low));
      acc1 := AddPs(acc1, CvtPsPd(high));

      i := i + VectorWidth;
      blocks := blocks + 1;
    }

    VectorBoundIsLargestMultiple(count, VectorWidth);
    assert count - i < VectorWidth;

    var acc := AddPs(acc0, acc1);
    var low := LowHalf(acc);
    var high := HighHalf(acc);
    var sum := AddPs(low, high);
    accumulatedBalance := Lane0(sum) + Lane0(UnpackHiPd(sum, sum));
    Reduce8(balances[..], activeFlags[..], minimumBalance, blocks, acc0, acc1);

    while i < count
      invariant i <= count
      invariant accumulatedBalance == PrefixSum(balances[..], activeFlags[..], minimumBalance, i)
    {
      PrefixSumStep(balances[..], activeFlags[..], minimumBalance, i);
      if activeFlags[i] != 0 && balances[i] >= minimumBalance {
        accumulatedBalance := accumulatedBalance + balances[i];
      }
      i := i + 1;
    }
  }

  /**
   * The dispatcher, as in the 16-wide program: AVX2 only when compiled in,
   * built by GCC or Clang and reported by the processor; the scalar kernel
   * otherwise. Its return type is float, so the AVX2 kernel's double result
   * is narrowed on return, which is the identity on exact reals.
   */
  method SumActiveBalances(usersView: UsersView, minimumBalance: real, build: Build, cpuSupportsAvx2: bool)
    returns (accumulatedBalance: real, ghost kernel: Kernel)
    requires usersView.Valid()
    ensures kernel == if UsesAvx2(build, cpuSupportsAvx2) then Avx2Kernel else ScalarKernel
    ensures accumulatedBalance == PrefixSum(usersView.Balances[..], usersView.Active[..], minimumBalance, usersView.Count)
  {
    if build.avx2Compiled {
      if build.gccOrClang && cpuSupportsAvx2 {
        accumulatedBalance := SumActiveBalancesAvx2(usersView, minimumBalance);
        kernel := Avx2Kernel;
        return;
      }
      accumulatedBalance := Scalar.SumActiveBalances(usersView, minimumBalance);
      kernel := ScalarKernel;
    } else {
      accumulatedBalance := Scalar.SumActiveBalances(usersView, minimumBalance);
      kernel := ScalarKernel;
    }
  }
}
