/**
 * The single aggregate every kernel computes: the sum, in index order, of the
 * balances of the records that are active and whose balance is at least the
 * threshold. Balances are exact reals, so addition is associative and the
 * vectorized kernels can be proved equal to this definition.
 */
module FilteredSum {

  /** One byte of the active-flag array (`uint8_t`). */
  newtype Byte = x: int | 0 <= x < 256

  /** A record qualifies when its active byte is non-zero and its balance meets the threshold. */
  predicate Qualifies(balance: real, active: Byte, threshold: real) {
    active != 0 && balance >= threshold
  }

  /** What one record adds to the sum: its balance or nothing. */
  function Contribution(balance: real, active: Byte, threshold: real): (c: real)
    ensures c == balance || c == 0.0
    ensures Qualifies(balance, active, threshold) ==> c == balance
    ensures !Qualifies(balance, active, threshold) ==> c == 0.0
  {
    if Qualifies(balance, active, threshold) then balance else 0.0
  }

  /** The filtered sum over the prefix [0, n), added front to back. */
  function PrefixSum(balances: seq<real>, active: seq<Byte>, threshold: real, n: nat): real
    requires n <= |balances| && n <= |active|
  {
    if n == 0 then 0.0
    else PrefixSum(balances, active, threshold, n - 1) + Contribution(balances[n - 1], active[n - 1], threshold)
  }

  /** Extending the prefix by one record adds that record's balance exactly when it qualifies. */
  lemma PrefixSumStep(balances: seq<real>, active: seq<Byte>, threshold: real, i: nat)
    requires i < |balances| && i < |active|
    ensures PrefixSum(balances, active, threshold, i + 1)
         == PrefixSum(balances, active, threshold, i) + if active[i] != 0 && balances[i] >= threshold then balances[i] else 0.0
  {
  }

  /** The filtered sum over the index range [lo, hi). */
  function RangeSum(balances: seq<real>, active: seq<Byte>, threshold: real, lo: nat, hi: nat): real
    requires lo <= hi <= |balances| && hi <= |active|
    decreases hi - lo
  {
    if lo == hi then 0.0
    else Contribution(balances[lo], active[lo], threshold) + RangeSum(balances, active, threshold, lo + 1, hi)
  }

  /** Reference definition: the balances of the qualifying records of [0, n), in index order. */
  function QualifyingBalances(balances: seq<real>, active: seq<Byte>, threshold: real, n: nat): seq<real>
    requires n <= |balances| && n <= |active|
  {
    if n == 0 then []
    else if Qualifies(balances[n - 1], active[n - 1], threshold)
    then QualifyingBalances(balances, active, threshold, n - 1) + [balances[n - 1]]
    else QualifyingBalances(balances, active, threshold, n - 1)
  }

  /** Plain sum of a sequence, front to back. */
  function Sum(s: seq<real>): real {
    if s == [] then 0.0 else Sum(s[..|s| - 1]) + s[|s| - 1]
  }

  /** Summing the prefix [0, hi) is summing [0, lo) and then [lo, hi). */
  lemma {:induction false} PrefixSumSplit(balances: seq<real>, active: seq<Byte>, threshold: real, lo: nat, hi: nat)
    requires lo <= hi <= |balances| && hi <= |active|
    ensures PrefixSum(balances, active, threshold, hi)
         == PrefixSum(balances, active, threshold, lo) + RangeSum(balances, active, threshold, lo, hi)
    decreases hi - lo
  {
    if lo < hi {
      PrefixSumSplit(balances, active, threshold, lo + 1, hi);
    }
  }

  /** The filtered sum is the plain sum of exactly the qualifying balances, in index order. */
  lemma {:induction false} PrefixSumIsSumOfQualifying(balances: seq<real>, active: seq<Byte>, threshold: real, n: nat)
    requires n <= |balances| && n <= |active|
    ensures PrefixSum(balances, active, threshold, n) == Sum(QualifyingBalances(balances, active, threshold, n))
  {
    if n > 0 {
      PrefixSumIsSumOfQualifying(balances, active, threshold, n - 1);
      var q := QualifyingBalances(balances, active, threshold, n - 1);
      if Qualifies(balances[n - 1], active[n - 1], threshold) {
        assert (q + [balances[n - 1]])[..|q|] == q;
      }
    }
  }

  /** The qualifying balances are exactly those at indices that qualify. */
  lemma {:induction false} QualifyingBalancesMembers(balances: seq<real>, active: seq<Byte>, threshold: real, n: nat)
    requires n <= |balances| && n <= |active|
    ensures forall x :: x in QualifyingBalances(balances, active, threshold, n) <==>
              exists k :: 0 <= k < n && Qualifies(balances[k], active[k], threshold) && balances[k] == x
  {
    if n > 0 {
      QualifyingBalancesMembers(balances, active, threshold, n - 1);
    }
  }

  /** An inactive record contributes nothing, whatever its balance. */
  lemma {:induction false} InactiveRecordIsIgnored(balances: seq<real>, active: seq<Byte>, threshold: real, n: nat, k: nat, other: real)
    requires n <= |balances| && n <= |active| && k < |balances| && k < |active|
    requires active[k] == 0
    ensures PrefixSum(balances[k := other], active, threshold, n) == PrefixSum(balances, active, threshold, n)
  {
    if n > 0 {
      InactiveRecordIsIgnored(balances, active, threshold, n - 1, k, other);
    }
  }

  /** Any non-zero active byte (2, 255, ...) counts the same as 1. */
  lemma {:induction false} NonZeroActiveActsAsOne(balances: seq<real>, active: seq<Byte>, threshold: real, n: nat, k: nat)
    requires n <= |balances| && n <= |active| && k < |active|
    requires active[k] != 0
    ensures PrefixSum(balances, active[k := 1], threshold, n) == PrefixSum(balances, active, threshold, n)
  {
    if n > 0 {
      NonZeroActiveActsAsOne(balances, active, threshold, n - 1, k);
    }
  }

  /** The threshold is inclusive: a balance equal to it counts; anything below does not. */
  lemma ThresholdIsInclusive(balance: real, active: Byte, threshold: real)
    requires active != 0
    ensures balance == threshold ==> Contribution(balance, active, threshold) == balance
    ensures balance < threshold ==> Contribution(balance, active, threshold) == 0.0
  {
  }

  /** With no records the sum is zero. */
  lemma EmptySumIsZero(balances: seq<real>, active: seq<Byte>, threshold: real)
    ensures PrefixSum(balances, active, threshold, 0) == 0.0
  {
  }

  /** Four records, threshold 250: only 300 and 999 qualify. */
  lemma FourRecordScenario()
    ensures PrefixSum([100.0, 300.0, 260.0, 999.0], [1, 1, 0, 1], 250.0, 4) == 1299.0
  {
  }
}
