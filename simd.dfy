/**
 * The AVX2 intrinsics the kernels use, as functions on vector registers.
 * A register is a fixed-length sequence of lanes: `__m256` is 8 real lanes,
 * `__m128` and `__m256d` 4, `__m128d` 2; a comparison mask is one bool per
 * lane (all bits set or all clear). Balances are exact reals, so converting a
 * float lane to double (`_mm256_cvtps_pd`) changes nothing, as in IEEE
 * arithmetic, where every float is a double.
 */
module Simd {
  import opened FilteredSum

  /** `_mm256_set1_ps` / `_mm256_setzero_ps`: every lane holds `x`. */
  function Set1(x: real, width: nat): (v: seq<real>)
    ensures |v| == width
  {
    seq(width, _ => x)
  }

  /** `_mm256_cvtepu8_epi32`: zero-extend unsigned bytes to 32-bit lanes. */
  function CvtEpu8Epi32(bytes: seq<Byte>): (v: seq<int>)
    ensures |v| == |bytes|
  {
    seq(|bytes|, k requires 0 <= k < |bytes| => bytes[k] as int)
  }

  /** `_mm256_cvtepi32_ps`: integer lanes to floating-point lanes (exact for bytes). */
  function CvtEpi32Ps(ints: seq<int>): (v: seq<real>)
    ensures |v| == |ints|
  {
    seq(|ints|, k requires 0 <= k < |ints| => ints[k] as real)
  }

  /** `_mm256_min_ps`: per lane, `x < y ? x : y`. */
  function MinPs(x: seq<real>, y: seq<real>): (v: seq<real>)
    requires |x| == |y|
    ensures |v| == |x|
  {
    seq(|x|, k requires 0 <= k < |x| => if x[k] < y[k] then x[k] else y[k])
  }

  /** `_mm256_cmp_ps(x, y, _CMP_GE_OQ)`: per-lane ordered `x >= y`. Reals have no NaN. */
  function CmpGePs(x: seq<real>, y: seq<real>): (mask: seq<bool>)
    requires |x| == |y|
    ensures |mask| == |x|
  {
    seq(|x|, k requires 0 <= k < |x| => x[k] >= y[k])
  }

  /** `_mm256_and_ps(mask, v)`: an all-ones lane keeps `v`, an all-zeros lane gives +0.0. */
  function AndPs(mask: seq<bool>, v: seq<real>): (r: seq<real>)
    requires |mask| == |v|
    ensures |r| == |v|
  {
    seq(|v|, k requires 0 <= k < |v| => if mask[k] then v[k] else 0.0)
  }

  /** `_mm256_mul_ps`. */
  function MulPs(x: seq<real>, y: seq<real>): (v: seq<real>)
    requires |x| == |y|
    ensures |v| == |x|
  {
    seq(|x|, k requires 0 <= k < |x| => x[k] * y[k])
  }

  /** `_mm256_add_ps`, `_mm_add_ps`, `_mm256_add_pd`, `_mm_add_pd`. */
  function AddPs(x: seq<real>, y: seq<real>): (v: seq<real>)
    requires |x| == |y|
    ensures |v| == |x|
  {
    seq(|x|, k requires 0 <= k < |x| => x[k] + y[k])
  }

  /** `_mm256_castps256_ps128` / `_mm256_castpd256_pd128`: the low half of the lanes. */
  function LowHalf(v: seq<real>): (r: seq<real>)
    ensures |r| == |v| / 2
  {
    v[..|v| / 2]
  }

  /** `_mm256_extractf128_ps(v, 1)` / `_mm256_extractf128_pd(v, 1)`: the high half of the lanes. */
  function HighHalf(v: seq<real>): (r: seq<real>)
    requires |v| % 2 == 0
    ensures |r| == |v| / 2
  {
    v[|v| / 2..]
  }

  /** `_mm_hadd_ps(a, b)`: pairwise sums of adjacent lanes, those of `a` first. */
  function HAddPs(a: seq<real>, b: seq<real>): (v: seq<real>)
    requires |a| == 4 && |b| == 4
    ensures |v| == 4
  {
    [a[0] + a[1], a[2] + a[3], b[0] + b[1], b[2] + b[3]]
  }

  /** `_mm256_cvtps_pd`: widen 4 float lanes to 4 double lanes (exact). */
  function CvtPsPd(v: seq<real>): (r: seq<real>)
    requires |v| == 4
    ensures |r| == 4
  {
    v
  }

  /** `_mm_unpackhi_pd(a, b)`: the high lane of `a`, then the high lane of `b`. */
  function UnpackHiPd(a: seq<real>, b: seq<real>): (v: seq<real>)
    requires |a| == 2 && |b| == 2
    ensures |v| == 2
  {
    [a[1], b[1]]
  }

  /** `_mm_cvtss_f32` / `_mm_cvtsd_f64`: lane 0. */
  function Lane0(v: seq<real>): real
    requires |v| > 0
  {
    v[0]
  }

  /**
   * The vector-loop bound `(count / width) * width` is the largest multiple of
   * `width` that is at most `count`: the vector loop covers [0, n) and the
   * scalar tail [n, count), which is shorter than one vector step.
   */
  lemma VectorBoundIsLargestMultiple(count: nat, width: nat)
    requires width > 0
    ensures var n := (count / width) * width;
            n % width == 0 && n <= count && count - n < width
  {
    var q := count / width;
    assert count == q * width + count % width;
    MultipleHasNoRemainder(q, width);
  }

  /** `(q * width) % width == 0`: Euclidean division of a multiple leaves no remainder. */
  lemma MultipleHasNoRemainder(q: nat, width: nat)
    requires width > 0
    ensures (q * width) % width == 0
  {
    var d, r := (q * width) / width, (q * width) % width;
    assert (q - d) * width == r;
    MultipleIsFar(q - d, width);
  }

  /** A non-zero multiple of `width` lies at least `width` away from zero. */
  lemma MultipleIsFar(m: int, width: nat)
    ensures m >= 1 ==> m * width >= width
    ensures m <= -1 ==> m * width <= 0 - width as int
  {
  }

  /** The exact sum of all lanes of a register. */
  function LaneSum(v: seq<real>): real {
    if v == [] then 0.0 else v[0] + LaneSum(v[1..])
  }

  /**
   * The value lane `lane` of an accumulator holds after `blocks` loop steps of
   * `stride` records each: the contributions of indices `lane`, `stride + lane`,
   * `2 * stride + lane`, ...
   */
  function ColumnSum(balances: seq<real>, active: seq<Byte>, threshold: real, blocks: nat, stride: nat, lane: nat): real
    requires lane < stride && blocks * stride <= |balances| && blocks * stride <= |active|
  {
    if blocks == 0 then 0.0
    else
      var k := (blocks - 1) * stride + lane;
      ColumnSum(balances, active, threshold, blocks - 1, stride, lane) + Contribution(balances[k], active[k], threshold)
  }

  /**
   * Per lane, the take value `and(cmp_ge(b, t), min(float(byte), 1))` is 1 exactly
   * when the byte is non-zero and `b >= t`, and 0 otherwise.
   */
  lemma TakeLanes(b: seq<real>, bytes: seq<Byte>, threshold: real)
    requires |b| == |bytes|
    ensures var take := AndPs(CmpGePs(b, Set1(threshold, |b|)), MinPs(CvtEpi32Ps(CvtEpu8Epi32(bytes)), Set1(1.0, |b|)));
            forall k :: 0 <= k < |b| ==> take[k] == if Qualifies(b[k], bytes[k], threshold) then 1.0 else 0.0
  {
    ClampIsTruthiness(bytes);
  }

  /** The byte clamp `min(float(byte), 1)`: 0 stays 0, every other byte (2, 255, ...) becomes 1. */
  lemma ClampIsTruthiness(bytes: seq<Byte>)
    ensures forall k :: 0 <= k < |bytes| ==>
              MinPs(CvtEpi32Ps(CvtEpu8Epi32(bytes)), Set1(1.0, |bytes|))[k] == if bytes[k] == 0 then 0.0 else 1.0
  {
  }

  /**
   * The lane contributions of one 8-record load: widen the active bytes and
   * clamp them to 1, compare the balances with the broadcast threshold, AND the
   * mask with the clamped flags and multiply the balances by the result. Each
   * lane is exactly that record's filtered contribution, the balance or 0.
   */
  function MaskedContribution(b: seq<real>, bytes: seq<Byte>, threshold: real): (contrib: seq<real>)
    requires |b| == |bytes|
    ensures |contrib| == |b|
    ensures forall k :: 0 <= k < |b| ==> contrib[k] == Contribution(b[k], bytes[k], threshold)
  {
    var active := MinPs(CvtEpi32Ps(CvtEpu8Epi32(bytes)), Set1(1.0, |b|));
    var cmp := CmpGePs(b, Set1(threshold, |b|));
    TakeLanes(b, bytes, threshold);
    MulPs(b, AndPs(cmp, active))
  }

  /** A zeroed register sums to zero. */
  lemma {:induction false} LaneSumOfZero(width: nat)
    ensures LaneSum(Set1(0.0, width)) == 0.0
  {
    if width > 0 {
      assert Set1(0.0, width)[1..] == Set1(0.0, width - 1);
      LaneSumOfZero(width - 1);
    }
  }

  /**
   * The accumulator register expected after `blocks` loop steps: lane `k`
   * holds the column sum of lane `firstLane + k` of a `stride`-record step.
   */
  function Columns(balances: seq<real>, active: seq<Byte>, threshold: real, blocks: nat, stride: nat,
                   firstLane: nat, width: nat): (acc: seq<real>)
    requires firstLane + width <= stride && blocks * stride <= |balances| && blocks * stride <= |active|
    ensures |acc| == width
  {
    if width == 0 then []
    else Columns(balances, active, threshold, blocks, stride, firstLane, width - 1)
         + [ColumnSum(balances, active, threshold, blocks, stride, firstLane + width - 1)]
  }

  /** Lane `k` of the expected accumulator is the column sum of record lane `firstLane + k`. */
  lemma {:induction false} ColumnsLanes(balances: seq<real>, active: seq<Byte>, threshold: real, blocks: nat, stride: nat,
                                        firstLane: nat, width: nat)
    requires firstLane + width <= stride && blocks * stride <= |balances| && blocks * stride <= |active|
    ensures forall k :: 0 <= k < width ==>
              Columns(balances, active, threshold, blocks, stride, firstLane, width)[k]
              == ColumnSum(balances, active, threshold, blocks, stride, firstLane + k)
  {
    if width > 0 {
      ColumnsLanes(balances, active, threshold, blocks, stride, firstLane, width - 1);
    }
  }

  /**
   * One loop step loads the `width` records at lane `firstLane` of block
   * `blocks` and adds their masked contributions to the accumulator: every
   * lane then holds its column sum over one more block.
   */
  lemma ColumnsStep(balances: seq<real>, active: seq<Byte>, threshold: real, blocks: nat, stride: nat,
                    firstLane: nat, width: nat, start: nat)
    requires firstLane + width <= stride && start == blocks * stride + firstLane
    requires (blocks + 1) * stride <= |balances| && (blocks + 1) * stride <= |active|
    ensures start + width <= |balances| && start + width <= |active|
    ensures AddPs(Columns(balances, active, threshold, blocks, stride, firstLane, width),
                  MaskedContribution(balances[start..start + width], active[start..start + width], threshold))
         == Columns(balances, active, threshold, blocks + 1, stride, firstLane, width)
  {
    assert (blocks + 1) * stride == blocks * stride + stride;
    ColumnsLanes(balances, active, threshold, blocks, stride, firstLane, width);
    ColumnsLanes(balances, active, threshold, blocks + 1, stride, firstLane, width);
    var prev := Columns(balances, active, threshold, blocks, stride, firstLane, width);
    var contrib := MaskedContribution(balances[start..start + width], active[start..start + width], threshold);
    var next := Columns(balances, active, threshold, blocks + 1, stride, firstLane, width);
    forall k | 0 <= k < width
      ensures AddPs(prev, contrib)[k] == next[k]
    {
      var lane := firstLane + k;
      assert contrib[k] == Contribution(balances[start + k], active[start + k], threshold);
      assert next[k] == ColumnSum(balances, active, threshold, blocks + 1, stride, lane);
      assert ColumnSum(balances, active, threshold, blocks + 1, stride, lane)
          == ColumnSum(balances, active, threshold, blocks, stride, lane)
           + Contribution(balances[blocks * stride + lane], active[blocks * stride + lane], threshold);
    }
  }

  /** One step of the 16-wide loop at `i == 16 * blocks`: both halves advance by one block. */
  lemma ColumnsStep16(balances: seq<real>, active: seq<Byte>, threshold: real, blocks: nat, i: nat)
    requires i == blocks * 16 && i + 16 <= |balances| && i + 16 <= |active|
    ensures AddPs(Columns(balances, active, threshold, blocks, 16, 0, 8),
                  MaskedContribution(balances[i..i + 8], active[i..i + 8], threshold))
         == Columns(balances, active, threshold, blocks + 1, 16, 0, 8)
    ensures AddPs(Columns(balances, active, threshold, blocks, 16, 8, 8),
                  MaskedContribution(balances[i + 8..i + 16], active[i + 8..i + 16], threshold))
         == Columns(balances, active, threshold, blocks + 1, 16, 8, 8)
  {
    ColumnsStep(balances, active, threshold, blocks, 16, 0, 8, i);
    ColumnsStep(balances, active, threshold, blocks, 16, 8, 8, i + 8);
  }

  /** Before the first loop step every accumulator lane is zero. */
  lemma ColumnsAtStart(balances: seq<real>, active: seq<Byte>, threshold: real, stride: nat, firstLane: nat, width: nat)
    requires firstLane + width <= stride
    ensures Columns(balances, active, threshold, 0, stride, firstLane, width) == Set1(0.0, width)
  {
    ColumnsLanes(balances, active, threshold, 0, stride, firstLane, width);
    forall k | 0 <= k < width
      ensures Columns(balances, active, threshold, 0, stride, firstLane, width)[k] == 0.0
    {
      assert ColumnSum(balances, active, threshold, 0, stride, firstLane + k) == 0.0;
    }
  }

  /** The lanes `[firstLane, firstLane + w1 + w2)` are the lanes of the first `w1` followed by the next `w2`. */
  lemma ColumnsSplit(balances: seq<real>, active: seq<Byte>, threshold: real, blocks: nat, stride: nat,
                     firstLane: nat, w1: nat, w2: nat)
    requires firstLane + w1 + w2 <= stride && blocks * stride <= |balances| && blocks * stride <= |active|
    ensures Columns(balances, active, threshold, blocks, stride, firstLane, w1 + w2)
         == Columns(balances, active, threshold, blocks, stride, firstLane, w1)
          + Columns(balances, active, threshold, blocks, stride, firstLane + w1, w2)
  {
    ColumnsLanes(balances, active, threshold, blocks, stride, firstLane, w1 + w2);
    ColumnsLanes(balances, active, threshold, blocks, stride, firstLane, w1);
    ColumnsLanes(balances, active, threshold, blocks, stride, firstLane + w1, w2);
  }

  /**
   * Lane assignment loses and duplicates nothing: after `blocks` steps, the
   * column sums of all `stride` lanes add up to the filtered sum of the first
   * `blocks * stride` records.
   */
  lemma {:induction false} ColumnsTotal(balances: seq<real>, active: seq<Byte>, threshold: real, blocks: nat, stride: nat)
    requires blocks * stride <= |balances| && blocks * stride <= |active|
    ensures LaneSum(Columns(balances, active, threshold, blocks, stride, 0, stride))
         == PrefixSum(balances, active, threshold, blocks * stride)
  {
    if blocks == 0 {
      LaneSumOfZero(stride);
      ColumnsAtStart(balances, active, threshold, stride, 0, stride);
    } else {
      var prev := blocks - 1;
      var start := prev * stride;
      assert blocks * stride == start + stride;
      ColumnsTotal(balances, active, threshold, prev, stride);
      var contrib := MaskedContribution(balances[start..start + stride], active[start..start + stride], threshold);
      ColumnsStep(balances, active, threshold, prev, stride, 0, stride, start);
      LaneSumAdd(Columns(balances, active, threshold, prev, stride, 0, stride), contrib);
      LaneSumOfBlock(balances, active, threshold, start, contrib);
      PrefixSumSplit(balances, active, threshold, start, start + stride);
    }
  }

  /** Lane sums add across a lane-wise addition. */
  lemma {:induction false} LaneSumAdd(x: seq<real>, y: seq<real>)
    requires |x| == |y|
    ensures LaneSum(AddPs(x, y)) == LaneSum(x) + LaneSum(y)
  {
    if x != [] {
      assert AddPs(x, y)[1..] == AddPs(x[1..], y[1..]);
      LaneSumAdd(x[1..], y[1..]);
    }
  }

  /** The lane sum of a register is the sum of its low half and of its high half. */
  lemma {:induction false} LaneSumAppend(x: seq<real>, y: seq<real>)
    ensures LaneSum(x + y) == LaneSum(x) + LaneSum(y)
  {
    if x == [] {
      assert x + y == y;
    } else {
      assert (x + y)[1..] == x[1..] + y;
      LaneSumAppend(x[1..], y);
    }
  }

  /** A register whose lane k holds the contribution of record `start + k` sums to those records' filtered sum. */
  lemma {:induction false} LaneSumOfBlock(balances: seq<real>, active: seq<Byte>, threshold: real, start: nat, c: seq<real>)
    requires start + |c| <= |balances| && start + |c| <= |active|
    requires forall k :: 0 <= k < |c| ==> c[k] == Contribution(balances[start + k], active[start + k], threshold)
    ensures LaneSum(c) == RangeSum(balances, active, threshold, start, start + |c|)
    decreases |c|
  {
    if c != [] {
      LaneSumOfBlock(balances, active, threshold, start + 1, c[1..]);
    }
  }

  /** Lane sum of a 4-lane register, written out. */
  lemma LaneSum4(v: seq<real>)
    requires |v| == 4
    ensures LaneSum(v) == v[0] + v[1] + v[2] + v[3]
  {
    assert LaneSum(v[3..]) == v[3] by { assert v[3..][1..] == []; }
    assert LaneSum(v[2..]) == v[2] + v[3] by { assert v[2..][1..] == v[3..]; }
    assert LaneSum(v[1..]) == v[1] + v[2] + v[3] by { assert v[1..][1..] == v[2..]; }
  }

  /**
   * The horizontal reduction of the 16-wide kernel: add the two 128-bit halves,
   * then two `hadd`s, then take lane 0. The result is the sum of all 8 lanes.
   */
  lemma HorizontalSum8(acc: seq<real>)
    requires |acc| == 8
    ensures var sum := AddPs(LowHalf(acc), HighHalf(acc));
            var sum1 := HAddPs(sum, sum);
            Lane0(HAddPs(sum1, sum1)) == LaneSum(acc)
  {
    assert acc == LowHalf(acc) + HighHalf(acc);
    LaneSumAppend(LowHalf(acc), HighHalf(acc));
    LaneSum4(LowHalf(acc));
    LaneSum4(HighHalf(acc));
  }

  /**
   * After `blocks` steps of 16 records, with lanes 0..7 of each step in `acc0`
   * and lanes 8..15 in `acc1`, the reduction of `acc0 + acc1` is the filtered
   * sum of the first `16 * blocks` records.
   */
  lemma Reduce16(balances: seq<real>, active: seq<Byte>, threshold: real, blocks: nat, acc0: seq<real>, acc1: seq<real>)
    requires blocks * 16 <= |balances| && blocks * 16 <= |active|
    requires acc0 == Columns(balances, active, threshold, blocks, 16, 0, 8)
    requires acc1 == Columns(balances, active, threshold, blocks, 16, 8, 8)
    ensures var acc := AddPs(acc0, acc1);
            var sum := AddPs(LowHalf(acc), HighHalf(acc));
            var sum1 := HAddPs(sum, sum);
            Lane0(HAddPs(sum1, sum1)) == PrefixSum(balances, active, threshold, blocks * 16)
  {
    HorizontalSum8(AddPs(acc0, acc1));
    LaneSumAdd(acc0, acc1);
    ColumnsSplit(balances, active, threshold, blocks, 16, 0, 8, 8);
    LaneSumAppend(acc0, acc1);
    ColumnsTotal(balances, active, threshold, blocks, 16);
  }

  /**
   * One step of the double-accumulating loop at `i == 8 * blocks`: the low 4
   * lanes of the 8-record contribution, widened, extend `acc0` (record lanes
   * 0..3) and the high 4 lanes extend `acc1` (record lanes 4..7).
   */
  lemma HalvesStep8(balances: seq<real>, active: seq<Byte>, threshold: real, blocks: nat, i: nat)
    requires i == blocks * 8 && i + 8 <= |balances| && i + 8 <= |active|
    ensures var contrib := MaskedContribution(balances[i..i + 8], active[i..i + 8], threshold);
            AddPs(Columns(balances, active, threshold, blocks, 8, 0, 4), CvtPsPd(LowHalf(contrib)))
            == Columns(balances, active, threshold, blocks + 1, 8, 0, 4)
    ensures var contrib := MaskedContribution(balances[i..i + 8], active[i..i + 8], threshold);
            AddPs(Columns(balances, active, threshold, blocks, 8, 4, 4), CvtPsPd(HighHalf(contrib)))
            == Columns(balances, active, threshold, blocks + 1, 8, 4, 4)
  {
    var contrib := MaskedContribution(balances[i..i + 8], active[i..i + 8], threshold);
    var lowContrib := MaskedContribution(balances[i..i + 4], active[i..i + 4], threshold);
    var highContrib := MaskedContribution(balances[i + 4..i + 8], active[i + 4..i + 8], threshold);
    assert LowHalf(contrib) == lowContrib by {
      forall k | 0 <= k < 4 ensures LowHalf(contrib)[k] == lowContrib[k] {
        assert contrib[k] == Contribution(balances[i + k], active[i + k], threshold);
      }
    }
    assert HighHalf(contrib) == highContrib by {
      forall k | 0 <= k < 4 ensures HighHalf(contrib)[k] == highContrib[k] {
        assert contrib[4 + k] == Contribution(balances[i + 4 + k], active[i + 4 + k], threshold);
      }
    }
    ColumnsStep(balances, active, threshold, blocks, 8, 0, 4, i);
    ColumnsStep(balances, active, threshold, blocks, 8, 4, 4, i + 4);
  }

  /**
   * After `blocks` steps of 8 records, with record lanes 0..3 of each step in
   * `acc0` and lanes 4..7 in `acc1`, the reduction of `acc0 + acc1` (add the
   * 128-bit halves, then lane 0 plus the high lane) is the filtered sum of the
   * first `8 * blocks` records.
   */
  lemma Reduce8(balances: seq<real>, active: seq<Byte>, threshold: real, blocks: nat, acc0: seq<real>, acc1: seq<real>)
    requires blocks * 8 <= |balances| && blocks * 8 <= |active|
    requires acc0 == Columns(balances, active, threshold, blocks, 8, 0, 4)
    requires acc1 == Columns(balances, active, threshold, blocks, 8, 4, 4)
    ensures var acc := AddPs(acc0, acc1);
            var sum := AddPs(LowHalf(acc), HighHalf(acc));
            Lane0(sum) + Lane0(UnpackHiPd(sum, sum)) == PrefixSum(balances, active, threshold, blocks * 8)
  {
    HorizontalSum4(AddPs(acc0, acc1));
    LaneSumAdd(acc0, acc1);
    ColumnsSplit(balances, active, threshold, blocks, 8, 0, 4, 4);
    LaneSumAppend(acc0, acc1);
    ColumnsTotal(balances, active, threshold, blocks, 8);
  }

  /**
   * The reduction of the double-accumulating kernel: add the two 128-bit
   * halves, then lane 0 plus the high lane. The result is the sum of all 4 lanes.
   */
  lemma HorizontalSum4(acc: seq<real>)
    requires |acc| == 4
    ensures var sum := AddPs(LowHalf(acc), HighHalf(acc));
            Lane0(sum) + Lane0(UnpackHiPd(sum, sum)) == LaneSum(acc)
  {
    LaneSum4(acc);
  }
}
