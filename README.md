# Filter-and-sum kernels of the data-oriented vs. repository benchmark

The benchmark compares two ways of summing "the balances of the active users
whose balance is at least a threshold":

- a flat, structure-of-arrays table (`UsersView`: parallel arrays of ids,
  float balances and active bytes plus a count) read by a scalar loop, a
  16-wide AVX2 kernel tuned for Zen 2 and an 8-wide AVX2 kernel that
  accumulates in double precision. The plain program calls the scalar loop
  directly; each AVX2 program has a dispatcher that uses its AVX2 kernel only
  when AVX2 code was compiled in with GCC or Clang (both decided at build
  time) and the processor reports AVX2 at run time, and the scalar loop
  otherwise;
- an object-oriented baseline: `User` records in a vector behind a
  repository with `ForEach` (visit every user with a callback) and
  `FindById` (first user with an id).

This project models all of these in Dafny with balances as exact reals, so
addition is associative and every kernel can be proved to return exactly the
filtered sum. The modules follow the program:

- `FilteredSum` (`filtered_sum.dfy`): the qualification test, one record's
  contribution, and the reference sum `PrefixSum` over a prefix of the records.
- `Simd` (`simd.dfy`): the AVX2 intrinsics as functions on lane sequences, the
  vector-loop bound, the per-lane take value, and the lane-assignment theory:
  `ColumnSum` is what one accumulator lane holds after a number of loop steps,
  `Columns` a whole register of them, and `ColumnsTotal` shows the lanes
  together hold the filtered sum of every record visited.
- `Dataset` (`dataset.dfy`): the view, `int32_t` ids and the array-filling loop.
- `Scalar`, `Znver2`, `Avx2Double` (`scalar.dfy`, `znver2.dfy`,
  `avx2_double.dfy`): the kernels and dispatchers as methods. The vector
  loops keep each accumulator equal to `Columns` of the steps done so far;
  the scalar loop and the two tail loops keep the running sum equal to
  `PrefixSum` of the records visited so far.
- `Target` (`target.dfy`): the build configuration and the CPU probe.
- `Repository` (`repository.dfy`): `User`, the repository class, `Qualifies`,
  the callback-driven sum and the user-vector construction.

The scalar kernel is the same code in all three flat-layout programs: it is
`SumActiveBalances` in `src/bench-dod.cpp` and `SumActiveBalancesScalar` in the
two AVX2 programs. It is modelled once, as `Scalar.SumActiveBalances`. The
kernels have no `modifies` clause, so they provably leave the arrays unchanged.
The 16-record and 8-record loads stay in bounds because Dafny checks every
slice of the arrays.

## Model

| member | source | states |
|---|---|---|
| FilteredSum.Contribution | src/bench-dod.cpp:28-33 | a record adds its balance when its active byte is non-zero and its balance is at least the threshold, and 0 in every other case |
| FilteredSum.PrefixSumStep | src/bench-dod.cpp:26-33 | one more record adds its balance exactly when its active byte is non-zero and the balance is at least the threshold, otherwise 0 |
| FilteredSum.PrefixSumSplit | src/bench-dod-znver2.cpp:58-97 | the sum over [0, hi) is the sum over [0, lo) plus the sum over [lo, hi); `Simd.ColumnsTotal` uses it to add one more vector step of records to the sum of the earlier steps |
| FilteredSum.PrefixSumIsSumOfQualifying | src/bench-dod.cpp:20-35 | the filtered sum is the plain sum of exactly the qualifying balances, in index order |
| FilteredSum.QualifyingBalancesMembers | src/bench-dod.cpp:26-33 | a value is among the summed balances iff some index in range qualifies with that balance |
| FilteredSum.InactiveRecordIsIgnored | src/bench-dod.cpp:28-32 | changing the balance of a record whose active byte is 0 leaves the sum unchanged |
| FilteredSum.NonZeroActiveActsAsOne | src/bench-dod.cpp:29-31 | replacing any non-zero active byte by 1 leaves the sum unchanged |
| FilteredSum.ThresholdIsInclusive | src/bench-dod.cpp:29-31 | an active record whose balance equals the threshold counts; one below it does not |
| FilteredSum.EmptySumIsZero | src/bench-dod.cpp:23-34 | with Count 0 the sum is 0 |
| FilteredSum.FourRecordScenario | src/bench-dod.cpp:26-33 | threshold 250 over balances 100, 300, 260, 999 with flags 1, 1, 0, 1 gives 1299 |
| Simd.VectorBoundIsLargestMultiple | src/bench-dod-znver2.cpp:55-56 | `(count / w) * w` is a multiple of w, at most count, and less than w below it; the 8-wide bound `n8` is the same expression with w = 8 |
| Simd.ClampIsTruthiness | src/bench-dod-znver2.cpp:64-66 | `min(float(byte), 1)` is 0 for byte 0 and 1 for every other byte (2, 255, ...) |
| Simd.TakeLanes | src/bench-dod-znver2.cpp:68-69 | per lane, `and(cmp_ge(b, t), clamp)` is 1 exactly when the byte is non-zero and b >= t, else 0 |
| Simd.MaskedContribution | src/bench-dod-znver2.cpp:63-69 | each lane of `b * take` is exactly that record's contribution, its balance or 0; the 8-wide kernel computes the same per-lane value from the float balance before widening |
| Simd.ColumnsLanes | src/bench-dod-znver2.cpp:59-81 | lane k of an accumulator holds the contributions of records k + firstLane, k + firstLane + stride, ... |
| Simd.ColumnsStep | src/bench-dod-znver2.cpp:71 | adding a block's masked contributions to the accumulator extends every lane's column by one block |
| Simd.ColumnsStep16 | src/bench-dod-znver2.cpp:63-81 | one 16-record step: lanes 0..7 extend acc0 and lanes 8..15 extend acc1 by one block |
| Simd.ColumnsAtStart | src/bench-dod-znver2.cpp:50-51 | zeroed accumulators hold the columns of zero steps |
| Simd.ColumnsSplit | src/bench-dod-znver2.cpp:84 | the lanes of acc0 followed by those of acc1 are the columns of all lanes of a step |
| Simd.ColumnsTotal | src/bench-dod-znver2.cpp:59-84 | after b steps of w records the lanes of all accumulators add up to the filtered sum of the first b * w records, so no index is lost or counted twice |
| Simd.LaneSumOfZero | src/bench-dod-znver2.cpp:50-51 | a zeroed register sums to 0 |
| Simd.LaneSumAdd | src/bench-dod-znver2.cpp:84 | the lanes of `add(x, y)` sum to the lane sum of x plus that of y |
| Simd.LaneSumAppend | src/bench-dod-znver2.cpp:85-86 | a register's lanes sum to the sum of its low half plus that of its high half |
| Simd.LaneSumOfBlock | src/bench-dod-znver2.cpp:63-69 | a register of contributions of records [s, s + n) sums to their filtered sum |
| Simd.LaneSum4 | src/bench-dod-znver2.cpp:87-89 | a 4-lane register sums to lane 0 + lane 1 + lane 2 + lane 3 |
| Simd.HorizontalSum8 | src/bench-dod-znver2.cpp:84-91 | `low + high`, two `hadd`s and lane 0 give the sum of all 8 lanes |
| Simd.Reduce16 | src/bench-dod-znver2.cpp:84-91 | the reduction of acc0 + acc1 after b steps is the filtered sum of the first 16 * b records |
| Simd.HalvesStep8 | src/bench-dod-avx2-double.cpp:67-73 | the widened low 4 lanes of a block's contribution extend acc0 and the high 4 lanes extend acc1 |
| Simd.HorizontalSum4 | src/bench-dod-avx2-double.cpp:76-81 | `low + high`, then lane 0 plus the high lane, give the sum of all 4 lanes |
| Simd.Reduce8 | src/bench-dod-avx2-double.cpp:76-81 | the reduction of acc0 + acc1 after b steps is the filtered sum of the first 8 * b records |
| Dataset.ToInt32 | src/bench-dod.cpp:65 | `static_cast<int32_t>(i)` is congruent to i modulo 2^32 and equals i when i < 2^31 |
| Dataset.GenerateElements | src/bench-dod.cpp:60-68 | three fresh arrays of elementsCount entries, with `Ids[i] == int32(i)`, the balance draws in order and active bytes exactly 1 or 0; the 16-wide and double programs run the identical fill loop |
| Dataset.IdsAreIndices | src/bench-dod-avx2-double.cpp:135-136 | below the largest element count the programs use (10^9 < 2^31) the `int32_t` id of index i is i |
| Scalar.SumActiveBalances | src/bench-dod.cpp:20-35 | the result is the filtered sum of [0, Count), accumulated front to back; the 16-wide and double programs contain the identical scalar kernel |
| Znver2.SumActiveBalancesAvx2 | src/bench-dod-znver2.cpp:40-100 | vector loop over [0, n16), reduction, then the tail from the same index over [n16, count): the result equals the scalar filtered sum |
| Znver2.SumActiveBalances | src/bench-dod-znver2.cpp:103-116 | runs the AVX2 kernel exactly when it is compiled in, the compiler is GCC or Clang and the CPU reports AVX2, else the scalar kernel; either way the result is the filtered sum |
| Avx2Double.SumActiveBalancesAvx2 | src/bench-dod-avx2-double.cpp:40-90 | 8-wide vector loop over [0, n8), reduction, then the widened tail over [n8, count): the result equals the scalar filtered sum |
| Avx2Double.SumActiveBalances | src/bench-dod-avx2-double.cpp:93-106 | the same dispatch rule; the result is the filtered sum |
| Repository.VectorUserRepository.constructor | src/bench-repository.cpp:33-41 | the repository stores the given users unchanged (copying and moving constructors alike) |
| Repository.VectorUserRepository.ForEach | src/bench-repository.cpp:43-48 | the visitor is given every stored user exactly once in storage order, and the final state is the visitor folded over the users |
| Repository.VectorUserRepository.FindById | src/bench-repository.cpp:50-59 | returns the first user with the id; None exactly when no user has it; a found user has the id and no earlier user does |
| Repository.FindFirstIsFirstMatch | src/bench-repository.cpp:52-58 | the lookup's reference meaning: None iff no match, otherwise the match at the smallest position |
| Repository.Qualifies | src/bench-repository.cpp:65-69 | a user qualifies iff it is active and its balance is at least the threshold, the threshold included |
| Repository.QualifiesMatchesFlat | src/bench-repository.cpp:65-69 | a user qualifies iff it is active and its balance is at least the threshold, i.e. iff its flat record qualifies |
| Repository.FoldAddIfQualifies | src/bench-repository.cpp:76-80 | folding the summing callback over the users adds exactly the qualifying balances to the start value |
| Repository.SumActiveBalances | src/bench-repository.cpp:71-83 | the result is the storage-order sum of the balances of the qualifying users |
| Repository.RepositoryMatchesFlat | src/bench-repository.cpp:71-83 | that sum equals the flat filtered sum over the same records laid out as columns |
| Repository.BuildUsers | src/bench-repository.cpp:112-121 | N users appended in order, user i with id int32(i) and the i-th draws |
| Repository.SameDrawsSameSum | src/bench-repository.cpp:114-121 | users built from the same draws as the flat arrays of the fill loop give a repository sum equal to the flat filtered sum |
| Repository.BuiltIdsArePositions | src/bench-repository.cpp:114-120 | for N up to 2^31 the built users have Id == i at position i |
| Repository.FindFirstOnPositions | src/bench-repository.cpp:112-123 | then looking up k finds the user at position k for 0 <= k < N and nothing otherwise |

## Left out

- Floating point: balances are exact reals. Float and double rounding, differences caused by the order of additions between the kernels, and the exactness of float-to-double widening are not modelled. `_mm256_cvtps_pd` is the identity, and so is the implicit double-to-float narrowing when the double kernel's dispatcher returns.
- NaN: `_CMP_GE_OQ` is false on NaN, and reals have no NaN.
- Infinities: the scalar kernel (src/bench-dod.cpp:28-31) and both vector loops (src/bench-dod-znver2.cpp:69, 79; src/bench-dod-avx2-double.cpp:66-67) multiply a balance by a take value of 0 or 1. An inactive +inf balance, or any -inf balance below the threshold, therefore gives inf * 0 = NaN and poisons the sum. The AVX2 tails (src/bench-dod-znver2.cpp:94, src/bench-dod-avx2-double.cpp:84) branch instead and skip such a record. Exact reals have no infinities, so the model cannot show this difference between the kernels.
- Bit-level masks: a comparison lane is a boolean, and AND-ing it with 1.0 is modelled as the resulting 0 or 1 value, not as bit patterns.
- Software prefetch (`_mm_prefetch`) has no effect on any value and is not modelled.
- Random generation: `std::mt19937`, `uniform_real_distribution` and `bernoulli_distribution` are library code, so the draws are a parameter (`Draw` per record, in the order the loop consumes them). The distribution ranges and the seed are not modelled.
- Timing and reporting: `MeasureExecutionTime`, the warm-up and checksum calls, the throughput arithmetic and all printing in `main`.
- Dispatch mechanism: the `IUserRepository` interface and its virtual calls are not modelled as a separate type; the concrete class is used directly. The `std::function` callback that mutates a captured accumulator becomes a state-threading function `(state, user) -> state`.
- Build and CPU detection: `__AVX2__`, the compiler-family macros and `__builtin_cpu_supports("avx2")` are inputs (`Target.Build` and a boolean). `FORCE_NOINLINE` has no semantic content. `RESTRICT_ALIAS` non-aliasing holds by construction, because the three arrays have different element types.
- `reserve` on the user vector only affects capacity and is not modelled. The copying and the moving constructor store the same sequence, so one constructor models both.
- Integer widths: indices and counts are unbounded naturals. `size_t` cannot overflow for the modelled counts, and the ids' `int32_t` conversion is modelled exactly by `Dataset.ToInt32`.
- The `Ids` array of the flat view is filled but never read by any kernel.
- The repository program also allocates flat id, balance and active vectors that it never fills or reads. They are not modelled.
- The double kernel's dispatcher narrows the double result to `float` on return. With exact reals this is the identity, so `Avx2Double.SumActiveBalances` returns the filtered sum unchanged.
