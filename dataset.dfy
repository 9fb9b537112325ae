/**
 * The flat, structure-of-arrays user table and the loop that fills it.
 * `UsersView` is the non-owning view the kernels receive: three parallel
 * arrays and a count. The three arrays have different element types, so in
 * Dafny they are necessarily distinct objects: the no-aliasing promise that
 * the C++ view makes with restrict-qualified pointers holds by construction.
 */
module Dataset {
  import opened FilteredSum

  /** `int32_t`. */
  newtype Int32 = x: int | -0x8000_0000 <= x < 0x8000_0000

  /** `static_cast<int32_t>(i)` of a `size_t` index: reduction modulo 2^32 into the signed range. */
  function ToInt32(i: nat): (r: Int32)
    ensures (r as int - i) % 0x1_0000_0000 == 0
    ensures i < 0x8000_0000 ==> r as int == i
  {
    var m := i % 0x1_0000_0000;
    if m < 0x8000_0000 then m as Int32 else (m - 0x1_0000_0000) as Int32
  }

  /** The view handed to every kernel: the first `Count` entries of each array are the records. */
  datatype UsersView = UsersView(Ids: array<Int32>, Balances: array<real>, Active: array<Byte>, Count: nat) {
    predicate Valid() {
      Count <= Ids.Length && Count <= Balances.Length && Count <= Active.Length
    }
  }

  /** One record's draws from the random engine: a balance, then a Bernoulli activity draw. */
  datatype Draw = Draw(balance: real, active: bool)

  /** The largest element count the benchmark programs are built with (the double-accumulating one). */
  const DoublePrecisionElements: nat := 1_000_000_000

  /**
   * The array-filling loop of the benchmark programs: three arrays of
   * `elementsCount` entries, filled front to back, with `Ids[i]` the index and
   * the activity draw stored as byte 1 or 0. The random draws are a parameter.
   */
  method GenerateElements(elementsCount: nat, draws: seq<Draw>) returns (view: UsersView)
    requires elementsCount <= |draws|
    ensures fresh(view.Ids) && fresh(view.Balances) && fresh(view.Active)
    ensures view.Valid() && view.Count == elementsCount
    ensures view.Ids.Length == elementsCount && view.Balances.Length == elementsCount
    ensures view.Active.Length == elementsCount
    ensures forall i :: 0 <= i < elementsCount ==> view.Ids[i] == ToInt32(i)
    ensures forall i :: 0 <= i < elementsCount ==> view.Balances[i] == draws[i].balance
    ensures forall i :: 0 <= i < elementsCount ==> view.Active[i] == if draws[i].active then 1 else 0
  {
    var userIds := new Int32[elementsCount];
    var userBalances := new real[elementsCount];
    var userActiveFlags := new Byte[elementsCount];
    for i := 0 to elementsCount
      invariant forall j :: 0 <= j < i ==> userIds[j] == ToInt32(j)
      invariant forall j :: 0 <= j < i ==> userBalances[j] == draws[j].balance
      invariant forall j :: 0 <= j < i ==> userActiveFlags[j] == if draws[j].active then 1 else 0
    {
      userIds[i] := ToInt32(i);
      userBalances[i] := draws[i].balance;
      userActiveFlags[i] := if draws[i].active then 1 else 0;
    }
    view := UsersView(userIds, userBalances, userActiveFlags, elementsCount);
  }

  /** For the element counts the programs use, every index fits in `int32_t`, so `Ids[i] == i`. */
  lemma IdsAreIndices(i: nat)
    requires i < DoublePrecisionElements
    ensures ToInt32(i) as int == i
  {
  }
}
