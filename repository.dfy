/**
 * The object-oriented baseline: users as records in a vector, reached only
 * through a repository that visits them in storage order or finds one by id.
 * The visitor callback mutates a captured accumulator; here it is a function
 * from (state, user) to the new state, threaded through the visit.
 */
module Repository {
  import FilteredSum
  import opened Dataset

  /** One user record. */
  datatype User = User(Id: Int32, Balance: real, Active: bool)

  /** `std::optional`. */
  datatype Option<T> = None | Some(value: T)

  /** A user qualifies when it is active and its balance meets the threshold. */
  predicate Qualifies(user: User, minimumBalance: real) {
    user.Active && user.Balance >= minimumBalance
  }

  /** The state after visiting `users` in order, starting from `init`. */
  function Fold<S>(fn: (S, User) -> S, init: S, users: seq<User>): S {
    if users == [] then init else fn(Fold(fn, init, users[..|users| - 1]), users[|users| - 1])
  }

  /** The first user, in storage order, whose id is `id`. */
  function FindFirst(users: seq<User>, id: Int32): Option<User> {
    if users == [] then None
    else if users[0].Id == id then Some(users[0])
    else FindFirst(users[1..], id)
  }

  /** The sum, in storage order, of the balances of the qualifying users. */
  function RepoSum(users: seq<User>, minimumBalance: real): real {
    if users == [] then 0.0
    else
      var last := users[|users| - 1];
      RepoSum(users[..|users| - 1], minimumBalance) + if Qualifies(last, minimumBalance) then last.Balance else 0.0
  }

  /** The repository over a vector of users. It is read-only after construction. */
  class VectorUserRepository {
    const Users: seq<User>

    /** Both constructors, copying and moving, store the given users unchanged. */
    constructor(users: seq<User>)
      ensures Users == users
    {
      Users := users;
    }

    /**
     * Visits every stored user exactly once, in storage order. The promise is
     * carried by `Fold`: the final state is `fn` applied to the users one at a
     * time, first to last. The ghost `visited` only records the users handed
     * to `fn`, for readers of the loop.
     */
    method ForEach<S>(fn: (S, User) -> S, init: S) returns (state: S, ghost visited: seq<User>)
      ensures visited == Users
      ensures state == Fold(fn, init, Users)
    {
      state := init;
      visited := [];
      for i := 0 to |Users|
        invariant visited == Users[..i]
        invariant state == Fold(fn, init, Users[..i])
      {
        var user := Users[i];
        assert Users[..i + 1][..i] == Users[..i];
        state := fn(state, user);
        visited := visited + [user];
      }
      assert Users[..|Users|] == Users;
    }

    /**
     * The first stored user with the given id, or `None` when there is none:
     * `None` exactly when no stored user has the id, and a found user always
     * has the id and no earlier user does.
     */
    method FindById(id: Int32) returns (r: Option<User>)
      ensures r == FindFirst(Users, id)
      ensures r.None? <==> forall k :: 0 <= k < |Users| ==> Users[k].Id != id
      ensures r.Some? ==> r.value.Id == id
      ensures r.Some? ==> exists k :: 0 <= k < |Users| && Users[k] == r.value && forall j :: 0 <= j < k ==> Users[j].Id != id
    {
      for i := 0 to |Users|
        invariant forall j :: 0 <= j < i ==> Users[j].Id != id
        invariant FindFirst(Users, id) == FindFirst(Users[i..], id)
      {
        assert Users[i..][1..] == Users[i + 1..];
        if Users[i].Id == id {
          return Some(Users[i]);
        }
      }
      return None;
    }
  }

  /** The visitor of the repository's sum: add the balance of a qualifying user. */
  function AddIfQualifies(minimumBalance: real): (real, User) -> real {
    (accumulated: real, user: User) => if Qualifies(user, minimumBalance) then accumulated + user.Balance else accumulated
  }

  /** Folding the summing visitor from `init` adds the qualifying balances to `init`. */
  lemma {:induction false} FoldAddIfQualifies(users: seq<User>, minimumBalance: real, init: real)
    ensures Fold(AddIfQualifies(minimumBalance), init, users) == init + RepoSum(users, minimumBalance)
  {
    if users != [] {
      FoldAddIfQualifies(users[..|users| - 1], minimumBalance, init);
    }
  }

  /**
   * The repository's sum: visit every user with a callback that adds the
   * balance of each qualifying user to an accumulator starting at 0.
   */
  method SumActiveBalances(repository: VectorUserRepository, minimumBalance: real) returns (accumulatedBalance: real)
    ensures accumulatedBalance == RepoSum(repository.Users, minimumBalance)
  {
    ghost var visited;
    accumulatedBalance, visited := repository.ForEach(AddIfQualifies(minimumBalance), 0.0);
    FoldAddIfQualifies(repository.Users, minimumBalance, 0.0);
  }

  /**
   * The user-vector construction loop: user `i` has id `i` (as `int32_t`) and
   * the `i`-th balance and activity draws, appended in index order.
   */
  method BuildUsers(elementsCount: nat, draws: seq<Draw>) returns (users: seq<User>)
    requires elementsCount <= |draws|
    ensures |users| == elementsCount
    ensures forall i :: 0 <= i < elementsCount ==> users[i] == User(ToInt32(i), draws[i].balance, draws[i].active)
  {
    users := [];
    for i := 0 to elementsCount
      invariant |users| == i
      invariant forall j :: 0 <= j < i ==> users[j] == User(ToInt32(j), draws[j].balance, draws[j].active)
    {
      var user := User(ToInt32(i), draws[i].balance, draws[i].active);
      users := users + [user];
    }
  }

  /** The flat-layout balance column of a user vector. */
  function BalancesOf(users: seq<User>): (bs: seq<real>)
    ensures |bs| == |users| && forall i :: 0 <= i < |users| ==> bs[i] == users[i].Balance
  {
    seq(|users|, i requires 0 <= i < |users| => users[i].Balance)
  }

  /** The flat-layout active-byte column of a user vector: 1 for active, 0 otherwise. */
  function ActiveBytesOf(users: seq<User>): (fs: seq<FilteredSum.Byte>)
    ensures |fs| == |users| && forall i :: 0 <= i < |users| ==> fs[i] == if users[i].Active then 1 else 0
  {
    seq(|users|, i requires 0 <= i < |users| => if users[i].Active then 1 else 0)
  }

  /** A user qualifies exactly when its flat-layout record does. */
  lemma QualifiesMatchesFlat(user: User, minimumBalance: real)
    ensures Qualifies(user, minimumBalance)
        <==> FilteredSum.Qualifies(user.Balance, if user.Active then 1 else 0, minimumBalance)
  {
  }

  /**
   * The repository computes the same filtered sum as the flat kernels: over the
   * same logical records, its sum is the flat filtered sum of all of them.
   */
  lemma {:induction false} RepositoryMatchesFlat(users: seq<User>, minimumBalance: real)
    ensures RepoSum(users, minimumBalance)
         == FilteredSum.PrefixSum(BalancesOf(users), ActiveBytesOf(users), minimumBalance, |users|)
  {
    if users != [] {
      var n := |users| - 1;
      RepositoryMatchesFlat(users[..n], minimumBalance);
      SamePrefixSum(BalancesOf(users[..n]), ActiveBytesOf(users[..n]), BalancesOf(users), ActiveBytesOf(users), n, minimumBalance);
      QualifiesMatchesFlat(users[n], minimumBalance);
    }
  }

  /**
   * Built from the same draws, the user vector and the flat arrays hold the
   * same logical records, so the repository sum equals the flat filtered sum.
   */
  lemma SameDrawsSameSum(users: seq<User>, balances: seq<real>, active: seq<FilteredSum.Byte>, draws: seq<Draw>,
                         n: nat, minimumBalance: real)
    requires n <= |draws| && |users| == n && n <= |balances| && n <= |active|
    requires forall i :: 0 <= i < n ==> users[i] == User(ToInt32(i), draws[i].balance, draws[i].active)
    requires forall i :: 0 <= i < n ==> balances[i] == draws[i].balance
    requires forall i :: 0 <= i < n ==> active[i] == if draws[i].active then 1 else 0
    ensures RepoSum(users, minimumBalance) == FilteredSum.PrefixSum(balances, active, minimumBalance, n)
  {
    RepositoryMatchesFlat(users, minimumBalance);
    SamePrefixSum(BalancesOf(users), ActiveBytesOf(users), balances, active, n, minimumBalance);
  }

  /** Two record sets that agree on the first `n` records have the same filtered sum over them. */
  lemma {:induction false} SamePrefixSum(bs: seq<real>, fs: seq<FilteredSum.Byte>, bs': seq<real>, fs': seq<FilteredSum.Byte>,
                                         n: nat, minimumBalance: real)
    requires n <= |bs| && n <= |fs| && n <= |bs'| && n <= |fs'|
    requires forall i :: 0 <= i < n ==> bs[i] == bs'[i] && fs[i] == fs'[i]
    ensures FilteredSum.PrefixSum(bs, fs, minimumBalance, n) == FilteredSum.PrefixSum(bs', fs', minimumBalance, n)
  {
    if n > 0 {
      SamePrefixSum(bs, fs, bs', fs', n - 1, minimumBalance);
    }
  }

  /** Every user's id is its position. */
  ghost predicate IdsArePositions(users: seq<User>) {
    forall i :: 0 <= i < |users| ==> users[i].Id as int == i
  }

  /** The built users have `Id == i` at position `i` whenever every index fits in `int32_t`. */
  lemma BuiltIdsArePositions(users: seq<User>, draws: seq<Draw>, elementsCount: nat)
    requires elementsCount <= |draws| && |users| == elementsCount && elementsCount <= 0x8000_0000
    requires forall i :: 0 <= i < elementsCount ==> users[i] == User(ToInt32(i), draws[i].balance, draws[i].active)
    ensures IdsArePositions(users)
  {
  }

  /**
   * With ids equal to positions, looking up `k` finds the user at position `k`
   * when `0 <= k < N` and nothing otherwise.
   */
  lemma {:induction false} FindFirstOnPositions(users: seq<User>, id: Int32)
    requires IdsArePositions(users)
    ensures 0 <= id as int < |users| ==> FindFirst(users, id) == Some(users[id])
    ensures (id < 0 || id as int >= |users|) ==> FindFirst(users, id) == None
  {
    FindFirstSkips(users, id, if 0 <= id as int < |users| then id as int else |users|);
  }

  /** Skipping a prefix with no matching id does not change the first match. */
  lemma {:induction false} FindFirstSkips(users: seq<User>, id: Int32, k: nat)
    requires k <= |users| && forall j :: 0 <= j < k ==> users[j].Id != id
    ensures FindFirst(users, id) == FindFirst(users[k..], id)
  {
    if k > 0 {
      FindFirstSkips(users[1..], id, k - 1);
      assert users[1..][k - 1..] == users[k..];
    }
  }

  /**
   * Reference characterisation of the lookup: `None` exactly when no user has
   * the id; otherwise the user at the smallest position with that id.
   */
  lemma {:induction false} FindFirstIsFirstMatch(users: seq<User>, id: Int32)
    ensures FindFirst(users, id).None? <==> forall k :: 0 <= k < |users| ==> users[k].Id != id
    ensures FindFirst(users, id).Some? ==>
              exists k :: 0 <= k < |users| && users[k] == FindFirst(users, id).value
                          && users[k].Id == id && forall j :: 0 <= j < k ==> users[j].Id != id
  {
    if users != [] && users[0].Id != id {
      FindFirstIsFirstMatch(users[1..], id);
      if FindFirst(users, id).Some? {
        var k :| 0 <= k < |users[1..]| && users[1..][k] == FindFirst(users, id).value
                 && users[1..][k].Id == id && forall j :: 0 <= j < k ==> users[1..][j].Id != id;
        assert users[k + 1] == FindFirst(users, id).value;
        assert forall j :: 0 <= j < k + 1 ==> users[j].Id != id by {
          forall j | 0 <= j < k + 1 ensures users[j].Id != id {
            if j > 0 { assert users[j] == users[1..][j - 1]; }
          }
        }
      }
    }
  }
}
