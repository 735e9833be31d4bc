/**
 * The in-memory user store: one shared list of users and one id counter.
 * Both are static in the service, so every request sees the same store; a
 * single UserService object stands for that shared state here.
 */
module UserStore {
  import opened Wrappers
  import opened Text
  import opened Users

  const TicksPerDay := 864_000_000_000

  // ---------------------------------------------------------------------
  // The list of users, as values
  // ---------------------------------------------------------------------

  /** Ids strictly increase along the list (so no id occurs twice). */
  ghost predicate IdsAscending(s: seq<User>)
  {
    forall i, j :: 0 <= i < j < |s| ==> s[i].id < s[j].id
  }

  /** Ids do not decrease along the list: what `OrderBy(u => u.Id)` produces. */
  ghost predicate OrderedById(s: seq<User>)
  {
    forall i, j :: 0 <= i < j < |s| ==> s[i].id <= s[j].id
  }

  /** No two users have e-mail addresses that are equal ignoring case. */
  ghost predicate UniqueEmails(s: seq<User>)
  {
    forall i, j :: 0 <= i < j < |s| ==> !EqualsIgnoreCase(s[i].email, s[j].email)
  }

  /** Position of the first user with the given id, or |s| when there is none. */
  function FindIndex(s: seq<User>, id: int): (k: nat)
    ensures k <= |s|
    ensures k < |s| ==> s[k].id == id
    ensures forall j :: 0 <= j < k ==> s[j].id != id
  {
    if s == [] then 0
    else if s[0].id == id then 0
    else 1 + FindIndex(s[1..], id)
  }

  /** `FirstOrDefault(u => u.Id == id)`, with None for null. */
  function FirstWithId(s: seq<User>, id: int): (r: Option<User>)
    ensures r.None? <==> forall i :: 0 <= i < |s| ==> s[i].id != id
    ensures r.Some? ==>
      r.value.id == id &&
      exists k :: 0 <= k < |s| && s[k] == r.value && forall j :: 0 <= j < k ==> s[j].id != id
  {
    var k := FindIndex(s, id);
    if k < |s| then Some(s[k]) else None
  }

  /** The condition inside `EmailExistsAsync`'s `Any`. */
  predicate EmailMatches(u: User, email: string, excludeId: Option<int>)
  {
    EqualsIgnoreCase(u.email, email) && (excludeId.None? || u.id != excludeId.value)
  }

  /** `Any(...)` over the list with the condition above. */
  function AnyEmailMatch(s: seq<User>, email: string, excludeId: Option<int>): (b: bool)
    ensures b <==> exists i :: 0 <= i < |s| && EmailMatches(s[i], email, excludeId)
  {
    if s == [] then false
    else if EmailMatches(s[0], email, excludeId) then true
    else
      assert forall i :: 1 <= i < |s| ==> s[i] == s[1..][i - 1];
      AnyEmailMatch(s[1..], email, excludeId)
  }

  /** Inserts `u` before the first element whose id is not below its own. */
  function InsertById(u: User, s: seq<User>): (r: seq<User>)
    ensures |r| == |s| + 1
    ensures forall i :: 0 <= i < |r| ==> r[i] == u || r[i] in s
    ensures multiset(r) == multiset(s) + multiset{u}
  {
    if s == [] then [u]
    else if u.id <= s[0].id then [u] + s
    else
      assert s == [s[0]] + s[1..];
      [s[0]] + InsertById(u, s[1..])
  }

  /** Inserting into a list ordered by id gives a list ordered by id. */
  lemma {:induction false} InsertByIdKeepsOrder(u: User, s: seq<User>)
    requires OrderedById(s)
    ensures OrderedById(InsertById(u, s))
  {
    if s != [] && u.id > s[0].id {
      InsertByIdKeepsOrder(u, s[1..]);
      var t := InsertById(u, s[1..]);
      forall i | 0 <= i < |t|
        ensures s[0].id <= t[i].id
      {
        if t[i] != u {
          var m :| 0 <= m < |s[1..]| && s[1..][m] == t[i];
          assert s[m + 1] == t[i];
        }
      }
    }
  }

  /** `OrderBy(u => u.Id)`: a stable sort of the list by id. */
  function OrderById(s: seq<User>): (r: seq<User>)
    ensures multiset(r) == multiset(s)
    ensures OrderedById(r)
  {
    if s == [] then []
    else
      assert s == [s[0]] + s[1..];
      InsertByIdKeepsOrder(s[0], OrderById(s[1..]));
      InsertById(s[0], OrderById(s[1..]))
  }

  /** Removes the element at position k, keeping the others in their order. */
  function RemoveAt(s: seq<User>, k: nat): (r: seq<User>)
    requires k < |s|
    ensures |r| == |s| - 1
    ensures forall i :: 0 <= i < k ==> r[i] == s[i]
    ensures forall i :: k <= i < |r| ==> r[i] == s[i + 1]
  {
    s[..k] + s[k + 1..]
  }

  /** What `UpdateUserAsync` assigns to the stored record. */
  function Overwrite(existing: User, user: User, now: Time): User
  {
    existing.(name := user.name, email := user.email, isActive := user.isActive, updatedAt := now)
  }

  /** The three records the service starts with. */
  function SeedUsers(now: Time): (s: seq<User>)
    ensures |s| == 3
    ensures IdsAscending(s) && UniqueEmails(s)
    ensures forall i :: 0 <= i < |s| ==> 1 <= s[i].id < 4 && NameValid(s[i].name)
  {
    var alice := User(1, "Alice Smith", "alice@techhive.com", now - 30 * TicksPerDay, now - 1 * TicksPerDay, true);
    var bob := User(2, "Bob Johnson", "bob@techhive.com", now - 20 * TicksPerDay, now - 2 * TicksPerDay, true);
    var charlie := User(3, "Charlie Brown", "charlie@techhive.com", now - 10 * TicksPerDay, now - 3 * TicksPerDay, false);
    assert !IsWhiteSpace(alice.name[0]) && !IsWhiteSpace(bob.name[0]) && !IsWhiteSpace(charlie.name[0]);
    [alice, bob, charlie]
  }

  // ---------------------------------------------------------------------
  // The shared store
  // ---------------------------------------------------------------------

  class UserService {
    var users: seq<User>
    var nextId: int
    /** Every id the store has ever handed out, including deleted ones. */
    ghost var issued: set<int>

    ghost predicate Valid()
      reads this
    {
      IdsAscending(users) &&
      (forall i :: 0 <= i < |users| ==> users[i].id in issued) &&
      (forall id :: id in issued ==> id < nextId)
    }

    /** The static initialisers: three seed users and a counter at 4. */
    constructor Seeded(now: Time)
      ensures Valid()
      ensures users == SeedUsers(now) && nextId == 4 && issued == {1, 2, 3}
    {
      users := SeedUsers(now);
      nextId := 4;
      issued := {1, 2, 3};
    }

    /** `GetAllUsersAsync`: the list sorted by id, which is the list itself. */
    function GetAllUsers(): (r: seq<User>)
      reads this
      requires Valid()
      ensures r == users && IdsAscending(r)
    {
      OrderByIdKeepsAscending(users);
      OrderById(users)
    }

    /** `GetUserByIdAsync`: the first user with that id, or None. */
    function GetUserById(id: int): (r: Option<User>)
      reads this
      ensures r.None? <==> forall i :: 0 <= i < |users| ==> users[i].id != id
      ensures Valid() ==> forall i :: 0 <= i < |users| && users[i].id == id ==> r == Some(users[i])
    {
      FirstWithId(users, id)
    }

    /** `EmailExistsAsync`: some user other than `excludeId` has this e-mail, ignoring case. */
    function EmailExists(email: string, excludeId: Option<int>): (b: bool)
      reads this
      ensures b <==> exists i :: (0 <= i < |users| &&
        EqualsIgnoreCase(users[i].email, email) && (excludeId.None? || users[i].id != excludeId.value))
    {
      AnyEmailMatch(users, email, excludeId)
    }

    /**
     * `CreateUserAsync`: takes the counter's value as the new id, advances the
     * counter, stamps both timestamps and appends the record. No e-mail check.
     */
    method CreateUser(user: User, clockForCreated: Time, clockForUpdated: Time) returns (created: User)
      requires Valid()
      modifies this
      ensures Valid()
      ensures created == user.(id := old(nextId), createdAt := clockForCreated, updatedAt := clockForUpdated)
      ensures users == old(users) + [created]
      ensures nextId == old(nextId) + 1 && issued == old(issued) + {created.id}
      ensures forall id :: id in old(issued) ==> id < created.id
    {
      created := user.(id := nextId, createdAt := clockForCreated, updatedAt := clockForUpdated);
      nextId := nextId + 1;
      users := users + [created];
      issued := issued + {created.id};
    }

    /**
     * `UpdateUserAsync`: overwrites name, e-mail, active flag and update time
     * of the first user with that id; false, and no change, when there is none.
     */
    method UpdateUser(id: int, user: User, now: Time) returns (updated: bool)
      requires Valid()
      modifies this
      ensures Valid() && nextId == old(nextId) && issued == old(issued)
      ensures updated <==> exists i :: 0 <= i < |old(users)| && old(users)[i].id == id
      ensures !updated ==> users == old(users)
      ensures updated ==>
        var k := FindIndex(old(users), id);
        k < |old(users)| && users == old(users)[k := Overwrite(old(users)[k], user, now)]
    {
      var k := FindIndex(users, id);
      if k == |users| {
        return false;
      }
      users := users[k := Overwrite(users[k], user, now)];
      return true;
    }

    /** `DeleteUserAsync`: removes the first user with that id; false, and no change, when there is none. */
    method DeleteUser(id: int) returns (deleted: bool)
      requires Valid()
      modifies this
      ensures Valid() && nextId == old(nextId) && issued == old(issued)
      ensures deleted <==> exists i :: 0 <= i < |old(users)| && old(users)[i].id == id
      ensures !deleted ==> users == old(users)
      ensures deleted ==>
        var k := FindIndex(old(users), id);
        k < |old(users)| && users == RemoveAt(old(users), k)
    {
      var k := FindIndex(users, id);
      if k == |users| {
        return false;
      }
      users := RemoveAt(users, k);
      return true;
    }
  }

  // ---------------------------------------------------------------------
  // Properties of the store operations
  // ---------------------------------------------------------------------

  /** Sorting a list that is already in ascending id order leaves it as it is. */
  lemma {:induction false} OrderByIdKeepsAscending(s: seq<User>)
    requires IdsAscending(s)
    ensures OrderById(s) == s
  {
    if s != [] {
      OrderByIdKeepsAscending(s[1..]);
    }
  }

  /** In a list with ascending ids, looking up the id of any element finds that element. */
  lemma FirstWithIdAscending(s: seq<User>, k: nat)
    requires IdsAscending(s) && k < |s|
    ensures FirstWithId(s, s[k].id) == Some(s[k])
  {
  }

  /** After a create, looking up the new id finds exactly the new record. */
  lemma CreateThenGet(s: seq<User>, u: User)
    requires forall i :: 0 <= i < |s| ==> s[i].id < u.id
    ensures FirstWithId(s + [u], u.id) == Some(u)
  {
    assert (s + [u])[|s|] == u;
  }

  /** After deleting a record from a list with unique ids, its id is not found. */
  lemma DeleteThenGet(s: seq<User>, k: nat)
    requires IdsAscending(s) && k < |s|
    ensures FirstWithId(RemoveAt(s, k), s[k].id) == None
  {
  }

  /** After an update, the target id finds the overwritten record and every other id its old record. */
  lemma UpdateThenGet(s: seq<User>, k: nat, user: User, now: Time)
    requires IdsAscending(s) && k < |s|
    ensures FirstWithId(s[k := Overwrite(s[k], user, now)], s[k].id) == Some(Overwrite(s[k], user, now))
    ensures forall j :: 0 <= j < |s| && j != k ==>
      FirstWithId(s[k := Overwrite(s[k], user, now)], s[j].id) == Some(s[j])
  {
    var t := s[k := Overwrite(s[k], user, now)];
    assert IdsAscending(t) by {
      assert forall i :: 0 <= i < |t| ==> t[i].id == s[i].id;
    }
    FirstWithIdAscending(t, k);
    forall j | 0 <= j < |s| && j != k
      ensures FirstWithId(t, s[j].id) == Some(s[j])
    {
      FirstWithIdAscending(t, j);
    }
  }

  /** Appending a user whose e-mail nobody holds keeps e-mails unique. */
  lemma AppendKeepsEmailsUnique(s: seq<User>, u: User)
    requires UniqueEmails(s)
    requires !AnyEmailMatch(s, u.email, None)
    ensures UniqueEmails(s + [u])
  {
    var t := s + [u];
    forall i, j | 0 <= i < j < |t|
      ensures !EqualsIgnoreCase(t[i].email, t[j].email)
    {
      if j == |s| {
        assert !EmailMatches(s[i], u.email, None);
      }
    }
  }

  /**
   * On a list with unique e-mails, an append keeps them unique exactly when
   * nobody already holds the new e-mail ignoring case: CreateUser itself checks
   * nothing, so the e-mail check before it is what keeps addresses unique.
   */
  lemma AppendKeepsEmailsUniqueExactly(s: seq<User>, u: User)
    requires UniqueEmails(s)
    ensures UniqueEmails(s + [u]) <==> !AnyEmailMatch(s, u.email, None)
  {
    if AnyEmailMatch(s, u.email, None) {
      var i :| 0 <= i < |s| && EmailMatches(s[i], u.email, None);
      assert (s + [u])[i] == s[i] && (s + [u])[|s|] == u;
    } else {
      AppendKeepsEmailsUnique(s, u);
    }
  }

  /**
   * Overwriting the record at k with an e-mail that no OTHER user holds keeps
   * e-mails unique; the record may keep its own address.
   */
  lemma OverwriteKeepsEmailsUnique(s: seq<User>, k: nat, user: User, now: Time)
    requires IdsAscending(s) && UniqueEmails(s) && k < |s|
    requires !AnyEmailMatch(s, user.email, Some(s[k].id))
    ensures UniqueEmails(s[k := Overwrite(s[k], user, now)])
  {
    var t := s[k := Overwrite(s[k], user, now)];
    forall i, j | 0 <= i < j < |t|
      ensures !EqualsIgnoreCase(t[i].email, t[j].email)
    {
      if i == k {
        assert !EmailMatches(s[j], user.email, Some(s[k].id));
        EqualsIgnoreCaseSymmetric(t[i].email, t[j].email);
      } else if j == k {
        assert !EmailMatches(s[i], user.email, Some(s[k].id));
      }
    }
  }

  // ---------------------------------------------------------------------
  // The counter as the C# code writes it
  // ---------------------------------------------------------------------

  const Int32Min := -0x8000_0000
  const Int32Max := 0x7FFF_FFFF

  /** `_nextId++` on a C# `int` in the default unchecked context: arithmetic modulo 2^32. */
  function PostIncrementInt32(n: int): (r: int)
    requires Int32Min <= n <= Int32Max
    ensures Int32Min <= r <= Int32Max
    ensures (r - n - 1) % 0x1_0000_0000 == 0
  {
    if n == Int32Max then Int32Min else n + 1
  }

  /**
   * When the counter holds int.MaxValue, a create issues int.MaxValue and
   * leaves the counter at int.MinValue; the create after it issues
   * int.MinValue. A later id is then smaller than an earlier one, so the list
   * is no longer in id order, and ids issued later may meet earlier ones again.
   */
  lemma CounterWrapBreaksAscendingIds(u: User)
    ensures PostIncrementInt32(Int32Max) < Int32Max
    ensures !IdsAscending([u.(id := Int32Max), u.(id := PostIncrementInt32(Int32Max))])
  {
    var s := [u.(id := Int32Max), u.(id := PostIncrementInt32(Int32Max))];
    assert s[0].id > s[1].id;
  }
}
