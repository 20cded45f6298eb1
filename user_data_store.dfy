/**
 * The signed-in user record of core/datastore/repository/UserDataStoreRepository.kt:
 * one nullable User kept in a data store, replaced as a whole by each update.
 */
module UserDataStore {
  import opened Wrappers

  /**
   * An account the user follows. The class is declared outside this model;
   * only followedId is read here, and `details` stands for the rest.
   */
  datatype Following = Following(followedId: string, details: string)

  /**
   * The stored user. The class is declared outside this model; `_id`,
   * username and following are the fields this core reads, and `profile`
   * stands for the others, which every update copies unchanged.
   */
  datatype User = User(id: string, username: string, following: seq<Following>, profile: string)

  /** isUserLoggedIn: a record is stored and its id is not empty. */
  function IsLoggedIn(stored: Option<User>): (r: bool)
    ensures r ==> stored.Some?
    ensures stored.Some? ==> (r <==> stored.value.id != "")
  {
    match stored
    case None => false
    case Some(u) => u.id != ""
  }

  /** following.filter { it.followedId != id }: Kotlin's filter, keeping order. */
  function WithoutFollowed(s: seq<Following>, id: string): (r: seq<Following>)
    ensures |r| <= |s|
    ensures forall f :: f in r <==> f in s && f.followedId != id
  {
    if s == [] then []
    else
      var rest := WithoutFollowed(s[1..], id);
      assert forall f :: f in s <==> f == s[0] || f in s[1..];
      if s[0].followedId == id then rest else [s[0]] + rest
  }

  /** The filter keeps every occurrence of an entry with another id and drops every one with that id. */
  lemma {:induction false} WithoutFollowedCounts(s: seq<Following>, id: string, f: Following)
    ensures multiset(WithoutFollowed(s, id))[f] == if f.followedId == id then 0 else multiset(s)[f]
  {
    if s != [] {
      WithoutFollowedCounts(s[1..], id, f);
      assert s == [s[0]] + s[1..];
    }
  }

  /** The filter works element by element: it distributes over concatenation, so order is kept. */
  lemma {:induction false} WithoutFollowedAppend(a: seq<Following>, b: seq<Following>, id: string)
    ensures WithoutFollowed(a + b, id) == WithoutFollowed(a, id) + WithoutFollowed(b, id)
  {
    if a == [] {
      assert a + b == b;
    } else {
      assert (a + b)[1..] == a[1..] + b;
      WithoutFollowedAppend(a[1..], b, id);
    }
  }

  /** Filtering out an id nothing has leaves the list as it was. */
  lemma {:induction false} WithoutAbsentFollowed(s: seq<Following>, id: string)
    requires forall f :: f in s ==> f.followedId != id
    ensures WithoutFollowed(s, id) == s
  {
    if s != [] {
      assert s[0] in s;
      assert forall f :: f in s[1..] ==> f in s;
      WithoutAbsentFollowed(s[1..], id);
      assert [s[0]] + s[1..] == s;
    }
  }

  /** Following an account not yet followed and then unfollowing it restores the list. */
  lemma RemoveUndoesAdd(s: seq<Following>, f: Following)
    requires forall g :: g in s ==> g.followedId != f.followedId
    ensures WithoutFollowed(s + [f], f.followedId) == s
  {
    WithoutFollowedAppend(s, [f], f.followedId);
    WithoutAbsentFollowed(s, f.followedId);
    assert WithoutFollowed([f], f.followedId) == [];
  }

  /** Unfollowing twice is unfollowing once. */
  lemma RemoveIdempotent(s: seq<Following>, id: string)
    ensures WithoutFollowed(WithoutFollowed(s, id), id) == WithoutFollowed(s, id)
  {
    WithoutAbsentFollowed(WithoutFollowed(s, id), id);
  }

  /** The repository over the stored record (null when nobody is signed in). */
  class UserDataStoreRepository {
    var user: Option<User>

    constructor ()
      ensures user == None
    {
      user := None;
    }

    /** isUserLoggedIn */
    function IsUserLoggedIn(): (r: bool)
      reads this
      ensures r <==> user.Some? && user.value.id != ""
    {
      IsLoggedIn(user)
    }

    /** getLoggedInUser: the stored record, unchanged. */
    method GetLoggedInUser() returns (u: Option<User>)
      ensures u == user
    {
      u := user;
    }

    /** addUserFollowing: appends to the stored list; with no record stored, nothing is stored after. */
    method AddUserFollowing(following: Following)
      modifies this
      ensures old(user).None? ==> user == None
      ensures old(user).Some? ==>
        user == Some(old(user).value.(following := old(user).value.following + [following]))
    {
      if user.Some? {
        user := Some(user.value.(following := user.value.following + [following]));
      }
    }

    /** removeUserFollowing: drops every entry with that followedId; other fields stay. */
    method RemoveUserFollowing(following: Following)
      modifies this
      ensures old(user).None? ==> user == None
      ensures old(user).Some? ==>
        user == Some(old(user).value.(following := WithoutFollowed(old(user).value.following, following.followedId)))
    {
      if user.Some? {
        user := Some(user.value.(following := WithoutFollowed(user.value.following, following.followedId)));
      }
    }

    /** setLoggedInUser: the record is replaced by the given one. */
    method SetLoggedInUser(u: User)
      modifies this
      ensures user == Some(u)
      ensures IsUserLoggedIn() <==> u.id != ""
    {
      user := Some(u);
    }

    /** unsetLoggedInUser: no record remains, so nobody is signed in. */
    method UnsetLoggedInUser()
      modifies this
      ensures user == None && !IsUserLoggedIn()
    {
      user := None;
    }
  }
}
