/**
  The user store (`src/features/userSlice.js`): a list of users and a
  `loading` flag that no reducer touches. Unlike the project store, users
  are matched on their `id` field with strict equality, so a numeric id and
  its decimal string are different users, and an absent id (`undefined`)
  matches every user without one.
*/
module UserSlice {
  import opened Base
  import opened Seqs
  import opened Entities

  datatype UserState = UserState(users: seq<User>, loading: bool)

  /**
    The payload of `updateUserData`: `id` selects the users; every other
    field that is `Some` is present in the object and overrides.
  */
  datatype UserPatch = UserPatch(
    id: Option<Key>,
    oid: Option<Option<Key>>,
    name: Option<Option<string>>,
    email: Option<Option<string>>,
    role: Option<Option<string>>,
    isTeamOwner: Option<bool>)

  /** `{ ...user, ...patch }` for a user whose id already equals the patch's. */
  function Patch(u: User, p: UserPatch): (r: User)
    ensures r.id == p.id
    ensures p.name.None? ==> r.name == u.name
    ensures p.name.Some? ==> r.name == p.name.value
    ensures p.email.None? ==> r.email == u.email
    ensures p.email.Some? ==> r.email == p.email.value
    ensures p.role.None? ==> r.role == u.role
    ensures p.isTeamOwner.None? ==> r.isTeamOwner == u.isTeamOwner
    ensures p.oid.None? ==> r.oid == u.oid
    ensures p.role.Some? ==> r.role == p.role.value
    ensures p.isTeamOwner.Some? ==> r.isTeamOwner == p.isTeamOwner.value
    ensures p.oid.Some? ==> r.oid == p.oid.value
  {
    User(p.oid.GetOr(u.oid), p.id, p.name.GetOr(u.name), p.email.GetOr(u.email),
      p.role.GetOr(u.role), p.isTeamOwner.GetOr(u.isTeamOwner))
  }

  function UserHasId(id: Option<Key>): User -> bool {
    (u: User) => u.id == id
  }

  function UserOtherThan(id: Option<Key>): User -> bool {
    (u: User) => u.id != id
  }

  function SetUsers(st: UserState, users: seq<User>): (r: UserState)
    ensures r.users == users && r.loading == st.loading
  {
    st.(users := users)
  }

  /** `push`: the new user goes last; there is no duplicate check. */
  function AddUser(st: UserState, u: User): (r: UserState)
    ensures |r.users| == |st.users| + 1
    ensures r.users[..|st.users|] == st.users && r.users[|st.users|] == u
    ensures r.loading == st.loading
  {
    st.(users := st.users + [u])
  }

  /** Every user whose id is strictly equal to the patch's is patched. */
  function UpdateUserData(st: UserState, p: UserPatch): (r: UserState)
    ensures |r.users| == |st.users|
    ensures forall i :: 0 <= i < |st.users| && st.users[i].id == p.id ==> r.users[i] == Patch(st.users[i], p)
    ensures forall i :: 0 <= i < |st.users| && st.users[i].id != p.id ==> r.users[i] == st.users[i]
    ensures r.loading == st.loading
  {
    st.(users := MapWhere(st.users, UserHasId(p.id), (u: User) => Patch(u, p)))
  }

  /** Removes every user whose id is strictly equal to `id`. */
  function RemoveUser(st: UserState, id: Option<Key>): (r: UserState)
    ensures forall u :: u in r.users <==> u in st.users && u.id != id
    ensures |r.users| <= |st.users|
    ensures IsSubseq(r.users, st.users)
    ensures forall u :: multiset(r.users)[u] == if u.id == id then 0 else multiset(st.users)[u]
    ensures r.loading == st.loading
  {
    FilterKeepsOrder(st.users, UserOtherThan(id));
    st.(users := Filter(st.users, UserOtherThan(id)))
  }

  /** Patching never changes which id sits at which position. */
  lemma UpdateKeepsIds(st: UserState, p: UserPatch)
    ensures forall i :: 0 <= i < |st.users| ==> UpdateUserData(st, p).users[i].id == st.users[i].id
  {
  }

  /** Applying the same patch twice is applying it once. */
  lemma UpdateIdempotent(st: UserState, p: UserPatch)
    ensures UpdateUserData(UpdateUserData(st, p), p) == UpdateUserData(st, p)
  {
    var once := UpdateUserData(st, p);
    var twice := UpdateUserData(once, p);
    forall i | 0 <= i < |st.users|
      ensures twice.users[i] == once.users[i]
    {
      if st.users[i].id == p.id {
        assert Patch(Patch(st.users[i], p), p) == Patch(st.users[i], p);
      }
    }
  }

  /** Adding a user with a fresh id and removing that id restores the list. */
  lemma {:induction false} AddThenRemoveUser(st: UserState, u: User)
    requires forall v :: v in st.users ==> v.id != u.id
    ensures RemoveUser(AddUser(st, u), u.id) == st
  {
    var keep := UserOtherThan(u.id);
    FilterAppend(st.users, [u], keep);
    assert Filter([u], keep) == [] by {
      assert !keep(u);
      assert [u][1..] == [];
    }
    FilterAll(st.users, keep);
    assert st.users + [] == st.users;
  }

  /** Strict matching: removing the string id "42" keeps the user whose id is the number 42. */
  lemma RemoveIsStrict(u: User)
    requires u.id == Some(Num(42))
    ensures RemoveUser(UserState([u], false), Some(Str("42"))).users == [u]
  {
    assert UserOtherThan(Some(Str("42")))(u);
    assert [u][1..] == [];
  }
}
