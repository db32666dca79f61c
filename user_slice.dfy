/**
 * The `user` slice of the store: the ordered list of users and the user
 * currently being edited, with the three reducers that change them.
 */
module UserSlice {
  import opened Options
  import opened Users

  /** Some stored user has exactly this email (`===`, case-sensitive). */
  predicate HasEmail(users: seq<User>, email: string) {
    exists k :: 0 <= k < |users| && users[k].email == email
  }

  /** At most one stored user per email. */
  predicate EmailsDistinct(users: seq<User>) {
    forall i, j :: 0 <= i < j < |users| ==> users[i].email != users[j].email
  }

  /** Position `k` is the first whose email is `email`. */
  predicate IsFirstWith(users: seq<User>, email: string, k: int)
    requires 0 <= k < |users|
  {
    users[k].email == email && forall m :: 0 <= m < k ==> users[m].email != email
  }

  /** `users.findIndex((u) => u.email === email)`: the first matching index, or -1. */
  function FindIndex(users: seq<User>, email: string): (r: int)
    ensures -1 <= r < |users|
    ensures r == -1 <==> !HasEmail(users, email)
    ensures r != -1 ==> IsFirstWith(users, email, r)
    decreases |users|
  {
    if users == [] then -1
    else if users[0].email == email then 0
    else
      var r := FindIndex(users[1..], email);
      assert forall k :: 0 <= k < |users| - 1 ==> users[1..][k] == users[k + 1];
      if r == -1 then -1 else r + 1
  }

  /** The users after the `updateUser` reducer: the first user with the payload's email is overwritten. */
  function Updated(users: seq<User>, payload: User): (r: seq<User>)
    ensures |r| == |users|
    ensures forall k :: 0 <= k < |users| ==>
      r[k] == if IsFirstWith(users, payload.email, k) then payload else users[k]
    ensures forall k :: 0 <= k < |users| ==> r[k].email == users[k].email
    ensures !HasEmail(users, payload.email) ==> r == users
  {
    var index := FindIndex(users, payload.email);
    if index != -1 then users[index := payload] else users
  }

  /** `updateUser` keeps the emails where they were, so it keeps them distinct. */
  lemma UpdatePreservesDistinct(users: seq<User>, payload: User)
    requires EmailsDistinct(users)
    ensures EmailsDistinct(Updated(users, payload))
  {
  }

  /** `addUser` keeps the emails distinct exactly when the new email is not already stored. */
  lemma AppendPreservesDistinct(users: seq<User>, payload: User)
    requires EmailsDistinct(users)
    ensures EmailsDistinct(users + [payload]) <==> !HasEmail(users, payload.email)
  {
    var r := users + [payload];
    if HasEmail(users, payload.email) {
      var k :| 0 <= k < |users| && users[k].email == payload.email;
      assert r[k].email == r[|users|].email;
    }
  }

  /** Updating twice with the same payload is the same as updating once. */
  lemma UpdateIdempotent(users: seq<User>, payload: User)
    ensures Updated(Updated(users, payload), payload) == Updated(users, payload)
  {
    var once := Updated(users, payload);
    forall k | 0 <= k < |users|
      ensures IsFirstWith(once, payload.email, k) == IsFirstWith(users, payload.email, k)
    {
    }
  }

  class Slice {
    var users: seq<User>
    var editingUser: Option<User>

    /** `initialState`: no users, nobody being edited. */
    constructor ()
      ensures users == [] && editingUser == None
    {
      users := [];
      editingUser := None;
    }

    /** `addUser`: the payload becomes the last user. */
    method AddUser(payload: User)
      modifies this
      ensures users == old(users) + [payload]
      ensures editingUser == old(editingUser)
      ensures EmailsDistinct(old(users)) && !HasEmail(old(users), payload.email) ==> EmailsDistinct(users)
    {
      if EmailsDistinct(users) {
        AppendPreservesDistinct(users, payload);
      }
      users := users + [payload];
    }

    /** `updateUser`: overwrite the first user with the payload's email, if any. */
    method UpdateUser(payload: User)
      modifies this
      ensures users == Updated(old(users), payload)
      ensures editingUser == old(editingUser)
      ensures EmailsDistinct(old(users)) ==> EmailsDistinct(users)
    {
      var index := FindIndex(users, payload.email);
      if index != -1 {
        users := users[index := payload];
      }
    }

    /** `setEditingUser`: replace the editing marker with the payload (a user or null). */
    method SetEditingUser(payload: Option<User>)
      modifies this
      ensures editingUser == payload
      ensures users == old(users)
    {
      editingUser := payload;
    }
  }
}
