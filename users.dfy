/** User records and the pure list transformations the user list component applies to them. */
module Users {

  /** A server-assigned record identifier; the handlers compare identifiers with `===`. */
  type Id = int

  /** A value that may be absent, as the `currentUser` slot that starts out `null`. */
  datatype Option<+T> = None | Some(value: T)

  /** One user record, as the server returns it and as the local list holds it. */
  datatype User = User(id: Id, name: string, email: string, dob: string, password: string)

  /** The four form fields a submit sends as the body of a create or an update. */
  datatype Fields = Fields(name: string, email: string, dob: string, password: string)

  /** The list after a successful delete: `users.filter(user => user.id !== id)`. */
  function WithoutId(users: seq<User>, id: Id): (r: seq<User>)
    ensures forall u :: u in r <==> u in users && u.id != id
    ensures |r| <= |users|
  {
    if users == [] then []
    else
      assert forall u :: u in users <==> u == users[0] || u in users[1..];
      (if users[0].id != id then [users[0]] else []) + WithoutId(users[1..], id)
  }

  /** Filtering distributes over concatenation: the kept records stay in their original order. */
  lemma {:induction false} WithoutIdDistributes(a: seq<User>, b: seq<User>, id: Id)
    ensures WithoutId(a + b, id) == WithoutId(a, id) + WithoutId(b, id)
  {
    if a == [] {
      assert a + b == b;
    } else {
      assert (a + b)[0] == a[0];
      assert (a + b)[1..] == a[1..] + b;
      WithoutIdDistributes(a[1..], b, id);
    }
  }

  /** A list holding no record with the identifier is left as it is. */
  lemma {:induction false} WithoutIdAbsent(users: seq<User>, id: Id)
    requires forall u :: u in users ==> u.id != id
    ensures WithoutId(users, id) == users
  {
    if users != [] {
      assert users[0] in users;
      assert forall u :: u in users[1..] ==> u in users;
      WithoutIdAbsent(users[1..], id);
    }
  }

  /** Deleting the same identifier twice is the same as deleting it once. */
  lemma {:induction false} WithoutIdIdempotent(users: seq<User>, id: Id)
    ensures WithoutId(WithoutId(users, id), id) == WithoutId(users, id)
  {
    WithoutIdAbsent(WithoutId(users, id), id);
  }

  /** `{...user, ...fields}`: the submitted fields overwrite the record's, its id stays. */
  function Merge(user: User, f: Fields): (r: User)
    ensures r.id == user.id
    ensures r.name == f.name && r.email == f.email && r.dob == f.dob && r.password == f.password
  {
    User(user.id, f.name, f.email, f.dob, f.password)
  }

  /** The list after a successful edit:
      `users.map(user => user.id === id ? {...user, ...fields} : user)`. */
  function ApplyEdit(users: seq<User>, id: Id, f: Fields): (r: seq<User>)
    ensures |r| == |users|
    ensures forall i :: 0 <= i < |users| && users[i].id != id ==> r[i] == users[i]
    ensures forall i :: 0 <= i < |users| && users[i].id == id ==>
              r[i] == User(id, f.name, f.email, f.dob, f.password)
  {
    if users == [] then []
    else [if users[0].id == id then Merge(users[0], f) else users[0]] + ApplyEdit(users[1..], id, f)
  }

  /** Deleting an edited record leaves no trace of the edit. */
  lemma {:induction false} WithoutIdAfterApplyEdit(users: seq<User>, id: Id, f: Fields)
    ensures WithoutId(ApplyEdit(users, id, f), id) == WithoutId(users, id)
  {
    if users != [] {
      var r := ApplyEdit(users, id, f);
      assert r[1..] == ApplyEdit(users[1..], id, f);
      WithoutIdAfterApplyEdit(users[1..], id, f);
    }
  }

  /** The password an edit submit sends: `typed ? typed : current.password`.
      The empty string is falsy, so a blank field falls back to the stored password. */
  function PasswordToSend(typed: string, current: User): (r: string)
    ensures typed != "" ==> r == typed
    ensures typed == "" ==> r == current.password
    ensures r == typed || r == current.password
    ensures r == "" <==> typed == "" && current.password == ""
  {
    if typed != "" then typed else current.password
  }
}
