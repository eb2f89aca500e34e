/** The `users` lookups of backend/routes/auth.js and the invariant its
    duplicate-email check keeps. */
module Auth {
  import opened Rows

  /** `rows[0]` of `SELECT * FROM users WHERE email = ?`. */
  function UserWithEmail(users: seq<User>, email: string): (r: Option<User>)
    ensures r.None? <==> forall i :: 0 <= i < |users| ==> users[i].email != email
    ensures r.Some? ==> r.value in users && r.value.email == email
  {
    if |users| == 0 then None
    else if users[0].email == email then Some(users[0])
    else UserWithEmail(users[1..], email)
  }

  /** The user a row's `user_id` joins to: `JOIN users u ON a.user_id = u.id`. */
  function UserWithId(users: seq<User>, id: Id): (r: Option<User>)
    ensures r.None? <==> forall i :: 0 <= i < |users| ==> users[i].id != id
    ensures r.Some? ==> r.value in users && r.value.id == id
  {
    if |users| == 0 then None
    else if users[0].id == id then Some(users[0])
    else UserWithId(users[1..], id)
  }

  /** Row `i` has id `i + 1`: AUTO_INCREMENT counts from 1 and no user is
      ever deleted. */
  predicate UserIdsDense(users: seq<User>) {
    forall i :: 0 <= i < |users| ==> users[i].id == i + 1
  }

  /** The join on a `user_id` finds the row the id numbers. */
  lemma UserWithIdDense(users: seq<User>, id: Id)
    requires UserIdsDense(users) && 0 < id <= |users|
    ensures UserWithId(users, id) == Some(users[id - 1])
  {
    var r := UserWithId(users, id);
    assert users[id - 1].id == id;
    var j :| 0 <= j < |users| && users[j] == r.value;
  }

  /** No two users share an email. */
  predicate EmailsUnique(users: seq<User>) {
    forall i, j :: 0 <= i < j < |users| ==> users[i].email != users[j].email
  }

  /** Inserting a user only after the duplicate check found no row keeps
      emails unique. */
  lemma RegisterKeepsEmailsUnique(users: seq<User>, u: User)
    requires EmailsUnique(users)
    requires UserWithEmail(users, u.email).None?
    ensures EmailsUnique(users + [u])
  {
  }

  /** Inserting a user whose email is already taken breaks uniqueness: the
      duplicate check is what keeps it. */
  lemma DuplicateBreaksEmailsUnique(users: seq<User>, u: User)
    requires UserWithEmail(users, u.email).Some?
    ensures !EmailsUnique(users + [u])
  {
    var s := users + [u];
    var i :| 0 <= i < |users| && users[i].email == u.email;
    assert s[i].email == s[|users|].email;
  }

  /** With unique emails the lookup finds the one user with that email. */
  lemma EmailsUniqueLookup(users: seq<User>, k: nat)
    requires EmailsUnique(users) && k < |users|
    ensures UserWithEmail(users, users[k].email) == Some(users[k])
  {
    var r := UserWithEmail(users, users[k].email);
    var j :| 0 <= j < |users| && users[j] == r.value;
  }
}
