/** The persisted member accounts: sign-up appends, log-in looks up an
    e-mail and password pair, and the account page rewrites a member's
    profile while the stored password stays. */
module UserStorage {
  import opened Wrappers
  import opened Seqs

  datatype StoredUser = StoredUser(
    name: string,
    email: string,
    password: string,
    address: string,
    phone: string)

  function HasCredentials(email: string, password: string): StoredUser -> bool {
    (u: StoredUser) => u.email == email && u.password == password
  }

  function HasEmail(email: string): StoredUser -> bool {
    (u: StoredUser) => u.email == email
  }

  /** `findUser`: the first account with exactly that e-mail and password. */
  function FindUser(users: seq<StoredUser>, email: string, password: string): (r: Option<StoredUser>)
    ensures r.Some? ==> r.value in users && r.value.email == email && r.value.password == password
    ensures r.Some? ==> exists k :: 0 <= k < |users| && users[k] == r.value
                          && forall j :: 0 <= j < k ==> !(users[j].email == email && users[j].password == password)
    ensures r.None? <==> forall i :: 0 <= i < |users| ==>
                           !(users[i].email == email && users[i].password == password)
  {
    Find(users, HasCredentials(email, password))
  }

  /** `{ ...saved, ...updated, password: saved.password }`: everything from
      the update except the password, which stays the stored one. */
  function Merged(saved: StoredUser, updated: StoredUser): (r: StoredUser)
    ensures r.password == saved.password
    ensures r.(password := updated.password) == updated
  {
    updated.(password := saved.password)
  }

  /** The password carried by an update is ignored. */
  lemma MergeIgnoresPassword(saved: StoredUser, updated: StoredUser, password: string)
    ensures Merged(saved, updated.(password := password)) == Merged(saved, updated)
  {
  }

  /** The stored accounts, oldest first. Sign-up does not check for an
      existing e-mail. */
  class UserRegistry {
    var users: seq<StoredUser>

    constructor ()
      ensures users == []
    {
      users := [];
    }

    /** `saveUser`. */
    method SaveUser(user: StoredUser)
      modifies this
      ensures users == old(users) + [user]
    {
      users := users + [user];
    }

    /** `updateUser`: the first account with the update's e-mail gets the
        merged profile; an unknown e-mail changes nothing and yields none. */
    method UpdateUser(updated: StoredUser) returns (r: Option<StoredUser>)
      modifies this
      ensures match FirstIndex(old(users), HasEmail(updated.email))
        case None => r == None && users == old(users)
        case Some(i) => r == Some(Merged(old(users)[i], updated))
                        && users == old(users)[i := r.value]
    {
      var idx := FirstIndex(users, HasEmail(updated.email));
      if idx.None? {
        return None;
      }
      var merged := Merged(users[idx.value], updated);
      users := users[idx.value := merged];
      r := Some(merged);
    }
  }

  /** A newly registered account can log in with its credentials, unless an
      older account has the very same pair, which is found instead. */
  lemma SignUpThenLogIn(users: seq<StoredUser>, user: StoredUser)
    ensures FindUser(users + [user], user.email, user.password).Some?
    ensures FindUser(users, user.email, user.password).None?
            ==> FindUser(users + [user], user.email, user.password) == Some(user)
  {
    var all := users + [user];
    var p := HasCredentials(user.email, user.password);
    assert all[|users|] == user && p(user);
    if FindUser(users, user.email, user.password).None? {
      FindFirst(all, p, |users|);
    }
  }

  /** After a profile update the member still logs in with the old password
      and gets the merged profile back. */
  lemma UpdateThenLogIn(users: seq<StoredUser>, updated: StoredUser)
    requires FirstIndex(users, HasEmail(updated.email)).Some?
    ensures var i := FirstIndex(users, HasEmail(updated.email)).value;
      var merged := Merged(users[i], updated);
      && merged.email == users[i].email
      && FindUser(users[i := merged], updated.email, users[i].password) == Some(merged)
  {
    var i := FirstIndex(users, HasEmail(updated.email)).value;
    var merged := Merged(users[i], updated);
    FindFirst(users[i := merged], HasCredentials(updated.email, users[i].password), i);
  }

  /** Log-in fails for a password other than the stored ones of that e-mail. */
  lemma WrongPasswordFails(users: seq<StoredUser>, email: string, password: string)
    requires forall i :: 0 <= i < |users| && users[i].email == email ==> users[i].password != password
    ensures FindUser(users, email, password) == None
  {
  }
}
