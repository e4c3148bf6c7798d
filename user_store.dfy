/** The signed-in user of the session: a member or a guest, or nobody. */
module UserStore {
  import opened Wrappers

  /** `email`, `phone`, `address` and `guestId` may be null or missing; both are `None`. */
  datatype AppUser = AppUser(
    name: string,
    email: Option<string>,
    phone: Option<string>,
    address: Option<string>,
    guestId: Option<string>,
    isGuest: bool)

  /** A partial user: `None` leaves a field as it is; a nullable field may be
      set or cleared. */
  datatype UserPatch = UserPatch(
    name: Option<string>,
    email: Option<Option<string>>,
    phone: Option<Option<string>>,
    address: Option<Option<string>>,
    guestId: Option<Option<string>>,
    isGuest: Option<bool>)

  const NoUserChanges := UserPatch(None, None, None, None, None, None)

  /** `{ ...user, ...partial }`. */
  function PatchedUser(u: AppUser, p: UserPatch): (r: AppUser)
    ensures p == NoUserChanges ==> r == u
    ensures p.name.Some? ==> r.name == p.name.value
    ensures p.name.None? ==> r.name == u.name
    ensures p.email.Some? ==> r.email == p.email.value
    ensures p.email.None? ==> r.email == u.email
    ensures p.phone.Some? ==> r.phone == p.phone.value
    ensures p.phone.None? ==> r.phone == u.phone
    ensures p.address.Some? ==> r.address == p.address.value
    ensures p.address.None? ==> r.address == u.address
    ensures p.guestId.Some? ==> r.guestId == p.guestId.value
    ensures p.guestId.None? ==> r.guestId == u.guestId
    ensures p.isGuest.Some? ==> r.isGuest == p.isGuest.value
    ensures p.isGuest.None? ==> r.isGuest == u.isGuest
  {
    AppUser(
      p.name.GetOr(u.name),
      p.email.GetOr(u.email),
      p.phone.GetOr(u.phone),
      p.address.GetOr(u.address),
      p.guestId.GetOr(u.guestId),
      p.isGuest.GetOr(u.isGuest))
  }

  class UserStore {
    var user: Option<AppUser>

    constructor ()
      ensures user == None
    {
      user := None;
    }

    /** `setUser(user)`. */
    method SetUser(u: AppUser)
      modifies this
      ensures user == Some(u)
    {
      user := Some(u);
    }

    /** `updateUser(partial)`: patches the signed-in user; with nobody signed
        in nothing changes. */
    method UpdateUser(patch: UserPatch)
      modifies this
      ensures old(user).None? ==> user == None
      ensures old(user).Some? ==> user == Some(PatchedUser(old(user).value, patch))
    {
      if user.Some? {
        user := Some(PatchedUser(user.value, patch));
      }
    }

    /** `logout()`. */
    method Logout()
      modifies this
      ensures user == None
    {
      user := None;
    }
  }
}
