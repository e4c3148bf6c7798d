/** The account page: nobody and guests are only pointed to the log-in page;
    a member can save name, address and phone, which rewrites the stored
    account (keeping its password) and then the session user. */
module AccountPage {
  import opened Wrappers
  import opened Seqs
  import opened JsText
  import opened UserStore
  import opened UserStorage

  /** What the page shows: a log-in prompt, the guest notice, or the form. */
  datatype AccountView = SignInPrompt | GuestNotice | ProfileForm

  function AccountViewOf(user: Option<AppUser>): (v: AccountView)
    ensures v == ProfileForm <==> user.Some? && !user.value.isGuest
    ensures v == SignInPrompt <==> user.None?
  {
    if user.None? then SignInPrompt
    else if user.value.isGuest then GuestNotice
    else ProfileForm
  }

  datatype SaveOutcome = NoEmail | BlankName | SaveFailed | Saved

  /** The record `handleSave` hands to the registry: trimmed fields under the
      session's e-mail, with an empty password that the registry ignores.
      Fails when the session has no e-mail or the name is blank. */
  function SaveRequest(user: AppUser, name: string, address: string, phone: string): (r: Result<StoredUser, SaveOutcome>)
    ensures r.Success? <==> user.email.GetOr("") != "" && !IsBlank(name)
    ensures r.Success? ==> r.value.email == user.email.value && r.value.name == Trim(name)
                           && r.value.name != [] && r.value.address == Trim(address)
                           && r.value.phone == Trim(phone)
  {
    var email := user.email.GetOr("");
    if email == "" then Failure(NoEmail)
    else if Trim(name) == "" then Failure(BlankName)
    else Success(StoredUser(Trim(name), email, "", Trim(address), Trim(phone)))
  }

  /** The session user built from the stored record: a member, never a
      guest and without a guest id, showing the stored profile; the password
      stays in storage. */
  function SessionUserOf(stored: StoredUser): (r: AppUser)
    ensures !r.isGuest && r.guestId.None?
    ensures r.name == stored.name && r.email == Some(stored.email)
    ensures r.phone == Some(stored.phone) && r.address == Some(stored.address)
  {
    AppUser(stored.name, Some(stored.email), Some(stored.phone), Some(stored.address), None, false)
  }

  /** The profile form, with its three editable fields. */
  class AccountForm {
    var name: string
    var address: string
    var phone: string

    /** The form starts from the session user's fields, empty where absent. */
    constructor (user: Option<AppUser>)
      ensures user.Some? ==> name == user.value.name && address == user.value.address.GetOr("")
                             && phone == user.value.phone.GetOr("")
      ensures user.None? ==> name == "" && address == "" && phone == ""
    {
      if user.Some? {
        name := user.value.name;
        address := user.value.address.GetOr("");
        phone := user.value.phone.GetOr("");
      } else {
        name, address, phone := "", "", "";
      }
    }

    /** `handleSave()`, offered on the member form only: checks the e-mail and
        the name, then stores the trimmed fields and signs the stored record in. */
    method HandleSave(session: UserStore, registry: UserRegistry) returns (outcome: SaveOutcome)
      requires AccountViewOf(session.user) == ProfileForm
      modifies session, registry
      ensures SaveRequest(old(session.user).value, old(name), old(address), old(phone)).Failure? ==>
        && outcome == SaveRequest(old(session.user).value, old(name), old(address), old(phone)).error
        && registry.users == old(registry.users) && session.user == old(session.user)
      ensures SaveRequest(old(session.user).value, old(name), old(address), old(phone)).Success? ==>
        SaveEffect(old(registry.users), registry.users, old(session.user), session.user,
                   SaveRequest(old(session.user).value, old(name), old(address), old(phone)).value, outcome)
    {
      var email := session.user.value.email.GetOr("");
      if email == "" {
        assert SaveRequest(session.user.value, name, address, phone) == Failure(NoEmail);
        return NoEmail;
      }
      if Trim(name) == "" {
        assert SaveRequest(session.user.value, name, address, phone) == Failure(BlankName);
        return BlankName;
      }
      var input := StoredUser(Trim(name), email, "", Trim(address), Trim(phone));
      assert SaveRequest(session.user.value, name, address, phone) == Success(input);
      outcome := StoreAndSignIn(session, registry, input);
    }
  }

  /** The effect of saving `u`: the registry updates the first account with
      that e-mail, if any, and the session then shows the stored record;
      without such an account nothing changes. */
  ghost predicate SaveEffect(usersBefore: seq<StoredUser>, usersAfter: seq<StoredUser>,
                             userBefore: Option<AppUser>, userAfter: Option<AppUser>,
                             u: StoredUser, outcome: SaveOutcome) {
    match FirstIndex(usersBefore, HasEmail(u.email))
    case None =>
      outcome == SaveFailed && usersAfter == usersBefore && userAfter == userBefore
    case Some(i) =>
      && outcome == Saved
      && usersAfter == usersBefore[i := Merged(usersBefore[i], u)]
      && userAfter == Some(SessionUserOf(Merged(usersBefore[i], u)))
  }

  /** The end of `handleSave`: `updateUser` on the registry, then `setUser`
      with the stored record unless the registry had no such account. */
  method StoreAndSignIn(session: UserStore, registry: UserRegistry, input: StoredUser) returns (outcome: SaveOutcome)
    modifies session, registry
    ensures SaveEffect(old(registry.users), registry.users, old(session.user), session.user, input, outcome)
  {
    var stored := registry.UpdateUser(input);
    if stored.None? {
      return SaveFailed;
    }
    session.SetUser(SessionUserOf(stored.value));
    outcome := Saved;
  }

  /** After a successful save the session shows the trimmed fields typed,
      under the unchanged e-mail, as a member; the stored password is kept. */
  lemma SavedSessionShowsForm(user: AppUser, name: string, address: string, phone: string, saved: StoredUser)
    requires SaveRequest(user, name, address, phone).Success?
    ensures var s := SessionUserOf(Merged(saved, SaveRequest(user, name, address, phone).value));
      s.name == Trim(name) && s.email == user.email && !s.isGuest && s.guestId == None
    ensures var s := SessionUserOf(Merged(saved, SaveRequest(user, name, address, phone).value));
      s.phone == Some(Trim(phone)) && s.address == Some(Trim(address))
    ensures Merged(saved, SaveRequest(user, name, address, phone).value).password == saved.password
  {
    var u := SaveRequest(user, name, address, phone).value;
    assert u == StoredUser(Trim(name), user.email.value, "", Trim(address), Trim(phone));
    assert Merged(saved, u) == StoredUser(Trim(name), user.email.value, saved.password, Trim(address), Trim(phone));
  }
}
