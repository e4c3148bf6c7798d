/** The log-in page: one form with four modes, and three handlers that start
    a session. No password or registry check is made; the session user gets
    only a display name and the guest flag. */
module LoginPage {
  import opened Wrappers
  import opened JsText
  import opened UserStore
  import opened OrderDraft
  import opened MenuRepository
  import Checkout

  datatype Mode = Initial | LogIn | GuestEntry | SignUp

  /** `safeName(fallback)`: the first non-empty of the typed name, the part
      of the e-mail before `@` and the fallback, trimmed; the fallback if
      that trims to nothing. */
  function SafeName(name: string, email: string, fallback: string): (r: string)
    ensures fallback != "" ==> r != ""
  {
    var local := BeforeFirst(email, '@');
    var chosen := if name != "" then name else if local != "" then local else fallback;
    var trimmed := Trim(chosen);
    if trimmed != "" then trimmed else fallback
  }

  /** A name with visible characters is used, trimmed. */
  lemma SafeNamePrefersName(name: string, email: string, fallback: string)
    requires !IsBlank(name)
    ensures SafeName(name, email, fallback) == Trim(name)
  {
  }

  /** Without a name, the e-mail's local part is used, trimmed, when it has
      visible characters. */
  lemma SafeNameFromEmail(email: string, fallback: string)
    requires !IsBlank(BeforeFirst(email, '@'))
    ensures SafeName("", email, fallback) == Trim(BeforeFirst(email, '@'))
  {
  }

  /** A name of blanks only is chosen over the e-mail and then trims to
      nothing, so the fallback is used even when an e-mail was typed. */
  lemma BlankNameGivesFallback(name: string, email: string, fallback: string)
    requires name != "" && IsBlank(name)
    ensures SafeName(name, email, fallback) == fallback
  {
  }

  /** With neither a name nor an e-mail local part, the fallback (such as
      `Member` or `Guest`) is used. */
  lemma NothingTypedGivesFallback(email: string, fallback: string)
    requires BeforeFirst(email, '@') == ""
    requires fallback != "" && !IsWhitespace(fallback[0]) && !IsWhitespace(fallback[|fallback| - 1])
    ensures SafeName("", email, fallback) == fallback
  {
    TrimOfTrimmed(fallback);
  }

  /** A session user carrying only a name and the guest flag. */
  function SessionUser(name: string, isGuest: bool): (u: AppUser)
    ensures u.email == None && u.guestId == None && u.isGuest == isGuest
  {
    AppUser(name, None, None, None, None, isGuest)
  }

  /** The page's form state. */
  class LoginForm {
    var mode: Mode
    var name: string
    var email: string
    var password: string

    constructor ()
      ensures mode == Initial && name == "" && email == "" && password == ""
    {
      mode, name, email, password := Initial, "", "", "";
    }

    /** `changeMode(next)`: switches mode and clears every field. */
    method ChangeMode(next: Mode)
      modifies this
      ensures mode == next && name == "" && email == "" && password == ""
    {
      mode := next;
      name, email, password := "", "", "";
    }

    /** `handleLogin()`: signs in a member under the safe name. */
    method HandleLogin(session: UserStore)
      modifies session
      ensures session.user == Some(SessionUser(SafeName(old(name), old(email), "Member"), false))
    {
      session.SetUser(SessionUser(SafeName(name, email, "Member"), false));
    }

    /** `handleGuest()`: starts a guest session under the safe name. */
    method HandleGuest(session: UserStore)
      modifies session
      ensures session.user == Some(SessionUser(SafeName(old(name), old(email), "Guest"), true))
    {
      session.SetUser(SessionUser(SafeName(name, email, "Guest"), true));
    }

    /** `handleSignup()`: the same as logging in; nothing is registered. */
    method HandleSignup(session: UserStore)
      modifies session
      ensures session.user == Some(SessionUser(SafeName(old(name), old(email), "Member"), false))
    {
      session.SetUser(SessionUser(SafeName(name, email, "Member"), false));
    }
  }

  /** A session started on this page has neither an e-mail nor a guest id,
      so the pay handler always stops, at the latest at the owner-key check. */
  lemma PageSessionsCannotPay(name: string, isGuest: bool, d: OrderDraft,
                              detail: Option<MenuDetail>,
                              contactName: string, phone: string, address: string)
    ensures Checkout.PayCheck(Some(SessionUser(name, isGuest)), d, detail, contactName, phone, address).Failure?
  {
  }
}
