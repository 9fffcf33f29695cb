/** The class-based home page with its own sign-in and sign-up popups:
    ordered field checks, the callbacks reading the backend's answer, and
    logout. Which field is flagged and focused is kept; styling is not. */
module AuthBase {
  import opened Base
  import opened Auth
  import Storage

  /** The component state. */
  datatype Page = Page(loggedIn: bool, email: string)

  /** The initial state: logged in when a token is stored, with the stored
      email or "". */
  function Initial(store: Storage.Store): (p: Page)
    ensures p.loggedIn <==> Has(store.authToken)
    ensures Has(store.userEmail) ==> p.email == store.userEmail.value
    ensures !Has(store.userEmail) ==> p.email == ""
  {
    Page(Has(store.authToken), if Has(store.userEmail) then store.userEmail.value else "")
  }

  /** The outcome of a form check: the fields outlined in red and the one
      focused, or the request sent. */
  datatype Check =
    | Flagged(fields: set<Field>, focus: Field)
    | Send(request: Request)

  /** The sign-up popup's inputs, read untrimmed. */
  datatype Registration = Registration(fullname: string, email: string, role: string, password: string, confirm: string)

  function Value(r: Registration, f: Field): string {
    match f
    case Fullname => r.fullname
    case Email => r.email
    case Role => r.role
    case Password => r.password
    case ConfirmPassword => r.confirm
  }

  /** The order in which `userRegistration` checks the fields. */
  function Rank(f: Field): nat {
    match f
    case Fullname => 0
    case Email => 1
    case Role => 2
    case Password => 3
    case ConfirmPassword => 4
  }

  predicate Complete(r: Registration) {
    r.fullname != "" && r.email != "" && r.role != "" && r.password != "" && r.confirm != ""
  }

  /** `userRegistration`: the first empty field, in order, is flagged alone
      and nothing is sent; with every field filled, differing passwords
      flag both password fields and focus the confirmation. */
  function Register(r: Registration): (c: Check)
    ensures c.Send? <==> Complete(r) && r.password == r.confirm
    ensures c.Send? ==> c.request == SignUp(r.fullname, r.email, r.role, r.password)
    ensures Complete(r) && r.password != r.confirm ==> c == Flagged({Password, ConfirmPassword}, ConfirmPassword)
    ensures !Complete(r) ==>
      && c.Flagged? && c.fields == {c.focus} && Value(r, c.focus) == ""
      && forall f :: Rank(f) < Rank(c.focus) ==> Value(r, f) != ""
  {
    if r.fullname == "" then Flagged({Fullname}, Fullname)
    else if r.email == "" then Flagged({Email}, Email)
    else if r.role == "" then Flagged({Role}, Role)
    else if r.password == "" then Flagged({Password}, Password)
    else if r.confirm == "" then Flagged({ConfirmPassword}, ConfirmPassword)
    else if r.password != r.confirm then Flagged({Password, ConfirmPassword}, ConfirmPassword)
    else Send(SignUp(r.fullname, r.email, r.role, r.password))
  }

  /** `signIn`'s checks: the email first, then the password. */
  function SignIn(email: string, password: string): (c: Check)
    ensures c.Send? <==> email != "" && password != ""
    ensures c.Send? ==> c.request == Request.SignIn(email, password)
    ensures c.Flagged? ==> c.fields == {c.focus} && c.focus == (if email == "" then Email else Password)
  {
    if email == "" then Flagged({Email}, Email)
    else if password == "" then Flagged({Password}, Password)
    else Send(Request.SignIn(email, password))
  }

  /** What a callback does: the new state and storage and the alert shown,
      if any. */
  datatype Outcome = Outcome(page: Page, store: Storage.Store, alert: Option<string>, showSignin: bool)

  /** A token is stored with the email typed in, and the page logs in. */
  function Accept(page: Page, store: Storage.Store, email: string, token: string): (o: Outcome)
    requires IsToken(token)
    ensures o.page == Page(true, email) && o.alert.None? && !o.showSignin
    ensures o.store.authToken == Some(token) && o.store.userEmail == Some(email)
    ensures o.store.userFullname == store.userFullname && o.store.bookmarks == store.bookmarks
    ensures o.store.favorites == store.favorites && o.store.bookmarkedArticles == store.bookmarkedArticles
  {
    Outcome(Page(true, email), store.(authToken := Some(token), userEmail := Some(email)), None, false)
  }

  const LoginFailed: string := "Login failed: "
  const RegistrationFallback: string := "Done"

  /** The `signin` callback: a token logs in, anything else is reported
      as it came. */
  function SignInAnswer(page: Page, store: Storage.Store, email: string, res: string): (o: Outcome)
    ensures IsToken(res) ==> o == Accept(page, store, email, res)
    ensures !IsToken(res) ==> o == Outcome(page, store, Some(LoginFailed + res), false)
  {
    if IsToken(res) then Accept(page, store, email, res)
    else Outcome(page, store, Some(LoginFailed + res), false)
  }

  /** `getResponse`, the `signup` callback: a token logs in; otherwise the
      status line's message (or "Done") is shown, and code "200" reopens
      the sign-in popup. */
  function RegistrationAnswer(page: Page, store: Storage.Store, email: string, res: string): (o: Outcome)
    ensures IsToken(res) ==> o == Accept(page, store, email, res)
    ensures !IsToken(res) ==>
      var s := Decode(res, RegistrationFallback);
      o == Outcome(page, store, Some(s.message), s.code == "200")
    ensures !IsToken(res) ==> o.alert.Some? && o.alert.value != ""
  {
    if IsToken(res) then Accept(page, store, email, res)
    else
      var s := Decode(res, RegistrationFallback);
      Outcome(page, store, Some(s.message), s.code == "200")
  }

  /** A successful registration answer reopens sign-in with its message. */
  lemma RegistrationAccepted(page: Page, store: Storage.Store, email: string, message: string)
    requires message != "" && !IsToken("200" + StatusSeparator + message)
    ensures RegistrationAnswer(page, store, email, "200" + StatusSeparator + message)
      == Outcome(page, store, Some(message), true)
  {
    DecodeStatusLine("200", message, RegistrationFallback);
  }

  /** Any other status code is only reported. */
  lemma RegistrationRefused(page: Page, store: Storage.Store, email: string, code: string, message: string)
    requires ':' !in code && code != "200" && message != ""
    requires !IsToken(code + StatusSeparator + message)
    ensures RegistrationAnswer(page, store, email, code + StatusSeparator + message)
      == Outcome(page, store, Some(message), false)
  {
    DecodeStatusLine(code, message, RegistrationFallback);
  }

  /** `logout`: storage is cleared and the state signed out. */
  function Logout(store: Storage.Store): (r: (Storage.Store, Page))
    ensures r.0 == Storage.Cleared && r.1 == Page(false, "")
  {
    (Storage.Cleared, Page(false, ""))
  }

  /** Reloading after a login restores it; reloading after a logout does
      not. */
  lemma ReloadAfterAnswer(page: Page, store: Storage.Store, email: string, res: string)
    requires email != ""
    ensures IsToken(res) ==> Initial(SignInAnswer(page, store, email, res).store) == Page(true, email)
    ensures IsToken(res) ==> Initial(RegistrationAnswer(page, store, email, res).store) == Page(true, email)
    ensures Initial(Logout(store).0) == Logout(store).1
  {
  }

  /** A sign-in check that sends makes the reload after a token log in with
      the email that was sent. */
  lemma SentEmailLogsIn(page: Page, store: Storage.Store, email: string, password: string, res: string)
    requires SignIn(email, password).Send? && IsToken(res)
    ensures Initial(SignInAnswer(page, store, SignIn(email, password).request.email, res).store) == Page(true, email)
  {
  }
}
