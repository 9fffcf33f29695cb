/** The sign-in / sign-up dialog of the home page: editing a field, the form
    validation, and what a submission does with the backend's answer. */
module AuthModal {
  import opened Base
  import opened Strings
  import opened Auth
  import Storage

  datatype Mode = Login | Signup

  datatype Form = Form(fullname: string, email: string, role: string, password: string, confirmPassword: string)

  const EmptyForm: Form := Form("", "", "", "", "")

  /** `formData[field]`. */
  function Get(form: Form, field: Field): string {
    match field
    case Fullname => form.fullname
    case Email => form.email
    case Role => form.role
    case Password => form.password
    case ConfirmPassword => form.confirmPassword
  }

  /** `{ ...formData, [field]: value }`. */
  function Set(form: Form, field: Field, value: string): (r: Form)
    ensures Get(r, field) == value
    ensures forall g :: g != field ==> Get(r, g) == Get(form, g)
  {
    match field
    case Fullname => form.(fullname := value)
    case Email => form.(email := value)
    case Role => form.(role := value)
    case Password => form.(password := value)
    case ConfirmPassword => form.(confirmPassword := value)
  }

  /** The error messages shown under the fields; a key may hold "" once its
      field was edited. */
  type Errors = map<Field, string>

  /** `handleInputChange`: the field takes the value, and its error, when
      one is shown, is blanked; the set of keys and every other error stay. */
  function InputChange(form: Form, errors: Errors, field: Field, value: string): (r: (Form, Errors))
    ensures Get(r.0, field) == value
    ensures forall g :: g != field ==> Get(r.0, g) == Get(form, g)
    ensures r.1.Keys == errors.Keys
    ensures forall g :: g in errors && g != field ==> r.1[g] == errors[g]
    ensures field in errors ==> r.1[field] == ""
  {
    var errors' := if field in errors && errors[field] != "" then errors[field := ""] else errors;
    (Set(form, field, value), errors')
  }

  /** A change leaves no shown error on the edited field, so a second change
      of that field only replaces the value. */
  lemma InputChangeTwice(form: Form, errors: Errors, field: Field, v1: string, v2: string)
    ensures var r := InputChange(form, errors, field, v1);
      InputChange(r.0, r.1, field, v2) == (Set(form, field, v2), r.1)
  {
    var r := InputChange(form, errors, field, v1);
    var g := Set(form, field, v2);
    forall f: Field ensures Get(Set(r.0, field, v2), f) == Get(g, f) {}
    assert Set(r.0, field, v2) == g by {
      assert Get(Set(r.0, field, v2), Fullname) == Get(g, Fullname);
      assert Get(Set(r.0, field, v2), Email) == Get(g, Email);
      assert Get(Set(r.0, field, v2), Role) == Get(g, Role);
      assert Get(Set(r.0, field, v2), Password) == Get(g, Password);
      assert Get(Set(r.0, field, v2), ConfirmPassword) == Get(g, ConfirmPassword);
    }
  }

  const FullnameRequired: string := "Full name is required"
  const RoleRequired: string := "Role is required"
  const ConfirmRequired: string := "Please confirm your password"
  const Mismatch: string := "Passwords do not match"
  const EmailRequired: string := "Email is required"
  const PasswordRequired: string := "Password is required"

  /** The checks made only in sign-up mode, in their order; a mismatch
      overrides the missing confirmation. */
  function SignupErrors(form: Form): (e: Errors)
    ensures e.Keys <= {Fullname, Role, ConfirmPassword}
    ensures Fullname in e <==> Trim(form.fullname) == ""
    ensures Role in e <==> form.role == ""
    ensures ConfirmPassword in e <==> form.confirmPassword == "" || form.password != form.confirmPassword
    ensures Fullname in e ==> e[Fullname] == FullnameRequired
    ensures Role in e ==> e[Role] == RoleRequired
    ensures ConfirmPassword in e ==>
      e[ConfirmPassword] == if form.password != form.confirmPassword then Mismatch else ConfirmRequired
  {
    var e0: Errors := map[];
    var e1 := if Trim(form.fullname) == "" then e0[Fullname := FullnameRequired] else e0;
    var e2 := if form.role == "" then e1[Role := RoleRequired] else e1;
    var e3 := if form.confirmPassword == "" then e2[ConfirmPassword := ConfirmRequired] else e2;
    if form.password != form.confirmPassword then e3[ConfirmPassword := Mismatch] else e3
  }

  /** The checks made in both modes. */
  function CommonErrors(form: Form): (e: Errors)
    ensures e.Keys <= {Email, Password}
    ensures Email in e <==> Trim(form.email) == ""
    ensures Password in e <==> form.password == ""
    ensures Email in e ==> e[Email] == EmailRequired
    ensures Password in e ==> e[Password] == PasswordRequired
  {
    var e0: Errors := map[];
    var e1 := if Trim(form.email) == "" then e0[Email := EmailRequired] else e0;
    if form.password == "" then e1[Password := PasswordRequired] else e1
  }

  /** `validateForm`: the errors of a form. Name and email count as missing
      when they are blank after trimming; role and passwords only when empty. */
  function Validate(mode: Mode, form: Form): (e: Errors)
    ensures mode == Login ==> e == CommonErrors(form)
    ensures mode == Signup ==> e.Keys == SignupErrors(form).Keys + CommonErrors(form).Keys
    ensures mode == Signup ==> forall f :: f in SignupErrors(form) ==> e[f] == SignupErrors(form)[f]
    ensures forall f :: f in CommonErrors(form) ==> e[f] == CommonErrors(form)[f]
  {
    if mode == Login then CommonErrors(form) else SignupErrors(form) + CommonErrors(form)
  }

  /** `Object.keys(newErrors).length === 0`. */
  predicate Valid(mode: Mode, form: Form) {
    Validate(mode, form) == map[]
  }

  /** A login form is valid exactly when the email is not blank and the
      password not empty. */
  lemma LoginValidIff(form: Form)
    ensures Valid(Login, form) <==> Trim(form.email) != "" && form.password != ""
  {
    var e := Validate(Login, form);
    if Trim(form.email) != "" && form.password != "" {
      assert e.Keys <= {Email, Password};
      assert e.Keys == {};
    }
  }

  /** A sign-up form is valid exactly when every field is filled and the
      two passwords agree. */
  lemma SignupValidIff(form: Form)
    ensures Valid(Signup, form) <==>
      && Trim(form.fullname) != "" && Trim(form.email) != "" && form.role != ""
      && form.password != "" && form.password == form.confirmPassword
  {
    var e := Validate(Signup, form);
    if && Trim(form.fullname) != "" && Trim(form.email) != "" && form.role != ""
       && form.password != "" && form.password == form.confirmPassword
    {
      forall f: Field ensures f !in e {
        match f
        case Fullname =>
        case Email =>
        case Role =>
        case Password =>
        case ConfirmPassword =>
      }
      assert e.Keys == {};
    }
  }

  /** The body posted to `signin` or `signup`; the values are sent as typed,
      untrimmed, and the confirmation is not sent. */
  function Payload(mode: Mode, form: Form): (q: Request)
    ensures q.SignIn? <==> mode == Login
    ensures q.email == form.email && q.password == form.password
    ensures q.SignUp? ==> q.fullname == form.fullname && q.role == form.role
  {
    if mode == Login then SignIn(form.email, form.password)
    else SignUp(form.fullname, form.email, form.role, form.password)
  }

  /** What the dialog does after a submission: a switch to login comes
      with its own notice. */
  datatype Effect =
    | Nothing
    | LoggedIn(displayName: string)
    | SwitchToLogin(message: string)
    | Alert(message: string)

  /** The dialog's state after `handleSubmit`: the errors shown, the request
      sent if any, the effect, the form and the storage. */
  datatype Submission = Submission(errors: Errors, request: Option<Request>, effect: Effect, form: Form, store: Storage.Store)

  const AuthFallback: string := "Authentication failed"
  const RegistrationSuccess: string := "Registration successful! Please sign in."
  const NetworkError: string := "Network error. Please try again."

  /** The answer to a valid submission. `profileName` is the `fullname` of
      the profile fetched with the token (`None` when that request failed,
      was not ok or carried none). */
  function Answer(mode: Mode, form: Form, store: Storage.Store, response: Fetched<string>, profileName: Option<string>): (r: (Effect, Form, Storage.Store))
    ensures response.Threw? ==> r == (Alert(NetworkError), form, store)
    ensures response.Got? && IsToken(response.value) ==>
      && r.1 == EmptyForm
      && r.2.authToken == Some(response.value) && r.2.userEmail == Some(form.email)
      && r.2.userFullname == (if Has(profileName) then profileName else store.userFullname)
      && r.0 == LoggedIn(if Has(profileName) then profileName.value else form.email)
      && r.2.bookmarks == store.bookmarks && r.2.favorites == store.favorites
      && r.2.bookmarkedArticles == store.bookmarkedArticles
    ensures response.Got? && !IsToken(response.value) ==>
      var s := Decode(response.value, AuthFallback);
      && r.1 == form && r.2 == store
      && r.0 == (if s.code == "200" && mode == Signup then SwitchToLogin(RegistrationSuccess) else Alert(s.message))
  {
    match response
    case Threw => (Alert(NetworkError), form, store)
    case Got(res) =>
      if IsToken(res) then
        var store' := store.(authToken := Some(res), userEmail := Some(form.email));
        if Has(profileName) then
          (LoggedIn(profileName.value), EmptyForm, store'.(userFullname := profileName))
        else (LoggedIn(form.email), EmptyForm, store')
      else
        var s := Decode(res, AuthFallback);
        (if s.code == "200" && mode == Signup then SwitchToLogin(RegistrationSuccess) else Alert(s.message), form, store)
  }

  /** `handleSubmit`: an invalid form shows its errors and sends nothing. */
  function Submit(mode: Mode, form: Form, store: Storage.Store, response: Fetched<string>, profileName: Option<string>): (r: Submission)
    ensures r.errors == Validate(mode, form)
    ensures r.request.None? <==> !Valid(mode, form)
    ensures r.request.None? ==> r.effect == Nothing && r.form == form && r.store == store
    ensures r.request.Some? ==> r.request.value == Payload(mode, form)
    ensures r.request.Some? ==> (r.effect, r.form, r.store) == Answer(mode, form, store, response, profileName)
  {
    var errors := Validate(mode, form);
    if errors != map[] then Submission(errors, None, Nothing, form, store)
    else
      var a := Answer(mode, form, store, response, profileName);
      Submission(errors, Some(Payload(mode, form)), a.0, a.1, a.2)
  }

  /** A login greets the user by a non-empty name, and every alert, the
      registration notice included, has a message. */
  lemma EffectsCarryText(mode: Mode, form: Form, store: Storage.Store, response: Fetched<string>, profileName: Option<string>)
    requires Valid(mode, form)
    ensures var r := Submit(mode, form, store, response, profileName);
      && (r.effect.LoggedIn? ==> r.effect.displayName != "")
      && (r.effect.Alert? ==> r.effect.message != "")
      && (r.effect.SwitchToLogin? ==> r.effect.message == RegistrationSuccess)
  {
    var e := Validate(mode, form);
    assert Email !in e;
  }

  /** The backend's "200::…" answer to a sign-up announces the registration
      and switches the dialog to login; the same answer to a login is shown
      as an alert. */
  lemma RegistrationAccepted(form: Form, store: Storage.Store, message: string, profileName: Option<string>)
    requires message != "" && !IsToken("200" + StatusSeparator + message)
    ensures Answer(Signup, form, store, Got("200" + StatusSeparator + message), profileName).0 == SwitchToLogin(RegistrationSuccess)
    ensures Answer(Login, form, store, Got("200" + StatusSeparator + message), profileName).0 == Alert(message)
  {
    DecodeStatusLine("200", message, AuthFallback);
  }
}
