/** The sign-in screen: it redirects an authenticated visitor to the dashboard,
    validates the credentials, calls `login`, and then navigates or reports
    the failure, with a flag that disables the button while the call runs. */
module LoginPage {
  import opened Wrappers

  const DashboardPath := "/admin/dashboard"

  /** What the page renders. */
  datatype LoginView = RedirectTo(path: string, replace: bool) | ShowForm

  /** An authenticated visitor is sent to the dashboard, replacing the history
      entry; anyone else sees the form (also while the session is loading). */
  function Render(isAuthenticated: bool): (v: LoginView)
    ensures v.RedirectTo? <==> isAuthenticated
    ensures v.RedirectTo? ==> v.path == DashboardPath && v.replace
  {
    if isAuthenticated then RedirectTo(DashboardPath, true) else ShowForm
  }

  datatype LoginField = EmailField | PasswordField

  /** The schema's keys in declaration order, which is the order of its errors. */
  const SchemaOrder: seq<LoginField> := [EmailField, PasswordField]

  datatype Credentials = Credentials(email: string, password: string)

  /** The pre-filled demo credentials. */
  const DefaultCredentials := Credentials("admin@techstartup.com", "password123")

  /** When `loginSchema` rejects a field; `isEmail` is the schema library's address check. */
  predicate Rejected(c: Credentials, f: LoginField, isEmail: string -> bool) {
    match f
    case EmailField => !isEmail(c.email)
    case PasswordField => c.password == []
  }

  function ErrorMessage(f: LoginField): string {
    match f
    case EmailField => "Please enter a valid email"
    case PasswordField => "Password is required"
  }

  /** `loginSchema`: the credentials pass exactly when neither field is
      rejected; otherwise each rejected field, and only those, carries its message. */
  function ValidateLogin(c: Credentials, isEmail: string -> bool): (v: Validation<Credentials, LoginField>)
    ensures v.Valid? <==> forall f :: !Rejected(c, f, isEmail)
    ensures v.Valid? ==> v.value == c
    ensures v.Invalid? ==> forall f :: HasErrorFor(v.errors, f) <==> Rejected(c, f, isEmail)
    ensures v.Invalid? ==> forall e :: e in v.errors ==> e.message == ErrorMessage(e.field)
  {
    var errors := FieldErrors(SchemaOrder, f => Rejected(c, f, isEmail), ErrorMessage);
    assert forall f :: Rejected(c, f, isEmail) ==> HasErrorFor(errors, f) by {
      forall f | Rejected(c, f, isEmail) ensures HasErrorFor(errors, f) {
        assert f == SchemaOrder[if f == EmailField then 0 else 1];
      }
    }
    if errors != [] then
      assert errors[0] in errors;
      Invalid(errors)
    else
      Valid(c)
  }

  /** The demo credentials pass whenever the address check accepts the demo address. */
  lemma DefaultsPass(isEmail: string -> bool)
    requires isEmail(DefaultCredentials.email)
    ensures ValidateLogin(DefaultCredentials, isEmail) == Valid(DefaultCredentials)
  {
    assert forall f :: !Rejected(DefaultCredentials, f, isEmail);
  }

  class Controller {
    var isSubmitting: bool

    constructor ()
      ensures !isSubmitting
    {
      isSubmitting := false;
    }

    /** The submit button is enabled unless a sign-in is running or the session is loading. */
    predicate SubmitEnabled(authLoading: bool)
      reads this
    {
      !isSubmitting && !authLoading
    }

    /** Submitting the form. With the button disabled nothing happens; invalid
        credentials only show their errors; valid ones raise the flag and are
        passed to `login` (returned here as the call to make). */
    method Submit(c: Credentials, isEmail: string -> bool, authLoading: bool)
      returns (call: Option<Credentials>, errors: seq<FieldError<LoginField>>)
      modifies this`isSubmitting
      ensures call.Some? <==> old(SubmitEnabled(authLoading)) && forall f :: !Rejected(c, f, isEmail)
      ensures call.Some? ==> call.value == c && isSubmitting
      ensures call.None? ==> isSubmitting == old(isSubmitting)
      ensures old(SubmitEnabled(authLoading)) ==> forall f :: HasErrorFor(errors, f) <==> Rejected(c, f, isEmail)
      ensures !old(SubmitEnabled(authLoading)) ==> errors == []
    {
      call, errors := None, [];
      if !SubmitEnabled(authLoading) {
        return;
      }
      var v := ValidateLogin(c, isEmail);
      match v {
        case Valid(creds) =>
          isSubmitting := true;
          call := Some(creds);
        case Invalid(es) =>
          errors := es;
      }
    }

    /** `onSubmit` after `await login(...)`. `true` greets and navigates to the
        dashboard; `false` reports the failure and stays; both lower the flag.
        A rejected call ends the handler at the await: no toast, no navigation,
        and the flag stays raised. */
    method LoginSettled(result: ApiResult<bool>) returns (notice: Notice, navigateTo: Option<string>)
      modifies this`isSubmitting
      ensures result.Success? ==> !isSubmitting
      ensures navigateTo.Some? <==> result == Success(true)
      ensures navigateTo.Some? ==> navigateTo.value == DashboardPath
      ensures result == Success(true) ==> notice == Ok("Welcome back!", "You have successfully logged in.")
      ensures result == Success(false) ==> notice == Error("Login failed", "Please check your credentials and try again.")
      ensures result.Failure? ==> notice == Silent && isSubmitting == old(isSubmitting)
    {
      match result {
        case Success(ok) =>
          if ok {
            notice := Ok("Welcome back!", "You have successfully logged in.");
            navigateTo := Some(DashboardPath);
          } else {
            notice := Error("Login failed", "Please check your credentials and try again.");
            navigateTo := None;
          }
          isSubmitting := false;
        case Failure(_) =>
          notice := Silent;
          navigateTo := None;
      }
    }
  }

  /** A whole sign-in from an idle page: a resolved call always leaves the
      button enabled again (once the session is not loading), and only a
      `true` result leaves the page. */
  method SignIn(page: Controller, c: Credentials, isEmail: string -> bool, result: ApiResult<bool>)
    returns (navigateTo: Option<string>)
    requires !page.isSubmitting
    modifies page
    ensures navigateTo.Some? <==> (forall f :: !Rejected(c, f, isEmail)) && result == Success(true)
    ensures result.Success? ==> page.SubmitEnabled(false)
  {
    var call, _ := page.Submit(c, isEmail, false);
    navigateTo := None;
    if call.Some? {
      var _, nav := page.LoginSettled(result);
      navigateTo := nav;
    }
  }
}
