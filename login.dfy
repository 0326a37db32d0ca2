/** The sign-in / sign-up page (frontend/src/pages/Login.jsx). The
    authentication service is a parameter: the error message it answers
    with, if any. */
module Login {
  import opened Common

  datatype Form = Form(email: string, password: string, confirmPassword: string)

  /** The three inputs, by their `name` attribute. */
  datatype Field = Email | Password | ConfirmPassword

  const EmptyForm: Form := Form("", "", "")

  const MismatchError: string := "Passwords do not match"
  const LengthError: string := "Password must be at least 6 characters"
  const MinPasswordLength: nat := 6

  /** The sign-up checks, in order: confirmation first, then length. */
  function SignUpProblem(f: Form): (r: Option<string>)
    ensures r == Some(MismatchError) <==> f.password != f.confirmPassword
    ensures r == Some(LengthError) <==> f.password == f.confirmPassword && |f.password| < MinPasswordLength
    ensures r.None? <==> f.password == f.confirmPassword && |f.password| >= MinPasswordLength
  {
    if f.password != f.confirmPassword then Some(MismatchError)
    else if |f.password| < MinPasswordLength then Some(LengthError)
    else None
  }

  /** A short password that is also mistyped reports the mismatch; a
      six-character password that matches passes. */
  lemma SignUpBoundaries(email: string)
    ensures SignUpProblem(Form(email, "abc", "abd")) == Some(MismatchError)
    ensures SignUpProblem(Form(email, "abcdef", "abcdef")).None?
    ensures SignUpProblem(Form(email, "abcde", "abcde")) == Some(LengthError)
  {
  }

  /** `searchParams.get('redirect') || '/'`. */
  function RedirectTarget(redirect: Option<string>): (r: string)
    ensures r != ""
    ensures redirect.Some? && redirect.value != "" ==> r == redirect.value
    ensures redirect.None? || redirect.value == "" ==> r == "/"
  {
    if redirect.Some? && redirect.value != "" then redirect.value else "/"
  }

  /** The call made to the authentication service, if any. */
  datatype AuthCall = NoCall | SignUp(email: string, password: string) | SignIn(email: string, password: string)

  class LoginPage {
    var isSignUp: bool
    var form: Form
    var error: string
    var loading: bool

    constructor ()
      ensures !isSignUp && form == EmptyForm && error == "" && !loading
    {
      isSignUp, form, error, loading := false, EmptyForm, "", false;
    }

    /** `handleInputChange`: one field takes the typed value, and the error clears. */
    method HandleInputChange(field: Field, value: string)
      modifies this`form, this`error
      ensures error == ""
      ensures form == match field
        case Email => old(form).(email := value)
        case Password => old(form).(password := value)
        case ConfirmPassword => old(form).(confirmPassword := value)
    {
      match field {
        case Email => form := form.(email := value);
        case Password => form := form.(password := value);
        case ConfirmPassword => form := form.(confirmPassword := value);
      }
      error := "";
    }

    /** The "Sign up" / "Sign in" link: the other mode, no error, an empty form. */
    method ToggleMode()
      modifies this`isSignUp, this`error, this`form
      ensures isSignUp == !old(isSignUp) && error == "" && form == EmptyForm
    {
      isSignUp := !isSignUp;
      error := "";
      form := EmptyForm;
    }

    /** `handleSubmit`. `authError` is the service's answer to the call it
        makes; `redirect` the page's `redirect` query parameter. Returns the
        call made and where the page navigates. */
    method HandleSubmit(authError: Option<string>, redirect: Option<string>) returns (call: AuthCall, navigateTo: Option<string>)
      modifies this`isSignUp, this`form, this`error, this`loading
      ensures !loading
      ensures old(isSignUp) && SignUpProblem(old(form)).Some? ==>
        && call == NoCall && navigateTo.None?
        && error == SignUpProblem(old(form)).value
        && isSignUp && form == old(form)
      ensures old(isSignUp) && SignUpProblem(old(form)).None? ==>
        && call == SignUp(old(form).email, old(form).password) && navigateTo.None?
        && (authError.Some? ==> error == authError.value && isSignUp && form == old(form))
        && (authError.None? ==> error == "" && !isSignUp && form == old(form).(password := "", confirmPassword := ""))
      ensures !old(isSignUp) ==>
        && call == SignIn(old(form).email, old(form).password)
        && isSignUp == old(isSignUp) && form == old(form)
        && (authError.Some? ==> error == authError.value && navigateTo.None?)
        && (authError.None? ==> error == "" && navigateTo == Some(RedirectTarget(redirect)))
    {
      error := "";
      loading := true;
      navigateTo := None;
      if isSignUp {
        if form.password != form.confirmPassword {
          error := MismatchError;
          loading := false;
          return NoCall, None;
        }
        if |form.password| < MinPasswordLength {
          error := LengthError;
          loading := false;
          return NoCall, None;
        }
        call := SignUp(form.email, form.password);
        if authError.Some? {
          error := authError.value;
        } else {
          isSignUp := false;
          form := form.(password := "", confirmPassword := "");
        }
      } else {
        call := SignIn(form.email, form.password);
        if authError.Some? {
          error := authError.value;
        } else {
          navigateTo := Some(RedirectTarget(redirect));
        }
      }
      loading := false;
    }
  }
}
