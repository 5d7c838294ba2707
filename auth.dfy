/**
 * The Auth page: sign-in and sign-up forms over one set of `loading`,
 * `error` and `success` fields, and a redirect once a user is signed in.
 *
 * Each handler awaits the session store's answer, so it is modelled as two
 * steps: the part before the `await` (Start...) and the part after it
 * (Finish...), with the answer as the second step's parameter. The
 * Handle... methods run both steps back to back.
 */
module Auth {
  import opened Wrappers
  import opened Backend

  /** The error `signIn` and `signUp` may return. */
  datatype AuthError = AuthError(message: string)

  /** The message a sign-up without error shows. */
  const VerificationMessage := "Account created successfully! Please check your email to verify your account."

  /** Where the page sends a signed-in user. */
  const DashboardPath := "/dashboard"

  /** The redirect effect: a page with a user moves to the dashboard; without one it stays. */
  function RedirectTarget(user: Option<User>): (r: Option<string>)
    ensures r.Some? <==> user.Some?
    ensures r.Some? ==> r.value == DashboardPath
  {
    if user.Some? then Some(DashboardPath) else None
  }

  /** The page's state: the three inputs and `loading`, `error`, `success`. */
  class AuthPage {
    var email: string
    var password: string
    var fullName: string
    var loading: bool
    var error: string
    var success: string

    constructor ()
      ensures email == "" && password == "" && fullName == ""
      ensures !loading && error == "" && success == ""
    {
      email, password, fullName := "", "", "";
      loading, error, success := false, "", "";
    }

    /** `handleSignIn` up to the `await`: loading, with the error cleared. */
    method StartSignIn()
      modifies this`loading, this`error
      ensures loading && error == ""
    {
      loading := true;
      error := "";
    }

    /** `handleSignIn` after the `await`: an error's message is shown; loading ends. */
    method FinishSignIn(result: Option<AuthError>)
      modifies this`loading, this`error
      ensures error == if result.Some? then result.value.message else old(error)
      ensures !loading
    {
      if result.Some? {
        error := result.value.message;
      }
      loading := false;
    }

    /**
     * `handleSignIn` as a whole: `error` ends as the returned message, or
     * empty when there was none; `success` and the inputs are untouched.
     */
    method HandleSignIn(result: Option<AuthError>)
      modifies this`loading, this`error
      ensures error == if result.Some? then result.value.message else ""
      ensures !loading
    {
      StartSignIn();
      FinishSignIn(result);
    }

    /** `handleSignUp` up to the `await`: loading, with both messages cleared. */
    method StartSignUp()
      modifies this`loading, this`error, this`success
      ensures loading && error == "" && success == ""
    {
      loading := true;
      error := "";
      success := "";
    }

    /**
     * `handleSignUp` after the `await`: an error's message, or the
     * verification message when there was no error; loading ends.
     */
    method FinishSignUp(result: Option<AuthError>)
      modifies this`loading, this`error, this`success
      ensures result.Some? ==> error == result.value.message && success == old(success)
      ensures result.None? ==> error == old(error) && success == VerificationMessage
      ensures !loading
    {
      if result.Some? {
        error := result.value.message;
      } else {
        success := VerificationMessage;
      }
      loading := false;
    }

    /**
     * `handleSignUp` as a whole: `success` holds the verification message
     * exactly when no error came back, and otherwise `error` holds the
     * message; the two are never both non-empty. The inputs are untouched.
     */
    method HandleSignUp(result: Option<AuthError>)
      modifies this`loading, this`error, this`success
      ensures result.None? ==> error == "" && success == VerificationMessage
      ensures result.Some? ==> error == result.value.message && success == ""
      ensures error == "" || success == ""
      ensures !loading
    {
      StartSignUp();
      FinishSignUp(result);
    }

    /**
     * A sign-up that succeeds followed by a sign-in that fails with a
     * non-empty message: since sign-in leaves `success` alone, the page then
     * shows the verification message and the error together.
     */
    method SignUpThenFailedSignIn(message: string)
      requires message != ""
      modifies this`loading, this`error, this`success
      ensures error == message && success == VerificationMessage
      ensures !loading
    {
      HandleSignUp(None);
      HandleSignIn(Some(AuthError(message)));
    }
  }
}
