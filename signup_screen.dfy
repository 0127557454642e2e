/**
 The signup screen's submit handler (app/auth/signup.tsx): four field rules
 (name, email, password, confirmation) fill an error record, and the auth
 container's signup is called only when all four are clean.
 */
module SignupScreen {
  import opened FormValidation
  import Auth
  import Collections

  datatype SignupErrors = SignupErrors(name: string, email: string, password: string, confirmPassword: string)

  const NoSignupErrors := SignupErrors("", "", "", "")

  const NameRequired := "Name is required"
  const ConfirmRequired := "Please confirm your password"
  const PasswordsDiffer := "Passwords do not match"

  /** The name field's message; empty means no error. */
  function NameError(name: string): (r: string)
    ensures r == "" <==> |name| >= 1
    ensures r != "" ==> r == NameRequired
  {
    if name == "" then NameRequired else ""
  }

  /** The confirmation field's message; empty means no error. */
  function ConfirmError(password: string, confirmPassword: string): (r: string)
    ensures r == "" <==> confirmPassword != "" && confirmPassword == password
    ensures r == ConfirmRequired <==> confirmPassword == ""
    ensures r == PasswordsDiffer <==> confirmPassword != "" && confirmPassword != password
  {
    if confirmPassword == "" then ConfirmRequired
    else if password != confirmPassword then PasswordsDiffer
    else ""
  }

  /** The four rules together: the form is clean exactly when every field is acceptable. */
  predicate FormValid(name: string, email: string, password: string, confirmPassword: string)
  {
    name != "" && ValidEmail(email) && |password| >= MinPasswordLength &&
    confirmPassword == password
  }

  /**
   The validation half of `handleSignup`: the name, email, password and
   confirmation rules in turn, each filling its own field of `newErrors`.
   */
  method ValidateSignup(name: string, email: string, password: string, confirmPassword: string)
    returns (newErrors: SignupErrors, hasErrors: bool)
    ensures newErrors == SignupErrors(NameError(name), EmailError(email), PasswordError(password),
                                      ConfirmError(password, confirmPassword))
    ensures hasErrors <==> newErrors != NoSignupErrors
    ensures !hasErrors <==> FormValid(name, email, password, confirmPassword)
  {
    hasErrors := false;
    newErrors := NoSignupErrors;

    if name == "" {
      newErrors := newErrors.(name := NameRequired);
      hasErrors := true;
    }

    if email == "" {
      newErrors := newErrors.(email := EmailRequired);
      hasErrors := true;
    } else if !ValidEmail(email) {
      newErrors := newErrors.(email := EmailInvalid);
      hasErrors := true;
    }

    if password == "" {
      newErrors := newErrors.(password := PasswordRequired);
      hasErrors := true;
    } else if |password| < MinPasswordLength {
      newErrors := newErrors.(password := PasswordTooShort);
      hasErrors := true;
    }

    if confirmPassword == "" {
      newErrors := newErrors.(confirmPassword := ConfirmRequired);
      hasErrors := true;
    } else if password != confirmPassword {
      newErrors := newErrors.(confirmPassword := PasswordsDiffer);
      hasErrors := true;
    }
  }

  /**
   Whatever passes the signup form's checks passes the mock signup's guard,
   and its confirmation equals its password.
   */
  lemma FormPassesSignupGuard(name: string, email: string, password: string, confirmPassword: string)
    requires NameError(name) == "" && EmailError(email) == ""
    requires PasswordError(password) == "" && ConfirmError(password, confirmPassword) == ""
    ensures Auth.SignupAccepted(email, password, name)
    ensures confirmPassword == password
  {
  }

  /**
   `handleSignup`: on any error the errors are shown and signup is not called;
   otherwise the mock signup is called with (email, password, name), succeeds,
   and the screen navigates on.
   */
  method HandleSignup(auth: Auth.AuthProvider, name: string, email: string, password: string,
                      confirmPassword: string)
    returns (outcome: SubmitOutcome<SignupErrors>)
    modifies auth
    ensures outcome.ShowErrors? <==> !FormValid(name, email, password, confirmPassword)
    ensures outcome.ShowErrors? ==>
              outcome.errors == SignupErrors(NameError(name), EmailError(email), PasswordError(password),
                                             ConfirmError(password, confirmPassword)) &&
              auth.user == old(auth.user)
    ensures !outcome.ShowErrors? ==>
              outcome == NavigateHome && auth.user == Collections.Some(Auth.SignupUser(email, name))
  {
    var newErrors, hasErrors := ValidateSignup(name, email, password, confirmPassword);
    if hasErrors {
      return ShowErrors(newErrors);
    }
    FormPassesSignupGuard(name, email, password, confirmPassword);
    var success := auth.Signup(email, password, name);
    if success {
      outcome := NavigateHome;
    } else {
      outcome := AlertFailed;
    }
  }
}
