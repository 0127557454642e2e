/**
 The login screen's submit handler (app/auth/login.tsx): it builds the error
 record field by field, and calls the auth container's login only when no
 field has an error.
 */
module LoginScreen {
  import opened FormValidation
  import Auth
  import Collections

  datatype LoginErrors = LoginErrors(email: string, password: string)

  const NoLoginErrors := LoginErrors("", "")

  /**
   The validation half of `handleLogin`: the email rule, then the password
   rule, each filling its own field of `newErrors` and raising `hasErrors`.
   */
  method ValidateLogin(email: string, password: string) returns (newErrors: LoginErrors, hasErrors: bool)
    ensures newErrors == LoginErrors(EmailError(email), PasswordError(password))
    ensures hasErrors <==> newErrors != NoLoginErrors
    ensures !hasErrors <==> ValidEmail(email) && |password| >= MinPasswordLength
  {
    hasErrors := false;
    newErrors := NoLoginErrors;

    if email == "" {
      newErrors := newErrors.(email := EmailRequired);
      hasErrors := true;
    } else if !ValidEmail(email) {
      newErrors := newErrors.(email := EmailInvalid);
      hasErrors := true;
    }

    if password == "" {
      newErrors := newErrors.(password := PasswordRequired);
      hasErrors := true;
    } else if |password| < MinPasswordLength {
      newErrors := newErrors.(password := PasswordTooShort);
      hasErrors := true;
    }
  }

  /** Whatever passes the login form's checks also passes the mock login's guard. */
  lemma FormPassesLoginGuard(email: string, password: string)
    requires EmailError(email) == "" && PasswordError(password) == ""
    ensures Auth.LoginAccepted(email, password)
  {
  }

  /**
   `handleLogin`: on any error the errors are shown and login is not called;
   otherwise the mock login is called, succeeds, and the screen navigates on.
   */
  method HandleLogin(auth: Auth.AuthProvider, email: string, password: string)
    returns (outcome: SubmitOutcome<LoginErrors>)
    modifies auth
    ensures outcome.ShowErrors? <==> !(ValidEmail(email) && |password| >= MinPasswordLength)
    ensures outcome.ShowErrors? ==>
              outcome.errors == LoginErrors(EmailError(email), PasswordError(password)) &&
              auth.user == old(auth.user)
    ensures !outcome.ShowErrors? ==>
              outcome == NavigateHome && auth.user == Collections.Some(Auth.LoginUser(email))
  {
    var newErrors, hasErrors := ValidateLogin(email, password);
    if hasErrors {
      return ShowErrors(newErrors);
    }
    FormPassesLoginGuard(email, password);
    var success := auth.Login(email, password);
    if success {
      outcome := NavigateHome;
    } else {
      outcome := AlertFailed;
    }
  }
}
