/**
 The mock authentication container (app/context/AuthContext.tsx): the current
 user or none, with login and signup that check the credentials locally and
 synthesise the user, and logout.
 */
module Auth {
  import opened Collections
  import JsStrings

  datatype User = User(id: string, email: string, name: string, isAdmin: bool)

  /** The mock login guard `email && password.length >= 6`. */
  predicate LoginAccepted(email: string, password: string)
    ensures LoginAccepted(email, password) ==> |email| >= 1 && |password| >= 6
    ensures |email| >= 1 && |password| >= 6 ==> LoginAccepted(email, password)
  {
    email != "" && |password| >= 6
  }

  /** The mock signup guard `email && password.length >= 6 && name`. */
  predicate SignupAccepted(email: string, password: string, name: string)
    ensures SignupAccepted(email, password, name) <==>
            |email| >= 1 && |password| >= 6 && |name| >= 1
  {
    LoginAccepted(email, password) && name != ""
  }

  /**
   The user a successful login creates: id "1", the email as given, the text
   before the first '@' as the name, and admin rights when "admin" occurs in
   the email.
   */
  function LoginUser(email: string): (u: User)
    ensures u.id == "1" && u.email == email
    ensures '@' !in u.name && |u.name| <= |email| && u.name == email[..|u.name|]
    ensures |u.name| < |email| ==> email[|u.name|] == '@'
    ensures u.isAdmin <==> JsStrings.Includes(email, "admin")
  {
    User("1", email, JsStrings.BeforeFirst(email, '@'), JsStrings.Includes(email, "admin"))
  }

  /** The user a successful signup creates: never an administrator. */
  function SignupUser(email: string, name: string): (u: User)
    ensures u.id == "1" && u.email == email && u.name == name && !u.isAdmin
  {
    User("1", email, name, false)
  }

  /** Every form that signup accepts is also accepted by login. */
  lemma SignupImpliesLogin(email: string, password: string, name: string)
    requires SignupAccepted(email, password, name)
    ensures LoginAccepted(email, password)
  {
  }

  /** The name login derives is the local part: the email is name, '@', domain. */
  lemma LoginNameIsLocalPart(email: string)
    requires '@' in email
    ensures email == LoginUser(email).name + "@" + email[|LoginUser(email).name| + 1..]
  {
  }

  /** A five-character password is refused, a six-character one accepted. */
  lemma MockPasswordLength()
    ensures !LoginAccepted("user@test.com", "12345")
    ensures LoginAccepted("user@test.com", "123456")
  {
  }

  /** "user@test.com" logs in under the name "user". */
  lemma MockPlainUserName()
    ensures LoginUser("user@test.com").name == "user"
  {
  }

  /** "user@test.com" is not an administrator. */
  lemma MockPlainUserNotAdmin()
    ensures !LoginUser("user@test.com").isAdmin
  {
    var u := "user@test.com";
    assert forall k :: 0 <= k < |u| ==> u[k] != 'a';
    forall i | 0 <= i <= |u| - 5 ensures !JsStrings.OccursAt(u, "admin", i) {
      assert u[i..i + 5][0] == u[i];
    }
  }

  /** "admin@test.com" logs in with administrator rights. */
  lemma MockAdminUser()
    ensures LoginUser("admin@test.com").isAdmin
  {
    assert JsStrings.OccursAt("admin@test.com", "admin", 0);
  }

  /** The container: the `user` state cell, initially signed out. */
  class AuthProvider {
    var user: Option<User>

    constructor ()
      ensures user == None
    {
      user := None;
    }

    /** `isAuthenticated: !!user`. */
    function IsAuthenticated(): (b: bool)
      reads this
      ensures b <==> user.Some?
    {
      user.Some?
    }

    method Login(email: string, password: string) returns (success: bool)
      modifies this
      ensures success <==> LoginAccepted(email, password)
      ensures success ==> user == Some(LoginUser(email))
      ensures !success ==> user == old(user)
    {
      if email != "" && |password| >= 6 {
        var isAdmin := JsStrings.Includes(email, "admin");
        user := Some(User("1", email, JsStrings.BeforeFirst(email, '@'), isAdmin));
        return true;
      }
      return false;
    }

    method Signup(email: string, password: string, name: string) returns (success: bool)
      modifies this
      ensures success <==> SignupAccepted(email, password, name)
      ensures success ==> user == Some(SignupUser(email, name))
      ensures !success ==> user == old(user)
    {
      if email != "" && |password| >= 6 && name != "" {
        user := Some(User("1", email, name, false));
        return true;
      }
      return false;
    }

    method Logout()
      modifies this
      ensures user == None
      ensures !IsAuthenticated()
    {
      user := None;
    }
  }
}
