/**
 The field rules the login and signup screens share (app/auth/login.tsx and
 app/auth/signup.tsx): the email pattern `^[^\s@]+@[^\s@]+\.[^\s@]+$` and the
 required-then-format rules for the email and password fields.
 */
module FormValidation {
  import opened JsStrings
  import Collections

  /** One character of the class `[^\s@]`. */
  predicate EmailChar(c: char)
  {
    !IsSpace(c) && c != '@'
  }

  /** A run of `[^\s@]` (possibly empty; the pattern's `+` is stated where it is used). */
  predicate AllEmailChars(s: string)
  {
    forall k :: 0 <= k < |s| ==> EmailChar(s[k])
  }

  /**
   `s` matches the pattern with its '@' at `at` and the '.' it uses at `dot`:
   a non-empty run before the '@', a non-empty run between it and the dot, and
   a non-empty run after the dot, each run free of whitespace and '@'.
   */
  predicate EmailSplit(s: string, at: int, dot: int)
  {
    0 < at && at + 1 < dot && dot + 1 < |s| &&
    s[at] == '@' && s[dot] == '.' &&
    AllEmailChars(s[..at]) && AllEmailChars(s[at + 1..dot]) && AllEmailChars(s[dot + 1..])
  }

  /** `validateEmail`: the anchored pattern matches the whole string. */
  predicate ValidEmail(s: string)
    ensures ValidEmail(s) ==> |s| >= 5 && '@' in s && '.' in s
  {
    exists at, dot | 0 <= at < |s| && 0 <= dot < |s| :: EmailSplit(s, at, dot)
  }

  function IsAt(c: char): bool
  {
    c == '@'
  }

  /** The domain has a '.' with something on both sides of it. */
  predicate HasInnerDot(d: string)
  {
    exists k :: 0 < k < |d| - 1 && d[k] == '.'
  }

  /**
   The pattern in words: no whitespace, exactly one '@', something before it,
   and after it a '.' that is neither the first nor the last character.
   */
  predicate EmailShape(s: string)
  {
    (forall k :: 0 <= k < |s| ==> !IsSpace(s[k])) &&
    Collections.Count(s, IsAt) == 1 &&
    exists at :: 0 < at < |s| && s[at] == '@' && HasInnerDot(s[at + 1..])
  }

  lemma CountAround(s: string, at: int)
    requires 0 <= at < |s| && s[at] == '@'
    ensures Collections.Count(s, IsAt) ==
            Collections.Count(s[..at], IsAt) + 1 + Collections.Count(s[at + 1..], IsAt)
  {
    assert s == s[..at] + [s[at]] + s[at + 1..];
    Collections.CountAppend(s[..at] + [s[at]], s[at + 1..], IsAt);
    Collections.CountAppend(s[..at], [s[at]], IsAt);
  }

  lemma MatchHasShape(s: string, at: int, dot: int)
    requires EmailSplit(s, at, dot)
    ensures EmailShape(s)
  {
    var local, host, tld := s[..at], s[at + 1..dot], s[dot + 1..];
    assert forall k :: at < k < dot ==> s[k] == host[k - at - 1];
    assert forall k :: dot < k < |s| ==> s[k] == tld[k - dot - 1];
    assert forall k :: 0 <= k < at ==> s[k] == local[k];
    var domain := s[at + 1..];
    forall k | 0 <= k < |domain| ensures !IsAt(domain[k]) {
      assert domain[k] == s[at + 1 + k];
    }
    Collections.CountZero(domain, IsAt);
    Collections.CountZero(local, IsAt);
    CountAround(s, at);
    assert domain[dot - at - 1] == '.';
  }

  /** A slice whose characters are all of the class `[^\s@]` is a run of them. */
  lemma SliceEmailChars(s: string, i: int, j: int)
    requires 0 <= i <= j <= |s|
    requires forall k :: i <= k < j ==> EmailChar(s[k])
    ensures AllEmailChars(s[i..j])
  {
    assert forall k :: 0 <= k < j - i ==> s[i..j][k] == s[i + k];
  }

  /** Outside position `at`, a string of that shape has no '@'. */
  lemma ShapeSingleAt(s: string, at: int)
    requires EmailShape(s) && 0 < at < |s| && s[at] == '@'
    ensures forall m :: 0 <= m < |s| && m != at ==> s[m] != '@'
  {
    var domain := s[at + 1..];
    CountAround(s, at);
    Collections.CountZero(s[..at], IsAt);
    Collections.CountZero(domain, IsAt);
    assert forall m :: 0 <= m < at ==> s[..at][m] == s[m];
    assert forall m :: at < m < |s| ==> s[m] == domain[m - at - 1];
  }

  lemma ShapeHasMatch(s: string)
    requires EmailShape(s)
    ensures ValidEmail(s)
  {
    var at :| 0 < at < |s| && s[at] == '@' && HasInnerDot(s[at + 1..]);
    var domain := s[at + 1..];
    var k :| 0 < k < |domain| - 1 && domain[k] == '.';
    var dot := at + 1 + k;
    ShapeSingleAt(s, at);
    assert s[dot] == '.' by { assert domain[k] == s[dot]; }
    SliceEmailChars(s, 0, at);
    SliceEmailChars(s, at + 1, dot);
    SliceEmailChars(s, dot + 1, |s|);
    assert s[..at] == s[0..at] && s[dot + 1..] == s[dot + 1..|s|];
    assert EmailSplit(s, at, dot);
  }

  /** The pattern accepts exactly the strings its description in words allows. */
  lemma ValidEmailIffShape(s: string)
    ensures ValidEmail(s) <==> EmailShape(s)
  {
    if ValidEmail(s) {
      var at, dot :| 0 <= at < |s| && 0 <= dot < |s| && EmailSplit(s, at, dot);
      MatchHasShape(s, at, dot);
    }
    if EmailShape(s) {
      ShapeHasMatch(s);
    }
  }

  const EmailRequired := "Email is required"
  const EmailInvalid := "Please enter a valid email"
  const PasswordRequired := "Password is required"
  const PasswordTooShort := "Password must be at least 6 characters"

  /** The least password length either form accepts. */
  const MinPasswordLength := 6

  /** The email field's message; empty means no error. */
  function EmailError(email: string): (r: string)
    ensures r == "" <==> ValidEmail(email)
    ensures r == EmailRequired <==> email == ""
    ensures r == EmailInvalid <==> email != "" && !ValidEmail(email)
  {
    if email == "" then EmailRequired
    else if !ValidEmail(email) then EmailInvalid
    else ""
  }

  /** The password field's message; empty means no error. */
  function PasswordError(password: string): (r: string)
    ensures r == "" <==> |password| >= MinPasswordLength
    ensures r == PasswordRequired <==> password == ""
    ensures r == PasswordTooShort <==> 0 < |password| < MinPasswordLength
  {
    if password == "" then PasswordRequired
    else if |password| < MinPasswordLength then PasswordTooShort
    else ""
  }

  /** What a submit handler ends in: the errors shown, navigation, or a failure alert. */
  datatype SubmitOutcome<E> = ShowErrors(errors: E) | NavigateHome | AlertFailed
}
