/**
  The registration screen of the InstantDoc app: the e-mail format check and
  the guards that run before the registration request is sent.
 */
module Register {
  import opened Js

  // ---------------------------------------------------------------------
  // The e-mail check: `/\S+@\S+\.\S+/.test(email)`
  // ---------------------------------------------------------------------

  /** `s[lo..hi]` is a non-empty run of non-white-space characters (a `\S+`). */
  predicate NonBlankRun(s: string, lo: int, hi: int)
  {
    0 <= lo < hi <= |s| && forall i | lo <= i < hi :: !IsWhitespace(s[i])
  }

  /**
    The pattern matches `s[start..end]`: a `\S+` run, `@` at `at`, a `\S+`
    run, `.` at `dot`, and a `\S+` run.
   */
  ghost predicate MatchAt(s: string, start: int, at: int, dot: int, end: int)
  {
    && 0 <= start < at < dot < end <= |s|
    && s[at] == '@' && s[dot] == '.'
    && NonBlankRun(s, start, at)
    && NonBlankRun(s, at + 1, dot)
    && NonBlankRun(s, dot + 1, end)
  }

  /** The pattern has no anchors, so it may match anywhere in `s`. */
  ghost predicate MatchesEmailPattern(s: string)
    ensures MatchesEmailPattern(s) ==> 5 <= |s| && '@' in s && '.' in s
  {
    exists start, at, dot, end :: MatchAt(s, start, at, dot, end)
  }

  /**
    `isValidEmail`: an `@` with a non-blank character before it, followed by
    a `.` with at least one character between them, every character from the
    `@` to the `.` non-blank, and a non-blank character after the `.`.
   */
  predicate IsValidEmail(email: string)
    ensures IsValidEmail(email) ==> 5 <= |email| && '@' in email && '.' in email
  {
    exists at, dot | 1 <= at < dot < |email| - 1 :: ValidAt(email, at, dot)
  }

  /** The `@` at `at` and the `.` at `dot` satisfy the check. */
  predicate ValidAt(email: string, at: int, dot: int)
    requires 1 <= at < dot < |email| - 1
  {
    && email[at] == '@' && email[dot] == '.'
    && !IsWhitespace(email[at - 1]) && !IsWhitespace(email[dot + 1])
    && NonBlankRun(email, at + 1, dot)
  }

  /** Whatever the check accepts, the pattern matches: one character before `@`, one after `.`. */
  lemma ValidEmailMatchesPattern(email: string)
    requires IsValidEmail(email)
    ensures MatchesEmailPattern(email)
  {
    var at, dot :| 1 <= at < dot < |email| - 1 && ValidAt(email, at, dot);
    assert NonBlankRun(email, at - 1, at);
    assert NonBlankRun(email, dot + 1, dot + 2);
    assert MatchAt(email, at - 1, at, dot, dot + 2);
  }

  /** Wherever the pattern matches, the check accepts: the runs around `@` and `.` are non-empty. */
  lemma PatternMatchIsValidEmail(email: string)
    requires MatchesEmailPattern(email)
    ensures IsValidEmail(email)
  {
    var start, at, dot, end :| MatchAt(email, start, at, dot, end);
    assert !IsWhitespace(email[at - 1]);
    assert !IsWhitespace(email[dot + 1]);
    assert 1 <= at < dot < |email| - 1 && ValidAt(email, at, dot);
  }

  /** Strings the check rejects: the empty string, and any without an `@`. */
  lemma RejectsEmptyAndNoAt(email: string)
    requires '@' !in email
    ensures !IsValidEmail(email) && !IsValidEmail("")
  {
  }

  /** A string in which no `.` follows an `@` with a character between them is rejected. */
  lemma RejectsNoDotAfterAt(email: string)
    requires forall at, dot | 0 <= at && at + 1 < dot < |email| && email[at] == '@' :: email[dot] != '.'
    ensures !IsValidEmail(email)
  {
  }

  /** The pattern is unanchored: text around the address is accepted. */
  lemma AcceptsSurroundingText()
    ensures IsValidEmail("mail x@y.org now")
  {
    var s := "mail x@y.org now";
    assert s[6] == '@' && s[8] == '.' && !IsWhitespace(s[5]) && !IsWhitespace(s[9]);
    assert NonBlankRun(s, 7, 8) && ValidAt(s, 6, 8);
  }

  /** Nothing after the dot: rejected. */
  lemma RejectsTrailingDot()
    ensures !IsValidEmail("a@b.")
  {
  }

  /** A blank right before `@`: rejected. */
  lemma RejectsBlankBeforeAt()
    ensures !IsValidEmail("a @b.c")
  {
  }

  // ---------------------------------------------------------------------
  // The screen
  // ---------------------------------------------------------------------

  /** How the registration request settled; `error` is the reply's `data.error`, "" when there is none. */
  datatype RegisterReply = Registered | RegisterFailed(error: string)

  const FieldsRequired := Alert("Error", "All fields are required!")
  const InvalidEmail := Alert("Error", "Enter a valid email address!")
  const RegisterSuccess := Alert("Success", "Registration successful!")
  const DefaultError := "Something went wrong"

  /** The guards of `handleRegister`, in order: the alert of the first that fails, or None when all pass. */
  function RegisterGuard(name: string, email: string, password: string): (r: Option<Alert>)
    ensures r.None? <==> name != "" && email != "" && password != "" && IsValidEmail(email)
    ensures name == "" || email == "" || password == "" ==> r == Some(FieldsRequired)
    ensures name != "" && email != "" && password != "" && !IsValidEmail(email) ==> r == Some(InvalidEmail)
  {
    if name == "" || email == "" || password == "" then Some(FieldsRequired)
    else if !IsValidEmail(email) then Some(InvalidEmail)
    else None
  }

  class RegisterScreen {
    var name: string
    var email: string
    var password: string
    var loading: bool

    constructor ()
      ensures name == "" && email == "" && password == "" && !loading
    {
      name := "";
      email := "";
      password := "";
      loading := false;
    }

    /**
      `handleRegister` up to the request: the guards, then `loading` is set
      and the request is sent. `sent` says whether it was.
     */
    method HandleRegister() returns (alert: Option<Alert>, sent: bool)
      modifies this`loading
      ensures alert == RegisterGuard(name, email, password)
      ensures sent <==> alert.None?
      ensures sent ==> loading
      ensures !sent ==> loading == old(loading)
    {
      alert := RegisterGuard(name, email, password);
      sent := alert.None?;
      if sent {
        loading := true;
      }
    }

    /**
      The rest of `handleRegister`, once the request settles: the alert, the
      move to the login screen on success, and `loading` cleared either way.
     */
    method RegisterSettled(reply: RegisterReply) returns (alert: Alert, toLogin: bool)
      modifies this`loading
      ensures !loading
      ensures toLogin <==> reply == Registered
      ensures reply == Registered ==> alert == RegisterSuccess
      ensures reply.RegisterFailed? ==>
                alert == Alert("Error", if reply.error != "" then reply.error else DefaultError)
    {
      match reply {
        case Registered =>
          alert, toLogin := RegisterSuccess, true;
        case RegisterFailed(error) =>
          alert, toLogin := Alert("Error", if error != "" then error else DefaultError), false;
      }
      loading := false;
    }
  }
}
