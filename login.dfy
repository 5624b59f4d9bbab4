/** The sign-in screen of `app/login.js`: the email test `/\S+@\S+\.\S+/`,
    the order of its checks and what an attempt leaves on the screen. */
module Login {
  import opened Text

  const ALL_FIELDS_REQUIRED: string := "All fields are required"
  const INVALID_EMAIL: string := "Please enter a valid email address"
  const PASSWORD_TOO_SHORT: string := "Password must be at least 4 characters"
  const SIGN_IN_FAILED: string := "Invalid email or password"

  // ---------------------------------------------------------------------------
  // The email pattern

  /** No whitespace in `s[lo..hi)`. */
  ghost predicate Solid(s: string, lo: int, hi: int)
    requires 0 <= lo && hi <= |s|
  {
    forall m | lo <= m < hi :: !IsWhitespace(s[m])
  }

  /** One unanchored match of the pattern, with its '@' at `j` and its '.' at
      `k`: a non-blank character before the '@', a non-empty run of non-blank
      characters between them, and a non-blank character after the '.'. */
  ghost predicate MatchAt(s: string, j: int, k: int)
    requires 0 <= j < k < |s|
  {
    && s[j] == '@' && s[k] == '.'
    && 1 <= j && !IsWhitespace(s[j - 1])
    && j + 1 < k && Solid(s, j + 1, k)
    && k + 1 < |s| && !IsWhitespace(s[k + 1])
  }

  /** The pattern occurs somewhere in `s`. */
  ghost predicate EmailShape(s: string) {
    exists j, k | 0 <= j < k < |s| :: MatchAt(s, j, k)
  }

  // What a left-to-right scan of the prefix `s[..i]` has seen so far.

  /** The prefix ends in a non-blank character. */
  ghost predicate SeenWord(s: string, i: int)
    requires 0 <= i <= |s|
  {
    i >= 1 && !IsWhitespace(s[i - 1])
  }

  /** The prefix ends in `\S@`. */
  ghost predicate SeenAt(s: string, i: int)
    requires 0 <= i <= |s|
  {
    i >= 2 && s[i - 1] == '@' && !IsWhitespace(s[i - 2])
  }

  /** The prefix ends in `\S@\S+`. */
  ghost predicate SeenMiddle(s: string, i: int)
    requires 0 <= i <= |s|
  {
    exists j | 1 <= j && j + 1 < i :: s[j] == '@' && !IsWhitespace(s[j - 1]) && Solid(s, j + 1, i)
  }

  /** The prefix ends in `\S@\S+\.`. */
  ghost predicate SeenDot(s: string, i: int)
    requires 0 <= i <= |s|
  {
    i >= 1 && s[i - 1] == '.' && SeenMiddle(s, i - 1)
  }

  /** The prefix contains a whole match. */
  ghost predicate SeenMatch(s: string, i: int)
    requires 0 <= i <= |s|
  {
    exists j, k | 0 <= j < k && k + 1 < i :: MatchAt(s, j, k)
  }

  datatype ScanState = ScanState(word: bool, at: bool, middle: bool, dot: bool, matched: bool)

  const Start: ScanState := ScanState(false, false, false, false, false)

  /** The scan state describes the prefix `s[..i]`. */
  ghost predicate Describes(s: string, i: int, st: ScanState)
    requires 0 <= i <= |s|
  {
    && (st.word <==> SeenWord(s, i))
    && (st.at <==> SeenAt(s, i))
    && (st.middle <==> SeenMiddle(s, i))
    && (st.dot <==> SeenDot(s, i))
    && (st.matched <==> SeenMatch(s, i))
  }

  /** Reading one more character. */
  function Step(st: ScanState, c: char): ScanState {
    var solid := !IsWhitespace(c);
    ScanState(
      solid,
      st.word && c == '@',
      solid && (st.at || st.middle),
      st.middle && c == '.',
      st.matched || (st.dot && solid))
  }

  lemma StepMiddle(s: string, i: int)
    requires 0 <= i < |s|
    ensures SeenMiddle(s, i + 1) <==> !IsWhitespace(s[i]) && (SeenAt(s, i) || SeenMiddle(s, i))
  {
    if SeenMiddle(s, i + 1) {
      var j :| 1 <= j && j + 1 < i + 1 && s[j] == '@' && !IsWhitespace(s[j - 1]) && Solid(s, j + 1, i + 1);
      assert !IsWhitespace(s[i]);
      if j + 1 < i {
        assert Solid(s, j + 1, i);
      }
    }
    if !IsWhitespace(s[i]) && SeenAt(s, i) {
      assert Solid(s, i, i + 1);
      assert s[i - 1] == '@' && !IsWhitespace(s[i - 2]);
    }
    if !IsWhitespace(s[i]) && SeenMiddle(s, i) {
      var j :| 1 <= j && j + 1 < i && s[j] == '@' && !IsWhitespace(s[j - 1]) && Solid(s, j + 1, i);
      assert Solid(s, j + 1, i + 1);
    }
  }

  lemma StepMatch(s: string, i: int)
    requires 0 <= i < |s|
    ensures SeenMatch(s, i + 1) <==> SeenMatch(s, i) || (SeenDot(s, i) && !IsWhitespace(s[i]))
  {
    if SeenMatch(s, i + 1) && !SeenMatch(s, i) {
      var j, k :| 0 <= j < k && k + 1 < i + 1 && MatchAt(s, j, k);
      assert k == i - 1;
      assert SeenMiddle(s, k);
    }
    if SeenDot(s, i) && !IsWhitespace(s[i]) {
      var k := i - 1;
      var j :| 1 <= j && j + 1 < k && s[j] == '@' && !IsWhitespace(s[j - 1]) && Solid(s, j + 1, k);
      assert MatchAt(s, j, k);
    }
  }

  /** Each step keeps the scan state in agreement with the prefix it has read. */
  lemma StepDescribes(s: string, i: int, st: ScanState)
    requires 0 <= i < |s| && Describes(s, i, st)
    ensures Describes(s, i + 1, Step(st, s[i]))
  {
    StepMiddle(s, i);
    StepMatch(s, i);
  }

  /** The scan from position `i` on. */
  function Scan(s: string, i: int, st: ScanState): (b: bool)
    requires 0 <= i <= |s| && Describes(s, i, st)
    ensures b <==> SeenMatch(s, |s|)
    decreases |s| - i
  {
    if i == |s| then st.matched
    else
      StepDescribes(s, i, st);
      Scan(s, i + 1, Step(st, s[i]))
  }

  /** `validateEmail`: the regular expression's test, as a one-pass scan. */
  function ValidateEmail(s: string): (b: bool)
    ensures b <==> EmailShape(s)
  {
    assert Describes(s, 0, Start);
    Scan(s, 0, Start)
  }

  // ---------------------------------------------------------------------------
  // The checks of `handleLogin`

  datatype LoginCheck = Rejected(message: string) | Proceed

  /** The first failing check, in the order required fields, email format,
      password length; `Proceed` when all pass. The required check trims, the
      other two look at the input as typed. */
  function CheckLogin(email: string, password: string): (r: LoginCheck)
    ensures r == Rejected(ALL_FIELDS_REQUIRED) <==> AllWhitespace(email) || AllWhitespace(password)
    ensures r == Rejected(INVALID_EMAIL)
      <==> !AllWhitespace(email) && !AllWhitespace(password) && !EmailShape(email)
    ensures r == Rejected(PASSWORD_TOO_SHORT)
      <==> !AllWhitespace(email) && !AllWhitespace(password) && EmailShape(email) && Utf16Length(password) < 4
    ensures r == Proceed
      <==> !AllWhitespace(email) && !AllWhitespace(password) && EmailShape(email) && Utf16Length(password) >= 4
  {
    if Trim(email) == "" || Trim(password) == "" then Rejected(ALL_FIELDS_REQUIRED)
    else if !ValidateEmail(email) then Rejected(INVALID_EMAIL)
    else if Utf16Length(password) < 4 then Rejected(PASSWORD_TOO_SHORT)
    else Proceed
  }

  /** The email field is drawn in error while a message shows and the email fails the pattern. */
  function EmailFieldError(error: string, email: string): (b: bool)
    ensures b <==> error != "" && !EmailShape(email)
  {
    error != "" && !ValidateEmail(email)
  }

  /** The password field is drawn in error while a message shows and the
      password is under six UTF-16 units long. */
  function PasswordFieldError(error: string, password: string): bool {
    error != "" && Utf16Length(password) < 6
  }

  /** The two thresholds disagree: a password of four or five characters passes
      the length check, yet after a failed sign-in its field is drawn in error,
      while the email field is not. */
  lemma HighlightThresholdMismatch(email: string, password: string)
    requires CheckLogin(email, password) == Proceed && Utf16Length(password) < 6
    ensures 4 <= Utf16Length(password) < 6
    ensures PasswordFieldError(SIGN_IN_FAILED, password)
    ensures !EmailFieldError(SIGN_IN_FAILED, email)
  {
  }

  /** Lengths are those of JavaScript strings, so a character above U+FFFF
      counts twice in the length check: with a valid email, a password of
      such characters passes from two characters on, and one of them alone is
      too short. */
  lemma AstralPasswords(email: string, password: string)
    requires EmailShape(email)
    requires forall i | 0 <= i < |password| :: password[i] as int > 0xFFFF
    ensures Utf16Length(password) == 2 * |password|
    ensures CheckLogin(email, password)
      == if password == [] then Rejected(ALL_FIELDS_REQUIRED)
         else if |password| == 1 then Rejected(PASSWORD_TOO_SHORT)
         else Proceed
  {
    AllAstralUnits(password, 0);
    var j, k :| 0 <= j < k < |email| && MatchAt(email, j, k);
    assert !IsWhitespace(email[j - 1]);
    if password != [] {
      assert !IsWhitespace(password[0]);
    }
  }

  lemma {:induction false} AllAstralUnits(s: string, k: nat)
    requires k <= |s|
    requires forall i | k <= i < |s| :: s[i] as int > 0xFFFF
    ensures UnitsFrom(s, k) == 2 * (|s| - k)
    decreases |s| - k
  {
    if k < |s| {
      AllAstralUnits(s, k + 1);
    }
  }

  class LoginScreen {
    var error: string
    var loading: bool

    constructor ()
      ensures error == "" && !loading
    {
      error, loading := "", false;
    }

    /** `handleLogin`. `signInOk` is whether `signIn` resolves; the results say
        whether `signIn` was called and whether the screen moved on to the
        home route. */
    method HandleLogin(email: string, password: string, signInOk: bool)
      returns (signInCalled: bool, navigatedHome: bool)
      modifies this
      ensures signInCalled <==> CheckLogin(email, password) == Proceed
      ensures navigatedHome <==> signInCalled && signInOk
      ensures CheckLogin(email, password).Rejected? ==>
        error == CheckLogin(email, password).message && loading == old(loading)
      ensures signInCalled ==> !loading && error == (if signInOk then "" else SIGN_IN_FAILED)
    {
      error := "";
      var check := CheckLogin(email, password);
      if check.Rejected? {
        error := check.message;
        return false, false;
      }
      loading := true;
      signInCalled := true;
      if signInOk {
        navigatedHome := true;
      } else {
        navigatedHome := false;
        error := SIGN_IN_FAILED;
      }
      loading := false;
    }
  }
}
