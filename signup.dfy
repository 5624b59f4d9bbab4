/** The account screen of `app/signup.js`: its two checks and what an attempt
    leaves on the screen. Sign-up goes through the same `signIn` call as login. */
module Signup {
  import opened Text
  import Login
  const FILL_ALL_FIELDS: string := "Please fill in all fields"
  const PASSWORDS_DIFFER: string := "Passwords do not match"
  const SIGNUP_FAILED: string := "Signup failed"

  datatype SignupCheck = Rejected(message: string) | Proceed

  /** The first failing check: an empty field (not trimmed, so a blank one
      passes), then a mismatch between the two passwords. */
  function CheckSignup(email: string, password: string, confirm: string): (r: SignupCheck)
    ensures r == Rejected(FILL_ALL_FIELDS) <==> email == "" || password == "" || confirm == ""
    ensures r == Rejected(PASSWORDS_DIFFER)
      <==> email != "" && password != "" && confirm != "" && password != confirm
    ensures r == Proceed <==> email != "" && password != "" && password == confirm
  {
    if email == [] || password == [] || confirm == [] then Rejected(FILL_ALL_FIELDS)
    else if password != confirm then Rejected(PASSWORDS_DIFFER)
    else Proceed
  }

  /** Blank input is not caught: any non-empty run of whitespace in every
      field goes through to `signIn`, where the login screen, which trims,
      rejects the same email and password as missing. */
  lemma BlankFieldsPass(email: string, password: string)
    requires email != "" && password != ""
    requires AllWhitespace(email) && AllWhitespace(password)
    ensures CheckSignup(email, password, password) == Proceed
    ensures Login.CheckLogin(email, password) == Login.Rejected(Login.ALL_FIELDS_REQUIRED)
  {
  }

  class SignupScreen {
    var error: string
    var loading: bool

    constructor ()
      ensures error == "" && !loading
    {
      error, loading := "", false;
    }

    /** `handleSignup`. `signInOk` is whether `signIn` resolves. A rejected
        attempt replaces the message; one that reaches `signIn` clears it
        first. The screen does not navigate by itself. */
    method HandleSignup(email: string, password: string, confirm: string, signInOk: bool)
      returns (signInCalled: bool)
      modifies this
      ensures signInCalled <==> CheckSignup(email, password, confirm) == Proceed
      ensures CheckSignup(email, password, confirm).Rejected? ==>
        error == CheckSignup(email, password, confirm).message && loading == old(loading)
      ensures signInCalled ==> !loading && error == (if signInOk then "" else SIGNUP_FAILED)
    {
      var check := CheckSignup(email, password, confirm);
      if check.Rejected? {
        error := check.message;
        return false;
      }
      loading := true;
      error := "";
      signInCalled := true;
      if !signInOk {
        error := SIGNUP_FAILED;
      }
      loading := false;
    }
  }
}
