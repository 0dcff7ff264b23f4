/**
 * The password rules of the registration form and the two guards of its
 * submit handler (client/src/pages/Register.jsx, lines 30-50). The form
 * state, the network call and the toasts are outside the model; the
 * handler's decision is what is modelled.
 */
module Register {

  /** The characters of the class `[!@#$%^&*(),.?":{}|<>]`. */
  const SpecialChars: string := "!@#$%^&*(),.?\":{}|<>"

  /** `\d` without the `u` flag: an ASCII digit. */
  predicate IsDigit(c: char) {
    '0' <= c <= '9'
  }

  predicate IsSpecial(c: char) {
    c in SpecialChars
  }

  /** `/\d/.test(s)`: a left-to-right scan for a digit. */
  function HasDigit(s: string): (b: bool)
    ensures b <==> exists i :: 0 <= i < |s| && IsDigit(s[i])
  {
    if s == [] then false
    else if IsDigit(s[0]) then true
    else
      var rest := HasDigit(s[1..]);
      assert forall i :: 1 <= i < |s| ==> s[i] == s[1..][i - 1];
      rest
  }

  /** `/[!@#$%^&*(),.?":{}|<>]/.test(s)`: a left-to-right scan for a special character. */
  function HasSpecial(s: string): (b: bool)
    ensures b <==> exists i :: 0 <= i < |s| && IsSpecial(s[i])
  {
    if s == [] then false
    else if IsSpecial(s[0]) then true
    else
      var rest := HasSpecial(s[1..]);
      assert forall i :: 1 <= i < |s| ==> s[i] == s[1..][i - 1];
      rest
  }

  /** The four entries of `passwordChecks`. */
  datatype PasswordChecks = PasswordChecks(minLength: bool, hasNumber: bool, hasSpecialChar: bool, passwordsMatch: bool)

  const MinPasswordLength: nat := 6

  function Checks(password: string, confirmPassword: string): (c: PasswordChecks)
    ensures c.minLength <==> |password| >= MinPasswordLength
    ensures c.passwordsMatch <==> password == confirmPassword && password != []
    ensures c.hasNumber <==> exists i :: 0 <= i < |password| && IsDigit(password[i])
    ensures c.hasSpecialChar <==> exists i :: 0 <= i < |password| && IsSpecial(password[i])
    ensures AllChecksPass(c) ==> password == confirmPassword && HasDigit(password) && HasSpecial(password)
  {
    PasswordChecks(
      |password| >= MinPasswordLength,
      HasDigit(password),
      HasSpecial(password),
      password == confirmPassword && |password| > 0)
  }

  /** `Object.values(passwordChecks).every(Boolean)`. */
  function AllChecksPass(c: PasswordChecks): bool {
    c.minLength && c.hasNumber && c.hasSpecialChar && c.passwordsMatch
  }

  /** Where `handleSubmit` goes: one of its two early returns, or on to registration. */
  datatype SubmitOutcome = RequirementsNotMet | PasswordsDiffer | Register

  function HandleSubmit(password: string, confirmPassword: string): (r: SubmitOutcome)
    ensures r != PasswordsDiffer
    ensures r == Register ==> password == confirmPassword && |password| >= MinPasswordLength
  {
    if !AllChecksPass(Checks(password, confirmPassword)) then RequirementsNotMet
    else if password != confirmPassword then PasswordsDiffer
    else Register
  }

  /**
   * Registration goes ahead exactly when the password has at least six
   * characters, a digit and a special character, and the confirmation
   * repeats it; every other submission stops at the first guard.
   */
  lemma SubmitDecision(password: string, confirmPassword: string)
    ensures HandleSubmit(password, confirmPassword) == Register <==>
      && |password| >= MinPasswordLength
      && (exists i :: 0 <= i < |password| && IsDigit(password[i]))
      && (exists i :: 0 <= i < |password| && IsSpecial(password[i]))
      && password == confirmPassword
    ensures HandleSubmit(password, confirmPassword) != Register ==>
      HandleSubmit(password, confirmPassword) == RequirementsNotMet
  {
  }

  /** The mismatch guard is dead code: the first guard has already ruled a mismatch out. */
  lemma MismatchGuardUnreachable(password: string, confirmPassword: string)
    ensures HandleSubmit(password, confirmPassword) != PasswordsDiffer
  {
  }

  /** A password that passes the rules, with a matching confirmation. */
  lemma SubmitExamples()
    ensures HandleSubmit("abc1!x", "abc1!x") == Register
    ensures HandleSubmit("abc1!x", "abc1!y") == RequirementsNotMet
    ensures HandleSubmit("abcde!", "abcde!") == RequirementsNotMet
    ensures HandleSubmit("ab1!", "ab1!") == RequirementsNotMet
  {
    assert IsDigit("abc1!x"[3]) && IsSpecial("abc1!x"[4]);
    assert forall i :: 0 <= i < 6 ==> !IsDigit("abcde!"[i]);
  }
}
