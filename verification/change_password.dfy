/** The change-password screen: the password policy, and the submit checks in
    their fixed order with the captcha refresh on a captcha mismatch and on
    success. */
module ChangePassword {
  import opened Base
  import opened Credentials

  // ---------------------------------------------------------------------------
  // The password policy `/^(?=.*[a-z])(?=.*[A-Z])(?=.*\d)(?=.*[@$!%*?&])[A-Za-z\d@$!%*?&]{8,}$/`

  predicate IsLower(c: char) { 'a' <= c <= 'z' }
  predicate IsUpper(c: char) { 'A' <= c <= 'Z' }
  predicate IsDigitChar(c: char) { '0' <= c <= '9' }
  predicate IsSpecial(c: char) { c in "@$!%*?&" }

  predicate IsPasswordChar(c: char) {
    IsLower(c) || IsUpper(c) || IsDigitChar(c) || IsSpecial(c)
  }

  /** At least eight characters, all letters, digits or specials, with at least
      one of each of the four kinds. */
  predicate PasswordPolicy(s: string) {
    |s| >= 8 &&
    (forall k :: 0 <= k < |s| ==> IsPasswordChar(s[k])) &&
    (exists k :: 0 <= k < |s| && IsLower(s[k])) &&
    (exists k :: 0 <= k < |s| && IsUpper(s[k])) &&
    (exists k :: 0 <= k < |s| && IsDigitChar(s[k])) &&
    (exists k :: 0 <= k < |s| && IsSpecial(s[k]))
  }

  /** The policy in one left-to-right pass, keeping one flag per kind. */
  method CheckPassword(s: string) returns (ok: bool)
    ensures ok <==> PasswordPolicy(s)
  {
    var allowed, lower, upper, digit, special := true, false, false, false, false;
    var i := 0;
    while i < |s|
      invariant 0 <= i <= |s|
      invariant allowed <==> forall k :: 0 <= k < i ==> IsPasswordChar(s[k])
      invariant lower <==> exists k :: 0 <= k < i && IsLower(s[k])
      invariant upper <==> exists k :: 0 <= k < i && IsUpper(s[k])
      invariant digit <==> exists k :: 0 <= k < i && IsDigitChar(s[k])
      invariant special <==> exists k :: 0 <= k < i && IsSpecial(s[k])
    {
      var c := s[i];
      allowed := allowed && IsPasswordChar(c);
      lower := lower || IsLower(c);
      upper := upper || IsUpper(c);
      digit := digit || IsDigitChar(c);
      special := special || IsSpecial(c);
      i := i + 1;
    }
    ok := |s| >= 8 && allowed && lower && upper && digit && special;
  }

  // ---------------------------------------------------------------------------
  // The screen

  datatype PasswordForm = PasswordForm(oldPassword: string, newPassword: string, confirmPassword: string, captcha: string)

  const EmptyForm: PasswordForm := PasswordForm("", "", "", "")

  datatype MessageKind = SuccessMessage | ErrorMessage
  datatype Message = Message(kind: MessageKind, text: string)

  datatype Page = Page(form: PasswordForm, captchaCode: string, message: Option<Message>)

  const AllRequired: string := "All fields are required."
  const NewPasswordWeak: string := "New Password must be at least 8 characters long and include at least one uppercase letter, one lowercase letter, one number, and one special character (@$!%*?&)."
  const ConfirmPasswordWeak: string := "Confirm Password must be at least 8 characters long and include at least one uppercase letter, one lowercase letter, one number, and one special character (@$!%*?&)."
  const OldPasswordWrong: string := "Old Password is incorrect."
  const CaptchaWrong: string := "Invalid Captcha Code."
  const PasswordsDiffer: string := "New Password and Confirm Password do not match."
  const PasswordChanged: string := "Password changed successfully!"

  predicate AnyEmpty(f: PasswordForm) {
    f.oldPassword == "" || f.newPassword == "" || f.confirmPassword == "" || f.captcha == ""
  }

  function Error(p: Page, text: string): Page {
    p.(message := Some(Message(ErrorMessage, text)))
  }

  /** The checks that pass before the captcha is compared. */
  predicate PassesUpToCaptcha(f: PasswordForm) {
    !AnyEmpty(f) && PasswordPolicy(f.newPassword) && PasswordPolicy(f.confirmPassword) && f.oldPassword == MockPassword
  }

  /** The page as it opens: an empty form, no message and a freshly drawn captcha. */
  function Open(draws: seq<real>): (r: Page)
    requires |draws| == CaptchaLength && AreDraws(draws)
    ensures r.form == EmptyForm && r.message.None?
    ensures IsCaptcha(r.captchaCode)
  {
    Page(EmptyForm, Generate(draws), None)
  }

  /** The refresh button next to the captcha: a fresh captcha, the form and
      any message left as they are. */
  function RefreshButton(p: Page, draws: seq<real>): (r: Page)
    requires |draws| == CaptchaLength && AreDraws(draws)
    ensures IsCaptcha(r.captchaCode)
    ensures r.form == p.form && r.message == p.message
  {
    p.(captchaCode := Generate(draws))
  }

  /** Submit with the six draws a captcha refresh would use. */
  function Submit(p: Page, draws: seq<real>): (r: Page)
    requires |draws| == CaptchaLength && AreDraws(draws)
    ensures AnyEmpty(p.form) ==> r == Error(p, AllRequired)
    ensures !AnyEmpty(p.form) && !PasswordPolicy(p.form.newPassword) ==> r == Error(p, NewPasswordWeak)
    ensures !AnyEmpty(p.form) && PasswordPolicy(p.form.newPassword) && !PasswordPolicy(p.form.confirmPassword) ==>
              r == Error(p, ConfirmPasswordWeak)
    ensures !AnyEmpty(p.form) && PasswordPolicy(p.form.newPassword) && PasswordPolicy(p.form.confirmPassword) ==>
              (p.form.oldPassword != MockPassword ==> r == Error(p, OldPasswordWrong))
    ensures PassesUpToCaptcha(p.form) && p.form.captcha != p.captchaCode ==>
              r.message == Some(Message(ErrorMessage, CaptchaWrong)) &&
              r.form == p.form.(captcha := "") && r.captchaCode == Generate(draws)
    ensures PassesUpToCaptcha(p.form) && p.form.captcha == p.captchaCode && p.form.newPassword != p.form.confirmPassword ==>
              r == Error(p, PasswordsDiffer)
    ensures r.message == Some(Message(SuccessMessage, PasswordChanged)) <==>
              PassesUpToCaptcha(p.form) && p.form.captcha == p.captchaCode && p.form.newPassword == p.form.confirmPassword
    ensures r.message == Some(Message(SuccessMessage, PasswordChanged)) ==>
              r.form == EmptyForm && r.captchaCode == Generate(draws)
  {
    var f := p.form;
    if AnyEmpty(f) then Error(p, AllRequired)
    else if !PasswordPolicy(f.newPassword) then Error(p, NewPasswordWeak)
    else if !PasswordPolicy(f.confirmPassword) then Error(p, ConfirmPasswordWeak)
    else if f.oldPassword != MockPassword then Error(p, OldPasswordWrong)
    else if f.captcha != p.captchaCode then
      Page(f.(captcha := ""), Generate(draws), Some(Message(ErrorMessage, CaptchaWrong)))
    else if f.newPassword != f.confirmPassword then Error(p, PasswordsDiffer)
    else Page(EmptyForm, Generate(draws), Some(Message(SuccessMessage, PasswordChanged)))
  }

  /** A success means every check held, and the captcha shown afterwards is
      a fresh well-formed one. */
  lemma SuccessMeetsPolicy(p: Page, draws: seq<real>)
    requires |draws| == CaptchaLength && AreDraws(draws)
    requires Submit(p, draws).message == Some(Message(SuccessMessage, PasswordChanged))
    ensures PasswordPolicy(p.form.newPassword) && p.form.newPassword == p.form.confirmPassword
    ensures p.form.oldPassword == MockPassword && p.form.captcha == p.captchaCode
    ensures IsCaptcha(Submit(p, draws).captchaCode)
  {
  }

  /** A password of the right shape passes: `Abcdef1@` is accepted, and one
      missing the special character is refused. */
  lemma PolicyExamples()
    ensures PasswordPolicy("Abcdef1@")
    ensures !PasswordPolicy("Abcdefg1")
  {
    var s := "Abcdef1@";
    assert IsUpper(s[0]) && IsLower(s[1]) && IsDigitChar(s[6]) && IsSpecial(s[7]);
    var t := "Abcdefg1";
    assert forall k :: 0 <= k < |t| ==> !IsSpecial(t[k]);
  }
}
