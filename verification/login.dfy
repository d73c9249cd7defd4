/** The login screen's decision sequence. */
module Login {
  import opened Base
  import opened Types
  import opened Credentials

  datatype Page = Page(userId: string, password: string, captchaInput: string, captchaCode: string, error: string)

  const MissingCredentials: string := "Please enter User ID and Password"
  const CaptchaMismatch: string := "Invalid Captcha Code"
  const InvalidCredentials: string := "Invalid Credentials"

  /** The first account with the entered id. */
  function Account(users: seq<User>, id: string): Option<User> {
    Find(users, (u: User) => u.userId == id)
  }

  /** The page as it opens: every field empty and a freshly drawn captcha. */
  function Open(draws: seq<real>): (r: Page)
    requires |draws| == CaptchaLength && AreDraws(draws)
    ensures r.userId == "" && r.password == "" && r.captchaInput == "" && r.error == ""
    ensures IsCaptcha(r.captchaCode)
  {
    Page("", "", "", Generate(draws), "")
  }

  /** The refresh button next to the captcha: a fresh captcha, nothing else
      touched (the typed input and any error stay). */
  function RefreshButton(p: Page, draws: seq<real>): (r: Page)
    requires |draws| == CaptchaLength && AreDraws(draws)
    ensures IsCaptcha(r.captchaCode)
    ensures r == p.(captchaCode := r.captchaCode)
  {
    p.(captchaCode := Generate(draws))
  }

  /** The page reports `text` and shows a fresh captcha with the input cleared. */
  function Refresh(p: Page, text: string, draws: seq<real>): (r: Page)
    requires |draws| == CaptchaLength && AreDraws(draws)
    ensures r.error == text && r.captchaInput == "" && IsCaptcha(r.captchaCode)
    ensures r.userId == p.userId && r.password == p.password
  {
    p.(error := text, captchaCode := Generate(draws), captchaInput := "")
  }

  /** The login button. The result is the next page and the account handed to
      the application, if any; `draws` feed a captcha refresh. */
  function HandleLogin(p: Page, users: seq<User>, draws: seq<real>): (r: (Page, Option<User>))
    requires |draws| == CaptchaLength && AreDraws(draws)
    ensures p.userId == "" || p.password == "" ==>
              r.0 == p.(error := MissingCredentials) && r.1.None?
    ensures p.userId != "" && p.password != "" && p.captchaInput != p.captchaCode ==>
              r.0 == Refresh(p, CaptchaMismatch, draws) && r.1.None?
    ensures r.1.Some? <==>
              p.userId != "" && p.password != "" && p.captchaInput == p.captchaCode &&
              Account(users, p.userId).Some? && p.password == MockPassword
    ensures r.1.Some? ==> r.1 == Account(users, p.userId) && r.1.value.userId == p.userId && r.0 == p.(error := "")
    ensures p.userId != "" && p.password != "" && p.captchaInput == p.captchaCode && r.1.None? ==>
              r.0 == Refresh(p, InvalidCredentials, draws)
  {
    var p := p.(error := "");
    if p.userId == "" || p.password == "" then (p.(error := MissingCredentials), None)
    else if p.captchaInput != p.captchaCode then (Refresh(p, CaptchaMismatch, draws), None)
    else
      match Account(users, p.userId)
      case Some(u) =>
        if p.password == MockPassword then (p, Some(u)) else (Refresh(p, InvalidCredentials, draws), None)
      case None => (Refresh(p, InvalidCredentials, draws), None)
  }

  /** With a non-empty id, the mock password and the shown captcha typed
      back, a login succeeds exactly when the id is listed; the account handed
      on is the first listed one with that id. */
  lemma LoginIffKnownUser(p: Page, users: seq<User>, draws: seq<real>)
    requires |draws| == CaptchaLength && AreDraws(draws)
    requires p.userId != "" && p.captchaInput == p.captchaCode && p.password == MockPassword
    ensures HandleLogin(p, users, draws).1.Some? <==> exists k :: 0 <= k < |users| && users[k].userId == p.userId
    ensures HandleLogin(p, users, draws).1.Some? ==>
              exists k :: 0 <= k < |users| && HandleLogin(p, users, draws).1.value == users[k] &&
                          forall j :: 0 <= j < k ==> users[j].userId != p.userId
  {
    var f := FindIndex(users, (u: User) => u.userId == p.userId);
    if f.Some? {
      assert users[f.value].userId == p.userId;
    }
  }
}
