/** The signed-in user's profile page: the form tracks the user, edits pass
    the mobile filter, and a valid submit hands the merged user upward. */
module Profile {
  import opened Base
  import opened Types
  import opened Contact

  datatype Page = Page(form: ContactForm, error: string)

  /** The page on mounting, and again whenever the user changes: the form
      refilled from the user. The error line is left as it was. */
  function Sync(p: Page, user: User): (r: Page)
    ensures r.form == FormOf(user) && r.error == p.error
  {
    p.(form := FormOf(user))
  }

  function InitialPage(user: User): Page {
    Page(FormOf(user), "")
  }

  function Change(p: Page, field: Field, value: string): (r: Page)
    ensures r.form == ApplyChange(p.form, field, value) && r.error == ErrorAfterChange(p.error, field, value)
  {
    Page(ApplyChange(p.form, field, value), ErrorAfterChange(p.error, field, value))
  }

  /** Submit: the first failed check is shown and nothing is handed on;
      otherwise the user merged with the form is. */
  function Submit(p: Page, user: User): (r: (Page, Option<User>))
    ensures Validate(p.form).Some? ==> r.0 == p.(error := Validate(p.form).value) && r.1.None?
    ensures Validate(p.form).None? ==> r.0 == p && r.1 == Some(Merge(user, p.form))
  {
    match Validate(p.form)
    case Some(msg) => (p.(error := msg), None)
    case None => (p, Some(Merge(user, p.form)))
  }

  /** The user handed on keeps its id, district and role and carries exactly
      the form's details, which pass the checks. */
  lemma SubmitKeepsIdentity(p: Page, user: User)
    requires Submit(p, user).1.Some?
    ensures var u := Submit(p, user).1.value;
            u.userId == user.userId && u.distCode == user.distCode && u.rollId == user.rollId && u.acSno == user.acSno &&
            FormOf(u) == p.form && TenDigits(p.form.mobileNo) && EmailPattern(p.form.emailId)
  {
  }

  /** Submitting the untouched form of a user with valid details hands back
      that same user. */
  lemma UntouchedSubmitIsIdentity(user: User)
    requires user.mobileNo.Some? && user.emailId.Some?
    requires TenDigits(user.mobileNo.value) && EmailPattern(user.emailId.value)
    ensures Submit(InitialPage(user), user).1 == Some(user)
  {
    MergeOwnForm(user);
  }
}
