/** The contact-details form shared by the user-management dialog and the
    profile page: five text fields, the mobile-number input filter, the
    ordered mobile/e-mail validation, and the merge into a user record. */
module Contact {
  import opened Base
  import opened Types

  // ---------------------------------------------------------------------------
  // Character classes of the source's regular expressions

  /** `\d`: an ASCII digit. */
  predicate IsDigit(c: char) {
    '0' <= c <= '9'
  }

  /** `\s`: the ECMAScript white-space and line-terminator characters. */
  predicate IsJsSpace(c: char) {
    c == '\t' || c == '\n' || c == '\U{000B}' || c == '\U{000C}' || c == '\r' || c == ' ' ||
    c == '\U{00A0}' || c == '\U{1680}' || ('\U{2000}' <= c <= '\U{200A}') ||
    c == '\U{2028}' || c == '\U{2029}' || c == '\U{202F}' || c == '\U{205F}' ||
    c == '\U{3000}' || c == '\U{FEFF}'
  }

  /** `/^\d*$/`. */
  predicate AllDigits(s: string) {
    forall k :: 0 <= k < |s| ==> IsDigit(s[k])
  }

  /** `/^\d{10}$/`. */
  predicate TenDigits(s: string) {
    |s| == 10 && AllDigits(s)
  }

  /** `[^\s@]`. */
  predicate EmailChar(c: char) {
    !IsJsSpace(c) && c != '@'
  }

  /** `/^[^\s@]+@[^\s@]+\.[^\s@]+$/` read as a language: a non-empty local
      part, one `@`, then a non-empty run, a dot and a non-empty run, with no
      white space and no other `@` anywhere. */
  ghost predicate EmailPattern(s: string) {
    exists i, j :: 0 < i && i + 1 < j < |s| - 1 && s[i] == '@' && s[j] == '.' &&
      (forall k :: 0 <= k < |s| && k != i ==> EmailChar(s[k]))
  }

  predicate IsAt(c: char) {
    c == '@'
  }

  /** The e-mail check as a scan: no white space, the first `@` not at the
      start and no later `@`, and a dot after it with at least one character
      on either side. */
  function EmailValid(s: string): bool {
    (forall k :: 0 <= k < |s| ==> !IsJsSpace(s[k])) &&
    match FindIndex(s, IsAt)
    case None => false
    case Some(i) =>
      i > 0 && (forall k :: i < k < |s| ==> s[k] != '@') && (exists j :: i + 1 < j < |s| - 1 && s[j] == '.')
  }

  /** The scan accepts exactly the strings of the pattern. */
  lemma EmailValidIffPattern(s: string)
    ensures EmailValid(s) <==> EmailPattern(s)
  {
    if EmailValid(s) {
      var i := FindIndex(s, IsAt).value;
      var j :| i + 1 < j < |s| - 1 && s[j] == '.';
      assert forall k :: 0 <= k < |s| && k != i ==> EmailChar(s[k]);
    }
    if EmailPattern(s) {
      var i, j :| 0 < i && i + 1 < j < |s| - 1 && s[i] == '@' && s[j] == '.' &&
        (forall k :: 0 <= k < |s| && k != i ==> EmailChar(s[k]));
      assert forall k :: 0 <= k < |s| ==> !IsJsSpace(s[k]) by {
        forall k | 0 <= k < |s|
          ensures !IsJsSpace(s[k])
        {
          if k != i {
            assert EmailChar(s[k]);
          }
        }
      }
      assert IsAt(s[i]);
      var f := FindIndex(s, IsAt);
      assert f.Some?;
      assert f.value == i;
    }
  }

  // ---------------------------------------------------------------------------
  // The form

  datatype ContactForm = ContactForm(
    nameOfUser: string,
    designation: string,
    displayName: string,
    mobileNo: string,
    emailId: string)

  /** The form filled from a user; absent mobile and e-mail become empty. */
  function FormOf(u: User): (f: ContactForm)
    ensures f.nameOfUser == u.nameOfUser && f.designation == u.designation && f.displayName == u.displayName
    ensures u.mobileNo.Some? ==> f.mobileNo == u.mobileNo.value
    ensures u.mobileNo.None? ==> f.mobileNo == ""
    ensures u.emailId.Some? ==> f.emailId == u.emailId.value
    ensures u.emailId.None? ==> f.emailId == ""
  {
    ContactForm(u.nameOfUser, u.designation, u.displayName, u.mobileNo.GetOr(""), u.emailId.GetOr(""))
  }

  /** The input a change event names. */
  datatype Field = NameOfUser | Designation | DisplayName | MobileNo | EmailId

  /** The mobile input filter: a mobile edit with a non-digit or more than ten
      characters is ignored. */
  predicate ChangeAccepted(field: Field, value: string) {
    field != MobileNo || (AllDigits(value) && |value| <= 10)
  }

  /** One change event: the named field takes the value when the filter
      accepts it, and the form is left alone otherwise. */
  function ApplyChange(f: ContactForm, field: Field, value: string): (r: ContactForm)
    ensures !ChangeAccepted(field, value) ==> r == f
    ensures ChangeAccepted(field, value) ==> Read(r, field) == value
    ensures forall g :: g != field ==> Read(r, g) == Read(f, g)
  {
    if !ChangeAccepted(field, value) then f
    else match field
      case NameOfUser => f.(nameOfUser := value)
      case Designation => f.(designation := value)
      case DisplayName => f.(displayName := value)
      case MobileNo => f.(mobileNo := value)
      case EmailId => f.(emailId := value)
  }

  function Read(f: ContactForm, field: Field): string {
    match field
    case NameOfUser => f.nameOfUser
    case Designation => f.designation
    case DisplayName => f.displayName
    case MobileNo => f.mobileNo
    case EmailId => f.emailId
  }

  /** The error message after a change: an accepted change clears it, an
      ignored one leaves it. */
  function ErrorAfterChange(error: string, field: Field, value: string): (r: string)
    ensures ChangeAccepted(field, value) ==> r == ""
    ensures !ChangeAccepted(field, value) ==> r == error
  {
    if ChangeAccepted(field, value) then "" else error
  }

  /** Through the input filter the mobile field never holds a non-digit or more
      than ten characters. */
  lemma FilterKeepsMobileShape(f: ContactForm, field: Field, value: string)
    requires AllDigits(f.mobileNo) && |f.mobileNo| <= 10
    ensures AllDigits(ApplyChange(f, field, value).mobileNo) && |ApplyChange(f, field, value).mobileNo| <= 10
  {
    if field != MobileNo {
      assert Read(ApplyChange(f, field, value), MobileNo) == Read(f, MobileNo);
    }
  }

  // ---------------------------------------------------------------------------
  // Validation

  const MobileRequired: string := "Mobile Number is required."
  const MobileTenDigits: string := "Mobile Number must be exactly 10 digits."
  const EmailRequired: string := "Email ID is required."
  const EmailInvalid: string := "Invalid Email ID format."

  /** The checks in order; the first failure is reported. */
  function Validate(f: ContactForm): (r: Option<string>)
    ensures r.None? <==> TenDigits(f.mobileNo) && EmailPattern(f.emailId)
    ensures r == Some(MobileRequired) <==> f.mobileNo == ""
    ensures r == Some(MobileTenDigits) <==> f.mobileNo != "" && !TenDigits(f.mobileNo)
    ensures r == Some(EmailRequired) <==> TenDigits(f.mobileNo) && f.emailId == ""
    ensures r == Some(EmailInvalid) <==> TenDigits(f.mobileNo) && f.emailId != "" && !EmailPattern(f.emailId)
  {
    EmailValidIffPattern(f.emailId);
    if f.mobileNo == "" then Some(MobileRequired)
    else if !TenDigits(f.mobileNo) then Some(MobileTenDigits)
    else if f.emailId == "" then Some(EmailRequired)
    else if !EmailValid(f.emailId) then Some(EmailInvalid)
    else None
  }

  /** `{...u, ...form}`: the five form fields replace the user's, everything
      else is kept. */
  function Merge(u: User, f: ContactForm): (r: User)
    ensures r.acSno == u.acSno && r.userId == u.userId && r.distCode == u.distCode && r.rollId == u.rollId
    ensures FormOf(r) == f
    ensures r.mobileNo == Some(f.mobileNo) && r.emailId == Some(f.emailId)
  {
    u.(nameOfUser := f.nameOfUser, designation := f.designation, displayName := f.displayName,
       mobileNo := Some(f.mobileNo), emailId := Some(f.emailId))
  }

  /** Merging the user's own unchanged form keeps the user, once mobile and
      e-mail are present. */
  lemma MergeOwnForm(u: User)
    requires u.mobileNo.Some? && u.emailId.Some?
    ensures Merge(u, FormOf(u)) == u
  {
  }
}
