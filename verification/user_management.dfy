/** The user-management page: the list of district accounts and the edit
    dialog that validates and writes back contact details. */
module UserManagement {
  import opened Base
  import opened Types
  import opened Contact

  /** A user with a non-zero district code that names a known district. */
  predicate IsDistrictUser(districts: seq<District>, u: User) {
    Truthy(u.distCode) && Find(districts, (d: District) => Some(d.code) == u.distCode).Some?
  }

  function Listed(districts: seq<District>): User -> bool {
    (u: User) => IsDistrictUser(districts, u)
  }

  /** The listed accounts: the district users, in source order. */
  function DistrictUsers(users: seq<User>, districts: seq<District>): (r: seq<User>)
    ensures forall u :: u in r <==> u in users && Truthy(u.distCode) && exists d :: d in districts && Some(d.code) == u.distCode
    ensures KeepsInOrder(r, users, Listed(districts))
  {
    var p := Listed(districts);
    forall u | u in users
      ensures p(u) <==> Truthy(u.distCode) && exists d :: d in districts && Some(d.code) == u.distCode
    {
      var f := FindIndex(districts, (d: District) => Some(d.code) == u.distCode);
      if f.Some? {
        assert districts[f.value] in districts;
      }
    }
    FilterInOrder(users, p);
    Filter(users, p)
  }

  /** The page state: the listed users, the dialog, the user it edits, the
      form and the error line. */
  datatype Page = Page(userList: seq<User>, modalOpen: bool, selected: Option<User>, form: ContactForm, error: string)

  function InitialPage(users: seq<User>, districts: seq<District>): Page {
    Page(DistrictUsers(users, districts), false, None, ContactForm("", "", "", "", ""), "")
  }

  /** Opening the dialog on a user fills the form from it and clears the error. */
  function EditClick(p: Page, u: User): (r: Page)
    ensures r.userList == p.userList && r.modalOpen && r.selected == Some(u)
    ensures r.form == FormOf(u) && r.error == ""
  {
    p.(selected := Some(u), form := FormOf(u), error := "", modalOpen := true)
  }

  function Change(p: Page, field: Field, value: string): (r: Page)
    ensures r.userList == p.userList && r.selected == p.selected && r.modalOpen == p.modalOpen
    ensures r.form == ApplyChange(p.form, field, value) && r.error == ErrorAfterChange(p.error, field, value)
  {
    p.(form := ApplyChange(p.form, field, value), error := ErrorAfterChange(p.error, field, value))
  }

  function Close(p: Page): (r: Page)
    ensures r.userList == p.userList && !r.modalOpen
  {
    p.(modalOpen := false)
  }

  /** `u.User_id === selected.User_id ? {...u, ...form} : u` over the list. */
  function UpdateUsers(list: seq<User>, id: string, f: ContactForm): (r: seq<User>)
    ensures |r| == |list|
    ensures forall k :: 0 <= k < |list| && list[k].userId != id ==> r[k] == list[k]
    ensures forall k :: 0 <= k < |list| && list[k].userId == id ==> r[k] == Merge(list[k], f)
  {
    seq(|list|, k requires 0 <= k < |list| => if list[k].userId == id then Merge(list[k], f) else list[k])
  }

  /** Save: nothing happens without a selected user; a failed check shows its
      message and changes no user; otherwise every listed user with the
      selected id takes the form's five fields and the dialog closes. */
  function Save(p: Page): (r: Page)
    ensures p.selected.None? ==> r == p
    ensures p.selected.Some? && Validate(p.form).Some? ==>
              r == p.(error := Validate(p.form).value)
    ensures p.selected.Some? && Validate(p.form).None? ==>
              r == p.(userList := UpdateUsers(p.userList, p.selected.value.userId, p.form), modalOpen := false)
  {
    match p.selected
    case None => p
    case Some(sel) =>
      match Validate(p.form)
      case Some(msg) => p.(error := msg)
      case None => p.(userList := UpdateUsers(p.userList, sel.userId, p.form), modalOpen := false)
  }

  /** A successful save changes only the selected account's contact details:
      its id, district and role stay, and so does every other account; the
      list keeps its length and order. */
  lemma SaveTouchesOnlySelected(p: Page, k: nat)
    requires p.selected.Some? && k < |p.userList|
    ensures |Save(p).userList| == |p.userList|
    ensures p.userList[k].userId != p.selected.value.userId ==> Save(p).userList[k] == p.userList[k]
    ensures var u := Save(p).userList[k];
            u.userId == p.userList[k].userId && u.distCode == p.userList[k].distCode && u.rollId == p.userList[k].rollId
    ensures Validate(p.form).None? && p.userList[k].userId == p.selected.value.userId ==>
              FormOf(Save(p).userList[k]) == p.form
  {
  }

  /** A saved mobile number is ten digits and a saved e-mail fits the pattern. */
  lemma SavedDetailsValid(p: Page, k: nat)
    requires p.selected.Some? && k < |p.userList| && Save(p).userList[k] != p.userList[k]
    ensures TenDigits(Save(p).userList[k].mobileNo.value) && EmailPattern(Save(p).userList[k].emailId.value)
  {
  }
}
