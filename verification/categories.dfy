/** The category editor: the disaster and damage type lists with a stored
    child counter, their subtype lists, the add/edit dialog and the
    drill-down view of one type's subtypes. */
module Categories {
  import opened Base
  import opened Types

  /** A type as the editor keeps it; `count` is the stored number of subtypes
      (absent on items whose JSON lacked it). */
  datatype CategoryItem = CategoryItem(id: int, nameEn: string, nameHi: string, count: Option<int>)

  /** The two tabs: disaster categories and damage categories. */
  datatype Kind = DisasterKind | DamageKind

  datatype Mode = AddMode | EditMode

  /** Whether the dialog is about a main category or a subtype. */
  datatype Context = CategoryContext | SubtypeContext

  /** The item the dialog was opened on, if any. */
  datatype Selection = NoSelection | SelectedCategory(category: CategoryItem) | SelectedSubtype(subtype: SubtypeEntry)

  datatype DrillDownInfo = DrillDownInfo(title: string, kind: Kind, parentId: int)

  datatype View = ListView | DrillDownView

  datatype NameForm = NameForm(nameHi: string, nameEn: string)

  /** The four stored lists. */
  datatype Lists = Lists(
    disasterList: seq<CategoryItem>,
    damageList: seq<CategoryItem>,
    disasterSubtypes: seq<SubtypeEntry>,
    damageSubtypes: seq<SubtypeEntry>)

  /** The dialog and view state. `categoryKind` is the nullable
      `editingCategoryType`. */
  datatype Editor = Editor(
    activeTab: int,
    modalOpen: bool,
    mode: Mode,
    context: Context,
    categoryKind: Option<Kind>,
    selected: Selection,
    form: NameForm,
    view: View,
    drill: Option<DrillDownInfo>)

  datatype State = State(lists: Lists, editor: Editor)

  // ---------------------------------------------------------------------------
  // Counting children

  function ParentIs(id: int): SubtypeEntry -> bool {
    (s: SubtypeEntry) => s.typeId == id
  }

  /** The number of subtypes whose parent is `id`. */
  function Children(subs: seq<SubtypeEntry>, id: int): nat {
    Count(subs, ParentIs(id))
  }

  /** Every category's stored counter equals its number of subtypes. */
  predicate CountsConsistent(list: seq<CategoryItem>, subs: seq<SubtypeEntry>) {
    forall k :: 0 <= k < |list| ==> list[k].count == Some(Children(subs, list[k].id))
  }

  predicate ListsConsistent(l: Lists) {
    CountsConsistent(l.disasterList, l.disasterSubtypes) && CountsConsistent(l.damageList, l.damageSubtypes)
  }

  /** A master type with its subtype counter computed from the seed subtypes. */
  function WithCount(t: TypeEntry, subs: seq<SubtypeEntry>): (c: CategoryItem)
    ensures c.id == t.id && c.nameEn == t.nameEn && c.nameHi == t.nameHi
    ensures c.count == Some(|Filter(subs, ParentIs(t.id))|)
  {
    CategoryItem(t.id, t.nameEn, t.nameHi, Some(Children(subs, t.id)))
  }

  function CountedList(types: seq<TypeEntry>, subs: seq<SubtypeEntry>): (r: seq<CategoryItem>)
    ensures |r| == |types|
    ensures forall k :: 0 <= k < |r| ==> r[k] == WithCount(types[k], subs)
  {
    seq(|types|, k requires 0 <= k < |types| => WithCount(types[k], subs))
  }

  /** The lists on a load with nothing stored: the master taxonomy with
      computed counters. */
  function InitialLists(md: MasterData): (l: Lists)
    ensures ListsConsistent(l)
    ensures |l.disasterList| == |md.disasterTypes| && |l.damageList| == |md.damageTypes|
    ensures l.disasterSubtypes == md.disasterSubtypes && l.damageSubtypes == md.damageSubtypes
  {
    Lists(CountedList(md.disasterTypes, md.disasterSubtypes), CountedList(md.damageTypes, md.damageSubtypes),
          md.disasterSubtypes, md.damageSubtypes)
  }

  const InitialEditor: Editor :=
    Editor(1, false, EditMode, CategoryContext, None, NoSelection, NameForm("", ""), ListView, None)

  function InitialState(md: MasterData): State {
    State(InitialLists(md), InitialEditor)
  }

  // ---------------------------------------------------------------------------
  // Drill-down

  function SubtypesOf(l: Lists, kind: Kind): seq<SubtypeEntry> {
    if kind == DisasterKind then l.disasterSubtypes else l.damageSubtypes
  }

  /** The subtype list on screen: while drilled into a type, the subtypes of
      that type in stored order; otherwise empty. */
  function SubtypeView(s: State): (r: seq<SubtypeEntry>)
    ensures s.editor.view.ListView? || s.editor.drill.None? ==> r == []
    ensures s.editor.view.DrillDownView? && s.editor.drill.Some? ==>
              forall x :: x in r <==> x in SubtypesOf(s.lists, s.editor.drill.value.kind) && x.typeId == s.editor.drill.value.parentId
    ensures s.editor.view.DrillDownView? && s.editor.drill.Some? ==>
              KeepsInOrder(r, SubtypesOf(s.lists, s.editor.drill.value.kind), ParentIs(s.editor.drill.value.parentId))
  {
    if s.editor.view == DrillDownView && s.editor.drill.Some? then
      FilterInOrder(SubtypesOf(s.lists, s.editor.drill.value.kind), ParentIs(s.editor.drill.value.parentId));
      Filter(SubtypesOf(s.lists, s.editor.drill.value.kind), ParentIs(s.editor.drill.value.parentId))
    else []
  }

  function TabChange(s: State, tab: int): (r: State)
    ensures r.lists == s.lists && r.editor.activeTab == tab
    ensures SubtypeView(r) == []
  {
    State(s.lists, s.editor.(activeTab := tab, view := ListView, drill := None))
  }

  function DrillDown(s: State, item: CategoryItem, kind: Kind): (r: State)
    ensures r.lists == s.lists
    ensures forall x :: x in SubtypeView(r) <==> x in SubtypesOf(s.lists, kind) && x.typeId == item.id
    ensures KeepsInOrder(SubtypeView(r), SubtypesOf(s.lists, kind), ParentIs(item.id))
  {
    State(s.lists, s.editor.(view := DrillDownView, drill := Some(DrillDownInfo(item.nameHi, kind, item.id))))
  }

  function Back(s: State): (r: State)
    ensures r.lists == s.lists && SubtypeView(r) == []
  {
    State(s.lists, s.editor.(view := ListView, drill := None))
  }

  // ---------------------------------------------------------------------------
  // Opening and closing the dialog

  /** The tab and the drill-down stay where they were. */
  predicate KeepsNavigation(s: State, r: State) {
    r.editor.activeTab == s.editor.activeTab && r.editor.view == s.editor.view && r.editor.drill == s.editor.drill
  }

  function AddCategoryClick(s: State, kind: Kind): (r: State)
    ensures r.lists == s.lists && r.editor.modalOpen && r.editor.mode == AddMode
    ensures r.editor.context == CategoryContext && r.editor.categoryKind == Some(kind) && r.editor.selected == NoSelection
    ensures r.editor.form == NameForm("", "")
    ensures KeepsNavigation(s, r)
  {
    State(s.lists, s.editor.(mode := AddMode, context := CategoryContext, categoryKind := Some(kind),
                             selected := NoSelection, form := NameForm("", ""), modalOpen := true))
  }

  function AddSubtypeClick(s: State): (r: State)
    ensures r.lists == s.lists && r.editor.modalOpen && r.editor.mode == AddMode
    ensures r.editor.context == SubtypeContext && r.editor.selected == NoSelection
    ensures r.editor.form == NameForm("", "") && r.editor.categoryKind == s.editor.categoryKind
    ensures KeepsNavigation(s, r)
  {
    State(s.lists, s.editor.(mode := AddMode, context := SubtypeContext, selected := NoSelection,
                             form := NameForm("", ""), modalOpen := true))
  }

  function CategoryEditClick(s: State, item: CategoryItem, kind: Kind): (r: State)
    ensures r.lists == s.lists && r.editor.modalOpen && r.editor.mode == EditMode
    ensures r.editor.form == NameForm(item.nameHi, item.nameEn) && r.editor.selected == SelectedCategory(item)
    ensures r.editor.context == CategoryContext && r.editor.categoryKind == Some(kind)
    ensures KeepsNavigation(s, r)
  {
    State(s.lists, s.editor.(mode := EditMode, context := CategoryContext, categoryKind := Some(kind),
                             selected := SelectedCategory(item), form := NameForm(item.nameHi, item.nameEn),
                             modalOpen := true))
  }

  function SubtypeEditClick(s: State, item: SubtypeEntry): (r: State)
    ensures r.lists == s.lists && r.editor.modalOpen && r.editor.mode == EditMode
    ensures r.editor.form == NameForm(item.nameHi, item.nameEn) && r.editor.selected == SelectedSubtype(item)
    ensures r.editor.context == SubtypeContext && r.editor.categoryKind == s.editor.categoryKind
    ensures KeepsNavigation(s, r)
  {
    State(s.lists, s.editor.(mode := EditMode, context := SubtypeContext, selected := SelectedSubtype(item),
                             form := NameForm(item.nameHi, item.nameEn), modalOpen := true))
  }

  function CloseDialog(s: State): (r: State)
    ensures r.lists == s.lists && !r.editor.modalOpen
  {
    State(s.lists, s.editor.(modalOpen := false))
  }

  /** The selection always belongs to the dialog's context: a category is only
      selected in the category context and a subtype only in the subtype one. */
  predicate SelectionFitsContext(e: Editor) {
    (e.selected.SelectedCategory? ==> e.context == CategoryContext) &&
    (e.selected.SelectedSubtype? ==> e.context == SubtypeContext)
  }

  /** Every handler keeps the selection in its context. */
  lemma HandlersKeepSelectionFit(s: State, item: CategoryItem, sub: SubtypeEntry, kind: Kind, tab: int)
    requires SelectionFitsContext(s.editor)
    ensures SelectionFitsContext(InitialEditor)
    ensures SelectionFitsContext(TabChange(s, tab).editor) && SelectionFitsContext(DrillDown(s, item, kind).editor)
    ensures SelectionFitsContext(Back(s).editor) && SelectionFitsContext(CloseDialog(s).editor)
    ensures SelectionFitsContext(AddCategoryClick(s, kind).editor) && SelectionFitsContext(AddSubtypeClick(s).editor)
    ensures SelectionFitsContext(CategoryEditClick(s, item, kind).editor) && SelectionFitsContext(SubtypeEditClick(s, sub).editor)
  {
  }

  // ---------------------------------------------------------------------------
  // Saving

  function IdIs(id: int): CategoryItem -> bool {
    (c: CategoryItem) => c.id == id
  }

  function SubIdIs(id: int): SubtypeEntry -> bool {
    (t: SubtypeEntry) => t.id == id
  }

  /** `(c.count || 0) + 1`. */
  function Bumped(c: CategoryItem): CategoryItem {
    c.(count := Some(c.count.GetOr(0) + 1))
  }

  /** The parent's counter incremented; every other category unchanged. */
  function BumpParent(list: seq<CategoryItem>, parentId: int): (r: seq<CategoryItem>)
    ensures |r| == |list|
    ensures forall k :: 0 <= k < |list| ==> r[k] == if list[k].id == parentId then Bumped(list[k]) else list[k]
  {
    seq(|list|, k requires 0 <= k < |list| => if list[k].id == parentId then Bumped(list[k]) else list[k])
  }

  /** Adding a main category appends it, with counter 0, to the list chosen by
      `kind`; with no kind chosen nothing is added. */
  function AddCategory(l: Lists, kind: Option<Kind>, item: CategoryItem): (r: Lists)
    ensures kind == Some(DisasterKind) ==> r == l.(disasterList := l.disasterList + [item])
    ensures kind == Some(DamageKind) ==> r == l.(damageList := l.damageList + [item])
    ensures kind.None? ==> r == l
  {
    match kind
    case Some(DisasterKind) => l.(disasterList := l.disasterList + [item])
    case Some(DamageKind) => l.(damageList := l.damageList + [item])
    case None => l
  }

  /** `drillDownInfo?.parentId || 0`. */
  function ParentIdOf(drill: Option<DrillDownInfo>): int {
    if drill.Some? then drill.value.parentId else 0
  }

  /** Subtype edits go to the disaster lists only when drilled into a disaster
      type; in every other case to the damage lists. */
  function SubtypeKind(drill: Option<DrillDownInfo>): Kind {
    if drill.Some? && drill.value.kind == DisasterKind then DisasterKind else DamageKind
  }

  /** Adding a subtype appends it to the chosen subtype list and bumps its
      parent's counter in the matching category list. */
  function AddSubtype(l: Lists, kind: Kind, sub: SubtypeEntry): (r: Lists)
    ensures kind == DisasterKind ==> r.damageList == l.damageList && r.damageSubtypes == l.damageSubtypes
    ensures kind == DamageKind ==> r.disasterList == l.disasterList && r.disasterSubtypes == l.disasterSubtypes
    ensures SubtypesOf(r, kind) == SubtypesOf(l, kind) + [sub]
  {
    if kind == DisasterKind then
      l.(disasterSubtypes := l.disasterSubtypes + [sub], disasterList := BumpParent(l.disasterList, sub.typeId))
    else
      l.(damageSubtypes := l.damageSubtypes + [sub], damageList := BumpParent(l.damageList, sub.typeId))
  }

  /** Editing a category puts the renamed selection in place of every element
      with its id, in the list chosen by `kind`. */
  function EditCategory(l: Lists, kind: Option<Kind>, updated: CategoryItem): (r: Lists)
    ensures kind.None? ==> r == l
    ensures r.disasterSubtypes == l.disasterSubtypes && r.damageSubtypes == l.damageSubtypes
    ensures kind != Some(DisasterKind) ==> r.disasterList == l.disasterList
    ensures kind != Some(DamageKind) ==> r.damageList == l.damageList
  {
    match kind
    case Some(DisasterKind) => l.(disasterList := ReplaceWhere(l.disasterList, IdIs(updated.id), updated))
    case Some(DamageKind) => l.(damageList := ReplaceWhere(l.damageList, IdIs(updated.id), updated))
    case None => l
  }

  function EditSubtype(l: Lists, kind: Kind, updated: SubtypeEntry): (r: Lists)
    ensures r.disasterList == l.disasterList && r.damageList == l.damageList
    ensures kind == DisasterKind ==> r.damageSubtypes == l.damageSubtypes
    ensures kind == DamageKind ==> r.disasterSubtypes == l.disasterSubtypes
  {
    if kind == DisasterKind then l.(disasterSubtypes := ReplaceWhere(l.disasterSubtypes, SubIdIs(updated.id), updated))
    else l.(damageSubtypes := ReplaceWhere(l.damageSubtypes, SubIdIs(updated.id), updated))
  }

  predicate NamesMissing(f: NameForm) {
    f.nameHi == "" || f.nameEn == ""
  }

  /** The dialog's Save button. `now` is the clock reading used as the new id.
      A missing name, or an edit with nothing selected, leaves everything as
      it was (the dialog stays open); otherwise the lists change and the
      dialog closes. */
  function Save(s: State, now: int): (r: State)
    requires SelectionFitsContext(s.editor)
    ensures NamesMissing(s.editor.form) ==> r == s
    ensures s.editor.mode == EditMode && s.editor.selected.NoSelection? ==> r == s
    ensures r != s ==> !r.editor.modalOpen && r.editor == s.editor.(modalOpen := false)
    ensures !NamesMissing(s.editor.form) && !(s.editor.mode == EditMode && s.editor.selected.NoSelection?) ==>
              r.editor == s.editor.(modalOpen := false)
  {
    var e := s.editor;
    if NamesMissing(e.form) then s
    else if e.mode == AddMode then
      var lists :=
        if e.context == CategoryContext then
          AddCategory(s.lists, e.categoryKind, CategoryItem(now, e.form.nameEn, e.form.nameHi, Some(0)))
        else
          AddSubtype(s.lists, SubtypeKind(e.drill), SubtypeEntry(now, ParentIdOf(e.drill), e.form.nameEn, e.form.nameHi));
      State(lists, e.(modalOpen := false))
    else
      match e.selected
      case NoSelection => assert e.mode == EditMode && e.selected.NoSelection?; s
      case SelectedCategory(c) =>
        State(EditCategory(s.lists, e.categoryKind, c.(nameHi := e.form.nameHi, nameEn := e.form.nameEn)), e.(modalOpen := false))
      case SelectedSubtype(t) =>
        State(EditSubtype(s.lists, SubtypeKind(e.drill), t.(nameHi := e.form.nameHi, nameEn := e.form.nameEn)), e.(modalOpen := false))
  }

  // ---------------------------------------------------------------------------
  // What saving does

  /** Adding a category appends exactly one item with counter 0 to the list of
      the chosen kind and leaves the other three lists alone. */
  lemma SaveAddsCategory(s: State, now: int, kind: Kind)
    requires SelectionFitsContext(s.editor) && !NamesMissing(s.editor.form)
    requires s.editor.mode == AddMode && s.editor.context == CategoryContext && s.editor.categoryKind == Some(kind)
    ensures var r := Save(s, now).lists;
            var item := CategoryItem(now, s.editor.form.nameEn, s.editor.form.nameHi, Some(0));
            (kind == DisasterKind ==> r == s.lists.(disasterList := s.lists.disasterList + [item])) &&
            (kind == DamageKind ==> r == s.lists.(damageList := s.lists.damageList + [item]))
  {
  }

  /** Adding a subtype appends it, under the drilled-into parent (0 when none),
      to the subtype list of the drill-down's kind (damage unless drilled into a
      disaster type), and bumps only that parent's counter. */
  lemma SaveAddsSubtype(s: State, now: int)
    requires SelectionFitsContext(s.editor) && !NamesMissing(s.editor.form)
    requires s.editor.mode == AddMode && s.editor.context == SubtypeContext
    ensures var kind := if s.editor.drill.Some? && s.editor.drill.value.kind == DisasterKind then DisasterKind else DamageKind;
            var parent := if s.editor.drill.Some? then s.editor.drill.value.parentId else 0;
            var r := Save(s, now).lists;
            SubtypesOf(r, kind) == SubtypesOf(s.lists, kind) + [SubtypeEntry(now, parent, s.editor.form.nameEn, s.editor.form.nameHi)] &&
            (kind == DisasterKind ==> r.disasterList == BumpParent(s.lists.disasterList, parent) && r.damageList == s.lists.damageList && r.damageSubtypes == s.lists.damageSubtypes) &&
            (kind == DamageKind ==> r.damageList == BumpParent(s.lists.damageList, parent) && r.disasterList == s.lists.disasterList && r.disasterSubtypes == s.lists.disasterSubtypes)
  {
  }

  /** Bumping raises the parent's counter by one, counting a missing counter as
      zero, and changes nothing else about any item. */
  lemma BumpParentEffect(list: seq<CategoryItem>, parentId: int, k: nat)
    requires k < |list|
    ensures BumpParent(list, parentId)[k].id == list[k].id
    ensures BumpParent(list, parentId)[k].nameEn == list[k].nameEn && BumpParent(list, parentId)[k].nameHi == list[k].nameHi
    ensures list[k].id == parentId ==> BumpParent(list, parentId)[k].count == Some(list[k].count.GetOr(0) + 1)
    ensures list[k].id != parentId ==> BumpParent(list, parentId)[k] == list[k]
  {
  }

  /** Editing a category changes only the names of the items carrying the
      selection's id; their id and counter come from the selection, which for
      an item picked from the list are its own. */
  lemma SaveEditsCategory(s: State, now: int, kind: Kind, c: CategoryItem, k: nat)
    requires SelectionFitsContext(s.editor) && !NamesMissing(s.editor.form)
    requires s.editor.mode == EditMode && s.editor.selected == SelectedCategory(c) && s.editor.categoryKind == Some(kind)
    requires kind == DisasterKind ==> k < |s.lists.disasterList|
    requires kind == DamageKind ==> k < |s.lists.damageList|
    ensures var before := if kind == DisasterKind then s.lists.disasterList else s.lists.damageList;
            var r := Save(s, now).lists;
            var after := if kind == DisasterKind then r.disasterList else r.damageList;
            |after| == |before| &&
            (before[k].id != c.id ==> after[k] == before[k]) &&
            (before[k] == c ==> after[k] == before[k].(nameHi := s.editor.form.nameHi, nameEn := s.editor.form.nameEn))
  {
  }

  /** Editing a subtype renames, in the subtype list of the drill-down's kind,
      the entries carrying the selection's id and leaves the rest alone. */
  lemma SaveEditsSubtype(s: State, now: int, t: SubtypeEntry, k: nat)
    requires SelectionFitsContext(s.editor) && !NamesMissing(s.editor.form)
    requires s.editor.mode == EditMode && s.editor.selected == SelectedSubtype(t)
    requires k < |SubtypesOf(s.lists, SubtypeKind(s.editor.drill))|
    ensures var kind := SubtypeKind(s.editor.drill);
            var before := SubtypesOf(s.lists, kind);
            var after := SubtypesOf(Save(s, now).lists, kind);
            |after| == |before| &&
            (before[k].id != t.id ==> after[k] == before[k]) &&
            (before[k] == t ==> after[k] == before[k].(nameHi := s.editor.form.nameHi, nameEn := s.editor.form.nameEn))
  {
  }

  /** While drilled into a type, adding a subtype shows it at the end of the
      drill-down list. */
  lemma AddSubtypeShowsInDrillDown(s: State, now: int)
    requires SelectionFitsContext(s.editor) && !NamesMissing(s.editor.form)
    requires s.editor.mode == AddMode && s.editor.context == SubtypeContext
    requires s.editor.view == DrillDownView && s.editor.drill.Some?
    ensures SubtypeView(Save(s, now)) ==
            SubtypeView(s) + [SubtypeEntry(now, s.editor.drill.value.parentId, s.editor.form.nameEn, s.editor.form.nameHi)]
  {
    var d := s.editor.drill.value;
    var sub := SubtypeEntry(now, d.parentId, s.editor.form.nameEn, s.editor.form.nameHi);
    assert SubtypeKind(s.editor.drill) == d.kind;
    AppendMatching(SubtypesOf(s.lists, d.kind), sub, d.parentId);
  }

  lemma AppendMatching(subs: seq<SubtypeEntry>, sub: SubtypeEntry, id: int)
    requires sub.typeId == id
    ensures Filter(subs + [sub], ParentIs(id)) == Filter(subs, ParentIs(id)) + [sub]
  {
    FilterAppend(subs, [sub], ParentIs(id));
  }

  // ---------------------------------------------------------------------------
  // The counters stay right

  lemma {:induction false} ChildrenAppend(subs: seq<SubtypeEntry>, sub: SubtypeEntry, id: int)
    ensures Children(subs + [sub], id) == Children(subs, id) + (if sub.typeId == id then 1 else 0)
  {
    FilterAppend(subs, [sub], ParentIs(id));
    assert Filter([sub], ParentIs(id)) == if sub.typeId == id then [sub] else [];
  }

  lemma AddSubtypeKeepsCounts(list: seq<CategoryItem>, subs: seq<SubtypeEntry>, sub: SubtypeEntry)
    requires CountsConsistent(list, subs)
    ensures CountsConsistent(BumpParent(list, sub.typeId), subs + [sub])
  {
    forall k | 0 <= k < |list|
      ensures BumpParent(list, sub.typeId)[k].count == Some(Children(subs + [sub], list[k].id))
    {
      ChildrenAppend(subs, sub, list[k].id);
    }
  }

  lemma AddCategoryKeepsCounts(list: seq<CategoryItem>, subs: seq<SubtypeEntry>, item: CategoryItem)
    requires CountsConsistent(list, subs)
    requires item.count == Some(0) && forall k :: 0 <= k < |subs| ==> subs[k].typeId != item.id
    ensures CountsConsistent(list + [item], subs)
  {
    FilterNone(subs, ParentIs(item.id));
  }

  lemma EditCategoryKeepsCounts(list: seq<CategoryItem>, subs: seq<SubtypeEntry>, c: CategoryItem, updated: CategoryItem)
    requires CountsConsistent(list, subs) && c in list
    requires updated.id == c.id && updated.count == c.count
    ensures CountsConsistent(ReplaceWhere(list, IdIs(c.id), updated), subs)
  {
  }

  /** Renaming subtypes keeps every parent's number of children when the
      replaced entries already had the selection's parent. */
  lemma EditSubtypeKeepsChildren(subs: seq<SubtypeEntry>, updated: SubtypeEntry, id: int)
    requires forall k :: 0 <= k < |subs| && subs[k].id == updated.id ==> subs[k].typeId == updated.typeId
    ensures Children(ReplaceWhere(subs, SubIdIs(updated.id), updated), id) == Children(subs, id)
  {
    CountIndexwise(ReplaceWhere(subs, SubIdIs(updated.id), updated), subs, ParentIs(id), ParentIs(id));
  }

  lemma EditSubtypeKeepsCounts(list: seq<CategoryItem>, subs: seq<SubtypeEntry>, updated: SubtypeEntry)
    requires CountsConsistent(list, subs)
    requires forall k :: 0 <= k < |subs| && subs[k].id == updated.id ==> subs[k].typeId == updated.typeId
    ensures CountsConsistent(list, ReplaceWhere(subs, SubIdIs(updated.id), updated))
  {
    forall k | 0 <= k < |list|
      ensures list[k].count == Some(Children(ReplaceWhere(subs, SubIdIs(updated.id), updated), list[k].id))
    {
      EditSubtypeKeepsChildren(subs, updated, list[k].id);
    }
  }

  /** The conditions under which a save keeps the counters right: a new
      category's id is not already used as a parent id, an edited category was
      picked from its list, and the subtypes an edit replaces already belong to
      the selection's parent. */
  predicate SaveInputsFit(s: State, now: int) {
    var e := s.editor;
    (e.mode == AddMode && e.context == CategoryContext ==>
       (forall k :: 0 <= k < |s.lists.disasterSubtypes| ==> s.lists.disasterSubtypes[k].typeId != now) &&
       (forall k :: 0 <= k < |s.lists.damageSubtypes| ==> s.lists.damageSubtypes[k].typeId != now)) &&
    (e.mode == EditMode && e.selected.SelectedCategory? && e.categoryKind.Some? ==>
       e.selected.category in (if e.categoryKind.value == DisasterKind then s.lists.disasterList else s.lists.damageList)) &&
    (e.mode == EditMode && e.selected.SelectedSubtype? ==>
       var subs := SubtypesOf(s.lists, SubtypeKind(e.drill));
       forall k :: 0 <= k < |subs| && subs[k].id == e.selected.subtype.id ==> subs[k].typeId == e.selected.subtype.typeId)
  }

  /** Every save keeps each stored counter equal to the number of subtypes
      under that category. */
  lemma {:induction false} SaveKeepsCounts(s: State, now: int)
    requires SelectionFitsContext(s.editor) && ListsConsistent(s.lists) && SaveInputsFit(s, now)
    ensures ListsConsistent(Save(s, now).lists)
  {
    var e := s.editor;
    var l := s.lists;
    if NamesMissing(e.form) {
    } else if e.mode == AddMode {
      if e.context == CategoryContext {
        var item := CategoryItem(now, e.form.nameEn, e.form.nameHi, Some(0));
        match e.categoryKind
        case Some(DisasterKind) => AddCategoryKeepsCounts(l.disasterList, l.disasterSubtypes, item);
        case Some(DamageKind) => AddCategoryKeepsCounts(l.damageList, l.damageSubtypes, item);
        case None =>
      } else {
        var sub := SubtypeEntry(now, ParentIdOf(e.drill), e.form.nameEn, e.form.nameHi);
        if SubtypeKind(e.drill) == DisasterKind {
          AddSubtypeKeepsCounts(l.disasterList, l.disasterSubtypes, sub);
        } else {
          AddSubtypeKeepsCounts(l.damageList, l.damageSubtypes, sub);
        }
      }
    } else {
      match e.selected
      case NoSelection =>
      case SelectedCategory(c) =>
        var u := c.(nameHi := e.form.nameHi, nameEn := e.form.nameEn);
        match e.categoryKind {
          case Some(DisasterKind) => EditCategoryKeepsCounts(l.disasterList, l.disasterSubtypes, c, u);
          case Some(DamageKind) => EditCategoryKeepsCounts(l.damageList, l.damageSubtypes, c, u);
          case None =>
        }
      case SelectedSubtype(t) =>
        var u := t.(nameHi := e.form.nameHi, nameEn := e.form.nameEn);
        var subs := SubtypesOf(l, SubtypeKind(e.drill));
        assert forall k :: 0 <= k < |subs| && subs[k].id == u.id ==> subs[k].typeId == u.typeId;
        if SubtypeKind(e.drill) == DisasterKind {
          EditSubtypeKeepsCounts(l.disasterList, l.disasterSubtypes, u);
        } else {
          EditSubtypeKeepsCounts(l.damageList, l.damageSubtypes, u);
        }
    }
  }
}
