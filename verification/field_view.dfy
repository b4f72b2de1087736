/**
 * The field-view rule type (classes/access/field_view.php): a visibility
 * gate in front of the base permission check.
 */
module FieldView {
  import opened Optional
  import opened AccessRules

  const ManageEntries: string := "mod/dataform:manageentries"

  /** Who may see a field's content. */
  datatype Visibility = VisibleNone | VisibleOwner | VisibleAll

  /** The entry being shown: its author id, absent or empty when the entry has none. */
  datatype ViewedEntry = ViewedEntry(userid: Option<int>)

  /**
   * The validation parameters: the field id (absent or 0 when not given),
   * the entry, and the capabilities the base check is asked about.
   */
  datatype ViewParams = ViewParams(fieldid: Option<int>, entry: Option<ViewedEntry>, capabilities: seq<string>)

  /** `empty($params['fieldid'])`. */
  predicate NoField(params: ViewParams) {
    params.fieldid.None? || params.fieldid.value == 0
  }

  /** `!empty($entry->userid) ? $entry->userid : 0`: a missing entry or author counts as user 0. */
  function EntryOwner(entry: Option<ViewedEntry>): (u: int)
    ensures entry.Some? && entry.value.userid.Some? ==> u == entry.value.userid.value
    ensures entry.None? || entry.value.userid.None? ==> u == 0
  {
    match entry
    case None => 0
    case Some(e) => e.userid.GetOr(0)
  }

  /** The base class's check of the same parameters (`parent::validate`). */
  function Base(p: Permissions, params: ViewParams): bool {
    p.validate(params.capabilities)
  }

  /**
   * `validate`. `visibilityOf` is the field manager's lookup of a field's
   * visibility by id and `user` the current user's id.
   */
  function Validate(p: Permissions, visibilityOf: int -> Visibility, user: int, params: ViewParams): (ok: bool)
    ensures NoField(params) ==> !ok
    ensures !NoField(params) ==>
      var vis := visibilityOf(params.fieldid.value);
      if vis == VisibleAll || p.contextCapability(ManageEntries) then ok == Base(p, params)
      else if vis == VisibleNone then !ok
      else ok == (user == EntryOwner(params.entry) && Base(p, params))
    ensures ok ==> Base(p, params)
  {
    if NoField(params) then false
    else
      var vis := visibilityOf(params.fieldid.value);
      if vis != VisibleAll && !p.contextCapability(ManageEntries) then
        if vis == VisibleNone then false
        else if vis == VisibleOwner && user != EntryOwner(params.entry) then false
        else Base(p, params)
      else Base(p, params)
  }

  /** For a field visible to all, the gate changes nothing: the base check decides. */
  lemma VisibleToAllIsBase(p: Permissions, visibilityOf: int -> Visibility, user: int, params: ViewParams)
    requires !NoField(params) && visibilityOf(params.fieldid.value) == VisibleAll
    ensures Validate(p, visibilityOf, user, params) == Base(p, params)
  {
  }

  /** A non-manager sees an owner-only field exactly when they wrote the entry and the base check passes. */
  lemma OwnerOnlyHidesFromOthers(p: Permissions, visibilityOf: int -> Visibility, user: int, params: ViewParams)
    requires !NoField(params) && visibilityOf(params.fieldid.value) == VisibleOwner
    requires !p.contextCapability(ManageEntries)
    ensures Validate(p, visibilityOf, user, params) <==> user == EntryOwner(params.entry) && Base(p, params)
  {
  }

  /** An entry without an author is treated as user 0's entry. */
  lemma MissingAuthorIsUserZero(p: Permissions, visibilityOf: int -> Visibility, params: ViewParams)
    requires !NoField(params) && visibilityOf(params.fieldid.value) == VisibleOwner
    requires !p.contextCapability(ManageEntries) && Base(p, params)
    requires params.entry == Some(ViewedEntry(None))
    ensures Validate(p, visibilityOf, 0, params)
    ensures forall u :: u != 0 ==> !Validate(p, visibilityOf, u, params)
  {
  }

  /** `get_rules`: the manager's rules of type 'field', in position order. */
  function GetRules(man: Manager): (r: seq<Rule>)
    ensures forall x :: x in r <==> x in man.rules && x.ruleType == "field"
  {
    TypeRules(man, "field")
  }

  /** `get_capabilities`: the code lists no capabilities. */
  function GetCapabilities(): (r: seq<string>)
    ensures |r| == 0
  {
    []
  }
}
