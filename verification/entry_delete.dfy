/**
 * The entry-delete rule type (classes/access/entry_delete.php): a
 * short-circuit chain of capability checks that decides whether the
 * current user may delete an entry.
 */
module EntryDelete {
  import opened Optional
  import opened AccessRules

  const AnyDelete: string := "mod/dataform:entryanydelete"
  const EarlyDelete: string := "mod/dataform:entryearlydelete"
  const LateDelete: string := "mod/dataform:entrylatedelete"
  const OwnDelete: string := "mod/dataform:entryowndelete"
  const GroupDelete: string := "mod/dataform:entrygroupdelete"
  const AnonymousDelete: string := "mod/dataform:entryanonymousdelete"

  /** An entry: its author and its group. */
  datatype Entry = Entry(id: int, userid: int, groupid: int)

  /** The activity's timing state and whether it anonymises entries. */
  datatype Activity = Activity(early: bool, pastDue: bool, anonymous: bool)

  /**
   * The host's classification of an entry (`dataformentry::is_own`,
   * `is_grouped`, `is_anonymous`, `is_others`) and group membership of the
   * current user (`groups_is_member`).
   */
  datatype Classifier = Classifier(
    isOwn: Entry -> bool,
    isGrouped: Entry -> bool,
    isAnonymous: Entry -> bool,
    isOthers: Entry -> bool,
    isGroupMember: int -> bool)

  /** `validate`: the checks in the source's order, each returning at once. */
  function Validate(p: Permissions, df: Activity, cls: Classifier, entry: Option<Entry>): (ok: bool)
    // no entry: the any-delete capability decides
    ensures entry.None? ==> ok == p.hasCapability(AnyDelete)
    // the two time gates are independent and each can only deny
    ensures entry.Some? && df.early && !p.validate([EarlyDelete]) ==> !ok
    ensures entry.Some? && df.pastDue && !p.validate([LateDelete]) ==> !ok
    // after the gates, the entry's class decides in priority order
    ensures entry.Some? && TimeGates(p, df) ==>
      var e := entry.value;
      if cls.isOwn(e) then ok == p.validate([OwnDelete])
      else if cls.isGrouped(e) && cls.isGroupMember(e.groupid) then ok == p.validate([GroupDelete])
      else if cls.isAnonymous(e) then ok == (df.anonymous && p.validate([AnonymousDelete]))
      else if cls.isOthers(e) then ok == p.validate([AnyDelete])
      else !ok
  {
    if entry.None? then p.hasCapability(AnyDelete)
    else if df.early && !p.validate([EarlyDelete]) then false
    else if df.pastDue && !p.validate([LateDelete]) then false
    else
      var e := entry.value;
      if cls.isOwn(e) then p.validate([OwnDelete])
      else if cls.isGrouped(e) && cls.isGroupMember(e.groupid) then p.validate([GroupDelete])
      else if cls.isAnonymous(e) then
        if !df.anonymous then false else p.validate([AnonymousDelete])
      else if cls.isOthers(e) then p.validate([AnyDelete])
      else false
  }

  /** Both time gates pass: each applies only when its condition holds. */
  predicate TimeGates(p: Permissions, df: Activity) {
    (df.early ==> p.validate([EarlyDelete])) && (df.pastDue ==> p.validate([LateDelete]))
  }

  /**
   * The decision table in sum-of-products form: with no entry, the
   * any-delete capability; otherwise both time gates together with the one
   * ownership row that applies.
   */
  predicate Allowed(p: Permissions, df: Activity, cls: Classifier, entry: Option<Entry>) {
    || (entry.None? && p.hasCapability(AnyDelete))
    || (entry.Some? && TimeGates(p, df) &&
        var e := entry.value;
        var member := cls.isGrouped(e) && cls.isGroupMember(e.groupid);
        || (cls.isOwn(e) && p.validate([OwnDelete]))
        || (!cls.isOwn(e) && member && p.validate([GroupDelete]))
        || (!cls.isOwn(e) && !member && cls.isAnonymous(e) && df.anonymous && p.validate([AnonymousDelete]))
        || (!cls.isOwn(e) && !member && !cls.isAnonymous(e) && cls.isOthers(e) && p.validate([AnyDelete])))
  }

  /** The short-circuit chain decides exactly as the table. */
  lemma ValidateIsTable(p: Permissions, df: Activity, cls: Classifier, entry: Option<Entry>)
    ensures Validate(p, df, cls, entry) <==> Allowed(p, df, cls, entry)
  {
  }

  /** The capability lists `validate` may ask the base check about. */
  function DeleteChecks(): set<seq<string>> {
    {[AnyDelete], [EarlyDelete], [LateDelete], [OwnDelete], [GroupDelete], [AnonymousDelete]}
  }

  /**
   * Permission is only ever granted by a delete capability: an allowed
   * delete of a given entry passed the time gates and the base check for
   * exactly one of the ownership capabilities.
   */
  lemma GrantedByOwnershipCheck(p: Permissions, df: Activity, cls: Classifier, e: Entry)
    requires Validate(p, df, cls, Some(e))
    ensures TimeGates(p, df)
    ensures p.validate([OwnDelete]) || p.validate([GroupDelete])
            || p.validate([AnonymousDelete]) || p.validate([AnyDelete])
  {
  }

  /**
   * Granting more never revokes: if every check the second host answers is
   * at least as permissive as the first's, so is the decision.
   */
  lemma MonotoneInPermissions(p1: Permissions, p2: Permissions, df: Activity, cls: Classifier, entry: Option<Entry>)
    requires forall caps :: caps in DeleteChecks() ==> (p1.validate(caps) ==> p2.validate(caps))
    requires p1.hasCapability(AnyDelete) ==> p2.hasCapability(AnyDelete)
    ensures Validate(p1, df, cls, entry) ==> Validate(p2, df, cls, entry)
  {
    assert [AnyDelete] in DeleteChecks() && [EarlyDelete] in DeleteChecks() && [LateDelete] in DeleteChecks();
    assert [OwnDelete] in DeleteChecks() && [GroupDelete] in DeleteChecks() && [AnonymousDelete] in DeleteChecks();
  }

  /**
   * A grouped entry whose group the user is not in falls through: if it is
   * also classed as someone else's, the any-delete check decides.
   */
  lemma NonMemberFallsThrough(p: Permissions, df: Activity, cls: Classifier, e: Entry)
    requires TimeGates(p, df)
    requires !cls.isOwn(e) && cls.isGrouped(e) && !cls.isGroupMember(e.groupid)
    requires !cls.isAnonymous(e) && cls.isOthers(e)
    ensures Validate(p, df, cls, Some(e)) == p.validate([AnyDelete])
  {
  }

  /** An anonymous entry in an activity that does not anonymise is never deletable, whatever the capabilities. */
  lemma AnonymousWithoutAnonymity(p: Permissions, df: Activity, cls: Classifier, e: Entry)
    requires !df.anonymous && cls.isAnonymous(e)
    requires !cls.isOwn(e) && !(cls.isGrouped(e) && cls.isGroupMember(e.groupid))
    ensures !Validate(p, df, cls, Some(e))
  {
  }

  /** `get_rules`: the manager's rules of type 'entry', in position order. */
  function GetRules(man: Manager): (r: seq<Rule>)
    ensures forall x :: x in r <==> x in man.rules && x.ruleType == "entry"
  {
    TypeRules(man, "entry")
  }

  /** `get_capabilities`: the code lists no capabilities. */
  function GetCapabilities(): (r: seq<string>)
    ensures |r| == 0
  {
    []
  }
}
