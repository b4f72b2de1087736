/**
 * The content and join phases of the filter composer (`get_content_sql` and
 * `get_join_sql` in classes/pluginbase/dataformfilter.php): which requested
 * fields are selected in the main query, which are fetched separately, and
 * which are left to the join phase.
 */
module FilterContent {
  import opened Optional
  import opened OrderedMaps
  import opened PhpText
  import opened FilterState
  import opened FilterFields

  /**
   * The content phase's output: the SELECT addition, the content tables, the
   * WHERE addition, the list returned in the parameter position, and the
   * fields whose content is fetched separately.
   */
  datatype ContentBundle = ContentBundle(
    what: string, tables: string, where: string, params: seq<string>, dataformContent: seq<FieldId>)

  /** What the content loop accumulates. */
  datatype ContentAcc = ContentAcc(
    what: seq<string>,
    filteredTables: seq<FieldId>,
    contentFrom: OMap<FieldId, string>,
    params: seq<string>,
    deferred: seq<FieldId>,
    joins: seq<FieldId>)

  /** How the content phase treats one requested field. */
  datatype Role = Skipped | Joined | Deferred | Inline

  /**
   * A missing or non-selectable field is skipped; otherwise a joined field is
   * left to the join phase, a dataform-content field is fetched separately,
   * and any other field is selected in the main query.
   */
  function RoleOf(fields: Fields, fid: FieldId): Role {
    match Get(fields, fid)
    case None => Skipped
    case Some(field) =>
      if !Truthy(field.selectSql) then Skipped
      else if field.joined then Joined
      else if field.dataformContent then Deferred
      else Inline
  }

  /** One requested field, as the loop body handles it. */
  function ContentEntry(acc: ContentAcc, fields: Fields, fid: FieldId): ContentAcc {
    match Get(fields, fid)
    case None => acc
    case Some(field) =>
      if !Truthy(field.selectSql) then acc
      else
        var (registered, joins) := RegisterJoinField(acc.joins, field);
        if registered then acc.(joins := joins)
        else if field.dataformContent then acc.(deferred := acc.deferred + [fid])
        else acc.(what := acc.what + [field.selectSql],
                  filteredTables := acc.filteredTables + [fid],
                  contentFrom := Put(acc.contentFrom, fid, field.sortFrom.0),
                  params := acc.params + [field.sortFrom.1])
  }

  function ContentEntries(acc: ContentAcc, fields: Fields, ids: seq<FieldId>): ContentAcc
    decreases |ids|
  {
    if ids == [] then acc else ContentEntries(ContentEntry(acc, fields, ids[0]), fields, ids[1..])
  }

  /** The requested ids that have the given role, in request order. */
  function WithRole(fields: Fields, ids: seq<FieldId>, role: Role): (r: seq<FieldId>)
    ensures forall x :: x in r <==> x in ids && RoleOf(fields, x) == role
    decreases |ids|
  {
    if ids == [] then []
    else (if RoleOf(fields, ids[0]) == role then [ids[0]] else []) + WithRole(fields, ids[1..], role)
  }

  /** The field behind an id whose role is not Skipped. */
  function FieldOf(fields: Fields, fid: FieldId): Field
    requires RoleOf(fields, fid) != Skipped
  {
    Get(fields, fid).value
  }

  /** The ids the requested joined fields register: each field's own id. */
  function JoinIds(fields: Fields, ids: seq<FieldId>): seq<FieldId>
    decreases |ids|
  {
    if ids == [] then []
    else (if RoleOf(fields, ids[0]) == Joined then [FieldOf(fields, ids[0]).id] else []) + JoinIds(fields, ids[1..])
  }

  /** The select expressions of the inline fields among the requested ids, in request order. */
  function InlineSelects(fields: Fields, ids: seq<FieldId>): (r: seq<string>)
    ensures |r| == |WithRole(fields, ids, Inline)|
    decreases |ids|
  {
    if ids == [] then []
    else (if RoleOf(fields, ids[0]) == Inline then [FieldOf(fields, ids[0]).selectSql] else [])
         + InlineSelects(fields, ids[1..])
  }

  /** The content aliases (second part of `get_sort_from_sql`) of the inline fields, in request order. */
  function InlineAliases(fields: Fields, ids: seq<FieldId>): (r: seq<string>)
    ensures |r| == |WithRole(fields, ids, Inline)|
    decreases |ids|
  {
    if ids == [] then []
    else (if RoleOf(fields, ids[0]) == Inline then [FieldOf(fields, ids[0]).sortFrom.1] else [])
         + InlineAliases(fields, ids[1..])
  }

  /** A field never has two roles: the four classes partition the requested ids. */
  lemma RolesDisjoint(fields: Fields, ids: seq<FieldId>, x: FieldId)
    ensures x in WithRole(fields, ids, Joined) ==> x !in WithRole(fields, ids, Deferred) && x !in WithRole(fields, ids, Inline)
    ensures x in WithRole(fields, ids, Deferred) ==> x !in WithRole(fields, ids, Inline)
    ensures x in ids ==> x in WithRole(fields, ids, Skipped) || x in WithRole(fields, ids, Joined)
                         || x in WithRole(fields, ids, Deferred) || x in WithRole(fields, ids, Inline)
  {
  }

  /** The loop defers exactly the selectable dataform-content fields that are not joined. */
  lemma {:induction false} ContentEntriesDeferred(acc: ContentAcc, fields: Fields, ids: seq<FieldId>)
    ensures ContentEntries(acc, fields, ids).deferred == acc.deferred + WithRole(fields, ids, Deferred)
    decreases |ids|
  {
    if ids == [] {
      assert acc.deferred + [] == acc.deferred;
    } else {
      var acc1 := ContentEntry(acc, fields, ids[0]);
      ContentEntriesDeferred(acc1, fields, ids[1..]);
      var here := if RoleOf(fields, ids[0]) == Deferred then [ids[0]] else [];
      assert acc1.deferred == acc.deferred + here;
      ConcatAssoc(acc.deferred, here, WithRole(fields, ids[1..], Deferred));
    }
  }

  /** The loop selects the inline fields in request order, one expression per occurrence. */
  lemma {:induction false} ContentEntriesWhat(acc: ContentAcc, fields: Fields, ids: seq<FieldId>)
    ensures ContentEntries(acc, fields, ids).what == acc.what + InlineSelects(fields, ids)
    decreases |ids|
  {
    if ids == [] {
      assert acc.what + [] == acc.what;
    } else {
      var acc1 := ContentEntry(acc, fields, ids[0]);
      ContentEntriesWhat(acc1, fields, ids[1..]);
      var here := if RoleOf(fields, ids[0]) == Inline then [FieldOf(fields, ids[0]).selectSql] else [];
      assert acc1.what == acc.what + here;
      ConcatAssoc(acc.what, here, InlineSelects(fields, ids[1..]));
    }
  }

  /** The loop collects one content alias per inline occurrence, in request order. */
  lemma {:induction false} ContentEntriesAliases(acc: ContentAcc, fields: Fields, ids: seq<FieldId>)
    ensures ContentEntries(acc, fields, ids).params == acc.params + InlineAliases(fields, ids)
    decreases |ids|
  {
    if ids == [] {
      assert acc.params + [] == acc.params;
    } else {
      var acc1 := ContentEntry(acc, fields, ids[0]);
      ContentEntriesAliases(acc1, fields, ids[1..]);
      var here := if RoleOf(fields, ids[0]) == Inline then [FieldOf(fields, ids[0]).sortFrom.1] else [];
      assert acc1.params == acc.params + here;
      ConcatAssoc(acc.params, here, InlineAliases(fields, ids[1..]));
    }
  }

  /** The loop appends every inline occurrence to the filtered tables, repeats included. */
  lemma {:induction false} ContentEntriesFiltered(acc: ContentAcc, fields: Fields, ids: seq<FieldId>)
    ensures ContentEntries(acc, fields, ids).filteredTables == acc.filteredTables + WithRole(fields, ids, Inline)
    decreases |ids|
  {
    if ids == [] {
      assert acc.filteredTables + [] == acc.filteredTables;
    } else {
      var acc1 := ContentEntry(acc, fields, ids[0]);
      assert ContentEntries(acc, fields, ids) == ContentEntries(acc1, fields, ids[1..]);
      ContentEntriesFiltered(acc1, fields, ids[1..]);
      var rest := WithRole(fields, ids[1..], Inline);
      var here := if RoleOf(fields, ids[0]) == Inline then [ids[0]] else [];
      assert acc1.filteredTables == acc.filteredTables + here;
      ConcatAssoc(acc.filteredTables, here, rest);
    }
  }

  /** The loop registers the joined fields' ids, each once. */
  lemma {:induction false} ContentEntriesJoins(acc: ContentAcc, fields: Fields, ids: seq<FieldId>)
    ensures ContentEntries(acc, fields, ids).joins == AddAll(acc.joins, JoinIds(fields, ids))
    decreases |ids|
  {
    if ids != [] {
      var acc1 := ContentEntry(acc, fields, ids[0]);
      ContentEntriesJoins(acc1, fields, ids[1..]);
      var here := if RoleOf(fields, ids[0]) == Joined then [FieldOf(fields, ids[0]).id] else [];
      assert acc1.joins == AddAll(acc.joins, here);
      AddAllAppend(acc.joins, here, JoinIds(fields, ids[1..]));
    }
  }

  /** The loop records one content table per inline field id, at its first request. */
  lemma {:induction false} ContentEntriesTables(acc: ContentAcc, fields: Fields, ids: seq<FieldId>)
    ensures Keys(ContentEntries(acc, fields, ids).contentFrom)
            == AddAll(Keys(acc.contentFrom), WithRole(fields, ids, Inline))
    decreases |ids|
  {
    if ids != [] {
      var acc1 := ContentEntry(acc, fields, ids[0]);
      ContentEntriesTables(acc1, fields, ids[1..]);
      var here := if RoleOf(fields, ids[0]) == Inline then [ids[0]] else [];
      assert WithRole(fields, ids, Inline) == here + WithRole(fields, ids[1..], Inline);
      if RoleOf(fields, ids[0]) == Inline {
        KeysPut(acc.contentFrom, ids[0], FieldOf(fields, ids[0]).sortFrom.0);
        AddAllOne(Keys(acc.contentFrom), ids[0]);
      } else {
        assert acc1.contentFrom == acc.contentFrom;
      }
      assert Keys(acc1.contentFrom) == AddAll(Keys(acc.contentFrom), here);
      AddAllAppend(Keys(acc.contentFrom), here, WithRole(fields, ids[1..], Inline));
    }
  }

  /** The WHERE term built from a content alias. */
  function ContentTerm(alias: string): string {
    " c" + alias + ".fieldid = ? "
  }

  function ContentTerms(aliases: seq<string>): (r: seq<string>)
    ensures |r| == |aliases|
    ensures forall i :: 0 <= i < |aliases| ==> r[i] == ContentTerm(aliases[i])
    decreases |aliases|
  {
    if aliases == [] then [] else [ContentTerm(aliases[0])] + ContentTerms(aliases[1..])
  }

  /**
   * `get_content_sql`. Without requested fields the phase adds nothing;
   * otherwise the list returned in the parameter position holds the WHERE
   * terms built from the content aliases.
   */
  function ContentSql(st: Scratch, contentFields: seq<FieldId>, fields: Fields): (r: (ContentBundle, Scratch))
    ensures contentFields == [] ==> r == (ContentBundle(" ", " ", "", [], []), st)
    ensures r.1 == st.(filteredTables := r.1.filteredTables, joins := r.1.joins)
    ensures st.filteredTables <= r.1.filteredTables
    ensures Distinct(st.joins) ==> Distinct(r.1.joins)
  {
    if contentFields == [] then (ContentBundle(" ", " ", "", [], []), st)
    else
      var acc0 := ContentAcc([], st.filteredTables, [], [], [], st.joins);
      var acc := ContentEntries(acc0, fields, contentFields);
      ContentEntriesFiltered(acc0, fields, contentFields);
      ContentEntriesJoins(acc0, fields, contentFields);
      AddAllMembers(st.joins, JoinIds(fields, contentFields));
      var what := if acc.what != [] then ", " + Implode(", ", acc.what) else " ";
      var tables := " " + Implode(" ", Values(acc.contentFrom));
      var terms := ContentTerms(acc.params);
      var where := if acc.params != [] then " AND " + Implode(" AND ", terms) else "";
      var params := if acc.params != [] then terms else [];
      (ContentBundle(what, tables, where, params, acc.deferred),
       st.(filteredTables := acc.filteredTables, joins := acc.joins))
  }

  /**
   * The phase in terms of the roles: the separately fetched fields are the
   * deferred ones; the inline ones are selected in request order and each
   * gives one WHERE term; the joined ones are registered once; a content
   * table is added per inline field id.
   */
  lemma ContentSqlSpec(st: Scratch, contentFields: seq<FieldId>, fields: Fields)
    requires contentFields != []
    ensures var inline := WithRole(fields, contentFields, Inline);
      var r := ContentSql(st, contentFields, fields);
      && r.0.dataformContent == WithRole(fields, contentFields, Deferred)
      && r.0.what == (if inline == [] then " " else ", " + Implode(", ", InlineSelects(fields, contentFields)))
      && r.0.params == ContentTerms(InlineAliases(fields, contentFields))
      && r.0.where == (if inline == [] then "" else " AND " + Implode(" AND ", ContentTerms(InlineAliases(fields, contentFields))))
      && r.1.filteredTables == st.filteredTables + inline
      && r.1.joins == AddAll(st.joins, JoinIds(fields, contentFields))
  {
    var acc0 := ContentAcc([], st.filteredTables, [], [], [], st.joins);
    ContentEntriesDeferred(acc0, fields, contentFields);
    ContentEntriesWhat(acc0, fields, contentFields);
    ContentEntriesAliases(acc0, fields, contentFields);
    ContentEntriesFiltered(acc0, fields, contentFields);
    ContentEntriesJoins(acc0, fields, contentFields);
    var inline := WithRole(fields, contentFields, Inline);
    assert [] + WithRole(fields, contentFields, Deferred) == WithRole(fields, contentFields, Deferred);
    assert [] + InlineSelects(fields, contentFields) == InlineSelects(fields, contentFields);
    assert [] + InlineAliases(fields, contentFields) == InlineAliases(fields, contentFields);
  }

  /** The content-table fragment (`get_sort_from_sql`) of each listed field, in order. */
  function SortFroms(fields: Fields, ids: seq<FieldId>): (r: seq<string>)
    ensures |r| == |ids|
    ensures forall i :: 0 <= i < |ids| ==> r[i] == FromSql(fields, ids[i], true)
    decreases |ids|
  {
    if ids == [] then [] else [FromSql(fields, ids[0], true)] + SortFroms(fields, ids[1..])
  }

  /** Every recorded content table holds its own field's fragment. */
  predicate FragmentsMatch(fields: Fields, m: OMap<FieldId, string>) {
    forall e :: e in m ==> e.1 == FromSql(fields, e.0, true)
  }

  /** The loop records under each id the fragment of that id's field. */
  lemma {:induction false} ContentEntriesFragments(acc: ContentAcc, fields: Fields, ids: seq<FieldId>)
    requires FragmentsMatch(fields, acc.contentFrom)
    ensures FragmentsMatch(fields, ContentEntries(acc, fields, ids).contentFrom)
    decreases |ids|
  {
    if ids != [] {
      var acc1 := ContentEntry(acc, fields, ids[0]);
      if RoleOf(fields, ids[0]) == Inline {
        var frag := FieldOf(fields, ids[0]).sortFrom.0;
        assert acc1.contentFrom == Put(acc.contentFrom, ids[0], frag);
        PutEntries(acc.contentFrom, ids[0], frag);
      } else {
        assert acc1.contentFrom == acc.contentFrom;
      }
      ContentEntriesFragments(acc1, fields, ids[1..]);
    }
  }

  /** The values of a map whose entries match their fragments are the fragments of its keys. */
  lemma ValuesAreSortFroms(fields: Fields, m: OMap<FieldId, string>)
    requires FragmentsMatch(fields, m)
    ensures Values(m) == SortFroms(fields, Keys(m))
  {
    forall i | 0 <= i < |m|
      ensures Values(m)[i] == SortFroms(fields, Keys(m))[i]
    {
      assert m[i] in m;
    }
  }

  /**
   * The content tables are the `get_sort_from_sql` fragments of the
   * distinct inline field ids, in first-request order.
   */
  lemma ContentTablesSpec(st: Scratch, contentFields: seq<FieldId>, fields: Fields)
    requires contentFields != []
    ensures var acc := ContentEntries(ContentAcc([], st.filteredTables, [], [], [], st.joins), fields, contentFields);
      Keys(acc.contentFrom) == AddAll([], WithRole(fields, contentFields, Inline))
    ensures ContentSql(st, contentFields, fields).0.tables
            == " " + Implode(" ", SortFroms(fields, AddAll([], WithRole(fields, contentFields, Inline))))
  {
    var acc0 := ContentAcc([], st.filteredTables, [], [], [], st.joins);
    ContentEntriesTables(acc0, fields, contentFields);
    ContentEntriesFragments(acc0, fields, contentFields);
    var acc := ContentEntries(acc0, fields, contentFields);
    ValuesAreSortFroms(fields, acc.contentFrom);
  }

  /** A requested joined field is neither selected inline nor fetched separately by this phase. */
  lemma JoinedFieldsSkipped(st: Scratch, contentFields: seq<FieldId>, fields: Fields, fid: FieldId)
    requires contentFields != [] && fid in contentFields && RoleOf(fields, fid) == Joined
    ensures var r := ContentSql(st, contentFields, fields);
      && fid !in r.0.dataformContent
      && r.1.filteredTables == st.filteredTables + WithRole(fields, contentFields, Inline)
      && fid !in WithRole(fields, contentFields, Inline)
      && FieldOf(fields, fid).id in r.1.joins
  {
    ContentSqlSpec(st, contentFields, fields);
    JoinIdsMembers(fields, contentFields, fid);
    AddAllMembers(st.joins, JoinIds(fields, contentFields));
  }

  lemma {:induction false} JoinIdsMembers(fields: Fields, ids: seq<FieldId>, fid: FieldId)
    requires fid in ids && RoleOf(fields, fid) == Joined
    ensures FieldOf(fields, fid).id in JoinIds(fields, ids)
    decreases |ids|
  {
    if ids[0] != fid {
      JoinIdsMembers(fields, ids[1..], fid);
    }
  }

  // ---------------------------------------------------------------------
  // get_join_sql

  /** The join phase's output; `get_sql` passes on only the first two parts. */
  datatype JoinBundle = JoinBundle(what: string, tables: string, params: seq<SqlParam>)

  datatype JoinAcc = JoinAcc(what: seq<string>, joinFrom: OMap<FieldId, string>, params: seq<SqlParam>)

  /** One registered id: a field no longer in the map is skipped. */
  function JoinEntry(acc: JoinAcc, fields: Fields, fid: FieldId): JoinAcc {
    match Get(fields, fid)
    case None => acc
    case Some(field) =>
      JoinAcc(acc.what + [field.selectSql], Put(acc.joinFrom, fid, field.joinSql.0), acc.params + field.joinSql.1)
  }

  function JoinEntries(acc: JoinAcc, fields: Fields, ids: seq<FieldId>): JoinAcc
    decreases |ids|
  {
    if ids == [] then acc else JoinEntries(JoinEntry(acc, fields, ids[0]), fields, ids[1..])
  }

  /** The registered ids whose field is still in the map, in registration order. */
  function Present(fields: Fields, ids: seq<FieldId>): (r: seq<FieldId>)
    ensures forall x :: x in r <==> x in ids && Get(fields, x).Some?
    ensures Distinct(ids) ==> Distinct(r)
    decreases |ids|
  {
    if ids == [] then []
    else (if Get(fields, ids[0]).Some? then [ids[0]] else []) + Present(fields, ids[1..])
  }

  /** The join fragments of present ids, in order. */
  function Fragments(fields: Fields, ids: seq<FieldId>): (r: seq<string>)
    requires forall x :: x in ids ==> Get(fields, x).Some?
    ensures |r| == |ids|
    ensures forall i :: 0 <= i < |ids| ==> r[i] == Get(fields, ids[i]).value.joinSql.0
    decreases |ids|
  {
    if ids == [] then [] else [Get(fields, ids[0]).value.joinSql.0] + Fragments(fields, ids[1..])
  }

  /** The select columns of present ids, in order. */
  function JoinSelects(fields: Fields, ids: seq<FieldId>): (r: seq<string>)
    requires forall x :: x in ids ==> Get(fields, x).Some?
    ensures |r| == |ids|
    ensures forall i :: 0 <= i < |ids| ==> r[i] == Get(fields, ids[i]).value.selectSql
    decreases |ids|
  {
    if ids == [] then [] else [Get(fields, ids[0]).value.selectSql] + JoinSelects(fields, ids[1..])
  }

  /** The join parameters of present ids, concatenated in order. */
  function JoinParams(fields: Fields, ids: seq<FieldId>): seq<SqlParam>
    requires forall x :: x in ids ==> Get(fields, x).Some?
    decreases |ids|
  {
    if ids == [] then [] else Get(fields, ids[0]).value.joinSql.1 + JoinParams(fields, ids[1..])
  }

  /** The present ids of a list whose head is present. */
  lemma PresentCons(fields: Fields, ids: seq<FieldId>)
    requires ids != [] && Get(fields, ids[0]).Some?
    ensures var pr := Present(fields, ids);
      pr == [ids[0]] + Present(fields, ids[1..]) && pr[1..] == Present(fields, ids[1..])
  {
  }

  /** The loop selects the column of each registered id still in the map, in order. */
  lemma {:induction false} JoinEntriesWhat(acc: JoinAcc, fields: Fields, ids: seq<FieldId>)
    ensures JoinEntries(acc, fields, ids).what == acc.what + JoinSelects(fields, Present(fields, ids))
    decreases |ids|
  {
    if ids == [] {
      assert acc.what + [] == acc.what;
    } else {
      var acc1 := JoinEntry(acc, fields, ids[0]);
      var rest := ids[1..];
      assert JoinEntries(acc, fields, ids) == JoinEntries(acc1, fields, rest);
      JoinEntriesWhat(acc1, fields, rest);
      var prr := Present(fields, rest);
      if Get(fields, ids[0]).Some? {
        var field := Get(fields, ids[0]).value;
        PresentCons(fields, ids);
        assert acc1.what == acc.what + [field.selectSql];
        assert JoinSelects(fields, Present(fields, ids)) == [field.selectSql] + JoinSelects(fields, prr);
        ConcatAssoc(acc.what, [field.selectSql], JoinSelects(fields, prr));
      } else {
        assert acc1 == acc;
        assert Present(fields, ids) == prr;
      }
    }
  }

  /** The loop collects the parameters of each registered id still in the map, in order. */
  lemma {:induction false} JoinEntriesParams(acc: JoinAcc, fields: Fields, ids: seq<FieldId>)
    ensures JoinEntries(acc, fields, ids).params == acc.params + JoinParams(fields, Present(fields, ids))
    decreases |ids|
  {
    if ids == [] {
      assert acc.params + [] == acc.params;
    } else {
      var acc1 := JoinEntry(acc, fields, ids[0]);
      var rest := ids[1..];
      assert JoinEntries(acc, fields, ids) == JoinEntries(acc1, fields, rest);
      JoinEntriesParams(acc1, fields, rest);
      var prr := Present(fields, rest);
      if Get(fields, ids[0]).Some? {
        var field := Get(fields, ids[0]).value;
        PresentCons(fields, ids);
        assert acc1.params == acc.params + field.joinSql.1;
        assert JoinParams(fields, Present(fields, ids)) == field.joinSql.1 + JoinParams(fields, prr);
        ConcatAssoc(acc.params, field.joinSql.1, JoinParams(fields, prr));
      } else {
        assert acc1 == acc;
        assert Present(fields, ids) == prr;
      }
    }
  }

  /**
   * Over distinct registered ids, the loop emits one fragment per id still
   * in the map, keyed by that id, in registration order.
   */
  lemma {:induction false} JoinEntriesSpec(acc: JoinAcc, fields: Fields, ids: seq<FieldId>)
    requires Distinct(ids)
    requires forall x :: x in ids ==> x !in Keys(acc.joinFrom)
    ensures JoinEntries(acc, fields, ids).joinFrom
            == acc.joinFrom + Zip(Present(fields, ids), Fragments(fields, Present(fields, ids)))
    decreases |ids|
  {
    if ids == [] {
      assert acc.joinFrom + [] == acc.joinFrom;
    } else {
      var acc1 := JoinEntry(acc, fields, ids[0]);
      var rest := ids[1..];
      assert JoinEntries(acc, fields, ids) == JoinEntries(acc1, fields, rest);
      DistinctTail(ids);
      match Get(fields, ids[0])
      case None =>
        assert acc1 == acc;
        assert Present(fields, ids) == Present(fields, rest);
        JoinEntriesSpec(acc1, fields, rest);
      case Some(field) =>
        var e := (ids[0], field.joinSql.0);
        PutNew(acc.joinFrom, ids[0], field.joinSql.0);
        assert Keys(acc1.joinFrom) == Keys(acc.joinFrom) + [ids[0]];
        JoinEntriesSpec(acc1, fields, rest);
        JoinStep(acc.joinFrom, e, fields, ids);
    }
  }

  lemma JoinStep(m: OMap<FieldId, string>, e: (FieldId, string), fields: Fields, ids: seq<FieldId>)
    requires ids != [] && Get(fields, ids[0]).Some? && e == (ids[0], Get(fields, ids[0]).value.joinSql.0)
    ensures var prr := Present(fields, ids[1..]);
      m + [e] + Zip(prr, Fragments(fields, prr))
      == m + Zip(Present(fields, ids), Fragments(fields, Present(fields, ids)))
  {
    var prr := Present(fields, ids[1..]);
    var pr := Present(fields, ids);
    assert pr == [ids[0]] + prr;
    var fr := Fragments(fields, pr);
    assert fr == [e.1] + Fragments(fields, prr);
    assert pr[1..] == prr && fr[1..] == Fragments(fields, prr);
    assert Zip(pr, fr) == [e] + Zip(prr, Fragments(fields, prr));
    ConcatAssoc(m, [e], Zip(prr, Fragments(fields, prr)));
  }

  /** Pairs the elements of two sequences of equal length. */
  function Zip<A, B>(xs: seq<A>, ys: seq<B>): (r: seq<(A, B)>)
    requires |xs| == |ys|
    ensures |r| == |xs|
    ensures forall i :: 0 <= i < |xs| ==> r[i] == (xs[i], ys[i])
    decreases |xs|
  {
    if xs == [] then [] else [(xs[0], ys[0])] + Zip(xs[1..], ys[1..])
  }

  /** `get_join_sql`: without registered joins the phase adds nothing. */
  function JoinSql(joins: seq<FieldId>, fields: Fields): (r: JoinBundle)
    ensures joins == [] ==> r == JoinBundle(" ", " ", [])
  {
    if joins == [] then JoinBundle(" ", " ", [])
    else
      var acc := JoinEntries(JoinAcc([], [], []), fields, joins);
      JoinBundle(if acc.what != [] then ", " + Implode(", ", acc.what) else " ",
                 " " + Implode(" ", Values(acc.joinFrom)),
                 acc.params)
  }

  /**
   * Over distinct registered joins, the phase selects the column of every
   * registered field still in the map and adds one join fragment per such
   * field, in registration order; its parameters are theirs, concatenated.
   */
  lemma JoinSqlSpec(joins: seq<FieldId>, fields: Fields)
    requires joins != [] && Distinct(joins)
    ensures var pr := Present(fields, joins);
      var r := JoinSql(joins, fields);
      && Keys(JoinEntries(JoinAcc([], [], []), fields, joins).joinFrom) == pr
      && r.what == (if pr == [] then " " else ", " + Implode(", ", JoinSelects(fields, pr)))
      && r.tables == " " + Implode(" ", Fragments(fields, pr))
      && r.params == JoinParams(fields, pr)
  {
    var acc0 := JoinAcc([], [], []);
    JoinEntriesSpec(acc0, fields, joins);
    JoinEntriesWhat(acc0, fields, joins);
    JoinEntriesParams(acc0, fields, joins);
    var pr := Present(fields, joins);
    assert [] + Zip(pr, Fragments(fields, pr)) == Zip(pr, Fragments(fields, pr));
    assert [] + JoinSelects(fields, pr) == JoinSelects(fields, pr);
    assert [] + JoinParams(fields, pr) == JoinParams(fields, pr);
    ZipKeysValues(pr, Fragments(fields, pr));
  }

  lemma ZipKeysValues(xs: seq<FieldId>, ys: seq<string>)
    requires |xs| == |ys|
    ensures Keys(Zip(xs, ys)) == xs && Values(Zip(xs, ys)) == ys
  {
  }
}
