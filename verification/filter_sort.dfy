/**
 * The sort phase of the filter composer (`get_sort_sql` in
 * classes/pluginbase/dataformfilter.php): the ORDER BY clause in
 * declaration order and the content tables of the non-internal sort fields.
 */
module FilterSort {
  import opened Optional
  import opened OrderedMaps
  import opened PhpText
  import opened FilterState
  import opened FilterFields

  /** The clause used when the filter declares no custom sort. */
  const DefaultOrder: string := " ORDER BY e.id ASC "

  /** The sort phase's output; it never adds a WHERE clause or parameters. */
  datatype SortBundle = SortBundle(tables: string, where: string, order: string, params: seq<SqlParam>)

  /** What the custom-sort loop accumulates: ORDER BY terms, non-internal sort fields, registered joins. */
  datatype SortAcc = SortAcc(orderBy: seq<string>, sorties: OMap<FieldId, string>, joins: seq<FieldId>)

  /** One ORDER BY term: descending exactly when the direction is truthy. */
  function SortTerm(name: string, dir: int): (t: string)
    ensures dir != 0 ==> t == name + " DESC"
    ensures dir == 0 ==> t == name + " ASC"
  {
    name + " " + (if dir != 0 then "DESC" else "ASC")
  }

  /** The field a sort key names and the element it sorts on; a falsy key names none. */
  function SortTarget(fields: Fields, key: string): Option<(FieldId, Field, Option<string>)> {
    if !Truthy(key) then None
    else
      var (fid, element) := SplitFirstTwo(key);
      match Get(fields, fid)
      case None => None
      case Some(field) => Some((fid, field, element))
  }

  /** One sort key: a falsy key or a missing field is skipped. */
  function SortEntry(acc: SortAcc, fields: Fields, key: string, dir: int): SortAcc {
    match SortTarget(fields, key)
    case None => acc
    case Some((fid, field, element)) =>
      var name := field.sortSql(element);
      SortAcc(
        acc.orderBy + [SortTerm(name, dir)],
        if field.internal then acc.sorties else Put(acc.sorties, fid, name),
        RegisterJoinField(acc.joins, field).1)
  }

  function SortEntries(acc: SortAcc, fields: Fields, cs: CustomSort): SortAcc
    decreases |cs|
  {
    if cs == [] then acc else SortEntries(SortEntry(acc, fields, cs[0].0, cs[0].1), fields, cs[1..])
  }

  /** The ORDER BY terms of the keys that name an existing field, in declaration order. */
  function Terms(fields: Fields, cs: CustomSort): (ts: seq<string>)
    ensures |ts| <= |cs|
    decreases |cs|
  {
    if cs == [] then []
    else match SortTarget(fields, cs[0].0)
      case None => Terms(fields, cs[1..])
      case Some((fid, field, element)) => [SortTerm(field.sortSql(element), cs[0].1)] + Terms(fields, cs[1..])
  }

  /** The ids of the non-internal fields the keys name, in declaration order. */
  function TableFields(fields: Fields, cs: CustomSort): seq<FieldId>
    decreases |cs|
  {
    if cs == [] then []
    else match SortTarget(fields, cs[0].0)
      case Some((fid, field, _)) => (if field.internal then [] else [fid]) + TableFields(fields, cs[1..])
      case None => TableFields(fields, cs[1..])
  }

  /** The ids of the joined fields the keys name, in declaration order. */
  function JoinedFields(fields: Fields, cs: CustomSort): seq<FieldId>
    decreases |cs|
  {
    if cs == [] then []
    else match SortTarget(fields, cs[0].0)
      case Some((_, field, _)) => (if field.joined then [field.id] else []) + JoinedFields(fields, cs[1..])
      case None => JoinedFields(fields, cs[1..])
  }

  /** The loop appends one term per key naming an existing field, in declaration order. */
  lemma {:induction false} SortEntriesTerms(acc: SortAcc, fields: Fields, cs: CustomSort)
    ensures SortEntries(acc, fields, cs).orderBy == acc.orderBy + Terms(fields, cs)
    decreases |cs|
  {
    if cs == [] {
      assert acc.orderBy + [] == acc.orderBy;
    } else {
      var acc1 := SortEntry(acc, fields, cs[0].0, cs[0].1);
      SortEntriesTerms(acc1, fields, cs[1..]);
      match SortTarget(fields, cs[0].0)
      case None =>
      case Some((fid, field, element)) =>
        var t := SortTerm(field.sortSql(element), cs[0].1);
        ConcatAssoc(acc.orderBy, [t], Terms(fields, cs[1..]));
    }
  }

  /** The loop records each non-internal sort field once, in declaration order. */
  lemma {:induction false} SortEntriesTables(acc: SortAcc, fields: Fields, cs: CustomSort)
    ensures Keys(SortEntries(acc, fields, cs).sorties) == AddAll(Keys(acc.sorties), TableFields(fields, cs))
    decreases |cs|
  {
    if cs != [] {
      var acc1 := SortEntry(acc, fields, cs[0].0, cs[0].1);
      SortEntriesTables(acc1, fields, cs[1..]);
      match SortTarget(fields, cs[0].0)
      case None =>
      case Some((fid, field, element)) =>
        var here := if field.internal then [] else [fid];
        if !field.internal {
          KeysPut(acc.sorties, fid, field.sortSql(element));
        }
        assert Keys(acc1.sorties) == AddAll(Keys(acc.sorties), here);
        AddAllAppend(Keys(acc.sorties), here, TableFields(fields, cs[1..]));
    }
  }

  /** The loop registers each joined sort field once. */
  lemma {:induction false} SortEntriesJoins(acc: SortAcc, fields: Fields, cs: CustomSort)
    ensures SortEntries(acc, fields, cs).joins == AddAll(acc.joins, JoinedFields(fields, cs))
    decreases |cs|
  {
    if cs != [] {
      var acc1 := SortEntry(acc, fields, cs[0].0, cs[0].1);
      SortEntriesJoins(acc1, fields, cs[1..]);
      match SortTarget(fields, cs[0].0)
      case None =>
      case Some((fid, field, element)) =>
        var here := if field.joined then [field.id] else [];
        assert acc1.joins == AddAll(acc.joins, here);
        AddAllAppend(acc.joins, here, JoinedFields(fields, cs[1..]));
    }
  }

  /** The ORDER BY clause of a list of terms; no terms give no clause. */
  function OrderClause(orderBy: seq<string>): (o: string)
    ensures orderBy == [] <==> o == ""
  {
    if orderBy != [] then " ORDER BY " + Implode(", ", orderBy) + " " else ""
  }

  /**
   * `get_sort_sql`: without a custom sort the entries are ordered by id;
   * otherwise by the declared keys, and each non-internal sort field whose
   * table is not yet in the query adds it once.
   */
  function SortSql(st: Scratch, fields: Fields): (r: (SortBundle, Scratch))
    ensures r.0.where == "" && r.0.params == []
    ensures st.sortFields == [] ==> r.0 == SortBundle("", "", DefaultOrder, []) && r.1 == st
    ensures st.sortFields != [] ==> r.0.order == OrderClause(Terms(fields, st.sortFields))
    ensures r.1.searchFields == st.searchFields && r.1.sortFields == st.sortFields
    ensures Distinct(st.filteredTables) ==> Distinct(r.1.filteredTables)
    ensures Distinct(st.joins) ==> Distinct(r.1.joins)
  {
    var acc := if st.sortFields == [] then SortAcc(["e.id ASC"], [], st.joins)
               else SortEntries(SortAcc([], [], st.joins), fields, st.sortFields);
    SortEntriesTerms(SortAcc([], [], st.joins), fields, st.sortFields);
    SortEntriesJoins(SortAcc([], [], st.joins), fields, st.sortFields);
    AddAllMembers(st.joins, JoinedFields(fields, st.sortFields));
    var tables := if acc.orderBy != [] && acc.sorties != []
                  then AddTables(Keys(acc.sorties), st.filteredTables, fields, true)
                  else ("", st.filteredTables);
    AddAllMembers(st.filteredTables, Keys(acc.sorties));
    assert [] + Terms(fields, st.sortFields) == Terms(fields, st.sortFields);
    (SortBundle(tables.0, "", OrderClause(acc.orderBy), []),
     st.(filteredTables := tables.1, joins := acc.joins))
  }

  /** The phase registers each joined sort field once, after the joins already registered. */
  lemma SortJoinsSpec(st: Scratch, fields: Fields)
    ensures SortSql(st, fields).1.joins == AddAll(st.joins, JoinedFields(fields, st.sortFields))
  {
    SortEntriesJoins(SortAcc([], [], st.joins), fields, st.sortFields);
  }

  /**
   * The sort tables are those of the non-internal sort fields that the
   * search phase did not already add, each once, in declaration order.
   */
  lemma SortTablesSpec(st: Scratch, fields: Fields)
    requires st.sortFields != []
    ensures var ids := AddAll(st.filteredTables, AddAll([], TableFields(fields, st.sortFields)));
      var r := SortSql(st, fields);
      && r.1.filteredTables == ids
      && r.0.tables == TableText(fields, ids[|st.filteredTables|..], true)
  {
    var tf := TableFields(fields, st.sortFields);
    var acc := SortEntries(SortAcc([], [], st.joins), fields, st.sortFields);
    SortEntriesTerms(SortAcc([], [], st.joins), fields, st.sortFields);
    SortEntriesTables(SortAcc([], [], st.joins), fields, st.sortFields);
    assert Keys(acc.sorties) == AddAll([], tf);
    AddTablesText(Keys(acc.sorties), st.filteredTables, fields, true);
    if acc.sorties == [] {
      assert AddAll(st.filteredTables, []) == st.filteredTables;
      assert st.filteredTables[|st.filteredTables|..] == [];
    } else if acc.orderBy == [] {
      assert Terms(fields, st.sortFields) == [];
      TermsCoverTables(fields, st.sortFields);
      assert false;
    }
  }

  /** Every sort table comes with an ORDER BY term. */
  lemma {:induction false} TermsCoverTables(fields: Fields, cs: CustomSort)
    ensures |TableFields(fields, cs)| <= |Terms(fields, cs)|
    decreases |cs|
  {
    if cs != [] {
      TermsCoverTables(fields, cs[1..]);
    }
  }

  /** The terms of two keys that name existing fields by id alone. */
  lemma TermsOfTwoKeys(fields: Fields, a: FieldId, b: FieldId, fa: Field, fb: Field, da: int, db: int)
    requires ',' !in a && ',' !in b && Truthy(a) && Truthy(b)
    requires Get(fields, a) == Some(fa) && Get(fields, b) == Some(fb)
    ensures Terms(fields, [(a, da), (b, db)]) == [SortTerm(fa.sortSql(None), da), SortTerm(fb.sortSql(None), db)]
  {
    SplitNoComma(a);
    SplitNoComma(b);
    var cs := [(a, da), (b, db)];
    assert SortTarget(fields, a) == Some((a, fa, None));
    assert SortTarget(fields, b) == Some((b, fb, None));
    assert cs[1..] == [(b, db)] && cs[1..][1..] == [];
    assert Terms(fields, cs[1..]) == [SortTerm(fb.sortSql(None), db)];
  }

  /** The clause of two terms lists them in order, separated by a comma. */
  lemma OrderOfTwoTerms(ta: string, tb: string)
    ensures OrderClause([ta, tb]) == " ORDER BY " + ta + ", " + tb + " "
  {
    assert [ta, tb][1..] == [tb];
  }

  /** Two keys, the first descending and the second ascending, keep their order and directions. */
  lemma TwoKeysInOrder(fields: Fields, st: Scratch, a: FieldId, b: FieldId, fa: Field, fb: Field)
    requires ',' !in a && ',' !in b && Truthy(a) && Truthy(b)
    requires Get(fields, a) == Some(fa) && Get(fields, b) == Some(fb)
    requires st.sortFields == [(a, 1), (b, 0)]
    ensures SortSql(st, fields).0.order
            == " ORDER BY " + fa.sortSql(None) + " DESC, " + fb.sortSql(None) + " ASC "
  {
    var ta := fa.sortSql(None) + " DESC";
    var tb := fb.sortSql(None) + " ASC";
    assert Terms(fields, st.sortFields) == [ta, tb] by {
      TermsOfTwoKeys(fields, a, b, fa, fb, 1, 0);
    }
    OrderOfTwoTerms(ta, tb);
    var r := SortSql(st, fields).0.order;
    assert r == " ORDER BY " + ta + ", " + tb + " ";
    DirectionsText(fa.sortSql(None), fb.sortSql(None));
  }

  lemma DirectionsText(x: string, y: string)
    ensures " ORDER BY " + (x + " DESC") + ", " + (y + " ASC") + " "
            == " ORDER BY " + x + " DESC, " + y + " ASC "
  {
    var l := " ORDER BY " + (x + " DESC") + ", " + (y + " ASC") + " ";
    var m := " ORDER BY " + x + " DESC, " + y + " ASC ";
    assert |l| == |m|;
    forall i | 0 <= i < |l| ensures l[i] == m[i] {
    }
  }
}
