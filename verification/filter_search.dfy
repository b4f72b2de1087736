/**
 * The search phase of the filter composer (`get_search_sql` in
 * classes/pluginbase/dataformfilter.php): AND and OR predicates from the
 * custom criteria, the quick-search id filter, and the content tables the
 * predicates read.
 */
module FilterSearch {
  import opened Optional
  import opened OrderedMaps
  import opened PhpText
  import opened FilterState
  import opened FilterFields

  /** The id a quick search with no hit filters on, so that no entry matches. */
  const NoMatchSentinel: int := -999

  /** What the criteria loop accumulates. */
  datatype SearchAcc = SearchAcc(
    whereAnd: seq<string>,
    whereOr: seq<string>,
    params: seq<SqlParam>,
    searchFrom: seq<FieldId>,
    joins: seq<FieldId>
  )

  /** The search phase's output: extra tables, the WHERE suffix and its parameters. */
  datatype SearchBundle = SearchBundle(tables: string, where: string, params: seq<SqlParam>)

  // ---------------------------------------------------------------------
  // The criteria loop, as the source writes it

  /** One criterion: a truthy answer adds its predicate to the AND or OR bucket and its parameters. */
  function AddOption(acc: SearchAcc, field: Field, fid: FieldId, opt: SearchOption, toOr: bool): SearchAcc {
    match field.searchSql(opt)
    case None => acc
    case Some(h) =>
      var acc1 := if toOr then acc.(whereOr := acc.whereOr + [h.sql]) else acc.(whereAnd := acc.whereAnd + [h.sql]);
      var acc2 := acc1.(params := acc.params + h.params);
      if !field.internal && h.fromContent then acc2.(searchFrom := AddOnce(acc.searchFrom, fid)) else acc2
  }

  function AddOptions(acc: SearchAcc, field: Field, fid: FieldId, opts: seq<SearchOption>, toOr: bool): SearchAcc
    decreases |opts|
  {
    if opts == [] then acc else AddOptions(AddOption(acc, field, fid, opts[0], toOr), field, fid, opts[1..], toOr)
  }

  /** One field's criteria; a field missing from the field set is skipped. */
  function SearchEntry(acc: SearchAcc, fields: Fields, fid: FieldId, sf: SearchField): SearchAcc {
    match Get(fields, fid)
    case None => acc
    case Some(field) =>
      var acc1 := acc.(joins := RegisterJoinField(acc.joins, field).1);
      var acc2 := AddOptions(acc1, field, fid, sf.andOptions, false);
      AddOptions(acc2, field, fid, sf.orOptions, true)
  }

  function SearchEntries(acc: SearchAcc, fields: Fields, cs: CustomSearch): SearchAcc
    decreases |cs|
  {
    if cs == [] then acc else SearchEntries(SearchEntry(acc, fields, cs[0].0, cs[0].1), fields, cs[1..])
  }

  // ---------------------------------------------------------------------
  // What the criteria contribute, stated without the accumulator

  /** The truthy answers of a field for a list of criteria, in order. */
  function Hits(field: Field, opts: seq<SearchOption>): seq<FieldSearchSql>
    decreases |opts|
  {
    if opts == [] then []
    else match field.searchSql(opts[0])
      case None => Hits(field, opts[1..])
      case Some(h) => [h] + Hits(field, opts[1..])
  }

  function Predicates(hs: seq<FieldSearchSql>): seq<string>
    decreases |hs|
  {
    if hs == [] then [] else [hs[0].sql] + Predicates(hs[1..])
  }

  function HitParams(hs: seq<FieldSearchSql>): seq<SqlParam>
    decreases |hs|
  {
    if hs == [] then [] else hs[0].params + HitParams(hs[1..])
  }

  predicate AnyFromContent(hs: seq<FieldSearchSql>) {
    exists i :: 0 <= i < |hs| && hs[i].fromContent
  }

  /** What a field's criteria add to the query: predicates, parameters, tables and joins. */
  datatype Contribution = Contribution(
    ands: seq<string>,
    ors: seq<string>,
    params: seq<SqlParam>,
    tables: seq<FieldId>,
    joined: seq<FieldId>
  )

  const NoContribution := Contribution([], [], [], [], [])

  function Plus(a: Contribution, b: Contribution): Contribution {
    Contribution(a.ands + b.ands, a.ors + b.ors, a.params + b.params, a.tables + b.tables, a.joined + b.joined)
  }

  /** A field contributes a table when it is not internal and some answer reads its content. */
  predicate ReadsContentTable(field: Field, sf: SearchField) {
    !field.internal && (AnyFromContent(Hits(field, sf.andOptions)) || AnyFromContent(Hits(field, sf.orOptions)))
  }

  function EntryContribution(fields: Fields, fid: FieldId, sf: SearchField): Contribution {
    match Get(fields, fid)
    case None => NoContribution
    case Some(field) =>
      var ha := Hits(field, sf.andOptions);
      var ho := Hits(field, sf.orOptions);
      Contribution(
        Predicates(ha),
        Predicates(ho),
        HitParams(ha) + HitParams(ho),
        if ReadsContentTable(field, sf) then [fid] else [],
        if field.joined then [field.id] else [])
  }

  function Contributions(fields: Fields, cs: CustomSearch): Contribution
    decreases |cs|
  {
    if cs == [] then NoContribution else Plus(EntryContribution(fields, cs[0].0, cs[0].1), Contributions(fields, cs[1..]))
  }

  /** A hit list starting with one answer. */
  lemma HitsCons(field: Field, opts: seq<SearchOption>)
    requires opts != [] && field.searchSql(opts[0]).Some?
    ensures var hs := Hits(field, opts);
      var h := field.searchSql(opts[0]).value;
      && hs == [h] + Hits(field, opts[1..])
      && Predicates(hs) == [h.sql] + Predicates(Hits(field, opts[1..]))
      && HitParams(hs) == h.params + HitParams(Hits(field, opts[1..]))
      && (AnyFromContent(hs) <==> h.fromContent || AnyFromContent(Hits(field, opts[1..])))
  {
    var h := field.searchSql(opts[0]).value;
    var rest := Hits(field, opts[1..]);
    var hs := [h] + rest;
    assert hs[1..] == rest;
    if AnyFromContent(rest) {
      var i :| 0 <= i < |rest| && rest[i].fromContent;
      assert hs[i + 1] == rest[i];
    }
  }

  /** The criteria of a list of options go to one bucket, their parameters in call order. */
  lemma {:induction false} AddOptionsSpec(acc: SearchAcc, field: Field, fid: FieldId, opts: seq<SearchOption>, toOr: bool)
    ensures var r := AddOptions(acc, field, fid, opts, toOr);
      var hs := Hits(field, opts);
      && r.whereAnd == (if toOr then acc.whereAnd else acc.whereAnd + Predicates(hs))
      && r.whereOr == (if toOr then acc.whereOr + Predicates(hs) else acc.whereOr)
      && r.params == acc.params + HitParams(hs)
      && r.joins == acc.joins
    decreases |opts|
  {
    if opts != [] {
      var acc1 := AddOption(acc, field, fid, opts[0], toOr);
      AddOptionsSpec(acc1, field, fid, opts[1..], toOr);
      var rest := Hits(field, opts[1..]);
      if field.searchSql(opts[0]).Some? {
        var h := field.searchSql(opts[0]).value;
        HitsCons(field, opts);
        assert acc1.params == acc.params + h.params;
        assert acc1.joins == acc.joins;
        ConcatAssoc(acc.params, h.params, HitParams(rest));
        if toOr {
          assert acc1.whereOr == acc.whereOr + [h.sql] && acc1.whereAnd == acc.whereAnd;
          ConcatAssoc(acc.whereOr, [h.sql], Predicates(rest));
        } else {
          assert acc1.whereAnd == acc.whereAnd + [h.sql] && acc1.whereOr == acc.whereOr;
          ConcatAssoc(acc.whereAnd, [h.sql], Predicates(rest));
        }
      } else {
        assert acc1 == acc;
      }
    }
  }

  /** A list of options records the field's table once when some answer reads the content table. */
  lemma {:induction false} AddOptionsTables(acc: SearchAcc, field: Field, fid: FieldId, opts: seq<SearchOption>, toOr: bool)
    ensures AddOptions(acc, field, fid, opts, toOr).searchFrom
            == (if !field.internal && AnyFromContent(Hits(field, opts)) then AddOnce(acc.searchFrom, fid) else acc.searchFrom)
    decreases |opts|
  {
    if opts != [] {
      var acc1 := AddOption(acc, field, fid, opts[0], toOr);
      AddOptionsTables(acc1, field, fid, opts[1..], toOr);
      if field.searchSql(opts[0]).Some? {
        HitsCons(field, opts);
      }
    }
  }

  /** The accumulator after a contribution is added to it. */
  function Extend(acc: SearchAcc, c: Contribution): SearchAcc {
    SearchAcc(acc.whereAnd + c.ands, acc.whereOr + c.ors, acc.params + c.params,
              AddAll(acc.searchFrom, c.tables), AddAll(acc.joins, c.joined))
  }

  lemma ExtendTwice(acc: SearchAcc, a: Contribution, b: Contribution)
    ensures Extend(Extend(acc, a), b) == Extend(acc, Plus(a, b))
  {
    AddAllAppend(acc.searchFrom, a.tables, b.tables);
    AddAllAppend(acc.joins, a.joined, b.joined);
    ConcatAssoc(acc.whereAnd, a.ands, b.ands);
    ConcatAssoc(acc.whereOr, a.ors, b.ors);
    ConcatAssoc(acc.params, a.params, b.params);
  }

  /** The predicates and parameters of one present field. */
  lemma FieldCriteriaText(acc: SearchAcc, field: Field, fid: FieldId, sf: SearchField)
    ensures var a1 := acc.(joins := RegisterJoinField(acc.joins, field).1);
      var r := AddOptions(AddOptions(a1, field, fid, sf.andOptions, false), field, fid, sf.orOptions, true);
      && r.whereAnd == acc.whereAnd + Predicates(Hits(field, sf.andOptions))
      && r.whereOr == acc.whereOr + Predicates(Hits(field, sf.orOptions))
      && r.params == acc.params + (HitParams(Hits(field, sf.andOptions)) + HitParams(Hits(field, sf.orOptions)))
      && r.joins == a1.joins
  {
    var a1 := acc.(joins := RegisterJoinField(acc.joins, field).1);
    AddOptionsSpec(a1, field, fid, sf.andOptions, false);
    var a2 := AddOptions(a1, field, fid, sf.andOptions, false);
    AddOptionsSpec(a2, field, fid, sf.orOptions, true);
    ConcatAssoc(acc.params, HitParams(Hits(field, sf.andOptions)), HitParams(Hits(field, sf.orOptions)));
  }

  /** The tables of one present field. */
  lemma FieldCriteriaTables(acc: SearchAcc, field: Field, fid: FieldId, sf: SearchField)
    ensures var a1 := acc.(joins := RegisterJoinField(acc.joins, field).1);
      var r := AddOptions(AddOptions(a1, field, fid, sf.andOptions, false), field, fid, sf.orOptions, true);
      r.searchFrom == AddAll(acc.searchFrom, if ReadsContentTable(field, sf) then [fid] else [])
  {
    var a1 := acc.(joins := RegisterJoinField(acc.joins, field).1);
    AddOptionsTables(a1, field, fid, sf.andOptions, false);
    var a2 := AddOptions(a1, field, fid, sf.andOptions, false);
    AddOptionsTables(a2, field, fid, sf.orOptions, true);
    assert AddAll(acc.searchFrom, [fid]) == AddOnce(acc.searchFrom, fid);
  }

  /** One field's criteria add exactly that field's contribution. */
  lemma SearchEntrySpec(acc: SearchAcc, fields: Fields, fid: FieldId, sf: SearchField)
    ensures SearchEntry(acc, fields, fid, sf) == Extend(acc, EntryContribution(fields, fid, sf))
  {
    match Get(fields, fid)
    case None =>
      assert acc.whereAnd + [] == acc.whereAnd && acc.whereOr + [] == acc.whereOr && acc.params + [] == acc.params;
    case Some(field) =>
      FieldCriteriaText(acc, field, fid, sf);
      FieldCriteriaTables(acc, field, fid, sf);
      assert AddAll(acc.joins, [field.id]) == AddOnce(acc.joins, field.id);
  }

  /**
   * The criteria loop appends, field by field in `customsearch` order, each
   * field's AND predicates, OR predicates and parameters; it records each
   * table-reading field once and registers each joined field once.
   */
  lemma {:induction false} SearchEntriesSpec(acc: SearchAcc, fields: Fields, cs: CustomSearch)
    ensures SearchEntries(acc, fields, cs) == Extend(acc, Contributions(fields, cs))
    decreases |cs|
  {
    if cs == [] {
      assert acc.whereAnd + [] == acc.whereAnd && acc.whereOr + [] == acc.whereOr && acc.params + [] == acc.params;
    } else {
      var e := EntryContribution(fields, cs[0].0, cs[0].1);
      var acc1 := SearchEntry(acc, fields, cs[0].0, cs[0].1);
      SearchEntrySpec(acc, fields, cs[0].0, cs[0].1);
      SearchEntriesSpec(acc1, fields, cs[1..]);
      ExtendTwice(acc, e, Contributions(fields, cs[1..]));
    }
  }

  /** An entry whose field is missing contributes nothing. */
  lemma MissingFieldContributesNothing(fields: Fields, fid: FieldId, sf: SearchField)
    requires Get(fields, fid).None?
    ensures EntryContribution(fields, fid, sf) == NoContribution
  {
  }

  /** The criteria restricted to fields that exist. */
  function PresentCriteria(fields: Fields, cs: CustomSearch): (r: CustomSearch)
    ensures forall i :: 0 <= i < |r| ==> Get(fields, r[i].0).Some?
    decreases |cs|
  {
    if cs == [] then []
    else if Get(fields, cs[0].0).None? then PresentCriteria(fields, cs[1..])
    else [cs[0]] + PresentCriteria(fields, cs[1..])
  }

  /** Dropping the criteria of missing fields changes nothing in the loop's outcome. */
  lemma {:induction false} MissingFieldsIgnored(acc: SearchAcc, fields: Fields, cs: CustomSearch)
    ensures SearchEntries(acc, fields, cs) == SearchEntries(acc, fields, PresentCriteria(fields, cs))
    decreases |cs|
  {
    if cs != [] {
      var acc1 := SearchEntry(acc, fields, cs[0].0, cs[0].1);
      MissingFieldsIgnored(acc1, fields, cs[1..]);
      if Get(fields, cs[0].0).Some? {
        var p := [cs[0]] + PresentCriteria(fields, cs[1..]);
        assert p[0] == cs[0] && p[1..] == PresentCriteria(fields, cs[1..]);
      }
    }
  }

  /** A criteria entry whose field exists and reads its content table. */
  predicate EntryReadsTable(fields: Fields, e: (FieldId, SearchField)) {
    Get(fields, e.0).Some? && ReadsContentTable(Get(fields, e.0).value, e.1)
  }

  /** A field id is recorded as a search table exactly when some entry of it reads its content table. */
  lemma {:induction false} TablesSpec(fields: Fields, cs: CustomSearch)
    ensures forall fid :: fid in Contributions(fields, cs).tables <==>
      exists i :: 0 <= i < |cs| && cs[i].0 == fid && EntryReadsTable(fields, cs[i])
    decreases |cs|
  {
    if cs != [] {
      var rest := cs[1..];
      TablesSpec(fields, rest);
      var here := EntryContribution(fields, cs[0].0, cs[0].1).tables;
      assert here == (if EntryReadsTable(fields, cs[0]) then [cs[0].0] else []);
      assert Contributions(fields, cs).tables == here + Contributions(fields, rest).tables;
      forall fid
        ensures fid in Contributions(fields, cs).tables <==>
          exists i :: 0 <= i < |cs| && cs[i].0 == fid && EntryReadsTable(fields, cs[i])
      {
        if exists i :: 0 <= i < |cs| && cs[i].0 == fid && EntryReadsTable(fields, cs[i]) {
          var i :| 0 <= i < |cs| && cs[i].0 == fid && EntryReadsTable(fields, cs[i]);
          if i > 0 {
            assert rest[i - 1] == cs[i];
          }
        }
        if fid in Contributions(fields, rest).tables {
          var i :| 0 <= i < |rest| && rest[i].0 == fid && EntryReadsTable(fields, rest[i]);
          assert cs[i + 1] == rest[i];
        }
      }
    }
  }

  // ---------------------------------------------------------------------
  // Quick search

  /** The ids of the entries whose content in one of the given elements matches the quick search. */
  function ElementHits(field: Field, elements: seq<string>, text: string): seq<int>
    decreases |elements|
  {
    if elements == [] then []
    else
      var here :=
        match field.searchSql(SearchOption(elements[0], false, "LIKE", text))
        case Some(h) => if Truthy(h.sql) then field.entryIdsFor(h.sql, h.params) else []
        case None => [];
      here + ElementHits(field, elements[1..], text)
  }

  /** All quick-search hits, field by field in field order; fields without a search menu are skipped. */
  function QuickHits(fields: Fields, text: string): seq<int>
    decreases |fields|
  {
    if fields == [] then []
    else
      var field := fields[0].1;
      (if field.searchMenu then ElementHits(field, field.simpleElements, text) else [])
        + QuickHits(fields[1..], text)
  }

  /**
   * The entry ids a quick search filters on: the hits without repetition,
   * or the sentinel alone when nothing matched. The list is never empty.
   */
  function QuickSearchIds(fields: Fields, text: string): (ids: seq<int>)
    ensures ids != []
    ensures QuickHits(fields, text) == [] ==> ids == [NoMatchSentinel]
    ensures QuickHits(fields, text) != [] ==>
      Distinct(ids) && forall x :: x in ids <==> x in QuickHits(fields, text)
    ensures QuickHits(fields, text) != [] && Distinct(QuickHits(fields, text)) ==> ids == QuickHits(fields, text)
    ensures QuickHits(fields, text) != [] ==> ids == AddAll([], QuickHits(fields, text))
  {
    var hits := QuickHits(fields, text);
    if hits == [] then [NoMatchSentinel]
    else
      var ids := AddAll([], hits);
      AddAllMembers([], hits);
      assert hits[0] in ids;
      assert Distinct(hits) ==> ids == hits by {
        if Distinct(hits) {
          assert [] + hits == hits;
          AddAllDistinct([], hits);
        }
      }
      ids
  }

  // ---------------------------------------------------------------------
  // The phase

  /** The WHERE suffix: AND predicates joined by AND, OR predicates in one parenthesised group. */
  function ComposeWhere(whereAnd: seq<string>, whereOr: seq<string>): (w: string)
    ensures whereAnd == [] && whereOr == [] ==> w == ""
    ensures whereAnd != [] && whereOr == [] ==> w == " AND " + Implode(" AND ", whereAnd)
    ensures whereAnd == [] && whereOr != [] ==> w == " AND (" + Implode(" OR ", whereOr) + ")"
    ensures whereAnd != [] && whereOr != [] ==>
      w == " AND " + Implode(" AND ", whereAnd) + " AND (" + Implode(" OR ", whereOr) + ")"
  {
    var searchwhere :=
      (if whereAnd != [] then [Implode(" AND ", whereAnd)] else [])
      + (if whereOr != [] then ["(" + Implode(" OR ", whereOr) + ")"] else []);
    if searchwhere != [] then " AND " + Implode(" AND ", searchwhere) else ""
  }

  /** The quick-search predicate over entry ids, built with the host's IN-or-equal helper. */
  function QuickPredicate(inSql: string): string {
    " e.id " + inSql + " "
  }

  /** The quick-search predicate and parameters, or nothing when there is no quick search. */
  function QuickFilter(text: string, fields: Fields, inOrEqual: seq<int> -> (string, seq<SqlParam>)): (q: (seq<string>, seq<SqlParam>))
    ensures !Truthy(text) ==> q == ([], [])
    ensures Truthy(text) ==>
      var (inSql, inParams) := inOrEqual(QuickSearchIds(fields, text));
      q == ([QuickPredicate(inSql)], inParams)
  {
    if Truthy(text) then
      var (inSql, inParams) := inOrEqual(QuickSearchIds(fields, text));
      ([QuickPredicate(inSql)], inParams)
    else ([], [])
  }

  /**
   * `get_search_sql`. `inOrEqual` is the host's `get_in_or_equal`, which
   * turns a list of values into an `IN (...)` or `= ?` fragment and its
   * parameters.
   */
  function SearchSql(st: Scratch, text: string, fields: Fields, inOrEqual: seq<int> -> (string, seq<SqlParam>)): (r: (SearchBundle, Scratch))
    ensures r.1.searchFields == st.searchFields && r.1.sortFields == st.sortFields
    ensures Distinct(r.1.filteredTables)
    ensures Distinct(st.joins) ==> Distinct(r.1.joins)
  {
    var acc := SearchEntries(SearchAcc([], [], [], [], st.joins), fields, st.searchFields);
    SearchEntriesSpec(SearchAcc([], [], [], [], st.joins), fields, st.searchFields);
    AddAllMembers([], Contributions(fields, st.searchFields).tables);
    AddAllMembers(st.joins, Contributions(fields, st.searchFields).joined);
    var quick := QuickFilter(text, fields, inOrEqual);
    var tables := AddTables(acc.searchFrom, st.filteredTables, fields, false);
    (SearchBundle(tables.0, ComposeWhere(acc.whereAnd + quick.0, acc.whereOr), acc.params + quick.1),
     st.(filteredTables := acc.searchFrom, joins := acc.joins))
  }

  /**
   * The phase's output in terms of what the criteria contribute: the AND
   * predicates in criteria order followed by the quick-search predicate,
   * the OR predicates, the parameters in call order followed by the
   * quick-search parameters, and one table per table-reading field not yet
   * in the query.
   */
  lemma SearchSqlSpec(st: Scratch, text: string, fields: Fields, inOrEqual: seq<int> -> (string, seq<SqlParam>))
    ensures var c := Contributions(fields, st.searchFields);
      var q := QuickFilter(text, fields, inOrEqual);
      var r := SearchSql(st, text, fields, inOrEqual);
      && r.0.params == c.params + q.1
      && r.0.where == ComposeWhere(c.ands + q.0, c.ors)
      && r.1.filteredTables == AddAll([], c.tables)
      && r.1.joins == AddAll(st.joins, c.joined)
      && r.0.tables == TableText(fields, AddAll(st.filteredTables, AddAll([], c.tables))[|st.filteredTables|..], false)
  {
    var c := Contributions(fields, st.searchFields);
    var acc0 := SearchAcc([], [], [], [], st.joins);
    SearchEntriesSpec(acc0, fields, st.searchFields);
    assert [] + c.ands == c.ands && [] + c.ors == c.ors && [] + c.params == c.params;
    var acc := SearchEntries(acc0, fields, st.searchFields);
    AddTablesText(acc.searchFrom, st.filteredTables, fields, false);
  }

  /** A quick search with no hit filters on the sentinel id alone. */
  lemma QuickSearchWithoutHits(st: Scratch, text: string, fields: Fields, inOrEqual: seq<int> -> (string, seq<SqlParam>))
    requires Truthy(text) && QuickHits(fields, text) == []
    ensures var c := Contributions(fields, st.searchFields);
      var r := SearchSql(st, text, fields, inOrEqual);
      && r.0.params == c.params + inOrEqual([NoMatchSentinel]).1
      && r.0.where == ComposeWhere(c.ands + [QuickPredicate(inOrEqual([NoMatchSentinel]).0)], c.ors)
  {
    SearchSqlSpec(st, text, fields, inOrEqual);
  }

  /**
   * A quick search with hits filters on the hit ids, each once in first-hit
   * order, through the host's IN-or-equal helper; its predicate follows the
   * AND predicates of the criteria and its parameters follow theirs.
   */
  lemma QuickSearchWithHits(st: Scratch, text: string, fields: Fields, inOrEqual: seq<int> -> (string, seq<SqlParam>))
    requires Truthy(text) && QuickHits(fields, text) != []
    ensures var c := Contributions(fields, st.searchFields);
      var (inSql, inParams) := inOrEqual(AddAll([], QuickHits(fields, text)));
      var r := SearchSql(st, text, fields, inOrEqual);
      && r.0.params == c.params + inParams
      && r.0.where == ComposeWhere(c.ands + [QuickPredicate(inSql)], c.ors)
  {
    SearchSqlSpec(st, text, fields, inOrEqual);
  }

  /** Without criteria and without quick search the phase adds nothing. */
  lemma EmptySearch(st: Scratch, text: string, fields: Fields, inOrEqual: seq<int> -> (string, seq<SqlParam>))
    requires st.searchFields == [] && !Truthy(text)
    ensures SearchSql(st, text, fields, inOrEqual).0 == SearchBundle("", "", [])
  {
    SearchSqlSpec(st, text, fields, inOrEqual);
    var c := Contributions(fields, st.searchFields);
    assert c == NoContribution;
    assert AddAll([], c.tables) == [];
    assert AddAll(st.filteredTables, [])[|st.filteredTables|..] == [];
  }
}
