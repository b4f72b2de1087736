/**
 * `get_sql` in classes/pluginbase/dataformfilter.php: one composition runs
 * the search, sort, content and join phases in that order over a scratch
 * state reset at its start.
 */
module FilterSql {
  import opened Optional
  import opened OrderedMaps
  import opened PhpText
  import opened FilterState
  import opened FilterFields
  import opened FilterSearch
  import opened FilterSort
  import opened FilterContent

  /** The fragments `get_sql` returns; of the join phase only the SELECT and table parts are passed on. */
  datatype Query = Query(
    search: SearchBundle,
    sort: SortBundle,
    content: ContentBundle,
    joinWhat: string,
    joinTables: string)

  /**
   * `get_sql`: the scratch state left by an earlier composition (`prior`)
   * is discarded, and the phases share the state in fixed order. The final
   * scratch state is returned beside the fragments.
   */
  function GetSql(prior: Scratch, f: Filter, fields: Fields, inOrEqual: seq<int> -> (string, seq<SqlParam>)): (r: (Query, Scratch))
    ensures r.1.searchFields == f.customsearch && r.1.sortFields == f.customsort
    ensures Distinct(r.1.joins)
    ensures f.customsort == [] ==> r.0.sort == SortBundle("", "", DefaultOrder, [])
    ensures f.contentfields == [] ==> r.0.content == ContentBundle(" ", " ", "", [], [])
    ensures r.1.joins == [] ==> r.0.joinWhat == " " && r.0.joinTables == " "
  {
    var s0 := InitFilterSql(f);
    var (sb, s1) := SearchSql(s0, f.search, fields, inOrEqual);
    var (ob, s2) := SortSql(s1, fields);
    var (cb, s3) := ContentSql(s2, f.contentfields, fields);
    var jb := JoinSql(s3.joins, fields);
    (Query(sb, ob, cb, jb.what, jb.tables), s3)
  }

  /** Two compositions of the same filter over the same fields agree, whatever state came before. */
  lemma FreshEachCall(p1: Scratch, p2: Scratch, f: Filter, fields: Fields, inOrEqual: seq<int> -> (string, seq<SqlParam>))
    ensures GetSql(p1, f, fields, inOrEqual) == GetSql(p2, f, fields, inOrEqual)
  {
  }

  /**
   * The registered joins are the joined fields met by the search, sort and
   * content phases, in that order, each once.
   */
  lemma JoinsSpec(prior: Scratch, f: Filter, fields: Fields, inOrEqual: seq<int> -> (string, seq<SqlParam>))
    ensures GetSql(prior, f, fields, inOrEqual).1.joins
            == AddAll([], Contributions(fields, f.customsearch).joined
                          + JoinedFields(fields, f.customsort)
                          + (if f.contentfields == [] then [] else JoinIds(fields, f.contentfields)))
  {
    var s0 := InitFilterSql(f);
    var c := Contributions(fields, f.customsearch);
    SearchSqlSpec(s0, f.search, fields, inOrEqual);
    var s1 := SearchSql(s0, f.search, fields, inOrEqual).1;
    assert s1.joins == AddAll([], c.joined);
    SortJoinsSpec(s1, fields);
    var s2 := SortSql(s1, fields).1;
    AddAllAppend([], c.joined, JoinedFields(fields, f.customsort));
    var ci := if f.contentfields == [] then [] else JoinIds(fields, f.contentfields);
    if f.contentfields != [] {
      ContentSqlSpec(s2, f.contentfields, fields);
    } else {
      assert AddAll(s2.joins, []) == s2.joins;
    }
    AddAllAppend([], c.joined + JoinedFields(fields, f.customsort), ci);
  }

  /**
   * A field registered by any phase gets exactly one join fragment, however
   * many phases met it: the join tables hold one fragment, and the join
   * SELECT list one column, per registered field still in the map.
   */
  lemma JoinTablesOnce(prior: Scratch, f: Filter, fields: Fields, inOrEqual: seq<int> -> (string, seq<SqlParam>))
    ensures var r := GetSql(prior, f, fields, inOrEqual);
      var pr := Present(fields, r.1.joins);
      r.1.joins != [] ==>
        && r.0.joinTables == " " + Implode(" ", Fragments(fields, pr))
        && r.0.joinWhat == (if pr == [] then " " else ", " + Implode(", ", JoinSelects(fields, pr)))
  {
    var r := GetSql(prior, f, fields, inOrEqual);
    if r.1.joins != [] {
      JoinSqlSpec(r.1.joins, fields);
    }
  }

  /** A joined field named by a search criterion, a sort key and a content request is registered once. */
  lemma SharedJoinRegisteredOnce(prior: Scratch, f: Filter, fields: Fields, inOrEqual: seq<int> -> (string, seq<SqlParam>), x: FieldId)
    requires x in Contributions(fields, f.customsearch).joined
    requires x in JoinedFields(fields, f.customsort)
    ensures var joins := GetSql(prior, f, fields, inOrEqual).1.joins;
      x in joins && Distinct(joins)
  {
    var joins := GetSql(prior, f, fields, inOrEqual).1.joins;
    var all := Contributions(fields, f.customsearch).joined
               + JoinedFields(fields, f.customsort)
               + (if f.contentfields == [] then [] else JoinIds(fields, f.contentfields));
    assert joins == AddAll([], all) by {
      JoinsSpec(prior, f, fields, inOrEqual);
    }
    assert x in all;
    AddAllMembers([], all);
  }
}
