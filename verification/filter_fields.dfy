/**
 * What the filter composer asks of a field, and the scratch state one
 * composition threads through its four phases
 * (classes/pluginbase/dataformfilter.php).
 *
 * A field plugin is an opaque capability provider: every answer it gives
 * is a component of the `Field` record, so the composer's behaviour is
 * stated for all possible plugins at once.
 */
module FilterFields {
  import opened Optional
  import opened OrderedMaps
  import opened FilterState

  /** A value bound to a `?` placeholder. */
  datatype SqlParam = Text(text: string) | Number(number: int)

  /** A truthy answer of `get_search_sql`: the predicate, its parameters, and whether it reads the content table. */
  datatype FieldSearchSql = FieldSearchSql(sql: string, params: seq<SqlParam>, fromContent: bool)

  datatype Field = Field(
    id: FieldId,
    /** The field is a `dataformfield_internal`: its value lives in the entry row. */
    internal: bool,
    /** `is_joined()`. */
    joined: bool,
    /** `is_dataform_content()`. */
    dataformContent: bool,
    /** `get_search_sql($option)`; None for a falsy answer. */
    searchSql: SearchOption -> Option<FieldSearchSql>,
    /** `get_sort_sql($element)`; the element is null when the sort key has no comma. */
    sortSql: Option<string> -> string,
    /** `get_sort_from_sql()`: the join fragment and the value its content alias is built from. */
    sortFrom: (string, string),
    /** `get_search_from_sql()`. */
    searchFrom: string,
    /** `get_select_sql()`; a falsy string means the field is not selectable. */
    selectSql: string,
    /** `get_join_sql()`: the join fragment and its parameters. */
    joinSql: (string, seq<SqlParam>),
    /** `search_options_menu` is truthy. */
    searchMenu: bool,
    /** `simple_search_elements`. */
    simpleElements: seq<string>,
    /** `get_entry_ids_for_content($sql, $params)`: the ids of the entries whose content matches. */
    entryIdsFor: (string, seq<SqlParam>) -> seq<int>
  )

  /** The fields of the dataform, keyed by id in their PHP array order. */
  type Fields = OMap<FieldId, Field>

  /**
   * The working state of one composition: the fields whose table is already
   * in the query (`_filteredtables`, where null and the empty array behave
   * alike), the search and sort criteria being composed, and the fields
   * registered for a later join (`_joins`, an ordered set of ids).
   */
  datatype Scratch = Scratch(
    filteredTables: seq<FieldId>,
    searchFields: CustomSearch,
    sortFields: CustomSort,
    joins: seq<FieldId>
  )

  /** `init_filter_sql`: a fresh scratch state built from the filter alone. */
  function InitFilterSql(f: Filter): (s: Scratch)
    ensures s.filteredTables == [] && s.joins == []
    ensures s.searchFields == f.customsearch && s.sortFields == f.customsort
  {
    Scratch([], f.customsearch, f.customsort, [])
  }

  /**
   * `register_join_field`: reports whether the field is joined, and if so
   * adds its id to the registered joins once.
   */
  function RegisterJoinField(joins: seq<FieldId>, field: Field): (r: (bool, seq<FieldId>))
    ensures r.0 <==> field.joined
    ensures forall x :: x in r.1 <==> x in joins || (field.joined && x == field.id)
    ensures joins <= r.1 && |r.1| <= |joins| + 1
    ensures Distinct(joins) ==> Distinct(r.1)
  {
    if field.joined then (true, AddOnce(joins, field.id)) else (false, joins)
  }

  /** Registering the same field again changes nothing. */
  lemma RegisterIdempotent(joins: seq<FieldId>, field: Field)
    ensures var once := RegisterJoinField(joins, field);
      RegisterJoinField(once.1, field) == once
  {
  }

  /** The join fragment a search or sort phase adds for a field id. */
  function FromSql(fields: Fields, fid: FieldId, forSort: bool): string {
    match Get(fields, fid)
    case None => ""
    case Some(field) => if forSort then field.sortFrom.0 else field.searchFrom
  }

  /** The fragments of the given fields, concatenated in order. */
  function TableText(fields: Fields, ids: seq<FieldId>, forSort: bool): string
    decreases |ids|
  {
    if ids == [] then "" else FromSql(fields, ids[0], forSort) + TableText(fields, ids[1..], forSort)
  }

  /**
   * The loop "add only tables which are not already added": every id of
   * `from` not yet in `filtered` contributes its fragment and is recorded.
   */
  function AddTables(from: seq<FieldId>, filtered: seq<FieldId>, fields: Fields, forSort: bool): (r: (string, seq<FieldId>))
    ensures r.1 == AddAll(filtered, from)
    decreases |from|
  {
    if from == [] then ("", filtered)
    else if from[0] !in filtered then
      var rest := AddTables(from[1..], filtered + [from[0]], fields, forSort);
      (FromSql(fields, from[0], forSort) + rest.0, rest.1)
    else
      AddTables(from[1..], filtered, fields, forSort)
  }

  /** The fragments added are those of the newly recorded ids, each once, in order. */
  lemma {:induction false} AddTablesText(from: seq<FieldId>, filtered: seq<FieldId>, fields: Fields, forSort: bool)
    ensures AddTables(from, filtered, fields, forSort).0
            == TableText(fields, AddAll(filtered, from)[|filtered|..], forSort)
    decreases |from|
  {
    if from != [] {
      if from[0] !in filtered {
        var f1 := filtered + [from[0]];
        AddTablesText(from[1..], f1, fields, forSort);
        var all := AddAll(f1, from[1..]);
        assert AddOnce(filtered, from[0]) == f1;
        assert all == AddAll(filtered, from);
        assert all[..|f1|] == f1;
        var tail := all[|filtered|..];
        assert tail[0] == from[0];
        assert tail[1..] == all[|f1|..];
        assert TableText(fields, tail, forSort) == FromSql(fields, from[0], forSort) + TableText(fields, all[|f1|..], forSort);
      } else {
        AddTablesText(from[1..], filtered, fields, forSort);
      }
    }
  }
}
