/**
 * The declarative state of a dataform filter (classes/pluginbase/dataformfilter.php):
 * the record built by the constructor and the two append operations that
 * merge new search and sort options into it.
 *
 * `customsearch` and `customsort` are stored serialized by the source; here
 * they are the ordered maps themselves, so serialize/unserialize is the
 * identity at the persistence boundary.
 */
module FilterState {
  import opened Optional
  import opened OrderedMaps
  import opened PhpText

  /** Fields are looked up by their id, a PHP array key. */
  type FieldId = string

  /** One search criterion: (element, not, operator, value). */
  datatype SearchOption = SearchOption(element: string, negate: bool, operator: string, value: string)

  /** The criteria of one field: those joined with AND and those joined with OR. */
  datatype SearchField = SearchField(andOptions: seq<SearchOption>, orOptions: seq<SearchOption>)

  /** field id => criteria, in the order the fields were added. */
  type CustomSearch = OMap<FieldId, SearchField>

  /** "fieldid,element" => direction (non-zero means descending), in declaration order. */
  type CustomSort = OMap<string, int>

  datatype Filter = Filter(
    id: int,
    dataid: int,
    name: string,
    description: string,
    visible: int,
    perpage: int,
    selection: int,
    groupby: string,
    customsort: CustomSort,
    customsearch: CustomSearch,
    search: string,
    contentfields: seq<FieldId>,
    eids: seq<int>,
    users: seq<int>,
    groups: seq<int>,
    page: int
  )

  /** The raw attribute bag the constructor reads; a missing attribute is None. */
  datatype FilterData = FilterData(
    id: Option<int>,
    dataid: int,
    name: Option<string>,
    description: Option<string>,
    visible: Option<int>,
    perpage: Option<int>,
    selection: Option<int>,
    groupby: Option<string>,
    customsort: CustomSort,
    customsearch: CustomSearch,
    search: Option<string>,
    contentfields: seq<FieldId>,
    eids: seq<int>,
    users: seq<int>,
    groups: seq<int>,
    page: Option<int>
  )

  /** `empty($x) ? 0 : $x` for a number. */
  function IntOrZero(x: Option<int>): (r: int)
    ensures r == 0 <==> x.None? || x.value == 0
    ensures r != 0 ==> x == Some(r)
  {
    if x.None? || x.value == 0 then 0 else x.value
  }

  /** `empty($x) ? '' : $x` for a string: "" and "0" are both empty. */
  function TextOrBlank(x: Option<string>): (r: string)
    ensures r == "" || Truthy(r)
    ensures Truthy(r) ==> x == Some(r)
    ensures r == "" <==> x.None? || !Truthy(x.value)
  {
    if x.None? || !Truthy(x.value) then "" else x.value
  }

  /** A filter whose text attributes are either blank or truthy, as the constructor leaves them. */
  predicate Normal(f: Filter) {
    && (f.name == "" || Truthy(f.name))
    && (f.description == "" || Truthy(f.description))
    && (f.groupby == "" || Truthy(f.groupby))
    && (f.search == "" || Truthy(f.search))
  }

  /** The constructor: every empty attribute takes its default; an unset `visible` is 1. */
  function NewFilter(d: FilterData): (f: Filter)
    ensures Normal(f)
    ensures f.id == IntOrZero(d.id) && f.perpage == IntOrZero(d.perpage)
    ensures f.selection == IntOrZero(d.selection) && f.page == IntOrZero(d.page)
    ensures f.name == TextOrBlank(d.name) && f.description == TextOrBlank(d.description)
    ensures f.groupby == TextOrBlank(d.groupby)
    ensures f.contentfields == d.contentfields && f.eids == d.eids && f.users == d.users && f.groups == d.groups
    ensures f.dataid == d.dataid
    ensures f.visible == (if d.visible.None? then 1 else d.visible.value)
    ensures f.customsearch == d.customsearch && f.customsort == d.customsort
    ensures d.search.Some? && Truthy(d.search.value) ==> f.search == d.search.value
    ensures d.search.None? || !Truthy(d.search.value) ==> f.search == ""
  {
    Filter(
      IntOrZero(d.id),
      d.dataid,
      TextOrBlank(d.name),
      TextOrBlank(d.description),
      d.visible.GetOr(1),
      IntOrZero(d.perpage),
      IntOrZero(d.selection),
      TextOrBlank(d.groupby),
      d.customsort,
      d.customsearch,
      TextOrBlank(d.search),
      d.contentfields,
      d.eids,
      d.users,
      d.groups,
      IntOrZero(d.page))
  }

  /** The record a stored filter is read back from. */
  function Snapshot(f: Filter): (d: FilterData)
    ensures d.dataid == f.dataid && d.id == Some(f.id)
  {
    FilterData(
      Some(f.id), f.dataid, Some(f.name), Some(f.description), Some(f.visible),
      Some(f.perpage), Some(f.selection), Some(f.groupby), f.customsort, f.customsearch,
      Some(f.search), f.contentfields, f.eids, f.users, f.groups, Some(f.page))
  }

  /** Storing a constructed filter and constructing it again gives back the same filter. */
  lemma SnapshotRoundTrip(f: Filter)
    requires Normal(f)
    ensures NewFilter(Snapshot(f)) == f
  {
  }

  /** Construction is stable: a filter rebuilt from its own record is unchanged. */
  lemma ConstructionIdempotent(d: FilterData)
    ensures NewFilter(Snapshot(NewFilter(d))) == NewFilter(d)
  {
    SnapshotRoundTrip(NewFilter(d));
  }

  // ---------------------------------------------------------------------
  // append_sort_options

  /**
   * `append_sort_options`: every given key takes its new direction, in
   * place when the key exists, at the end otherwise; nothing changes for an
   * empty argument.
   */
  function AppendSortOptions(f: Filter, sorties: CustomSort): (r: Filter)
    ensures sorties == [] ==> r == f
    ensures r == f.(customsort := r.customsort)
  {
    if sorties == [] then f
    else f.(customsort := PutAll(f.customsort, sorties))
  }

  lemma AppendSortOptionsSpec(f: Filter, sorties: CustomSort)
    requires UniqueKeys(sorties)
    ensures Keys(AppendSortOptions(f, sorties).customsort) == AddAll(Keys(f.customsort), Keys(sorties))
    ensures forall k :: Get(AppendSortOptions(f, sorties).customsort, k)
                        == (if k in Keys(sorties) then Get(sorties, k) else Get(f.customsort, k))
  {
    PutAllSpec(f.customsort, sorties);
  }

  // ---------------------------------------------------------------------
  // append_search_options

  /** What `append_search_options` may be given: a quick-search string or an array of criteria. */
  datatype SearchInput = QuickText(text: string) | CustomOptions(options: CustomSearch)

  /** `$searchies` is falsy: an empty array, "" or "0". */
  predicate EmptyInput(input: SearchInput) {
    match input
    case QuickText(t) => !Truthy(t)
    case CustomOptions(o) => o == []
  }

  /** One AND/OR list: taken as is when the prior one is empty, otherwise merged after it. */
  function MergeList(prior: seq<SearchOption>, added: seq<SearchOption>): (r: seq<SearchOption>)
  {
    if prior == [] then added else prior + added
  }

  /** The criteria of one field after appending. */
  function MergeEntry(prior: Option<SearchField>, added: SearchField): (r: SearchField)
  {
    match prior
    case None => added
    case Some(e) => SearchField(MergeList(e.andOptions, added.andOptions), MergeList(e.orOptions, added.orOptions))
  }

  function MergeSearch(options: CustomSearch, searchies: CustomSearch): (r: CustomSearch)
    decreases |searchies|
  {
    if searchies == [] then options
    else
      var (fid, sy) := searchies[0];
      MergeSearch(Put(options, fid, MergeEntry(Get(options, fid), sy)), searchies[1..])
  }

  /**
   * `append_search_options`: an empty argument changes nothing, a string
   * replaces the quick search, an array is merged into `customsearch`.
   */
  function AppendSearchOptions(f: Filter, input: SearchInput): (r: Filter)
    ensures EmptyInput(input) ==> r == f
    ensures !EmptyInput(input) && input.QuickText? ==> r == f.(search := input.text)
    ensures input.CustomOptions? ==> r == f.(customsearch := r.customsearch)
  {
    if EmptyInput(input) then f
    else match input
      case QuickText(t) => f.(search := t)
      case CustomOptions(o) => f.(customsearch := MergeSearch(f.customsearch, o))
  }

  /** The criteria a field holds after appending, stated as plain concatenation. */
  function Appended(prior: Option<SearchField>, added: SearchField): SearchField {
    match prior
    case None => added
    case Some(e) => SearchField(e.andOptions + added.andOptions, e.orOptions + added.orOptions)
  }

  /** The merge of one list is concatenation, duplicates kept. */
  lemma MergeIsConcat(prior: Option<SearchField>, added: SearchField)
    ensures MergeEntry(prior, added) == Appended(prior, added)
  {
    if prior.Some? {
      assert [] + added.andOptions == added.andOptions;
      assert [] + added.orOptions == added.orOptions;
    }
  }

  /**
   * Appending criteria keeps the existing fields in place, adds the new
   * fields after them, and concatenates the AND and OR lists of a field that
   * was already there.
   */
  lemma {:induction false} MergeSearchSpec(options: CustomSearch, searchies: CustomSearch)
    requires UniqueKeys(searchies)
    ensures Keys(MergeSearch(options, searchies)) == AddAll(Keys(options), Keys(searchies))
    ensures forall k :: Get(MergeSearch(options, searchies), k)
                        == (if k in Keys(searchies) then Some(Appended(Get(options, k), Get(searchies, k).value))
                            else Get(options, k))
    decreases |searchies|
  {
    if searchies != [] {
      var (fid, sy) := searchies[0];
      var o1 := Put(options, fid, MergeEntry(Get(options, fid), sy));
      var rest := searchies[1..];
      assert Keys(searchies) == [fid] + Keys(rest);
      assert Keys(searchies)[1..] == Keys(rest);
      DistinctTail(Keys(searchies));
      MergeSearchSpec(o1, rest);
      MergeIsConcat(Get(options, fid), sy);
      assert Keys(o1) == AddOnce(Keys(options), fid);
      forall k | k in Keys(rest)
        ensures Get(searchies, k) == Get(rest, k)
      {
      }
    }
  }

  lemma AppendSearchOptionsSpec(f: Filter, options: CustomSearch)
    requires options != [] && UniqueKeys(options)
    ensures var r := AppendSearchOptions(f, CustomOptions(options));
      && Keys(r.customsearch) == AddAll(Keys(f.customsearch), Keys(options))
      && forall k :: Get(r.customsearch, k)
                     == (if k in Keys(options) then Some(Appended(Get(f.customsearch, k), Get(options, k).value))
                         else Get(f.customsearch, k))
  {
    MergeSearchSpec(f.customsearch, options);
  }

  /** Appending the same AND criterion twice to a filter without criteria keeps both copies. */
  lemma AppendTwiceKeepsDuplicates(f: Filter, fid: FieldId, o: SearchOption)
    requires f.customsearch == []
    ensures var once := [(fid, SearchField([o], []))];
      AppendSearchOptions(AppendSearchOptions(f, CustomOptions(once)), CustomOptions(once)).customsearch
        == [(fid, SearchField([o, o], []))]
  {
    var once := [(fid, SearchField([o], []))];
    var sy := SearchField([o], []);
    assert once[1..] == [];
    var none: CustomSearch := [];
    assert Get(none, fid) == None;
    assert MergeSearch(none, once) == MergeSearch(Put([], fid, sy), []) == once;
    var f1 := AppendSearchOptions(f, CustomOptions(once));
    assert Get(once, fid) == Some(sy);
    assert MergeEntry(Some(sy), sy) == SearchField([o, o], []);
    assert Put(once, fid, SearchField([o, o], [])) == [(fid, SearchField([o, o], []))];
    assert MergeSearch(once, once) == MergeSearch([(fid, SearchField([o, o], []))], []);
  }
}
