# Dataform filter composer, access rules and activity rules in Dafny

This project models the core of the Moodle Dataform activity module (`mod_dataform`):

- **The filter and its query composer** (`classes/pluginbase/dataformfilter.php`).
  A filter holds the settings a view is shown with: a quick-search string, custom
  search criteria per field (an AND list and an OR list), custom sort keys, and the
  fields whose content is fetched. `get_sql` turns a filter and the dataform's fields
  into SQL fragments. It does this in four phases that share scratch state:
  - search: WHERE predicates, their parameters and the content tables;
  - sort: the ORDER BY clause and the sort tables;
  - content: the selected columns and content tables;
  - join: the joined fields, which the three earlier phases register.

  `append_search_options` and `append_sort_options` merge new criteria into a stored
  filter.
- **Two access validators**: `entry_delete` (may the user delete this entry?) and
  `field_view` (may the user see this field?), with their rule lookups.
- **Rules from `lib.php`**:
  - how `maxentries` is clamped to the site limit on add and on update;
  - how the grade is normalised;
  - which grade item parameters are sent to the gradebook;
  - the completion state;
  - the set of supported features.

Fields are opaque plugins. Each is a record of pure functions (`FilterFields.Field`),
one per question the composer asks it: `get_search_sql`, `get_sort_sql`, the join
fragments, and so on. Every statement about the composer therefore holds for every
possible field plugin. The same approach covers everything the host platform decides:
- the base capability check and `has_capability` (`AccessRules.Permissions`);
- the entry classifiers `is_own`, `is_grouped`, `is_anonymous`, `is_others` and
  `groups_is_member` (`EntryDelete.Classifier`);
- the field's visibility setting;
- the current user id;
- `$DB->get_in_or_equal`.

Each is a parameter. PHP arrays keyed by id are ordered association lists
(`OrderedMaps.OMap`), whose assignment `$a[$k] = $v` replaces a value in place or
appends it. Strings are compared by PHP truthiness (`""` and `"0"` are empty).

The modules are:

| module | file | topic |
|---|---|---|
| `Optional` | optional.dfy | `Option`, `Result` |
| `OrderedMaps` | ordered_maps.dfy | PHP arrays as ordered maps, `array_unique`-style sets |
| `PhpText` | php_text.dfy | truthiness, `implode`, `explode(',')` of a sort key |
| `FilterState` | filter_state.dfy | the filter record, the constructor, the two append operations |
| `FilterFields` | filter_fields.dfy | the field interface, the scratch state, join registration, table accumulation |
| `FilterSearch` | filter_search.dfy | the search phase and quick search |
| `FilterSort` | filter_sort.dfy | the sort phase |
| `FilterContent` | filter_content.dfy | the content phase and the join phase |
| `FilterSql` | filter_sql.dfy | `get_sql`, the four phases in order |
| `AccessRules` | access_rules.dfy | rules, the rule manager's lookup by type, the permission oracle |
| `EntryDelete` | entry_delete.dfy | `entry_delete` |
| `FieldView` | field_view.dfy | `field_view` |
| `LibRules` | lib_rules.dfy | the `lib.php` rules |

Each phase is written twice:
- as the accumulator loop the source runs;
- as an independent description of what that loop produces. For example, the search
  phase's AND predicates are the hits of every present field's AND criteria, in
  criteria order.

Lemmas connect the two, and the properties are stated over the independent
description.

## Model

| member | source | states |
|---|---|---|
| `FilterState.NewFilter` | classes/pluginbase/dataformfilter.php:50-71 | `id`, `perpage`, `selection` and `page` become 0 when empty; `name`, `description`, `groupby` and `search` become "" when empty, where "0" counts as empty; an unset `visible` is 1; any other value is kept; `dataid`, the criteria and the id lists are carried over |
| `FilterState.SnapshotRoundTrip` | classes/pluginbase/dataformfilter.php:50-71 | constructing a filter from the record of an already constructed filter gives back the same filter |
| `FilterState.ConstructionIdempotent` | classes/pluginbase/dataformfilter.php:50-71 | construction is stable under store-and-reload |
| `FilterState.AppendSortOptions` | classes/pluginbase/dataformfilter.php:517-525 | an empty argument leaves the filter unchanged; otherwise only `customsort` changes |
| `FilterState.AppendSortOptionsSpec` | classes/pluginbase/dataformfilter.php:517-525 | existing sort keys keep their place and take the new direction; new keys are appended in argument order; every other key is unchanged |
| `FilterState.AppendSearchOptions` | classes/pluginbase/dataformfilter.php:553-579 | a falsy argument changes nothing; a string replaces the quick search; an array changes only `customsearch` |
| `FilterState.MergeIsConcat` | classes/pluginbase/dataformfilter.php:563-572 | merging one field's criteria is plain concatenation of the AND lists and of the OR lists, whether or not the prior list was empty |
| `FilterState.MergeSearchSpec` | classes/pluginbase/dataformfilter.php:556-575 | after a merge, the fields already present keep their place and new fields follow in argument order; a field in the argument holds its old criteria followed by the new ones; any other field is unchanged |
| `FilterState.AppendSearchOptionsSpec` | classes/pluginbase/dataformfilter.php:553-579 | the same for `append_search_options` with a non-empty array |
| `FilterState.AppendTwiceKeepsDuplicates` | classes/pluginbase/dataformfilter.php:567-570 | appending the same criterion twice keeps both copies (no de-duplication) |
| `PhpText.SplitFirstTwo` | classes/pluginbase/dataformfilter.php:372 | a sort key splits at its first comma: the field id is the text before it, and the element is the text from it up to the second comma or the end of the key; with no comma the field id is the whole key and the element is null |
| `PhpText.SplitJoinRoundTrip` | classes/pluginbase/dataformfilter.php:372 | splitting `fieldid,element` gives back both parts when neither holds a comma |
| `PhpText.SplitNoComma` | classes/pluginbase/dataformfilter.php:372 | a key without a comma is a field id with a null element |
| `FilterFields.InitFilterSql` | classes/pluginbase/dataformfilter.php:218-230 | a composition starts with no filtered tables and no joins, and with the filter's own criteria |
| `FilterFields.RegisterJoinField` | classes/pluginbase/dataformfilter.php:505-512 | the answer is true exactly for a joined field; exactly that field's id is added to the joins, at most once; distinct joins stay distinct |
| `FilterFields.RegisterIdempotent` | classes/pluginbase/dataformfilter.php:505-512 | registering the same field twice has the effect of registering it once |
| `FilterFields.AddTables` | classes/pluginbase/dataformfilter.php:329-338 | the filtered tables after the loop are the prior ones followed by each new id once, in order |
| `FilterFields.AddTablesText` | classes/pluginbase/dataformfilter.php:398-408 | the table text added is the fragment of each newly recorded id, once each, in order |
| `FilterSearch.AddOptionsSpec` | classes/pluginbase/dataformfilter.php:262-291 | one AND or OR list yields the predicates and parameters of its truthy answers in order, and goes to the AND list or to the OR list as named |
| `FilterSearch.AddOptionsTables` | classes/pluginbase/dataformfilter.php:271-273 | a field's content table is recorded exactly when it is not internal and some answer reads the content table |
| `FilterSearch.SearchEntrySpec` | classes/pluginbase/dataformfilter.php:250-293 | one criteria entry's effect on the scratch state is its independent contribution |
| `FilterSearch.SearchEntriesSpec` | classes/pluginbase/dataformfilter.php:250-293 | the whole criteria loop equals the sum of the contributions of its entries |
| `FilterSearch.MissingFieldContributesNothing` | classes/pluginbase/dataformfilter.php:252-254 | criteria for a field that does not exist contribute nothing |
| `FilterSearch.MissingFieldsIgnored` | classes/pluginbase/dataformfilter.php:252-254 | dropping the criteria of missing fields does not change the result |
| `FilterSearch.TablesSpec` | classes/pluginbase/dataformfilter.php:250-293 | a field's table is in the search tables iff one of its criteria entries reads the content table |
| `FilterSearch.QuickSearchIds` | classes/pluginbase/dataformfilter.php:298-322 | the quick-search ids are never empty; with no hit they are the sentinel -999 alone; otherwise they are the hits with repetitions dropped, each kept at its first occurrence (the ordered-set fold `AddAll`), and equal to the hits when these are already distinct |
| `FilterSearch.ComposeWhere` | classes/pluginbase/dataformfilter.php:340-347 | the WHERE suffix for each of the four cases: no predicates, AND predicates only, OR predicates only, or both |
| `FilterSearch.QuickFilter` | classes/pluginbase/dataformfilter.php:298-326 | a falsy quick search adds nothing; a truthy one adds the single predicate ` e.id <in-or-equal> ` and the parameters that the host's IN-or-equal helper gives for the quick-search ids |
| `FilterSearch.SearchSql` | classes/pluginbase/dataformfilter.php:235-353 | the phase leaves the criteria untouched, records each searched table once, and keeps the joins distinct |
| `FilterSearch.SearchSqlSpec` | classes/pluginbase/dataformfilter.php:235-353 | parameters, WHERE text, recorded tables, joins and table text, all in terms of the criteria's contributions and the quick search |
| `FilterSearch.QuickSearchWithHits` | classes/pluginbase/dataformfilter.php:298-326 | a quick search with hits filters on the hit ids, each once in first-hit order; its predicate follows the criteria's AND predicates, and its parameters follow theirs |
| `FilterSearch.QuickSearchWithoutHits` | classes/pluginbase/dataformfilter.php:318-325 | a quick search with no hit filters on the sentinel id alone |
| `FilterSearch.EmptySearch` | classes/pluginbase/dataformfilter.php:235-353 | without criteria and without a quick search the phase produces empty text and no parameters |
| `FilterSort.SortTerm` | classes/pluginbase/dataformfilter.php:384 | a non-zero direction sorts descending and zero sorts ascending |
| `FilterSort.SortEntriesTerms` | classes/pluginbase/dataformfilter.php:367-390 | the ORDER BY terms are one per usable key, in key order; falsy keys and missing fields are skipped |
| `FilterSort.SortEntriesTables` | classes/pluginbase/dataformfilter.php:380-383 | the sort tables are the non-internal sorted fields, each once, in first-use order |
| `FilterSort.SortEntriesJoins` | classes/pluginbase/dataformfilter.php:386-387 | the joins gain exactly the joined sorted fields, each once |
| `FilterSort.OrderClause` | classes/pluginbase/dataformfilter.php:396-397 | the ORDER BY clause is empty exactly when there are no terms |
| `FilterSort.SortSql` | classes/pluginbase/dataformfilter.php:358-411 | with no sort keys the phase yields the default order `e.id ASC` and changes nothing; otherwise the order clause is built from the terms; there is never a WHERE text or parameter; distinct tables and joins stay distinct |
| `FilterSort.SortJoinsSpec` | classes/pluginbase/dataformfilter.php:358-411 | the phase's joins are the prior joins plus the joined sorted fields |
| `FilterSort.SortTablesSpec` | classes/pluginbase/dataformfilter.php:398-408 | the recorded tables and the table text after the phase |
| `FilterSort.TermsCoverTables` | classes/pluginbase/dataformfilter.php:380-384 | there are never more sort tables than sort terms |
| `FilterSort.TermsOfTwoKeys` | classes/pluginbase/dataformfilter.php:367-390 | two plain keys of existing fields give two terms, in order |
| `FilterSort.TwoKeysInOrder` | classes/pluginbase/dataformfilter.php:358-411 | the keys `a => 1, b => 0` give `ORDER BY <a> DESC, <b> ASC` |
| `FilterContent.WithRole` | classes/pluginbase/dataformfilter.php:432-452 | selects exactly the requested fields that play a given role (skipped, joined, deferred, inline) |
| `FilterContent.RolesDisjoint` | classes/pluginbase/dataformfilter.php:439-451 | every requested field plays exactly one role |
| `FilterContent.ContentEntriesDeferred` | classes/pluginbase/dataformfilter.php:446-447 | the fields fetched separately are the selectable, unjoined, dataform-content fields, in request order |
| `FilterContent.ContentEntriesWhat` | classes/pluginbase/dataformfilter.php:448-449 | the selected columns are those of the inline fields, in request order |
| `FilterContent.ContentEntriesAliases` | classes/pluginbase/dataformfilter.php:450-451 | the alias values are those of the inline fields, in request order |
| `FilterContent.ContentEntriesFiltered` | classes/pluginbase/dataformfilter.php:450 | each inline field is appended to the filtered tables without a duplicate check |
| `FilterContent.ContentEntriesJoins` | classes/pluginbase/dataformfilter.php:441-444 | the joins gain exactly the joined requested fields |
| `FilterContent.ContentEntriesTables` | classes/pluginbase/dataformfilter.php:451 | the content tables are keyed by the inline fields, each once |
| `FilterContent.ContentTerms` | classes/pluginbase/dataformfilter.php:457-460 | one `fieldid = ?` term per alias, in order |
| `FilterContent.ContentSql` | classes/pluginbase/dataformfilter.php:417-465 | with no content fields the phase returns its blank defaults and changes nothing; otherwise only the filtered tables (extended) and the joins change |
| `FilterContent.ContentSqlSpec` | classes/pluginbase/dataformfilter.php:417-465 | the deferred fields, the selected columns, the terms returned as parameters, the WHERE text, the filtered tables and the joins |
| `FilterContent.ContentEntriesFragments` | classes/pluginbase/dataformfilter.php:451 | every content table the loop records holds its own field's `get_sort_from_sql` fragment |
| `FilterContent.ContentTablesSpec` | classes/pluginbase/dataformfilter.php:451-456 | the content tables are keyed by the distinct inline field ids in first-request order; the table text is the `get_sort_from_sql` fragments of those fields, in that order |
| `FilterContent.JoinedFieldsSkipped` | classes/pluginbase/dataformfilter.php:441-444 | a joined field is neither deferred nor inline here; it is registered for the join phase |
| `FilterContent.JoinIdsMembers` | classes/pluginbase/dataformfilter.php:505-512 | a joined requested field's id is among the ids registered |
| `FilterContent.Present` | classes/pluginbase/dataformfilter.php:485-488 | the join phase processes exactly the registered ids whose field exists |
| `FilterContent.Fragments` | classes/pluginbase/dataformfilter.php:490-492 | one join fragment per processed field, in order |
| `FilterContent.JoinEntriesSpec` | classes/pluginbase/dataformfilter.php:485-494 | the join loop records, for each present id in order, its join fragment |
| `FilterContent.JoinSql` | classes/pluginbase/dataformfilter.php:477-479 | with no registered joins the phase returns blank text and no parameters |
| `FilterContent.JoinSelects` | classes/pluginbase/dataformfilter.php:490 | one select column per processed field, in order |
| `FilterContent.JoinEntriesWhat` | classes/pluginbase/dataformfilter.php:485-494 | the join loop selects the column of each present registered id, in order |
| `FilterContent.JoinEntriesParams` | classes/pluginbase/dataformfilter.php:485-494 | the join loop collects the parameters of each present registered id, in order |
| `FilterContent.JoinSqlSpec` | classes/pluginbase/dataformfilter.php:470-500 | over the present registered fields in registration order: the SELECT list is their columns, or blank when there are none; the join tables are their fragments; the parameters are theirs, concatenated |
| `FilterSql.GetSql` | classes/pluginbase/dataformfilter.php:184-213 | the composition reads the filter's own criteria; joins are distinct; no sort keys give the default order; no content fields give the blank content bundle; no joins give blank join text |
| `FilterSql.JoinsSpec` | classes/pluginbase/dataformfilter.php:184-213 | the registered joins are the joined fields of the search, then of the sort, then of the content phase, each once |
| `FilterSql.JoinTablesOnce` | classes/pluginbase/dataformfilter.php:470-500 | the join tables and the join SELECT list of a composition hold each registered field's fragment and column once |
| `FilterSql.FreshEachCall` | classes/pluginbase/dataformfilter.php:218-230 | a composition does not depend on the scratch state left before it, because `init_filter_sql` resets it |
| `FilterSql.SharedJoinRegisteredOnce` | classes/pluginbase/dataformfilter.php:505-512 | a joined field used both to search and to sort is joined exactly once |
| `AccessRules.TypeRules` | classes/access/entry_delete.php:104-108 | the rule manager's lookup returns exactly the rules of the given type |
| `AccessRules.TypeFilterAppend` | classes/access/entry_delete.php:104-108 | the lookup keeps the manager's rule order |
| `EntryDelete.Validate` | classes/access/entry_delete.php:41-99 | without an entry, the any-delete capability decides; an early or past-due activity requires the early or late capability first; after that the first matching row (own, group member, anonymous, others) decides, and an entry matching none is refused |
| `EntryDelete.ValidateIsTable` | classes/access/entry_delete.php:41-99 | the short-circuit chain decides exactly as an independent sum-of-products decision table |
| `EntryDelete.GrantedByOwnershipCheck` | classes/access/entry_delete.php:69-96 | an allowed delete passed the time gates and one of the four ownership capability checks |
| `EntryDelete.MonotoneInPermissions` | classes/access/entry_delete.php:41-99 | granting more delete capabilities never revokes a delete |
| `EntryDelete.NonMemberFallsThrough` | classes/access/entry_delete.php:76-96 | a group entry of a group the user is not in is judged as somebody else's entry |
| `EntryDelete.AnonymousWithoutAnonymity` | classes/access/entry_delete.php:84-87 | an anonymous entry in an activity without anonymity is never deletable, whatever the capabilities |
| `EntryDelete.GetRules` | classes/access/entry_delete.php:104-108 | the rules are exactly the manager's `entry` rules |
| `EntryDelete.GetCapabilities` | classes/access/entry_delete.php:113-115 | no capabilities are declared |
| `FieldView.EntryOwner` | classes/access/field_view.php:62 | a missing entry or author counts as user 0 |
| `FieldView.Validate` | classes/access/field_view.php:43-70 | no field id means refused; a field visible to all, or a user who manages entries, gets the base check; a hidden field is refused; an owner-only field needs the viewer to be the entry's author; nothing passes without the base check |
| `FieldView.VisibleToAllIsBase` | classes/access/field_view.php:54 | for a field visible to all, viewing is exactly the base check |
| `FieldView.OwnerOnlyHidesFromOthers` | classes/access/field_view.php:62-66 | without the manage capability, an owner-only field is visible iff the viewer is the author and passes the base check |
| `FieldView.MissingAuthorIsUserZero` | classes/access/field_view.php:62-66 | an owner-only field of an entry without an author is visible to user 0 only |
| `FieldView.GetRules` | classes/access/field_view.php:75-79 | the rules are exactly the manager's `field` rules |
| `FieldView.GetCapabilities` | classes/access/field_view.php:84-86 | no capabilities are declared |
| `LibRules.AddMaxEntries` | lib.php:54-62 | on add, a site limit of 0 forces 0; under a positive limit a value from 0 to the limit is kept, and any other value, or none, becomes the limit; with no site limit, a value of -1 or more is kept and an unset value or one below -1 becomes -1 |
| `LibRules.UpdateMaxEntries` | lib.php:108-115 | on update, a site limit of 0 forces 0; under a positive limit a value from 0 to the limit is kept and any other becomes the limit; with no site limit, a value of -1 or more is kept and one below -1 becomes -1 |
| `LibRules.AddUpdateAgree` | lib.php:54-62 | add and update clamp a submitted value to the same result, although the source orders the checks differently |
| `LibRules.UpdateIdempotent` | lib.php:108-115 | clamping an already clamped value changes nothing |
| `LibRules.NormaliseGrade` | lib.php:49-52 | an empty grade becomes 0 and drops the grade calculation; any other grade is kept with its calculation |
| `LibRules.GradeItemUpdate` | lib.php:1188-1216 | the item name and id number are passed on; `reset` is set exactly for the reset request, which then sends no grades |
| `LibRules.GradeTypeSelection` | lib.php:1197-1208 | grade 0 means no grade, a positive grade is a value out of it with minimum 0, a negative grade is the scale of its absolute value |
| `LibRules.GradeRecoverable` | lib.php:1197-1208 | the grade can be read back from the item parameters |
| `LibRules.CompletionState` | lib.php:364-384 | a missing activity record is an error; with no entries requirement the incoming state is returned |
| `LibRules.CompletionCollapses` | lib.php:372-381 | because the AND constant is true, completion is exactly "the user has at least the required number of entries", whatever the incoming state |
| `LibRules.CompletionMonotone` | lib.php:372-381 | more entries never undo completion |
| `LibRules.Supports` | lib.php:200-227 | a named feature is supported, any other feature is unknown (null), and no feature is ever refused |
| `LibRules.SupportsExactly` | lib.php:200-227 | the supported features are exactly the eleven listed |

## Left out

- `prepend_sort_options` (dataformfilter.php:530-545) is not modelled. It calls `array_key_exists` with a single argument, so its key test never succeeds: PHP 7 warns and yields null, and PHP 8 throws. The operation therefore has no intended behaviour that could be modelled from the code.
- Persistence is not modelled: `update`, `delete`, `get_instance`, `__get` and `__set`. Serialisation of `customsort` and `customsearch` is the identity here, because the model stores the decoded arrays.
- The constructor's `null` for empty `contentfields`, `eids`, `users` and `groups` is the empty sequence. `null` and `array()` behave alike everywhere they are read.
- Field lookup in `field_view` (`get_field_by_id`) is a total function from id to visibility. A lookup that finds no field is not modelled.
- `FieldView.Validate`: visibility values other than none, owner and all are not modelled. The source would let such a value fall through to the base check.
- The base validator `base::validate`, `has_capability`, the entry classifiers, `groups_is_member`, `is_early` and `is_past_due` belong to the host. They are parameters. `EntryDelete.Activity` carries the two time flags; their computation from the activity's dates is not part of this model.
- The access manager's `get_type_rules` is not part of this model. `AccessRules.TypeRules` states the type filter it is expected to perform.
- Criteria keys other than `AND` and `OR` in a field's search entry are not modelled. The composer reads only these two.
- Content phase: the source returns the `fieldid = ?` terms as the phase's parameters, and not the alias values collected in the loop. This is modelled as written, because the caller that would show whether this is intended is not part of this model.
- Content phase: fields are appended to `_filteredtables` without the duplicate check the other phases make. This is modelled as written.
- Parameters of the join phase are dropped by `get_sql` (the commented-out `$joinparams`). The model's `JoinBundle` still computes them.
- The quick-search option is built with a `null` negate flag in the source; the model passes `false`, which only a field's `get_search_sql` could tell apart.
- Search parameters are a positional list joined by concatenation. The source merges them with `array_merge` into an array meant for named parameters, where a repeated string key overwrites the earlier value instead of appending. The model assumes the field plugins give their parameters distinct names; a plugin that repeats a name is not modelled.
- `dataform_add_instance` and `dataform_update_instance` are modelled only for their grade and `maxentries` rules. The database writes, calendar, events and gradebook calls are left out, and so is the `grade_update` call itself.
- `LibRules.UpdateMaxEntries`: the value is assumed to be present, because the update path reads it without an `isset` test. An absent value on update is not modelled.
- `LibRules.CompletionState`: the entry count is a parameter (a database count). The comparison type is a boolean. PHP's loose comparison with non-boolean types is not modelled.
- `LibRules.Supports`: features are named constructors, not Moodle's string constants.
- Integers are unbounded. Entry ids, grades and limits are far below PHP's 64-bit bound.
