/**
 * What the access rule types of classes/access/ share: the rule records an
 * access manager holds, and the host's answer to a permission check.
 *
 * The access manager and the base rule class are not part of this model.
 * The manager is taken to keep its rules ordered by position and to answer
 * `get_type_rules(type)` with the rules of that type in that order.
 */
module AccessRules {

  /** A rule record: its id, its rule type and whether it is enabled. */
  datatype Rule = Rule(id: int, ruleType: string, visible: bool)

  /** An access manager: the rules of one dataform, ordered by position. */
  datatype Manager = Manager(rules: seq<Rule>)

  /** `get_type_rules(type)`: the manager's rules of one type, in position order. */
  function TypeRules(man: Manager, ruleType: string): (r: seq<Rule>)
    ensures forall x :: x in r <==> x in man.rules && x.ruleType == ruleType
    ensures |r| <= |man.rules|
  {
    TypeFilter(man.rules, ruleType)
  }

  function TypeFilter(rules: seq<Rule>, ruleType: string): (r: seq<Rule>)
    ensures forall x :: x in r <==> x in rules && x.ruleType == ruleType
    ensures |r| <= |rules|
    decreases |rules|
  {
    if rules == [] then []
    else (if rules[0].ruleType == ruleType then [rules[0]] else []) + TypeFilter(rules[1..], ruleType)
  }

  /** Filtering keeps the manager's order: the rules of a prefix come before those of the rest. */
  lemma {:induction false} TypeFilterAppend(a: seq<Rule>, b: seq<Rule>, ruleType: string)
    ensures TypeFilter(a + b, ruleType) == TypeFilter(a, ruleType) + TypeFilter(b, ruleType)
    decreases |a|
  {
    if a == [] {
      assert a + b == b;
    } else {
      assert (a + b)[1..] == a[1..] + b;
      TypeFilterAppend(a[1..], b, ruleType);
      var h := if a[0].ruleType == ruleType then [a[0]] else [];
      assert h + (TypeFilter(a[1..], ruleType) + TypeFilter(b, ruleType))
          == h + TypeFilter(a[1..], ruleType) + TypeFilter(b, ruleType);
    }
  }

  /**
   * The host's answers to the questions a rule type asks: `parent::validate`
   * with the given capability list, the base class's `has_capability`
   * check for one capability, and Moodle's `has_capability` in the
   * activity context.
   */
  datatype Permissions = Permissions(
    validate: seq<string> -> bool,
    hasCapability: string -> bool,
    contextCapability: string -> bool)
}
