/**
 * The string primitives the filter composer relies on: PHP truthiness of a
 * string, `implode` and `explode`.
 */
module PhpText {
  import opened Optional

  /** PHP treats "" and "0" as false and every other string as true. */
  predicate Truthy(s: string) {
    s != "" && s != "0"
  }

  /** `implode(sep, parts)`. */
  function Implode(sep: string, parts: seq<string>): (r: string)
    ensures parts == [] ==> r == ""
    ensures |parts| == 1 ==> r == parts[0]
    ensures |parts| >= 2 ==> r == parts[0] + sep + Implode(sep, parts[1..])
  {
    if parts == [] then ""
    else if |parts| == 1 then parts[0]
    else parts[0] + sep + Implode(sep, parts[1..])
  }

  /** Position of the first comma, or |s| when there is none. */
  function CommaIndex(s: string): (i: nat)
    ensures i <= |s|
    ensures forall j :: 0 <= j < i ==> s[j] != ','
    ensures i < |s| ==> s[i] == ','
  {
    if s == [] then 0
    else if s[0] == ',' then 0
    else 1 + CommaIndex(s[1..])
  }

  /**
   * `list($a, $b) = explode(',', $s) + array(null)`: the part before the
   * first comma, and the part between the first and the second comma
   * (null when there is no comma at all).
   */
  function SplitFirstTwo(s: string): (r: (string, Option<string>))
    ensures ',' !in r.0
    ensures r.1.Some? ==> ',' !in r.1.value
    ensures r.1.None? <==> ',' !in s
    ensures r.1.None? ==> r.0 == s
    ensures r.1.Some? ==> |r.0| < |s| && s[..|r.0|] == r.0 && s[|r.0|] == ','
    ensures r.1.Some? ==>
      var rest := s[|r.0| + 1..];
      |r.1.value| <= |rest| && rest[..|r.1.value|] == r.1.value
      && (|r.1.value| == |rest| || rest[|r.1.value|] == ',')
  {
    var i := CommaIndex(s);
    if i == |s| then (s, None)
    else
      var rest := s[i + 1..];
      var j := CommaIndex(rest);
      (s[..i], Some(rest[..j]))
  }

  /** `explode` undoes the "id,element" join when neither part holds a comma. */
  lemma {:induction false} SplitJoinRoundTrip(a: string, b: string)
    requires ',' !in a && ',' !in b
    ensures SplitFirstTwo(a + "," + b) == (a, Some(b))
  {
    var s := a + "," + b;
    CommaIndexOfPrefix(a, "," + b);
    assert s[|a| + 1..] == b;
    CommaIndexOfPrefix(b, "");
    assert b + "" == b;
    assert s[..|a|] == a;
  }

  /** A key without a comma has no element part. */
  lemma SplitNoComma(a: string)
    requires ',' !in a
    ensures SplitFirstTwo(a) == (a, None)
  {
  }

  lemma {:induction false} CommaIndexOfPrefix(a: string, rest: string)
    requires ',' !in a
    requires rest == [] || rest[0] == ','
    ensures CommaIndex(a + rest) == |a|
    decreases |a|
  {
    if a != [] {
      assert (a + rest)[1..] == a[1..] + rest;
      CommaIndexOfPrefix(a[1..], rest);
    } else {
      assert a + rest == rest;
    }
  }
}
