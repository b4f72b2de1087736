/**
 * PHP ordered arrays as association lists.
 *
 * A PHP array remembers the order in which keys were first inserted;
 * assigning to an existing key changes its value in place and assigning to
 * a new key appends it. `OMap` is that structure; `UniqueKeys` is the
 * invariant every array built by PHP satisfies.
 */
module OrderedMaps {
  import opened Optional

  type OMap<K(==,!new), V> = seq<(K, V)>

  /** No element occurs twice. */
  predicate Distinct<T(==)>(xs: seq<T>) {
    forall i, j :: 0 <= i < j < |xs| ==> xs[i] != xs[j]
  }

  /** The keys in insertion order (`array_keys`). */
  function Keys<K(==,!new), V>(m: OMap<K, V>): (ks: seq<K>)
    ensures |ks| == |m|
    ensures forall i :: 0 <= i < |m| ==> ks[i] == m[i].0
  {
    if m == [] then [] else [m[0].0] + Keys(m[1..])
  }

  /** The values in insertion order (`array_values`). */
  function Values<K(==,!new), V>(m: OMap<K, V>): (vs: seq<V>)
    ensures |vs| == |m|
    ensures forall i :: 0 <= i < |m| ==> vs[i] == m[i].1
  {
    if m == [] then [] else [m[0].1] + Values(m[1..])
  }

  predicate UniqueKeys<K(==,!new), V>(m: OMap<K, V>) {
    Distinct(Keys(m))
  }

  /** `$m[$k]`, with None for a missing key. */
  function Get<K(==,!new), V>(m: OMap<K, V>, k: K): (r: Option<V>)
    ensures r.Some? <==> k in Keys(m)
    ensures r.Some? ==> (k, r.value) in m
  {
    if m == [] then None
    else if m[0].0 == k then Some(m[0].1)
    else Get(m[1..], k)
  }

  /** `$m[$k] = $v`: an existing key keeps its position, a new key goes last. */
  function Put<K(==,!new), V>(m: OMap<K, V>, k: K, v: V): (r: OMap<K, V>)
    ensures k in Keys(m) ==> Keys(r) == Keys(m)
    ensures k !in Keys(m) ==> Keys(r) == Keys(m) + [k]
    ensures Get(r, k) == Some(v)
    ensures forall k' :: k' != k ==> Get(r, k') == Get(m, k')
  {
    if m == [] then [(k, v)]
    else
      var tail := m[1..];
      assert Keys(m) == [m[0].0] + Keys(tail);
      if m[0].0 == k then
        var r := [(k, v)] + tail;
        assert r[1..] == tail;
        assert Keys(r) == [k] + Keys(tail);
        r
      else
        var rest := Put(tail, k, v);
        var r := [m[0]] + rest;
        assert r[1..] == rest;
        assert Keys(r) == [m[0].0] + Keys(rest);
        ConcatAssoc([m[0].0], Keys(tail), [k]);
        r
  }

  /** `Keys(Put(m, k, v))` adds `k` like an ordered set. */
  lemma KeysPut<K(!new), V>(m: OMap<K, V>, k: K, v: V)
    ensures Keys(Put(m, k, v)) == AddOnce(Keys(m), k)
  {
  }

  /** Every entry of `Put(m, k, v)` is an entry of `m` or the new pair. */
  lemma {:induction false} PutEntries<K(!new), V>(m: OMap<K, V>, k: K, v: V)
    ensures forall e :: e in Put(m, k, v) ==> e in m || e == (k, v)
    decreases |m|
  {
    if m != [] && m[0].0 != k {
      PutEntries(m[1..], k, v);
      assert Put(m, k, v) == [m[0]] + Put(m[1..], k, v);
    }
  }

  /** Adding a one-element list is adding its element. */
  lemma AddAllOne<T>(xs: seq<T>, x: T)
    ensures AddAll(xs, [x]) == AddOnce(xs, x)
  {
    assert [x][1..] == [];
  }

  /** A non-empty sequence is its head followed by its tail. */
  lemma HeadTail<T>(s: seq<T>)
    requires s != []
    ensures [s[0]] + s[1..] == s
  {
  }

  /** Concatenation is associative. */
  lemma ConcatAssoc<T>(a: seq<T>, b: seq<T>, c: seq<T>)
    ensures a + b + c == a + (b + c)
  {
  }

  /** A new key is appended at the end. */
  lemma {:induction false} PutNew<K(!new), V>(m: OMap<K, V>, k: K, v: V)
    requires k !in Keys(m)
    ensures Put(m, k, v) == m + [(k, v)]
    decreases |m|
  {
    if m != [] {
      var tail := m[1..];
      assert Keys(m) == [m[0].0] + Keys(tail);
      assert m[0].0 != k && k !in Keys(tail);
      PutNew(tail, k, v);
      assert Put(m, k, v) == [m[0]] + Put(tail, k, v);
      ConcatAssoc([m[0]], tail, [(k, v)]);
      HeadTail(m);
    }
  }

  /** The tail of a distinct sequence is distinct and lacks the head. */
  lemma DistinctTail<T>(xs: seq<T>)
    requires xs != [] && Distinct(xs)
    ensures Distinct(xs[1..]) && xs[0] !in xs[1..]
  {
    var rest := xs[1..];
    forall i, j | 0 <= i < j < |rest| ensures rest[i] != rest[j] {
      assert xs[i + 1] != xs[j + 1];
    }
    forall i | 0 <= i < |rest| ensures rest[i] != xs[0] {
      assert xs[i + 1] != xs[0];
    }
  }

  /** `$a[$x] = $x` on an array used as an ordered set of ids. */
  function AddOnce<T(==)>(xs: seq<T>, x: T): (r: seq<T>)
    ensures x in r
    ensures x in xs ==> r == xs
    ensures x !in xs ==> r == xs + [x]
    ensures Distinct(xs) ==> Distinct(r)
  {
    if x in xs then xs else xs + [x]
  }

  /**
   * `seen` followed by the elements of `xs` that are not yet in it, each
   * once, in first-occurrence order (`array_unique` when `seen` is empty).
   */
  function AddAll<T(==)>(seen: seq<T>, xs: seq<T>): (r: seq<T>)
    ensures |seen| <= |r| <= |seen| + |xs|
    ensures r[..|seen|] == seen
    decreases |xs|
  {
    if xs == [] then seen
    else
      var r := AddAll(AddOnce(seen, xs[0]), xs[1..]);
      assert AddOnce(seen, xs[0])[..|seen|] == seen;
      assert xs == [xs[0]] + xs[1..];
      r
  }

  lemma {:induction false} AddAllMembers<T>(seen: seq<T>, xs: seq<T>)
    ensures forall x :: x in AddAll(seen, xs) <==> x in seen || x in xs
    ensures Distinct(seen) ==> Distinct(AddAll(seen, xs))
    decreases |xs|
  {
    if xs != [] {
      AddAllMembers(AddOnce(seen, xs[0]), xs[1..]);
      assert xs == [xs[0]] + xs[1..];
    }
  }

  /** Adding a list without repetitions to nothing gives back that list. */
  lemma {:induction false} AddAllDistinct<T>(seen: seq<T>, xs: seq<T>)
    requires Distinct(seen + xs)
    ensures AddAll(seen, xs) == seen + xs
    decreases |xs|
  {
    if xs != [] {
      forall i | 0 <= i < |seen|
        ensures seen[i] != xs[0]
      {
        assert (seen + xs)[i] == seen[i] && (seen + xs)[|seen|] == xs[0];
      }
      assert seen + xs == (seen + [xs[0]]) + xs[1..];
      AddAllDistinct(seen + [xs[0]], xs[1..]);
    }
  }

  /** Adding two lists one after the other is adding their concatenation. */
  lemma {:induction false} AddAllAppend<T>(seen: seq<T>, xs: seq<T>, ys: seq<T>)
    ensures AddAll(AddAll(seen, xs), ys) == AddAll(seen, xs + ys)
    decreases |xs|
  {
    if xs != [] {
      var s1 := AddOnce(seen, xs[0]);
      var zs := xs + ys;
      assert AddAll(seen, xs) == AddAll(s1, xs[1..]);
      assert zs[0] == xs[0] && zs[1..] == xs[1..] + ys;
      assert AddAll(seen, zs) == AddAll(s1, zs[1..]);
      AddAllAppend(s1, xs[1..], ys);
    } else {
      assert xs + ys == ys;
    }
  }

  /** Assigning every entry of `n`, in order, into `m` (`foreach ($n as $k => $v) $m[$k] = $v;`). */
  function PutAll<K(==,!new), V>(m: OMap<K, V>, n: OMap<K, V>): (r: OMap<K, V>)
    decreases |n|
  {
    if n == [] then m else PutAll(Put(m, n[0].0, n[0].1), n[1..])
  }

  /**
   * After `PutAll`, keys of `n` carry their value from `n` and every other
   * key keeps its old value; old keys keep their positions and new keys
   * follow in the order of `n`.
   */
  lemma {:induction false} PutAllSpec<K(!new), V>(m: OMap<K, V>, n: OMap<K, V>)
    requires UniqueKeys(n)
    ensures Keys(PutAll(m, n)) == AddAll(Keys(m), Keys(n))
    ensures forall k :: Get(PutAll(m, n), k) == (if k in Keys(n) then Get(n, k) else Get(m, k))
    decreases |n|
  {
    if n != [] {
      var m1 := Put(m, n[0].0, n[0].1);
      var rest := n[1..];
      assert Keys(n) == [n[0].0] + Keys(rest);
      assert UniqueKeys(rest) by {
        forall i, j | 0 <= i < j < |rest| ensures Keys(rest)[i] != Keys(rest)[j] {
          assert Keys(n)[i + 1] != Keys(n)[j + 1];
        }
      }
      assert n[0].0 !in Keys(rest) by {
        forall i | 0 <= i < |rest| ensures Keys(rest)[i] != n[0].0 {
          assert Keys(n)[0] != Keys(n)[i + 1];
        }
      }
      PutAllSpec(m1, rest);
      assert Keys(m1) == AddOnce(Keys(m), n[0].0);
    }
  }
}
