/**
 * Insertion-ordered dictionaries, as PHP arrays with string keys behave:
 * iteration follows insertion order, and assigning to a key that is
 * already present replaces its value where it stands.
 */
module OrderedMaps {
  import opened Wrappers

  /** A dictionary as the sequence of its (key, value) entries, in order. */
  type OMap<K, V> = seq<(K, V)>

  /** The keys in order (PHP `array_keys`). */
  function Keys<K, V>(m: OMap<K, V>): seq<K> {
    seq(|m|, i requires 0 <= i < |m| => m[i].0)
  }

  /** The values in order (PHP `array_values`, or a `foreach` over the values). */
  function Values<K, V>(m: OMap<K, V>): seq<V> {
    seq(|m|, i requires 0 <= i < |m| => m[i].1)
  }

  /** The keys of a table with one more entry in front. */
  lemma KeysCons<K, V>(x: (K, V), m: OMap<K, V>)
    ensures Keys([x] + m) == [x.0] + Keys(m)
  {
  }

  /** No element occurs twice. */
  predicate Distinct<T(==)>(s: seq<T>) {
    forall i, j :: 0 <= i < j < |s| ==> s[i] != s[j]
  }

  /** Every key occurs once, as in a PHP array. */
  predicate DistinctKeys<K(==,!new), V>(m: OMap<K, V>) {
    Distinct(Keys(m))
  }

  /** Lookup (PHP `$m[$k] ?? null`): the value of the first entry with key `k`. */
  function Get<K(==,!new), V>(m: OMap<K, V>, k: K): (r: Option<V>)
    ensures r.Some? <==> k in Keys(m)
    ensures r.Some? ==> (k, r.value) in m
  {
    if m == [] then None
    else
      assert m == [m[0]] + m[1..];
      KeysCons(m[0], m[1..]);
      if m[0].0 == k then Some(m[0].1)
      else Get(m[1..], k)
  }

  /**
   * Assignment (PHP `$m[$k] = $v`): a present key keeps its position and
   * takes the new value, an absent key is appended; every other key keeps
   * its value.
   */
  function Put<K(==,!new), V>(m: OMap<K, V>, k: K, v: V): (r: OMap<K, V>)
    ensures Keys(r) == if k in Keys(m) then Keys(m) else Keys(m) + [k]
    ensures Get(r, k) == Some(v)
    ensures forall k' :: k' != k ==> Get(r, k') == Get(m, k')
  {
    if m == [] then [(k, v)]
    else
      assert m == [m[0]] + m[1..];
      KeysCons(m[0], m[1..]);
      if m[0].0 == k then
        var r := [(k, v)] + m[1..];
        KeysCons((k, v), m[1..]);
        assert r[1..] == m[1..];
        r
      else
        var rest := Put(m[1..], k, v);
        var r := [m[0]] + rest;
        KeysCons(m[0], rest);
        assert r[1..] == rest;
        r
  }

  /** Assignment adds no entry other than the one assigned. */
  lemma {:induction false} PutEntries<K(!new), V>(m: OMap<K, V>, k: K, v: V)
    ensures forall e :: e in Put(m, k, v) ==> e in m || e == (k, v)
  {
    if m != [] && m[0].0 != k {
      PutEntries(m[1..], k, v);
      assert m == [m[0]] + m[1..];
    }
  }

  /** Assignment never introduces a duplicate key. */
  lemma PutKeepsDistinct<K(!new), V>(m: OMap<K, V>, k: K, v: V)
    requires DistinctKeys(m)
    ensures DistinctKeys(Put(m, k, v))
  {
    var s := Keys(m);
    if k !in s {
      var t := s + [k];
      assert Keys(Put(m, k, v)) == t;
      forall i, j | 0 <= i < j < |t| ensures t[i] != t[j] {
        if j == |s| {
          assert t[i] == s[i];
        }
      }
    }
  }

  /** With distinct keys, looking up the key of any entry finds that entry's value. */
  lemma {:induction false} GetAt<K(!new), V>(m: OMap<K, V>, i: int)
    requires DistinctKeys(m) && 0 <= i < |m|
    ensures Get(m, m[i].0) == Some(m[i].1)
  {
    if i > 0 {
      assert Keys(m)[0] != Keys(m)[i];
      assert Keys(m[1..]) == Keys(m)[1..];
      assert m[1..][i - 1] == m[i];
      GetAt(m[1..], i - 1);
    }
  }

  /** Two-level lookup (PHP `$t[$k1][$k2] ?? null`). */
  function Get2<K1(==,!new), K2(==,!new), V>(t: OMap<K1, OMap<K2, V>>, k1: K1, k2: K2): Option<V> {
    match Get(t, k1)
    case None => None
    case Some(inner) => Get(inner, k2)
  }

  /**
   * Two-level assignment (PHP `$t[$k1] = $t[$k1] ?? []; $t[$k1][$k2] = $v`):
   * the outer key keeps or takes its position, so does the inner key within
   * its table, the pair (k1, k2) maps to `v` and every other pair keeps its
   * value.
   */
  function Put2<K1(==,!new), K2(==,!new), V>(t: OMap<K1, OMap<K2, V>>, k1: K1, k2: K2, v: V): (r: OMap<K1, OMap<K2, V>>)
    ensures Keys(r) == if k1 in Keys(t) then Keys(t) else Keys(t) + [k1]
    ensures var inner := Get(t, k1).GetOr([]);
      && Get(r, k1).Some?
      && Keys(Get(r, k1).value) == if k2 in Keys(inner) then Keys(inner) else Keys(inner) + [k2]
    ensures forall j1, j2 :: Get2(r, j1, j2) == if j1 == k1 && j2 == k2 then Some(v) else Get2(t, j1, j2)
  {
    var inner := Get(t, k1).GetOr([]);
    assert Get(t, k1).None? ==> forall j2 :: Get(inner, j2) == None;
    Put(t, k1, Put(inner, k2, v))
  }

  /**
   * A two-level table whose keys are distinct at both levels and in which
   * every value is stored under the pair of names it carries.
   */
  ghost predicate TableValid<V>(t: OMap<string, OMap<string, V>>, key: V -> (string, string)) {
    && DistinctKeys(t)
    && forall e :: e in t ==>
         && DistinctKeys(e.1)
         && forall c :: c in e.1 ==> key(c.1) == (e.0, c.0)
  }

  /** Storing a value under its own pair of names keeps a table valid. */
  lemma TablePutKeepsValid<V>(t: OMap<string, OMap<string, V>>, key: V -> (string, string), k1: string, k2: string, v: V)
    requires TableValid(t, key) && key(v) == (k1, k2)
    ensures TableValid(Put2(t, k1, k2, v), key)
  {
    var inner := Get(t, k1).GetOr([]);
    var inner' := Put(inner, k2, v);
    assert DistinctKeys(inner) && forall c :: c in inner ==> key(c.1) == (k1, c.0) by {
      if Get(t, k1).Some? {
        assert (k1, inner) in t;
      }
    }
    PutKeepsDistinct(inner, k2, v);
    PutKeepsDistinct(t, k1, inner');
    PutEntries(inner, k2, v);
    PutEntries(t, k1, inner');
    var r := Put(t, k1, inner');
    assert r == Put2(t, k1, k2, v);
    forall e | e in r
      ensures DistinctKeys(e.1) && forall c :: c in e.1 ==> key(c.1) == (e.0, c.0)
    {
      if e !in t {
        assert e == (k1, inner');
      }
    }
  }
}
