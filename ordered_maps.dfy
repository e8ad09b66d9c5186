/** Python's `OrderedDict` with string keys: the keys in insertion order and
    the value stored under each. */
module OrderedMaps {

  datatype OrderedMap<V> = OrderedMap(keys: seq<string>, values: map<string, V>)

  predicate Distinct(s: seq<string>)
  {
    forall i, j :: 0 <= i < j < |s| ==> s[i] != s[j]
  }

  /** Every key is listed once, and the listed keys are the stored ones. */
  predicate Valid<V>(m: OrderedMap<V>)
  {
    Distinct(m.keys) && m.values.Keys == set k | k in m.keys
  }

  function Empty<V>(): (r: OrderedMap<V>)
    ensures Valid(r) && r.keys == [] && r.values == map[]
  {
    OrderedMap([], map[])
  }

  /** A map holding exactly one entry. */
  function Single<V>(k: string, v: V): (r: OrderedMap<V>)
    ensures Valid(r) && r.keys == [k] && r.values == map[k := v]
  {
    OrderedMap([k], map[k := v])
  }

  /** `m[k] = v`: a new key is appended, an existing key keeps its position
      and takes the new value. */
  function Put<V>(m: OrderedMap<V>, k: string, v: V): (r: OrderedMap<V>)
    ensures k in r.values && r.values[k] == v
    ensures forall k' :: k' != k ==> (k' in r.values <==> k' in m.values)
    ensures forall k' :: k' != k && k' in m.values ==> r.values[k'] == m.values[k']
    ensures k in m.values ==> r.keys == m.keys
    ensures k !in m.values ==> r.keys == m.keys + [k]
  {
    if k in m.values then OrderedMap(m.keys, m.values[k := v])
    else OrderedMap(m.keys + [k], m.values[k := v])
  }

  lemma PutValid<V>(m: OrderedMap<V>, k: string, v: V)
    requires Valid(m)
    ensures Valid(Put(m, k, v))
  {
    var r := Put(m, k, v);
    if k !in m.values {
      assert k !in m.keys;
      assert forall i :: 0 <= i < |m.keys| ==> r.keys[i] == m.keys[i];
      assert r.values.Keys == set x | x in r.keys;
    }
  }

  /** The elements of `s` in order of first occurrence, each once. */
  function Dedup(s: seq<string>): (r: seq<string>)
    ensures Distinct(r)
    ensures forall x :: x in r <==> x in s
  {
    if s == [] then []
    else
      var init, last := s[..|s| - 1], s[|s| - 1];
      assert s == init + [last];
      var d := Dedup(init);
      if last in d then d else d + [last]
  }

  /** The position of the first occurrence of `x` in `s`. */
  function IndexOf(s: seq<string>, x: string): (r: nat)
    requires x in s
    ensures r < |s| && s[r] == x
    ensures forall k :: 0 <= k < r ==> s[k] != x
  {
    if s[0] == x then 0 else 1 + IndexOf(s[1..], x)
  }

  /** Appending an element leaves the first occurrence of an element already
      present where it was. */
  lemma IndexOfAppend(s: seq<string>, y: string, x: string)
    requires x in s
    ensures IndexOf(s + [y], x) == IndexOf(s, x)
  {
    assert (s + [y])[IndexOf(s, x)] == x;
    assert forall k :: 0 <= k < |s| ==> (s + [y])[k] == s[k];
  }

  /** `Dedup` keeps the order of first occurrence: an element listed before
      another first occurs in `s` before every occurrence of the other. */
  lemma {:induction false} DedupOrder(s: seq<string>)
    ensures forall i, j, q :: 0 <= i < j < |Dedup(s)| && 0 <= q < |s| && s[q] == Dedup(s)[j] ==>
      Dedup(s)[i] in s && IndexOf(s, Dedup(s)[i]) < q
    decreases |s|
  {
    if s != [] {
      var init, last := s[..|s| - 1], s[|s| - 1];
      assert s == init + [last];
      DedupOrder(init);
      var d, r := Dedup(init), Dedup(s);
      forall i, j, q | 0 <= i < j < |r| && 0 <= q < |s| && s[q] == r[j]
        ensures r[i] in s && IndexOf(s, r[i]) < q
      {
        assert r[i] == d[i] && d[i] in init;
        IndexOfAppend(init, last, d[i]);
        if j < |d| {
          assert r[j] == d[j];
          if q < |init| {
            assert init[q] == d[j];
            assert IndexOf(init, d[i]) < q;
          } else {
            assert d[j] in init;
            var q' :| 0 <= q' < |init| && init[q'] == d[j];
            assert IndexOf(init, d[i]) < q';
          }
        } else {
          assert last !in init;
          assert q == |init|;
        }
      }
    }
  }
}
