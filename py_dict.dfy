/**
 * A Python `dict` with string keys: a finite map together with the order in which
 * its keys were first inserted. Assigning to a present key keeps its position,
 * assigning to a new key appends it, `del` removes the key and keeps the order of
 * the rest; `values()` and `items()` follow that order.
 */
module PyDict {
  import opened Options

  datatype Dict<V> = Dict(keys: seq<string>, entries: map<string, V>)

  /** No key occurs twice. */
  ghost predicate Distinct(s: seq<string>) {
    s == [] || (s[0] !in s[1..] && Distinct(s[1..]))
  }

  /** In a duplicate-free sequence, different positions hold different keys. */
  lemma {:induction false} DistinctAt(s: seq<string>, i: nat, j: nat)
    requires Distinct(s) && i < j < |s|
    ensures s[i] != s[j]
  {
    if i > 0 {
      DistinctAt(s[1..], i - 1, j - 1);
    } else {
      assert s[j] == s[1..][j - 1];
    }
  }

  /** Appending a new key keeps a sequence duplicate-free. */
  lemma {:induction false} DistinctSnoc(s: seq<string>, k: string)
    requires Distinct(s) && k !in s
    ensures Distinct(s + [k])
  {
    if s != [] {
      assert (s + [k])[1..] == s[1..] + [k];
      DistinctSnoc(s[1..], k);
    }
  }

  /** The key order lists every key of the map exactly once. */
  ghost predicate Valid<V>(d: Dict<V>) {
    Distinct(d.keys) && forall k :: k in d.entries <==> k in d.keys
  }

  function Empty<V>(): (d: Dict<V>)
    ensures Valid(d) && d.entries == map[] && d.keys == []
  {
    Dict([], map[])
  }

  /** `d[k] = v`. */
  function Put<V>(d: Dict<V>, k: string, v: V): (r: Dict<V>)
    requires Valid(d)
    ensures Valid(r)
    ensures r.entries == d.entries[k := v]
    ensures r.keys == if k in d.entries then d.keys else d.keys + [k]
  {
    if k in d.entries then Dict(d.keys, d.entries[k := v])
    else DistinctSnoc(d.keys, k); Dict(d.keys + [k], d.entries[k := v])
  }

  /** Assigning a key twice is assigning it the second value. */
  lemma PutPut<V>(d: Dict<V>, k: string, a: V, b: V)
    requires Valid(d)
    ensures Put(Put(d, k, a), k, b) == Put(d, k, b)
  {
    assert d.entries[k := a][k := b] == d.entries[k := b];
  }

  /** The set of the keys in s. */
  function Elements(s: seq<string>): (r: set<string>)
    ensures forall x :: x in r <==> x in s
  {
    set x | x in s
  }

  /** Extending a prefix by one position adds that position's key. */
  lemma ElementsSnoc(s: seq<string>, j: nat)
    requires j < |s|
    ensures Elements(s[..j + 1]) == Elements(s[..j]) + {s[j]}
  {
    assert s[..j + 1] == s[..j] + [s[j]];
  }

  /** The keys of s that are not in drop, in their order. */
  function Without(s: seq<string>, drop: set<string>): (r: seq<string>)
    ensures |r| <= |s|
    ensures forall x :: x in r <==> x in s && x !in drop
  {
    if s == [] then []
    else if s[0] in drop then Without(s[1..], drop)
    else [s[0]] + Without(s[1..], drop)
  }

  lemma {:induction false} WithoutDistinct(s: seq<string>, drop: set<string>)
    requires Distinct(s)
    ensures Distinct(Without(s, drop))
  {
    if s != [] {
      WithoutDistinct(s[1..], drop);
      if s[0] !in drop {
        assert ([s[0]] + Without(s[1..], drop))[1..] == Without(s[1..], drop);
      }
    }
  }

  /** Dropping a set that misses s changes nothing. */
  lemma {:induction false} WithoutNothing(s: seq<string>, drop: set<string>)
    requires forall x :: x in s ==> x !in drop
    ensures Without(s, drop) == s
  {
    if s != [] {
      WithoutNothing(s[1..], drop);
    }
  }

  /** Dropping one key of a duplicate-free sequence removes exactly its position. */
  lemma {:induction false} WithoutAt(s: seq<string>, j: nat)
    requires Distinct(s) && j < |s|
    ensures Without(s, {s[j]}) == s[..j] + s[j + 1..]
  {
    if j == 0 {
      WithoutNothing(s[1..], {s[0]});
    } else {
      WithoutAt(s[1..], j - 1);
      assert s[1..][j - 1] == s[j];
      assert s[..j] + s[j + 1..] == [s[0]] + (s[1..][..j - 1] + s[1..][j..]);
    }
  }

  /** Dropping A and then B is dropping A + B. */
  lemma {:induction false} WithoutTwice(s: seq<string>, a: set<string>, b: set<string>)
    ensures Without(Without(s, a), b) == Without(s, a + b)
  {
    if s != [] {
      WithoutTwice(s[1..], a, b);
    }
  }

  /** `del d[k]`; the callers only delete present keys. */
  function Remove<V>(d: Dict<V>, k: string): (r: Dict<V>)
    requires Valid(d)
    ensures Valid(r)
    ensures r.entries == d.entries - {k}
    ensures r.keys == Without(d.keys, {k})
  {
    WithoutDistinct(d.keys, {k});
    Dict(Without(d.keys, {k}), d.entries - {k})
  }

  /** Deleting every key of gone; the other keys keep their order. */
  function DropKeys<V>(d: Dict<V>, gone: set<string>): (r: Dict<V>)
    requires Valid(d)
    ensures Valid(r)
    ensures r.entries == d.entries - gone
    ensures r.keys == Without(d.keys, gone)
  {
    WithoutDistinct(d.keys, gone);
    Dict(Without(d.keys, gone), d.entries - gone)
  }

  lemma DropKeysNone<V>(d: Dict<V>)
    requires Valid(d)
    ensures DropKeys(d, {}) == d
  {
    WithoutNothing(d.keys, {});
  }

  /** One more `del` after deleting a set of keys is deleting one key more. */
  lemma RemoveAfterDropKeys<V>(d: Dict<V>, gone: set<string>, x: string)
    requires Valid(d)
    ensures Remove(DropKeys(d, gone), x) == DropKeys(d, gone + {x})
  {
    WithoutTwice(d.keys, gone, {x});
  }

  /** The position of a present key. */
  function IndexOf(s: seq<string>, k: string): (i: nat)
    requires k in s
    ensures i < |s| && s[i] == k
  {
    if s[0] == k then 0 else 1 + IndexOf(s[1..], k)
  }

  /** `d.get(k)`. */
  function Get<V>(d: Dict<V>, k: string): (r: Option<V>)
    ensures r.Some? <==> k in d.entries
    ensures r.Some? ==> r.value == d.entries[k]
  {
    if k in d.entries then Some(d.entries[k]) else None
  }

  /** `list(d.values())`. */
  function Values<V>(d: Dict<V>): (r: seq<V>)
    requires Valid(d)
    ensures |r| == |d.keys|
    ensures forall i :: 0 <= i < |r| ==> d.keys[i] in d.entries && r[i] == d.entries[d.keys[i]]
  {
    seq(|d.keys|, i requires 0 <= i < |d.keys| => d.entries[d.keys[i]])
  }

  /** `list(d.items())`. */
  function Items<V>(d: Dict<V>): (r: seq<(string, V)>)
    requires Valid(d)
    ensures |r| == |d.keys|
    ensures forall i :: 0 <= i < |r| ==> r[i].0 == d.keys[i] && d.keys[i] in d.entries && r[i].1 == d.entries[d.keys[i]]
  {
    seq(|d.keys|, i requires 0 <= i < |d.keys| => (d.keys[i], d.entries[d.keys[i]]))
  }

  /** Every value listed is the value of some key, and every key's value is listed. */
  lemma ValuesAreEntries<V>(d: Dict<V>)
    requires Valid(d)
    ensures forall v :: v in Values(d) <==> exists k :: k in d.entries && d.entries[k] == v
  {
    forall v | v in Values(d) ensures exists k :: k in d.entries && d.entries[k] == v {
      var i :| 0 <= i < |Values(d)| && Values(d)[i] == v;
      assert d.entries[d.keys[i]] == v;
    }
    forall v | exists k :: k in d.entries && d.entries[k] == v ensures v in Values(d) {
      var k :| k in d.entries && d.entries[k] == v;
      assert Values(d)[IndexOf(d.keys, k)] == v;
    }
  }

  /** Overwriting a present key replaces its value in place in `values()`. */
  lemma ValuesPutPresent<V>(d: Dict<V>, k: string, v: V)
    requires Valid(d) && k in d.entries
    ensures Values(Put(d, k, v)) == Values(d)[IndexOf(d.keys, k) := v]
  {
    var j := IndexOf(d.keys, k);
    forall i | 0 <= i < |d.keys| ensures Values(Put(d, k, v))[i] == Values(d)[j := v][i] {
      if i < j {
        DistinctAt(d.keys, i, j);
      } else if j < i {
        DistinctAt(d.keys, j, i);
      }
    }
  }

  /** Inserting a new key appends its value to `values()`. */
  lemma ValuesPutNew<V>(d: Dict<V>, k: string, v: V)
    requires Valid(d) && k !in d.entries
    ensures Values(Put(d, k, v)) == Values(d) + [v]
  {
    forall i | 0 <= i < |d.keys| ensures Values(Put(d, k, v))[i] == Values(d)[i] {
      assert d.keys[i] != k;
    }
  }

  /** Deleting a key removes its value, at its position, from `values()`. */
  lemma ValuesRemove<V>(d: Dict<V>, k: string)
    requires Valid(d) && k in d.entries
    ensures var j := IndexOf(d.keys, k);
      && Values(d)[j] == d.entries[k]
      && Values(Remove(d, k)) == Values(d)[..j] + Values(d)[j + 1..]
  {
    var j := IndexOf(d.keys, k);
    WithoutAt(d.keys, j);
    var r := Remove(d, k);
    var vs, ws := Values(d), Values(r);
    var expected := vs[..j] + vs[j + 1..];
    assert |ws| == |expected| == |vs| - 1;
    forall i | 0 <= i < |ws| ensures ws[i] == expected[i] {
      if i < j {
        assert r.keys[i] == d.keys[i];
        assert expected[i] == vs[i];
      } else {
        assert r.keys[i] == d.keys[i + 1];
        assert expected[i] == vs[i + 1];
      }
    }
  }
}
