/** Python's insertion-ordered dict and collections.OrderedDict. */
module Dicts {

  predicate Distinct<T(==)>(s: seq<T>) {
    forall i, j :: 0 <= i < j < |s| ==> s[i] != s[j]
  }

  /** The sequence without any occurrence of `x`, order kept. */
  function Without<T(==,!new)>(s: seq<T>, x: T): (r: seq<T>)
    ensures forall y :: y in r <==> y in s && y != x
  {
    if s == [] then [] else (if s[0] == x then [] else [s[0]]) + Without(s[1..], x)
  }

  datatype Dict<K(==,!new), V> = Dict(keys: seq<K>, m: map<K, V>) {

    ghost predicate Valid() {
      && Distinct(keys)
      && forall k :: k in m <==> k in keys
    }

    /** d[k] = v: an existing key keeps its position. */
    function Put(k: K, v: V): Dict<K, V> {
      Dict(if k in m then keys else keys + [k], m[k := v])
    }

    /** d.pop(k, None) */
    function Remove(k: K): Dict<K, V> {
      Dict(Without(keys, k), m - {k})
    }

    /** d.move_to_end(k) */
    function MoveToEnd(k: K): Dict<K, V> {
      Dict(Without(keys, k) + [k], m)
    }

    /** d.popitem(last=False) */
    function PopFirst(): Dict<K, V>
      requires keys != []
    {
      Dict(keys[1..], m - {keys[0]})
    }
  }

  /** while len(d) >= max: d.popitem(last=False) */
  function MakeRoom<K(!new), V>(d: Dict<K, V>, max: int): (r: Dict<K, V>)
    requires max >= 1
    ensures |r.keys| <= |d.keys| && |r.keys| < max
    decreases |d.keys|
  {
    if |d.keys| >= max then MakeRoom(d.PopFirst(), max) else d
  }

  function Empty<K(==,!new), V>(): Dict<K, V> {
    Dict([], map[])
  }

  lemma {:induction false} WithoutDistinct<T(!new)>(s: seq<T>, x: T)
    requires Distinct(s)
    ensures Distinct(Without(s, x))
    ensures |Without(s, x)| == if x in s then |s| - 1 else |s|
  {
    if s != [] {
      WithoutDistinct(s[1..], x);
      var r := Without(s[1..], x);
      assert forall y :: y in r ==> y in s[1..];
      assert s == [s[0]] + s[1..];
      if s[0] == x {
        assert x !in s[1..];
        assert Without(s, x) == r;
      } else {
        assert s[0] !in s[1..];
        assert s[0] !in r;
        assert Without(s, x) == [s[0]] + r;
      }
    }
  }

  lemma {:induction false} WithoutLast<T(!new)>(keys: seq<T>, k: T)
    ensures Without(keys + [k], k) == Without(keys, k)
    ensures k !in keys ==> Without(keys, k) == keys
  {
    if keys == [] {
      assert [] + [k] == [k] && [k][1..] == [];
    } else {
      WithoutLast(keys[1..], k);
      assert (keys + [k])[1..] == keys[1..] + [k];
      assert keys == [keys[0]] + keys[1..];
    }
  }

  lemma PutValid<K(!new), V>(d: Dict<K, V>, k: K, v: V)
    requires d.Valid()
    ensures d.Put(k, v).Valid()
  {
  }

  lemma RemoveValid<K(!new), V>(d: Dict<K, V>, k: K)
    requires d.Valid()
    ensures d.Remove(k).Valid()
    ensures |d.Remove(k).keys| == if k in d.m then |d.keys| - 1 else |d.keys|
  {
    WithoutDistinct(d.keys, k);
  }

  lemma MoveToEndValid<K(!new), V>(d: Dict<K, V>, k: K)
    requires d.Valid() && k in d.m
    ensures d.MoveToEnd(k).Valid() && |d.MoveToEnd(k).keys| == |d.keys|
  {
    WithoutDistinct(d.keys, k);
  }

  lemma PopFirstValid<K(!new), V>(d: Dict<K, V>)
    requires d.Valid() && d.keys != []
    ensures d.PopFirst().Valid()
  {
    assert d.keys == [d.keys[0]] + d.keys[1..];
  }

  lemma {:induction false} MakeRoomKeeps<K(!new), V>(d: Dict<K, V>, max: int)
    requires d.Valid() && max >= 1
    ensures MakeRoom(d, max).Valid()
    ensures forall k :: k in MakeRoom(d, max).m ==> k in d.m && MakeRoom(d, max).m[k] == d.m[k]
    decreases |d.keys|
  {
    if |d.keys| >= max {
      PopFirstValid(d);
      MakeRoomKeeps(d.PopFirst(), max);
    }
  }

  lemma {:induction false} DistinctSize<T>(s: seq<T>)
    requires Distinct(s)
    ensures |set x | x in s| == |s|
  {
    if s != [] {
      DistinctSize(s[1..]);
      assert s == [s[0]] + s[1..];
      assert (set x | x in s) == {s[0]} + (set x | x in s[1..]);
    }
  }

  lemma SubsetSize<T>(a: set<T>, b: set<T>)
    requires a <= b
    ensures |a| <= |b|
  {
    assert b == a + (b - a);
  }

  // ----- recency -----

  /** The keys used more recently than k. */
  function Newer<T(==,!new)>(keys: seq<T>, k: T): set<T> {
    if keys == [] then {} else
      if keys[0] == k then set x | x in keys[1..] else Newer(keys[1..], k)
  }

  lemma {:induction false} NewerWithout<T(!new)>(keys: seq<T>, k: T, x: T)
    requires Distinct(keys) && x != k
    ensures Newer(Without(keys, x), k) == Newer(keys, k) - {x}
  {
    if keys != [] {
      assert keys == [keys[0]] + keys[1..];
      assert keys[0] !in keys[1..];
      NewerWithout(keys[1..], k, x);
      var r := Without(keys[1..], x);
      if keys[0] == x {
        assert Without(keys, x) == r;
        NewerMembers(keys[1..], k);
      } else {
        assert Without(keys, x) == [keys[0]] + r;
        assert ([keys[0]] + r)[1..] == r;
      }
    }
  }

  lemma {:induction false} NewerMembers<T(!new)>(keys: seq<T>, k: T)
    ensures Newer(keys, k) <= set x | x in keys
  {
    if keys != [] {
      NewerMembers(keys[1..], k);
      assert forall x :: x in keys[1..] ==> x in keys;
    }
  }

  lemma {:induction false} NewerAppend<T(!new)>(keys: seq<T>, k: T, x: T)
    requires k in keys
    ensures Newer(keys + [x], k) == Newer(keys, k) + {x}
  {
    assert (keys + [x])[1..] == keys[1..] + [x];
    assert keys == [keys[0]] + keys[1..];
    if keys[0] != k {
      NewerAppend(keys[1..], k, x);
    }
  }

  lemma {:induction false} NewerCount<T(!new)>(keys: seq<T>, k: T)
    requires Distinct(keys) && k in keys
    ensures k !in Newer(keys, k) && |Newer(keys, k)| < |keys|
    ensures keys[0] == k ==> |Newer(keys, k)| == |keys| - 1
  {
    assert keys == [keys[0]] + keys[1..];
    if keys[0] == k {
      DistinctSize(keys[1..]);
    } else {
      NewerCount(keys[1..], k);
    }
  }

  lemma {:induction false} NewestHasNoNewer<T(!new)>(keys: seq<T>)
    requires Distinct(keys) && keys != []
    ensures Newer(keys, keys[|keys| - 1]) == {}
  {
    if |keys| > 1 {
      NewestHasNoNewer(keys[1..]);
    }
  }
}
