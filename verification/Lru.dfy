/**
 A JavaScript Map used as an LRU table: entries in insertion order, the oldest first.
 Both the object cache and the rate limiter touch a key by deleting and re-inserting it,
 and evict from the front.
 */
module Lru {
  import opened Common

  datatype Entry<K, V> = Entry(key: K, value: V)

  ghost predicate Unique<K, V>(t: seq<Entry<K, V>>) {
    forall i, j | 0 <= i < j < |t| :: t[i].key != t[j].key
  }

  ghost function Keys<K, V>(t: seq<Entry<K, V>>): set<K> {
    set e <- t :: e.key
  }

  function Find<K(==), V>(t: seq<Entry<K, V>>, k: K): (r: Option<V>)
    ensures r.Some? <==> k in Keys(t)
    ensures r.Some? ==> Entry(k, r.value) in t
  {
    if t == [] then None
    else if t[|t| - 1].key == k then Some(t[|t| - 1].value)
    else
      assert t == t[..|t| - 1] + [t[|t| - 1]];
      Find(t[..|t| - 1], k)
  }

  function Remove<K(==), V>(t: seq<Entry<K, V>>, k: K): seq<Entry<K, V>> {
    if t == [] then []
    else
      var rest := Remove(t[..|t| - 1], k);
      if t[|t| - 1].key == k then rest else rest + [t[|t| - 1]]
  }

  /** Delete and re-insert: the key becomes the most recent one. */
  function Put<K(==), V>(t: seq<Entry<K, V>>, k: K, v: V): seq<Entry<K, V>> {
    Remove(t, k) + [Entry(k, v)]
  }

  /** Drop the oldest entries until at most `capacity` remain. */
  function Evict<K, V>(t: seq<Entry<K, V>>, capacity: nat): seq<Entry<K, V>> {
    if |t| > capacity then t[|t| - capacity..] else t
  }

  /** The eviction loop both tables run after an insertion. */
  method EvictOldest<K, V>(t: seq<Entry<K, V>>, capacity: nat) returns (r: seq<Entry<K, V>>)
    ensures |r| <= capacity
    ensures r == Evict(t, capacity)
  {
    r := t;
    ghost var dropped := 0;
    while |r| > capacity
      invariant dropped <= |t| && r == t[dropped..]
      invariant dropped == 0 || dropped + capacity <= |t|
    {
      r := r[1..];
      dropped := dropped + 1;
    }
  }

  /** The entries with keys in `ks`, in their order. */
  ghost function Keep<K, V>(t: seq<Entry<K, V>>, ks: set<K>): seq<Entry<K, V>> {
    if t == [] then []
    else
      var rest := Keep(t[..|t| - 1], ks);
      if t[|t| - 1].key in ks then rest + [t[|t| - 1]] else rest
  }

  lemma KeysOfConcat<K, V>(a: seq<Entry<K, V>>, b: seq<Entry<K, V>>)
    ensures Keys(a + b) == Keys(a) + Keys(b)
  {
    forall k ensures k in Keys(a + b) <==> k in Keys(a) + Keys(b) {
      if k in Keys(a) {
        var e :| e in a && e.key == k;
        assert e in a + b;
      }
      if k in Keys(b) {
        var e :| e in b && e.key == k;
        assert e in a + b;
      }
    }
  }

  lemma KeysOfSnoc<K, V>(t: seq<Entry<K, V>>, e: Entry<K, V>)
    ensures Keys(t + [e]) == Keys(t) + {e.key}
  {
    KeysOfConcat(t, [e]);
    assert Keys([e]) == {e.key} by { assert e in [e]; }
  }

  lemma UniqueSnoc<K, V>(t: seq<Entry<K, V>>, e: Entry<K, V>)
    requires Unique(t) && e.key !in Keys(t)
    ensures Unique(t + [e])
  {
    forall i | 0 <= i < |t| ensures t[i].key != e.key { assert t[i] in t; }
  }

  lemma LastIsNew<K, V>(t: seq<Entry<K, V>>)
    requires Unique(t) && t != []
    ensures t[|t| - 1].key !in Keys(t[..|t| - 1])
    ensures Keys(t) == Keys(t[..|t| - 1]) + {t[|t| - 1].key}
  {
    assert t == t[..|t| - 1] + [t[|t| - 1]];
    KeysOfSnoc(t[..|t| - 1], t[|t| - 1]);
  }

  lemma {:induction false} RemoveFacts<K, V>(t: seq<Entry<K, V>>, k: K)
    requires Unique(t)
    ensures Unique(Remove(t, k))
    ensures Keys(Remove(t, k)) == Keys(t) - {k}
    ensures |Remove(t, k)| == |t| - (if k in Keys(t) then 1 else 0)
    ensures k !in Keys(t) ==> Remove(t, k) == t
  {
    if t != [] {
      var init, last := t[..|t| - 1], t[|t| - 1];
      RemoveFacts(init, k);
      LastIsNew(t);
      if last.key != k {
        KeysOfSnoc(Remove(init, k), last);
        UniqueSnoc(Remove(init, k), last);
      }
    }
  }

  lemma {:induction false} RemoveEntries<K, V>(t: seq<Entry<K, V>>, k: K)
    ensures forall e <- Remove(t, k) :: e in t && e.key != k
  {
    if t != [] {
      RemoveEntries(t[..|t| - 1], k);
    }
  }

  lemma PutFacts<K, V>(t: seq<Entry<K, V>>, k: K, v: V)
    requires Unique(t)
    ensures Unique(Put(t, k, v))
    ensures Keys(Put(t, k, v)) == Keys(t) + {k}
    ensures |Put(t, k, v)| == |t| + (if k in Keys(t) then 0 else 1)
  {
    RemoveFacts(t, k);
    KeysOfSnoc(Remove(t, k), Entry(k, v));
    UniqueSnoc(Remove(t, k), Entry(k, v));
  }

  lemma UniqueKey<K, V>(t: seq<Entry<K, V>>, e: Entry<K, V>)
    requires Unique(t) && e in t
    ensures Find(t, e.key) == Some(e.value)
  {
    var f := Entry(e.key, Find(t, e.key).value);
    assert f in t;
  }

  lemma {:induction false} SizeIsKeys<K, V>(t: seq<Entry<K, V>>)
    requires Unique(t)
    ensures |Keys(t)| == |t|
  {
    if t != [] {
      SizeIsKeys(t[..|t| - 1]);
      LastIsNew(t);
    }
  }

  lemma CardinalityGrows<T>(a: set<T>, b: set<T>)
    requires a <= b
    ensures |a| <= |b|
  {
    assert b == a + (b - a);
  }

  /** Eviction spares a key that fewer than `capacity` entries follow. */
  lemma SurvivesEviction<K, V>(t: seq<Entry<K, V>>, capacity: nat, key: K, others: set<K>)
    requires Unique(t) && key in Keys(t)
    requires forall i, j | 0 <= i < j < |t| :: t[i].key == key ==> t[j].key in others
    requires |others| < capacity
    ensures key in Keys(Evict(t, capacity))
  {
    var e :| e in t && e.key == key;
    var i :| 0 <= i < |t| && t[i] == e;
    var later := t[i + 1..];
    assert Keys(later) <= others;
    SizeIsKeys(later);
    CardinalityGrows(Keys(later), others);
    var kept := Evict(t, capacity);
    assert kept[|kept| - |t| + i] == e;
  }

  lemma {:induction false} RemoveKeepsOrder<K, V>(t: seq<Entry<K, V>>, k: K, i: nat, j: nat)
    requires Unique(t) && i < j < |Remove(t, k)|
    ensures exists i', j' :: 0 <= i' < j' < |t| && t[i'] == Remove(t, k)[i] && t[j'] == Remove(t, k)[j]
  {
    var init, last := t[..|t| - 1], t[|t| - 1];
    if last.key != k && j == |Remove(t, k)| - 1 {
      RemoveEntries(init, k);
      assert Remove(init, k)[i] in Remove(init, k);
      var i' :| 0 <= i' < |init| && init[i'] == Remove(init, k)[i];
      assert t[i'] == Remove(t, k)[i] && t[|t| - 1] == Remove(t, k)[j];
    } else {
      RemoveKeepsOrder(init, k, i, j);
      var i', j' :| 0 <= i' < j' < |init| && init[i'] == Remove(init, k)[i] && init[j'] == Remove(init, k)[j];
      assert t[i'] == Remove(t, k)[i] && t[j'] == Remove(t, k)[j];
    }
  }

  // ---- subsequences ---------------------------------------------------------------

  lemma {:induction false} KeepConcat<K, V>(a: seq<Entry<K, V>>, b: seq<Entry<K, V>>, ks: set<K>)
    ensures Keep(a + b, ks) == Keep(a, ks) + Keep(b, ks)
    decreases |b|
  {
    if b == [] {
      assert a + b == a;
    } else {
      var init, last := b[..|b| - 1], b[|b| - 1];
      KeepConcat(a, init, ks);
      assert (a + b)[..|a + b| - 1] == a + init && (a + b)[|a + b| - 1] == last;
    }
  }

  lemma {:induction false} KeepKeep<K, V>(t: seq<Entry<K, V>>, a: set<K>, b: set<K>)
    requires b <= a
    ensures Keep(Keep(t, a), b) == Keep(t, b)
  {
    if t != [] {
      KeepKeep(t[..|t| - 1], a, b);
      KeepConcat(Keep(t[..|t| - 1], a), [t[|t| - 1]], b);
    }
  }

  lemma {:induction false} KeepAll<K, V>(t: seq<Entry<K, V>>, ks: set<K>)
    requires Keys(t) <= ks
    ensures Keep(t, ks) == t
  {
    if t != [] {
      var init, last := t[..|t| - 1], t[|t| - 1];
      assert t == init + [last] && last in t;
      KeysOfConcat(init, [last]);
      KeepAll(init, ks);
    }
  }

  lemma {:induction false} KeepNone<K, V>(t: seq<Entry<K, V>>, ks: set<K>)
    requires Keys(t) !! ks
    ensures Keep(t, ks) == []
  {
    if t != [] {
      var init, last := t[..|t| - 1], t[|t| - 1];
      assert t == init + [last] && last in t;
      KeysOfConcat(init, [last]);
      KeepNone(init, ks);
    }
  }

  lemma {:induction false} KeepRemove<K, V>(t: seq<Entry<K, V>>, k: K, ks: set<K>)
    ensures Keep(Remove(t, k), ks) == Keep(t, ks - {k}) == Remove(Keep(t, ks), k)
  {
    if t != [] {
      var init, last := t[..|t| - 1], t[|t| - 1];
      KeepRemove(init, k, ks);
      KeepConcat(Remove(init, k), [last], ks);
    }
  }

  lemma {:induction false} KeepFacts<K, V>(t: seq<Entry<K, V>>, ks: set<K>)
    ensures forall e :: e in Keep(t, ks) <==> e in t && e.key in ks
  {
    if t != [] {
      KeepFacts(t[..|t| - 1], ks);
      assert t == t[..|t| - 1] + [t[|t| - 1]];
    }
  }

  /** Dropping the oldest entry of a subsequence, and of the whole if it is not the same one, keeps a subsequence. */
  lemma KeepTail<K, V>(small: seq<Entry<K, V>>, large: seq<Entry<K, V>>)
    requires Unique(small) && small != [] && small == Keep(large, Keys(small))
    ensures small[1..] == Keep(large, Keys(small[1..]))
    ensures large != [] && small[1..] == Keep(large[1..], Keys(small[1..]))
  {
    var tail := small[1..];
    assert small == [small[0]] + tail;
    KeysOfConcat([small[0]], tail);
    assert small[0].key !in Keys(tail);
    assert Keys([small[0]]) == {small[0].key} by { assert small[0] in [small[0]]; }
    KeepKeep(large, Keys(small), Keys(tail));
    KeepConcat([small[0]], tail, Keys(tail));
    KeepNone([small[0]], Keys(tail));
    KeepAll(tail, Keys(tail));
    assert large == [large[0]] + large[1..];
    KeepConcat([large[0]], large[1..], Keys(small));
    KeepConcat([large[0]], large[1..], Keys(tail));
    if large[0].key in Keys(small) {
      assert Keep([large[0]], Keys(small)) == [large[0]];
      assert small[0] == large[0];
    }
    assert Keep([large[0]], Keys(tail)) == [];
  }
}
