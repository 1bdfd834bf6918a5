/** Dictionaries that remember insertion order, as lists of slots with distinct keys. */
module OrderedDict {

  datatype Slot<+K, +V> = Slot(key: K, value: V)

  ghost function Keys<K, V>(d: seq<Slot<K, V>>): set<K> {
    set s | s in d :: s.key
  }

  ghost predicate Distinct<K, V>(d: seq<Slot<K, V>>) {
    forall i, j :: 0 <= i < j < |d| ==> d[i].key != d[j].key
  }

  /** Assignment: a known key keeps its place, a new one goes last. */
  function Put<K(==), V>(d: seq<Slot<K, V>>, s: Slot<K, V>): seq<Slot<K, V>> {
    if d == [] then [s]
    else if d[0].key == s.key then [s] + d[1..]
    else [d[0]] + Put(d[1..], s)
  }

  /** `pop(key, None)`. */
  function Remove<K(==), V>(d: seq<Slot<K, V>>, k: K): seq<Slot<K, V>> {
    if d == [] then []
    else if d[0].key == k then d[1..]
    else [d[0]] + Remove(d[1..], k)
  }

  predicate Has<K(==), V>(d: seq<Slot<K, V>>, k: K) {
    exists i :: 0 <= i < |d| && d[i].key == k
  }

  lemma HasIsKey<K, V>(d: seq<Slot<K, V>>, k: K)
    ensures Has(d, k) <==> k in Keys(d)
  {
    if Has(d, k) {
      var i :| 0 <= i < |d| && d[i].key == k;
      assert d[i] in d;
    }
    if k in Keys(d) {
      var s :| s in d && s.key == k;
      var i :| 0 <= i < |d| && d[i] == s;
    }
  }

  lemma KeysSplit<K, V>(a: seq<Slot<K, V>>, b: seq<Slot<K, V>>)
    ensures Keys(a + b) == Keys(a) + Keys(b)
    ensures Distinct(a + b) <==> Distinct(a) && Distinct(b) && Keys(a) !! Keys(b)
  {
    forall k | k in Keys(a) + Keys(b)
      ensures k in Keys(a + b)
    {
      var s :| (s in a || s in b) && s.key == k;
      assert s in a + b;
    }
    if Distinct(a + b) {
      forall k | k in Keys(a)
        ensures k !in Keys(b)
      {
        HasIsKey(a, k);
        HasIsKey(b, k);
        var i :| 0 <= i < |a| && a[i].key == k;
        assert (a + b)[i].key == k;
        assert forall j :: 0 <= j < |b| ==> (a + b)[|a| + j].key == b[j].key;
      }
      assert forall i :: 0 <= i < |a| ==> (a + b)[i] == a[i];
      assert forall i :: 0 <= i < |b| ==> (a + b)[|a| + i] == b[i];
    }
    if Distinct(a) && Distinct(b) && Keys(a) !! Keys(b) {
      forall i, j | 0 <= i < j < |a + b|
        ensures (a + b)[i].key != (a + b)[j].key
      {
        if i < |a| <= j {
          assert a[i] in a && b[j - |a|] in b;
          assert a[i].key in Keys(a) && b[j - |a|].key in Keys(b);
        }
      }
    }
  }

  lemma {:induction false} Count<K, V>(d: seq<Slot<K, V>>)
    requires Distinct(d)
    ensures |Keys(d)| == |d|
  {
    if d == [] {
      assert Keys(d) == {};
    } else {
      assert d == [d[0]] + d[1..];
      KeysSplit([d[0]], d[1..]);
      Count(d[1..]);
      assert d[0] in [d[0]];
      assert Keys([d[0]]) == {d[0].key};
    }
  }

  lemma {:induction false} PutKeeps<K, V>(d: seq<Slot<K, V>>, s: Slot<K, V>)
    requires Distinct(d)
    ensures Distinct(Put(d, s)) && Keys(Put(d, s)) == Keys(d) + {s.key} && s in Put(d, s)
    ensures forall x :: x in d && x.key != s.key ==> x in Put(d, s)
    ensures forall x :: x in Put(d, s) ==> x in d || x == s
  {
    if d == [] {
      assert Keys([s]) == {s.key} by { assert s in [s]; }
    } else {
      assert d == [d[0]] + d[1..];
      KeysSplit([d[0]], d[1..]);
      assert Keys([d[0]]) == {d[0].key} by { assert d[0] in [d[0]]; }
      assert Keys([s]) == {s.key} by { assert s in [s]; }
      if d[0].key == s.key {
        KeysSplit([s], d[1..]);
      } else {
        PutKeeps(d[1..], s);
        KeysSplit([d[0]], Put(d[1..], s));
      }
    }
  }

  /** A known key keeps its place, a new one goes last. */
  lemma {:induction false} PutPlaces<K, V>(d: seq<Slot<K, V>>, s: Slot<K, V>, i: nat)
    ensures !Has(d, s.key) ==> Put(d, s) == d + [s]
    ensures Distinct(d) && i < |d| && d[i].key == s.key ==> Put(d, s) == d[i := s]
  {
    if d != [] {
      assert d == [d[0]] + d[1..];
      if d[0].key != s.key {
        PutPlaces(d[1..], s, if i > 0 then i - 1 else 0);
        HasLater(d, s.key);
      }
    }
  }

  lemma HasLater<K, V>(d: seq<Slot<K, V>>, k: K)
    requires d != [] && d[0].key != k
    ensures Has(d[1..], k) <==> Has(d, k)
  {
    if i :| 0 <= i < |d| && d[i].key == k {
      assert d[1..][i - 1].key == k;
    }
    if i :| 0 <= i < |d[1..]| && d[1..][i].key == k {
      assert d[i + 1].key == k;
    }
  }

  /** What is left keeps its order. */
  lemma {:induction false} RemovePlaces<K, V>(d: seq<Slot<K, V>>, k: K, i: nat)
    ensures !Has(d, k) ==> Remove(d, k) == d
    ensures Distinct(d) && i < |d| && d[i].key == k ==> Remove(d, k) == d[..i] + d[i + 1..]
  {
    if d != [] {
      assert d == [d[0]] + d[1..];
      if d[0].key != k {
        RemovePlaces(d[1..], k, if i > 0 then i - 1 else 0);
        HasLater(d, k);
      }
    }
  }

  lemma {:induction false} RemoveKeeps<K, V>(d: seq<Slot<K, V>>, k: K)
    requires Distinct(d)
    ensures Distinct(Remove(d, k)) && Keys(Remove(d, k)) == Keys(d) - {k}
    ensures forall x :: x in d && x.key != k ==> x in Remove(d, k)
    ensures forall x :: x in Remove(d, k) ==> x in d
  {
    if d == [] {
      assert Keys(d) == {};
    } else {
      assert d == [d[0]] + d[1..];
      KeysSplit([d[0]], d[1..]);
      assert Keys([d[0]]) == {d[0].key} by { assert d[0] in [d[0]]; }
      if d[0].key != k {
        RemoveKeeps(d[1..], k);
        KeysSplit([d[0]], Remove(d[1..], k));
      }
    }
  }
}
