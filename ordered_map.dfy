/** String-keyed maps that remember insertion order, as JavaScript objects
    with non-numeric keys do: assigning to an existing key keeps its place,
    a new key goes last, `delete` removes one entry. */
module OrderedMap {
  import opened Common

  type OMap<V> = seq<(string, V)>

  function Keys<V>(m: OMap<V>): (r: seq<string>)
    ensures |r| == |m| && forall i :: 0 <= i < |m| ==> r[i] == m[i].0
  {
    seq(|m|, i requires 0 <= i < |m| => m[i].0)
  }

  function Values<V>(m: OMap<V>): (r: seq<V>)
    ensures |r| == |m| && forall i :: 0 <= i < |m| ==> r[i] == m[i].1
  {
    seq(|m|, i requires 0 <= i < |m| => m[i].1)
  }

  /** No key occurs twice. */
  predicate Keyed<V>(m: OMap<V>)
  {
    NoDuplicates(Keys(m))
  }

  predicate Has<V>(m: OMap<V>, k: string)
  {
    k in Keys(m)
  }

  /** Position of the first entry with key k. */
  function IndexOf<V>(m: OMap<V>, k: string): (i: nat)
    requires Has(m, k)
    ensures i < |m| && m[i].0 == k
    ensures forall j :: 0 <= j < i ==> m[j].0 != k
  {
    if m[0].0 == k then 0
    else
      assert Has(m[1..], k) by {
        var j :| 0 <= j < |m| && Keys(m)[j] == k;
        assert Keys(m[1..])[j - 1] == k;
      }
      var i := IndexOf(m[1..], k);
      assert forall j :: 1 <= j <= i ==> m[j] == m[1..][j - 1];
      1 + i
  }

  /** `m[k]`, None for undefined. */
  function Find<V>(m: OMap<V>, k: string): (r: Option<V>)
    ensures r.Some? <==> Has(m, k)
    ensures r.Some? ==> r.value == m[IndexOf(m, k)].1
  {
    if Has(m, k) then Some(m[IndexOf(m, k)].1) else None
  }

  /** `{...m, [k]: v}`: replaces the value in place, or appends the key. */
  function Put<V>(m: OMap<V>, k: string, v: V): (r: OMap<V>)
    ensures Has(m, k) ==> Keys(r) == Keys(m)
    ensures !Has(m, k) ==> Keys(r) == Keys(m) + [k]
    ensures Has(m, k) ==> r == m[IndexOf(m, k) := (k, v)]
  {
    if Has(m, k) then m[IndexOf(m, k) := (k, v)] else m + [(k, v)]
  }

  /** `delete m[k]` on a copy: every entry with that key goes. */
  function Remove<V(!new)>(m: OMap<V>, k: string): (r: OMap<V>)
    ensures !Has(r, k)
    ensures |r| <= |m|
    ensures forall e :: e in r <==> e in m && e.0 != k
  {
    if m == [] then []
    else
      var rest := Remove(m[1..], k);
      assert forall e :: e in m <==> e == m[0] || e in m[1..];
      if m[0].0 == k then rest else [m[0]] + rest
  }

  /** The copy loop of the rename handlers: the entry with key `from` gets
      key `to`, every entry keeps its value and its place. */
  function RenameKey<V>(m: OMap<V>, from: string, to: string): (r: OMap<V>)
    ensures |r| == |m|
    ensures forall i :: 0 <= i < |m| ==> r[i] == (if m[i].0 == from then to else m[i].0, m[i].1)
  {
    seq(|m|, i requires 0 <= i < |m| => (if m[i].0 == from then to else m[i].0, m[i].1))
  }

  /** After a put, the key maps to the new value and every other key to
      what it mapped to before; the map stays keyed. */
  lemma PutFind<V>(m: OMap<V>, k: string, v: V, k2: string)
    requires Keyed(m)
    ensures Keyed(Put(m, k, v))
    ensures Find(Put(m, k, v), k) == Some(v)
    ensures k2 != k ==> Find(Put(m, k, v), k2) == Find(m, k2)
  {
    var r := Put(m, k, v);
    if Has(m, k) {
      assert Keys(r) == Keys(m);
      assert r[IndexOf(m, k)] == (k, v);
      KeyedIndex(r, k, IndexOf(m, k));
      if k2 != k && Has(m, k2) {
        KeyedIndex(r, k2, IndexOf(m, k2));
      }
    } else {
      assert Keys(r) == Keys(m) + [k];
      KeyedIndex(r, k, |m|);
      if k2 != k && Has(m, k2) {
        assert r[IndexOf(m, k2)] == m[IndexOf(m, k2)];
        KeyedIndex(r, k2, IndexOf(m, k2));
      }
    }
  }

  /** In a keyed map the only entry with a key is at its index. */
  lemma KeyedIndex<V>(m: OMap<V>, k: string, i: nat)
    requires Keyed(m) && i < |m| && m[i].0 == k
    ensures Has(m, k) && IndexOf(m, k) == i
  {
    assert Keys(m)[i] == k;
    var j := IndexOf(m, k);
    assert Keys(m)[j] == k;
  }

  /** Lookup in a non-empty map: the head entry, or a lookup in the rest. */
  lemma KeysCons<V>(m: OMap<V>)
    requires m != []
    ensures Keys(m) == [m[0].0] + Keys(m[1..])
  {
    assert forall i :: 0 <= i < |m| ==> Keys(m)[i] == ([m[0].0] + Keys(m[1..]))[i];
  }

  lemma FindCons<V>(m: OMap<V>, k: string)
    requires m != []
    ensures Find(m, k) == if m[0].0 == k then Some(m[0].1) else Find(m[1..], k)
  {
    KeysCons(m);
  }

  /** Removing a key keeps the order of the remaining keys. */
  lemma {:induction false} RemoveKeys<V(!new)>(m: OMap<V>, k: string)
    ensures Keys(Remove(m, k)) == Filter(Keys(m), x => x != k)
  {
    if m != [] {
      assert Keys(m)[1..] == Keys(m[1..]);
      RemoveKeys(m[1..], k);
      if m[0].0 != k {
        assert Keys([m[0]] + Remove(m[1..], k)) == [m[0].0] + Keys(Remove(m[1..], k));
      }
    }
  }

  /** Removing a key keeps the map keyed. */
  lemma {:induction false} RemoveKeyed<V(!new)>(m: OMap<V>, k: string)
    requires Keyed(m)
    ensures Keyed(Remove(m, k))
  {
    if m != [] {
      KeyedTail(m);
      RemoveKeyed(m[1..], k);
      if m[0].0 != k {
        var rest := Remove(m[1..], k);
        assert m[0].0 !in Keys(rest) by {
          RemoveKeys(m[1..], k);
          FilterMembers(Keys(m[1..]), x => x != k, m[0].0);
        }
        assert Keys([m[0]] + rest) == [m[0].0] + Keys(rest);
        NoDuplicatesCons(m[0].0, Keys(rest));
      }
    }
  }

  lemma KeyedTail<V>(m: OMap<V>)
    requires Keyed(m) && m != []
    ensures Keyed(m[1..]) && m[0].0 !in Keys(m[1..])
  {
    KeysCons(m);
    forall i, j | 0 <= i < j < |m| - 1 ensures Keys(m[1..])[i] != Keys(m[1..])[j] {
      assert Keys(m)[i + 1] != Keys(m)[j + 1];
    }
  }

  lemma NoDuplicatesCons<T>(a: T, t: seq<T>)
    requires NoDuplicates(t) && a !in t
    ensures NoDuplicates([a] + t)
  {
    forall i, j | 0 <= i < j < |[a] + t| ensures ([a] + t)[i] != ([a] + t)[j] {
      if i == 0 {
        assert ([a] + t)[j] == t[j - 1];
      } else {
        assert ([a] + t)[i] == t[i - 1] && ([a] + t)[j] == t[j - 1];
      }
    }
  }

  /** Removing a key keeps every other key's value. */
  lemma {:induction false} RemoveFind<V(!new)>(m: OMap<V>, k: string, k2: string)
    requires k2 != k
    ensures Find(Remove(m, k), k2) == Find(m, k2)
  {
    if m != [] {
      FindCons(m, k2);
      RemoveFind(m[1..], k, k2);
      var rest := Remove(m[1..], k);
      if m[0].0 != k {
        FindCons([m[0]] + rest, k2);
        assert ([m[0]] + rest)[1..] == rest;
      }
    }
  }

  /** A rename to a fresh key keeps the map keyed, moves the value of `from`
      to `to` and leaves every other key where it was. */
  lemma RenameFind<V>(m: OMap<V>, from: string, to: string, k2: string)
    requires Keyed(m) && Has(m, from) && !Has(m, to)
    ensures Keyed(RenameKey(m, from, to))
    ensures !Has(RenameKey(m, from, to), from)
    ensures Find(RenameKey(m, from, to), to) == Find(m, from)
    ensures k2 != from && k2 != to ==> Find(RenameKey(m, from, to), k2) == Find(m, k2)
  {
    var r := RenameKey(m, from, to);
    var i := IndexOf(m, from);
    forall a, b | 0 <= a < b < |r| ensures Keys(r)[a] != Keys(r)[b] {
      assert Keys(m)[a] != Keys(m)[b];
      assert m[a].0 != to && m[b].0 != to by { assert Keys(m)[a] == m[a].0 && Keys(m)[b] == m[b].0; }
    }
    KeyedIndex(r, to, i);
    if Has(r, from) {
      var j := IndexOf(r, from);
    }
    if k2 != from && k2 != to && Has(m, k2) {
      KeyedIndex(r, k2, IndexOf(m, k2));
    }
    if k2 != from && k2 != to && Has(r, k2) {
      var j := IndexOf(r, k2);
      assert m[j].0 == k2;
    }
  }

  /** The same keys in the same order, each value passed through f. */
  function MapValues<V, W>(m: OMap<V>, f: V -> W): (r: OMap<W>)
    ensures Keys(r) == Keys(m)
    ensures |r| == |m| && forall i :: 0 <= i < |m| ==> r[i] == (m[i].0, f(m[i].1))
  {
    seq(|m|, i requires 0 <= i < |m| => (m[i].0, f(m[i].1)))
  }

  /** Looking a key up after mapping the values is mapping the value found. */
  lemma FindMapValues<V, W>(m: OMap<V>, f: V -> W, k: string)
    ensures Find(MapValues(m, f), k) == if Find(m, k).Some? then Some(f(Find(m, k).value)) else None
  {
    var r := MapValues(m, f);
    assert Keys(r) == Keys(m);
    if Has(m, k) {
      var i := IndexOf(m, k);
      var j := IndexOf(r, k);
      assert r[i].0 == k && m[j].0 == k;
    }
  }

  /** `{...m, ...es}`: the entries of es put one after the other. */
  function PutAll<V>(m: OMap<V>, es: OMap<V>): (r: OMap<V>)
    decreases |es|
  {
    if es == [] then m else PutAll(Put(m, es[0].0, es[0].1), es[1..])
  }

  /** Spreading a keyed map over a keyed map: its keys take its values,
      the other keys keep theirs, and the result is keyed. */
  lemma {:induction false} PutAllFind<V>(m: OMap<V>, es: OMap<V>, k: string)
    requires Keyed(m) && Keyed(es)
    ensures Keyed(PutAll(m, es))
    ensures Find(PutAll(m, es), k) == if Has(es, k) then Find(es, k) else Find(m, k)
    decreases |es|
  {
    if es != [] {
      var m2 := Put(m, es[0].0, es[0].1);
      PutFind(m, es[0].0, es[0].1, k);
      KeyedTail(es);
      PutAllFind(m2, es[1..], k);
      FindCons(es, k);
      KeysCons(es);
    }
  }

  /** Put reads back as written whether or not the map is keyed: the value
      lands at the first entry with that key, or at the end. */
  lemma PutFindAny<V>(m: OMap<V>, k: string, v: V, k2: string)
    ensures Find(Put(m, k, v), k2) == if k2 == k then Some(v) else Find(m, k2)
  {
    if Has(m, k) {
      PutFindReplace(m, k, v, k2);
    } else {
      PutFindAppend(m, k, v, k2);
    }
  }

  lemma PutFindReplace<V>(m: OMap<V>, k: string, v: V, k2: string)
    requires Has(m, k)
    ensures Find(Put(m, k, v), k2) == if k2 == k then Some(v) else Find(m, k2)
  {
    var r := Put(m, k, v);
    var i := IndexOf(m, k);
    assert Keys(r) == Keys(m);
    assert IndexOf(r, k) == i by {
      var j := IndexOf(r, k);
      assert r[j].0 == k;
    }
    if k2 != k && Has(m, k2) {
      var j := IndexOf(m, k2);
      var j2 := IndexOf(r, k2);
      assert m[j2].0 == k2;
      assert r[j].0 == k2;
    }
  }

  lemma PutFindAppend<V>(m: OMap<V>, k: string, v: V, k2: string)
    requires !Has(m, k)
    ensures Find(Put(m, k, v), k2) == if k2 == k then Some(v) else Find(m, k2)
  {
    var r := Put(m, k, v);
    assert Keys(r) == Keys(m) + [k];
    assert r[|m|].0 == k;
    var j := IndexOf(r, k);
    assert Keys(r)[j] == k;
    if k2 != k && Has(m, k2) {
      var j1 := IndexOf(m, k2);
      var j2 := IndexOf(r, k2);
      assert r[j1] == m[j1];
    }
  }

  /** PutAll one entry longer is one more Put. */
  lemma {:induction false} PutAllSnoc<V>(m: OMap<V>, es: OMap<V>, e: (string, V))
    ensures PutAll(m, es + [e]) == Put(PutAll(m, es), e.0, e.1)
    decreases |es|
  {
    if es == [] {
      assert es + [e] == [e];
    } else {
      assert (es + [e])[1..] == es[1..] + [e];
      PutAllSnoc(Put(m, es[0].0, es[0].1), es[1..], e);
    }
  }

  /** The value of the last entry with key k. */
  function LastFind<V>(es: OMap<V>, k: string): (r: Option<V>)
    ensures r.Some? <==> k in Keys(es)
  {
    if es == [] then None
    else if es[|es| - 1].0 == k then Some(es[|es| - 1].1)
    else
      assert Keys(es) == Keys(es[..|es| - 1]) + [es[|es| - 1].0];
      LastFind(es[..|es| - 1], k)
  }

  /** Writing the entries one after the other into an empty object leaves
      each key with its last value. */
  lemma {:induction false} PutAllLast<V>(es: OMap<V>, k: string)
    ensures Find(PutAll([], es), k) == LastFind(es, k)
    decreases |es|
  {
    if es != [] {
      var init := es[..|es| - 1];
      var e := es[|es| - 1];
      assert es == init + [e];
      PutAllSnoc([], init, e);
      PutFindAny(PutAll([], init), e.0, e.1, k);
      PutAllLast(init, k);
    }
  }

  /** The first entry under a key is the one Find reads. */
  lemma FindFirst<V>(m: OMap<V>, i: nat)
    requires i < |m| && forall j :: 0 <= j < i ==> m[j].0 != m[i].0
    ensures Find(m, m[i].0) == Some(m[i].1)
  {
    assert Keys(m)[i] == m[i].0;
    var j := IndexOf(m, m[i].0);
  }
}
