/** The order in which a plain JavaScript object lists its own string keys
    (`Object.keys`, `Object.entries`, `Object.values`): first every key that
    is an array index, in ascending numeric order, then every other key in
    the order it was first inserted. */
module JsObjects {
  import opened JsStrings
  import opened JsArrays

  /** The largest array index, 2^32 - 2. */
  const MAX_ARRAY_INDEX: nat := 4294967294

  /** A canonical decimal numeral (no sign, no leading zero) for a number up
      to `MAX_ARRAY_INDEX`. */
  predicate IsArrayIndex(key: string)
  {
    && |key| > 0
    && AllDigits(key)
    && (key[0] == '0' ==> |key| == 1)
    && DecimalValue(key) <= MAX_ARRAY_INDEX
  }

  predicate IsNamedKey(key: string)
  {
    !IsArrayIndex(key)
  }

  /** The numeric value of an array-index key (0 for any other key). */
  function IndexValue(key: string): nat
  {
    if AllDigits(key) then DecimalValue(key) else 0
  }

  /** Comparator for array-index keys: ascending numeric order. */
  predicate IndexLe(a: string, b: string)
  {
    IndexValue(a) <= IndexValue(b)
  }

  /** The listing order of an object whose keys were inserted in the order `inserted`. */
  function OwnKeys(inserted: seq<string>): seq<string>
  {
    SortBy(Filter(inserted, IsArrayIndex), IndexLe) + Filter(inserted, IsNamedKey)
  }

  lemma IndexLeIsTotalPreorder()
    ensures TotalPreorder(IndexLe)
  {
  }

  /** Listing the keys neither loses nor invents nor repeats one. */
  lemma OwnKeysPermutation(inserted: seq<string>)
    ensures multiset(OwnKeys(inserted)) == multiset(inserted)
    ensures forall k :: k in OwnKeys(inserted) <==> k in inserted
    ensures Distinct(inserted) ==> Distinct(OwnKeys(inserted))
  {
    FilterPartition(inserted, IsArrayIndex, IsNamedKey);
    var r := OwnKeys(inserted);
    forall k
      ensures k in r <==> k in inserted
    {
      assert k in r <==> k in multiset(r);
      assert k in inserted <==> k in multiset(inserted);
    }
    if Distinct(inserted) {
      DistinctPermutation(inserted, r);
    }
  }

  /** Array-index keys come first and in ascending numeric order; the other
      keys follow in insertion order. */
  lemma OwnKeysOrder(inserted: seq<string>)
    ensures var r := OwnKeys(inserted);
      && (forall i, j :: 0 <= i < j < |r| && IsArrayIndex(r[j]) ==> IsArrayIndex(r[i]) && IndexValue(r[i]) <= IndexValue(r[j]))
      && Filter(r, IsNamedKey) == Filter(inserted, IsNamedKey)
  {
    var indices := SortBy(Filter(inserted, IsArrayIndex), IndexLe);
    var named := Filter(inserted, IsNamedKey);
    IndexLeIsTotalPreorder();
    SortBySorted(Filter(inserted, IsArrayIndex), IndexLe);
    forall k | k in indices
      ensures IsArrayIndex(k)
    {
      assert k in multiset(indices);
    }
    IndicesThenNames(indices, named);
    FilterConcat(indices, named, IsNamedKey);
    FilterAllPass(named, IsNamedKey);
    FilterNonePass(indices, IsNamedKey);
  }

  lemma IndicesThenNames(indices: seq<string>, named: seq<string>)
    requires forall k :: k in indices ==> IsArrayIndex(k)
    requires forall k :: k in named ==> IsNamedKey(k)
    requires SortedBy(indices, IndexLe)
    ensures var r := indices + named;
      forall i, j :: 0 <= i < j < |r| && IsArrayIndex(r[j]) ==> IsArrayIndex(r[i]) && IndexValue(r[i]) <= IndexValue(r[j])
  {
    var r := indices + named;
    forall i, j | 0 <= i < j < |r| && IsArrayIndex(r[j])
      ensures IsArrayIndex(r[i]) && IndexValue(r[i]) <= IndexValue(r[j])
    {
      assert j >= |indices| ==> r[j] == named[j - |indices|] && r[j] in named && IsNamedKey(r[j]);
      assert r[i] == indices[i] && r[j] == indices[j];
      assert IndexLe(indices[i], indices[j]);
    }
  }

  /** An object none of whose keys is an array index lists them in insertion order. */
  lemma OwnKeysOfNamedKeys(inserted: seq<string>)
    requires forall k :: k in inserted ==> IsNamedKey(k)
    ensures OwnKeys(inserted) == inserted
  {
    FilterAllPass(inserted, IsNamedKey);
    FilterNonePass(inserted, IsArrayIndex);
  }

  /** The keys of an object assigned the keys `written` in turn: each
      assigned key once, no other key, and in first-assignment order when no
      key is an array index. */
  lemma KeysOfWritten(written: seq<string>)
    ensures Distinct(OwnKeys(Dedup(written)))
    ensures forall i :: 0 <= i < |written| ==> written[i] in OwnKeys(Dedup(written))
    ensures forall k :: k in OwnKeys(Dedup(written)) ==> k in written
    ensures (forall i :: 0 <= i < |written| ==> IsNamedKey(written[i])) ==> OwnKeys(Dedup(written)) == Dedup(written)
  {
    OwnKeysPermutation(Dedup(written));
    if forall i :: 0 <= i < |written| ==> IsNamedKey(written[i]) {
      OwnKeysOfNamedKeys(Dedup(written));
    }
  }

  /** A key holding a character other than a digit is never an array index. */
  lemma NonDigitKeyIsNamed(key: string, i: nat)
    requires i < |key| && !IsDigitChar(key[i])
    ensures IsNamedKey(key)
  {
  }

  // ---------------------------------------------------------------------------
  // Plain objects used as dictionaries

  /** A plain object: its own keys in the order they were first assigned,
      and the value under each. */
  datatype Obj<V> = Obj(keys: seq<string>, props: map<string, V>)

  /** Each own key recorded once, and exactly the keys that hold a value. */
  predicate ObjValid<V>(o: Obj<V>)
  {
    && Distinct(o.keys)
    && (forall k :: k in o.props ==> k in o.keys)
    && (forall k :: k in o.keys ==> k in o.props)
  }

  /** `{}`. */
  function EmptyObj<V>(): (o: Obj<V>)
    ensures ObjValid(o) && o.keys == [] && o.props == map[]
  {
    Obj([], map[])
  }

  /** `o[k] = v`: an existing key keeps its place, a new key goes last. */
  function Put<V>(o: Obj<V>, k: string, v: V): (r: Obj<V>)
    ensures ObjValid(o) ==> ObjValid(r)
    ensures k in r.props && r.props[k] == v
    ensures forall j :: j != k ==> (j in r.props <==> j in o.props)
    ensures forall j :: j != k && j in o.props ==> r.props[j] == o.props[j]
  {
    Obj(SetAdd(o.keys, k), o.props[k := v])
  }

  /** Assigning a key twice is assigning it the second value. */
  lemma PutTwice<V>(o: Obj<V>, k: string, v: V, w: V)
    ensures Put(Put(o, k, v), k, w) == Put(o, k, w)
  {
    assert k in SetAdd(o.keys, k);
  }

  /** A plain object as the program sees it. */
  type Dict<V> = o: Obj<V> | ObjValid(o) witness Obj([], map[])

  /** Assigning `entries` in turn (`Object.fromEntries`, or a `reduce` that
      spreads the accumulator and adds one key). */
  function PutAll<V>(o: Obj<V>, entries: seq<(string, V)>): (r: Obj<V>)
    ensures ObjValid(o) ==> ObjValid(r)
  {
    if entries == [] then o
    else Put(PutAll(o, entries[..|entries| - 1]), entries[|entries| - 1].0, entries[|entries| - 1].1)
  }

  /** `k` is among the keys of `entries`. */
  predicate Assigns<V>(entries: seq<(string, V)>, k: string)
  {
    exists i :: 0 <= i < |entries| && entries[i].0 == k
  }

  /** Every assigned key is present, a key assigned more than once holds its
      last value, and every other key keeps its value. */
  lemma PutAllSpec<V>(o: Obj<V>, entries: seq<(string, V)>)
    ensures var r := PutAll(o, entries);
      && (forall k :: k in r.props <==> k in o.props || Assigns(entries, k))
      && (forall i :: 0 <= i < |entries| && (forall j :: i < j < |entries| ==> entries[j].0 != entries[i].0)
            ==> entries[i].0 in r.props && r.props[entries[i].0] == entries[i].1)
      && (forall k :: k in o.props && (forall i :: 0 <= i < |entries| ==> entries[i].0 != k) ==> r.props[k] == o.props[k])
  {
    PutAllKeys(o, entries);
    PutAllLastValue(o, entries);
    PutAllUntouched(o, entries);
  }

  lemma {:induction false} PutAllKeys<V>(o: Obj<V>, entries: seq<(string, V)>)
    ensures forall k :: k in PutAll(o, entries).props <==> k in o.props || Assigns(entries, k)
  {
    if entries != [] {
      var init, last := entries[..|entries| - 1], entries[|entries| - 1];
      PutAllKeys(o, init);
      var r := PutAll(o, entries);
      assert r == Put(PutAll(o, init), last.0, last.1);
      forall k
        ensures k in r.props <==> k in o.props || Assigns(entries, k)
      {
        if Assigns(init, k) {
          var i :| 0 <= i < |init| && init[i].0 == k;
          assert entries[i] == init[i];
        }
        if k != last.0 && Assigns(entries, k) {
          var i :| 0 <= i < |entries| && entries[i].0 == k;
          assert init[i] == entries[i];
        }
      }
    }
  }

  lemma {:induction false} PutAllLastValue<V>(o: Obj<V>, entries: seq<(string, V)>)
    ensures forall i :: 0 <= i < |entries| && (forall j :: i < j < |entries| ==> entries[j].0 != entries[i].0)
               ==> entries[i].0 in PutAll(o, entries).props && PutAll(o, entries).props[entries[i].0] == entries[i].1
  {
    if entries != [] {
      var init, last := entries[..|entries| - 1], entries[|entries| - 1];
      PutAllLastValue(o, init);
      var r := PutAll(o, entries);
      assert r == Put(PutAll(o, init), last.0, last.1);
      forall i | 0 <= i < |entries| && (forall j :: i < j < |entries| ==> entries[j].0 != entries[i].0)
        ensures entries[i].0 in r.props && r.props[entries[i].0] == entries[i].1
      {
        if i < |init| {
          assert init[i] == entries[i];
          assert forall j :: i < j < |init| ==> init[j] == entries[j];
          assert entries[i].0 != last.0;
        }
      }
    }
  }

  lemma {:induction false} PutAllUntouched<V>(o: Obj<V>, entries: seq<(string, V)>)
    ensures forall k :: k in o.props && (forall i :: 0 <= i < |entries| ==> entries[i].0 != k)
               ==> k in PutAll(o, entries).props && PutAll(o, entries).props[k] == o.props[k]
  {
    if entries != [] {
      var init, last := entries[..|entries| - 1], entries[|entries| - 1];
      PutAllUntouched(o, init);
      var r := PutAll(o, entries);
      assert r == Put(PutAll(o, init), last.0, last.1);
      forall k | k in o.props && (forall i :: 0 <= i < |entries| ==> entries[i].0 != k)
        ensures k in r.props && r.props[k] == o.props[k]
      {
        assert forall i :: 0 <= i < |init| ==> init[i] == entries[i];
      }
    }
  }

  /** `Object.keys(o)`. */
  function Keys<V>(o: Obj<V>): seq<string>
  {
    OwnKeys(o.keys)
  }

  /** `Object.values(o)`: the values in listing order. */
  function Values<V>(o: Obj<V>): (vs: seq<V>)
    requires ObjValid(o)
    ensures |vs| == |Keys(o)|
    ensures forall i :: 0 <= i < |vs| ==> Keys(o)[i] in o.props && vs[i] == o.props[Keys(o)[i]]
  {
    OwnKeysPermutation(o.keys);
    var ks := OwnKeys(o.keys);
    seq(|ks|, i requires 0 <= i < |ks| => o.props[ks[i]])
  }

  /** `Object.entries(o)`: key and value pairs in listing order. */
  function Entries<V>(o: Obj<V>): (es: seq<(string, V)>)
    requires ObjValid(o)
    ensures |es| == |Keys(o)|
    ensures forall i :: 0 <= i < |es| ==> es[i].0 == Keys(o)[i] && es[i].0 in o.props && es[i].1 == o.props[es[i].0]
  {
    OwnKeysPermutation(o.keys);
    var ks := OwnKeys(o.keys);
    seq(|ks|, i requires 0 <= i < |ks| => (ks[i], o.props[ks[i]]))
  }

  /** `Object.values` lists one value per key. */
  lemma ValuesCount<V>(o: Obj<V>)
    requires ObjValid(o)
    ensures |Values(o)| == |o.keys|
  {
    OwnKeysPermutation(o.keys);
    assert |Keys(o)| == |multiset(Keys(o))| == |multiset(o.keys)|;
  }

  /** The listing names every own key once. */
  lemma KeysOfValid<V>(o: Obj<V>)
    requires ObjValid(o)
    ensures Distinct(Keys(o))
    ensures forall k :: k in Keys(o) <==> k in o.props
  {
    OwnKeysPermutation(o.keys);
  }
}
