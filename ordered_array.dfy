/**
 * PHP's ordered arrays, as far as the client uses them: string-keyed slots that
 * keep their first position when overwritten, `$a[] = $v` appending under the
 * next free integer key, `array_values` and `array_merge`.
 */
module OrderedArrays {

  /** A PHP array key. */
  datatype Key = StrKey(name: string) | IntKey(index: int)

  /** An array: its keys in insertion order and the value stored under each. */
  datatype OrderedArray<V> = OrderedArray(keys: seq<Key>, values: map<Key, V>)
  {
    /** Every key occurs once, and exactly the listed keys carry a value. */
    ghost predicate Valid()
    {
      (forall i, j :: 0 <= i < j < |keys| ==> keys[i] != keys[j])
      && (forall k :: k in values <==> k in keys)
    }
  }

  function Empty<V>(): (r: OrderedArray<V>)
    ensures r.Valid() && r.keys == [] && r.values == map[]
  {
    OrderedArray([], map[])
  }

  /** `$a[$k] = $v`: an existing key keeps its position, a new key goes to the end. */
  function Put<V>(a: OrderedArray<V>, k: Key, v: V): (r: OrderedArray<V>)
    requires a.Valid()
    ensures r.Valid()
    ensures k in r.values && r.values[k] == v
    ensures forall k' :: k' != k ==> (k' in r.values <==> k' in a.values)
    ensures forall k' :: k' != k && k' in a.values ==> r.values[k'] == a.values[k']
    ensures k in a.values ==> r.keys == a.keys
    ensures k !in a.values ==> r.keys == a.keys + [k]
  {
    if k in a.values then OrderedArray(a.keys, a.values[k := v])
    else OrderedArray(a.keys + [k], a.values[k := v])
  }

  /** The key `$a[] = ...` uses: one more than the largest non-negative integer key, or 0. */
  function NextIndex(keys: seq<Key>): (n: nat)
    ensures forall i :: 0 <= i < |keys| && keys[i].IntKey? ==> keys[i].index < n
    ensures n == 0 || exists i :: 0 <= i < |keys| && keys[i] == IntKey(n - 1)
    decreases |keys|
  {
    if |keys| == 0 then 0
    else
      var rest := NextIndex(keys[..|keys| - 1]);
      var last := keys[|keys| - 1];
      var here := if last.IntKey? && last.index >= 0 then last.index + 1 else 0;
      if rest < here then here else rest
  }

  /** `$a[] = $v`. */
  function Append<V>(a: OrderedArray<V>, v: V): (r: OrderedArray<V>)
    requires a.Valid()
    ensures r.Valid()
    ensures r.keys == a.keys + [IntKey(NextIndex(a.keys))]
    ensures forall k :: k in a.values ==> k in r.values && r.values[k] == a.values[k]
  {
    var k := IntKey(NextIndex(a.keys));
    assert k !in a.keys by {
      forall i | 0 <= i < |a.keys| ensures a.keys[i] != k { }
    }
    Put(a, k, v)
  }

  /** `array_values($a)`: the values in insertion order. */
  function Values<V>(a: OrderedArray<V>): (r: seq<V>)
    requires a.Valid()
    ensures |r| == |a.keys|
    ensures forall i :: 0 <= i < |a.keys| ==> r[i] == a.values[a.keys[i]]
  {
    seq(|a.keys|, i requires 0 <= i < |a.keys| => a.values[a.keys[i]])
  }

  /** Overwriting a slot changes its value in place: the order of the values stays. */
  lemma PutExistingKeepsPosition<V>(a: OrderedArray<V>, k: Key, v: V)
    requires a.Valid() && k in a.values
    ensures |Values(Put(a, k, v))| == |Values(a)|
    ensures forall i :: 0 <= i < |a.keys| ==>
      Values(Put(a, k, v))[i] == if a.keys[i] == k then v else Values(a)[i]
  {
  }

  /** A new slot adds its value after all others. */
  lemma PutNewAppendsValue<V>(a: OrderedArray<V>, k: Key, v: V)
    requires a.Valid() && k !in a.values
    ensures Values(Put(a, k, v)) == Values(a) + [v]
  {
    var r := Put(a, k, v);
    assert forall i :: 0 <= i < |a.keys| ==> r.keys[i] == a.keys[i] && a.keys[i] != k;
  }

  /** Writing a slot twice leaves the array as if only the second write happened. */
  lemma PutTwiceLastWins<V>(a: OrderedArray<V>, k: Key, v1: V, v2: V)
    requires a.Valid()
    ensures Put(Put(a, k, v1), k, v2) == Put(a, k, v2)
  {
    if k in a.values {
      assert a.values[k := v1][k := v2] == a.values[k := v2];
    } else {
      assert a.values[k := v1][k := v2] == a.values[k := v2];
    }
  }

  /** Appending adds the value at the end and keeps every earlier value. */
  lemma AppendAddsAtEnd<V>(a: OrderedArray<V>, v: V)
    requires a.Valid()
    ensures Values(Append(a, v)) == Values(a) + [v]
  {
    var k := IntKey(NextIndex(a.keys));
    assert k !in a.keys by {
      forall i | 0 <= i < |a.keys| ensures a.keys[i] != k { }
    }
    PutNewAppendsValue(a, k, v);
  }

  /** One entry as `array_merge` takes it over: string keys are put, integer keys appended. */
  function MergeEntry<V>(acc: OrderedArray<V>, k: Key, v: V): (r: OrderedArray<V>)
    requires acc.Valid()
    ensures r.Valid()
  {
    if k.StrKey? then Put(acc, k, v) else Append(acc, v)
  }

  /** The first `n` entries of `src` merged into `acc`, in order. */
  function MergePrefix<V>(acc: OrderedArray<V>, src: OrderedArray<V>, n: nat): (r: OrderedArray<V>)
    requires acc.Valid() && src.Valid() && n <= |src.keys|
    ensures r.Valid()
    decreases n
  {
    if n == 0 then acc
    else MergeEntry(MergePrefix(acc, src, n - 1), src.keys[n - 1], src.values[src.keys[n - 1]])
  }

  /** `array_merge($a, $b)`: string keys of `b` override those of `a`; integer keys are renumbered. */
  function Merge<V>(a: OrderedArray<V>, b: OrderedArray<V>): (r: OrderedArray<V>)
    requires a.Valid() && b.Valid()
    ensures r.Valid()
  {
    MergePrefix(MergePrefix(Empty(), a, |a.keys|), b, |b.keys|)
  }

  predicate StringKeyed<V>(a: OrderedArray<V>)
  {
    forall i :: 0 <= i < |a.keys| ==> a.keys[i].StrKey?
  }

  /** The first `n` entries of `a` on their own. */
  function Prefix<V>(a: OrderedArray<V>, n: nat): (r: OrderedArray<V>)
    requires a.Valid() && n <= |a.keys|
    ensures r.Valid() && r.keys == a.keys[..n]
  {
    var p := OrderedArray(a.keys[..n], map k | k in a.values && k in a.keys[..n] :: a.values[k]);
    assert forall i, j :: 0 <= i < j < |p.keys| ==> p.keys[i] == a.keys[i] && p.keys[j] == a.keys[j];
    p
  }

  /** A prefix one longer is the shorter prefix with the next entry put. */
  lemma PrefixStep<V>(a: OrderedArray<V>, n: nat)
    requires a.Valid() && 0 < n <= |a.keys|
    ensures Prefix(a, n) == Put(Prefix(a, n - 1), a.keys[n - 1], a.values[a.keys[n - 1]])
  {
    var k := a.keys[n - 1];
    assert a.keys[..n] == a.keys[..n - 1] + [k];
    assert k !in a.keys[..n - 1] by {
      forall i | 0 <= i < n - 1 ensures a.keys[i] != k { }
    }
    assert Put(Prefix(a, n - 1), k, a.values[k]).values == Prefix(a, n).values;
  }

  /** One more string-keyed entry merged is one more entry of the prefix. */
  lemma MergeStringKeyedStep<V>(a: OrderedArray<V>, n: nat)
    requires a.Valid() && StringKeyed(a) && 0 < n <= |a.keys|
    requires MergePrefix(Empty(), a, n - 1) == Prefix(a, n - 1)
    ensures MergePrefix(Empty(), a, n) == Prefix(a, n)
  {
    var k := a.keys[n - 1];
    assert k.StrKey?;
    var e: OrderedArray<V> := Empty();
    assert MergePrefix(e, a, n) == Put(MergePrefix(e, a, n - 1), k, a.values[k]);
    PrefixStep(a, n);
  }

  /** Merging a string-keyed array into an empty one copies it unchanged. */
  lemma {:induction false} MergeStringKeyedCopies<V>(a: OrderedArray<V>, n: nat)
    requires a.Valid() && StringKeyed(a) && n <= |a.keys|
    ensures MergePrefix(Empty(), a, n) == Prefix(a, n)
    decreases n
  {
    if n == 0 {
      assert Prefix(a, 0).values == map[];
    } else {
      MergeStringKeyedCopies(a, n - 1);
      MergeStringKeyedStep(a, n);
    }
  }

  /** The whole of a string-keyed array. */
  lemma PrefixOfWhole<V>(a: OrderedArray<V>)
    requires a.Valid()
    ensures Prefix(a, |a.keys|) == a
  {
    assert a.keys[..|a.keys|] == a.keys;
  }

  /**
   * `array_merge($headers, [$name => $v])` for string-keyed headers: the new value
   * overrides any earlier one under that name, every other header is kept with its
   * value, and the name is added at the end only when it was not there.
   */
  lemma MergeOneOverrides<V>(a: OrderedArray<V>, name: string, v: V)
    requires a.Valid() && StringKeyed(a)
    ensures var b := Put(Empty(), StrKey(name), v);
      var r := Merge(a, b);
      && r.values[StrKey(name)] == v
      && (forall k :: k != StrKey(name) ==> (k in r.values <==> k in a.values))
      && (forall k :: k != StrKey(name) && k in a.values ==> r.values[k] == a.values[k])
      && r.keys == (if StrKey(name) in a.values then a.keys else a.keys + [StrKey(name)])
  {
    MergeStringKeyedCopies(a, |a.keys|);
    PrefixOfWhole(a);
    var b := Put(Empty(), StrKey(name), v);
    assert b.keys == [StrKey(name)];
    assert MergePrefix(a, b, 1) == Put(MergePrefix(a, b, 0), StrKey(name), v);
  }

  lemma UnionUpdate<K, V>(m1: map<K, V>, m2: map<K, V>, k: K, v: V)
    ensures (m1 + m2)[k := v] == m1 + m2[k := v]
  {
  }

  /** A string-keyed entry merged in is put, so it updates the map like the prefix grows. */
  lemma MergeStringKeyedValuesStep<V>(a: OrderedArray<V>, b: OrderedArray<V>, n: nat)
    requires a.Valid() && b.Valid() && StringKeyed(b) && 0 < n <= |b.keys|
    requires MergePrefix(a, b, n - 1).values == a.values + Prefix(b, n - 1).values
    ensures MergePrefix(a, b, n).values == a.values + Prefix(b, n).values
  {
    var k := b.keys[n - 1];
    assert k.StrKey?;
    var r := MergePrefix(a, b, n - 1);
    assert MergePrefix(a, b, n).values == r.values[k := b.values[k]];
    PrefixStep(b, n);
    assert Prefix(b, n).values == Prefix(b, n - 1).values[k := b.values[k]];
    UnionUpdate(a.values, Prefix(b, n - 1).values, k, b.values[k]);
  }

  /** Merging the string-keyed entries of `b` into `a`: each overrides `a`'s value, as map union does. */
  lemma {:induction false} MergeStringKeyedValues<V>(a: OrderedArray<V>, b: OrderedArray<V>, n: nat)
    requires a.Valid() && b.Valid() && StringKeyed(b) && n <= |b.keys|
    ensures MergePrefix(a, b, n).values == a.values + Prefix(b, n).values
    decreases n
  {
    if n == 0 {
      assert Prefix(b, 0).values == map[];
      assert a.values + map[] == a.values;
    } else {
      MergeStringKeyedValues(a, b, n - 1);
      MergeStringKeyedValuesStep(a, b, n);
    }
  }

  /**
   * `array_merge($a, $b)` for a string-keyed `b`: every entry of `b` overrides the entry
   * of `a` under its key, and every other entry of `a` is kept.
   */
  lemma MergeStringKeyed<V>(a: OrderedArray<V>, b: OrderedArray<V>)
    requires a.Valid() && StringKeyed(a) && b.Valid() && StringKeyed(b)
    ensures Merge(a, b).values == a.values + b.values
  {
    MergeStringKeyedCopies(a, |a.keys|);
    PrefixOfWhole(a);
    MergeStringKeyedValues(a, b, |b.keys|);
    PrefixOfWhole(b);
  }

  /** `array_merge([$name => $v], $b)` for a string-keyed `b`: `b` wins, and the name keeps `v` only if `b` lacks it. */
  lemma MergeIntoOne<V>(name: string, v: V, b: OrderedArray<V>)
    requires b.Valid()
    ensures StringKeyed(b) ==> Merge(Put(Empty(), StrKey(name), v), b).values == map[StrKey(name) := v] + b.values
  {
    if StringKeyed(b) {
      var a := Put(Empty(), StrKey(name), v);
      assert a.keys == [StrKey(name)] && a.values == map[StrKey(name) := v];
      MergeStringKeyed(a, b);
    }
  }
}
