/** Python's `OrderedDict`: a map from keys to values together with the
    order in which keys were first inserted. Assigning to a key that is
    already present overwrites its value but keeps its position; assigning
    to a new key appends it. */
module OrderedDicts {
  import opened Wrappers

  datatype Dict<K, V> = Dict(keys: seq<K>, entries: map<K, V>)

  /** No element occurs twice. */
  ghost predicate Distinct<T>(s: seq<T>) {
    forall i, j :: 0 <= i < j < |s| ==> s[i] != s[j]
  }

  /** The set of elements of a sequence. */
  function Elements<T(!new)>(s: seq<T>): (r: set<T>)
    ensures forall x :: x in r <==> x in s
  {
    set x | x in s
  }

  /** The representation invariant: every key is listed once, and exactly
      the keys of the map are listed. */
  ghost predicate Valid<K(!new), V>(d: Dict<K, V>) {
    Distinct(d.keys) && d.entries.Keys == Elements(d.keys)
  }

  /** `OrderedDict()`. */
  function Empty<K(!new), V>(): (r: Dict<K, V>)
    ensures Valid(r)
    ensures r.keys == [] && forall k :: Get(r, k) == None
  {
    Dict([], map[])
  }

  /** `d.get(k)`. */
  function Get<K(!new), V>(d: Dict<K, V>, k: K): Option<V> {
    if k in d.entries then Some(d.entries[k]) else None
  }

  /** `d[k] = v`. */
  function Set<K(!new), V>(d: Dict<K, V>, k: K, v: V): (r: Dict<K, V>)
    ensures Get(r, k) == Some(v)
    ensures forall k' :: k' != k ==> Get(r, k') == Get(d, k')
    ensures k in d.entries ==> r.keys == d.keys
    ensures k !in d.entries ==> r.keys == d.keys + [k]
    ensures Valid(d) ==> Valid(r)
  {
    Dict(if k in d.entries then d.keys else d.keys + [k], d.entries[k := v])
  }

  /** The elements of `ks` not in `seen`, each once, in first-occurrence
      order: the keys a run of assignments appends. */
  function Fresh<K(!new)>(ks: seq<K>, seen: set<K>): (r: seq<K>)
    ensures forall k :: k in r <==> k in ks && k !in seen
    ensures Distinct(r)
    decreases |ks|
  {
    if |ks| == 0 then []
    else if ks[0] in seen then Fresh(ks[1..], seen)
    else
      var rest := Fresh(ks[1..], seen + {ks[0]});
      assert forall k :: k in ks <==> k == ks[0] || k in ks[1..];
      [ks[0]] + rest
  }

  /** Fresh keys of a repetition-free sequence nothing of which was seen
      are the sequence itself. */
  lemma {:induction false} FreshOfDistinct<K(!new)>(ks: seq<K>, seen: set<K>)
    requires Distinct(ks)
    requires forall k :: k in ks ==> k !in seen
    ensures Fresh(ks, seen) == ks
    decreases |ks|
  {
    if |ks| > 0 {
      assert Distinct(ks[1..]);
      assert forall k :: k in ks[1..] ==> k in ks && k != ks[0];
      FreshOfDistinct(ks[1..], seen + {ks[0]});
      assert ks == [ks[0]] + ks[1..];
    }
  }

  /** A run of assignments appends at most one key per assignment. */
  lemma {:induction false} FreshLength<K(!new)>(ks: seq<K>, seen: set<K>)
    ensures |Fresh(ks, seen)| <= |ks|
    decreases |ks|
  {
    if |ks| > 0 {
      FreshLength(ks[1..], seen);
      FreshLength(ks[1..], seen + {ks[0]});
    }
  }

  /** `for k in ks: d[k] = vals[k]`. */
  function SetAll<K(!new), V>(d: Dict<K, V>, ks: seq<K>, vals: map<K, V>): (r: Dict<K, V>)
    requires forall k :: k in ks ==> k in vals
    ensures forall k :: k in ks ==> Get(r, k) == Some(vals[k])
    ensures forall k :: k !in ks ==> Get(r, k) == Get(d, k)
    ensures r.keys == d.keys + Fresh(ks, d.entries.Keys)
    ensures Valid(d) ==> Valid(r)
    decreases |ks|
  {
    if |ks| == 0 then d
    else
      var d' := Set(d, ks[0], vals[ks[0]]);
      assert forall k :: k in ks <==> k == ks[0] || k in ks[1..];
      var r := SetAll(d', ks[1..], vals);
      SetStepKeys(d, ks, vals[ks[0]]);
      r
  }

  /** Assigning the first of a run of keys, then appending the fresh rest,
      appends the fresh keys of the whole run. */
  lemma SetStepKeys<K(!new), V>(d: Dict<K, V>, ks: seq<K>, v: V)
    requires |ks| > 0
    ensures var d' := Set(d, ks[0], v);
            d'.keys + Fresh(ks[1..], d'.entries.Keys) == d.keys + Fresh(ks, d.entries.Keys)
  {
    var seen := d.entries.Keys;
    assert d.entries[ks[0] := v].Keys == seen + {ks[0]};
    FreshStep(d.keys, ks, seen);
  }

  /** Unfolding `Fresh` once, behind a prefix. */
  lemma FreshStep<K(!new)>(prefix: seq<K>, ks: seq<K>, seen: set<K>)
    requires |ks| > 0
    ensures ks[0] in seen ==> prefix + Fresh(ks, seen) == prefix + Fresh(ks[1..], seen + {ks[0]})
    ensures ks[0] !in seen ==> prefix + Fresh(ks, seen) == (prefix + [ks[0]]) + Fresh(ks[1..], seen + {ks[0]})
  {
    if ks[0] in seen {
      assert seen + {ks[0]} == seen;
    } else {
      var rest := Fresh(ks[1..], seen + {ks[0]});
      assert prefix + ([ks[0]] + rest) == (prefix + [ks[0]]) + rest;
    }
  }

  /** `d.update(e)`: the values of `e` win, keys already in `d` keep their
      place, and the keys new to `d` follow in `e`'s order. */
  function Update<K(!new), V>(d: Dict<K, V>, e: Dict<K, V>): (r: Dict<K, V>)
    requires Valid(e)
    ensures forall k :: Get(r, k) == if k in e.entries then Get(e, k) else Get(d, k)
    ensures r.keys == d.keys + Fresh(e.keys, d.entries.Keys)
    ensures Valid(d) ==> Valid(r)
  {
    SetAll(d, e.keys, e.entries)
  }

  /** The keys of a list of key/value pairs. */
  function KeysOf<K, V>(items: seq<(K, V)>): (ks: seq<K>)
    ensures |ks| == |items|
    ensures forall i :: 0 <= i < |items| ==> ks[i] == items[i].0
  {
    seq(|items|, i requires 0 <= i < |items| => items[i].0)
  }

  /** `for k, v in items: d[k] = v`. */
  function SetPairs<K(!new), V>(d: Dict<K, V>, items: seq<(K, V)>): (r: Dict<K, V>)
    ensures r.keys == d.keys + Fresh(KeysOf(items), d.entries.Keys)
    ensures forall k :: k !in KeysOf(items) ==> Get(r, k) == Get(d, k)
    ensures Valid(d) ==> Valid(r)
    decreases |items|
  {
    if |items| == 0 then d
    else
      var d' := Set(d, items[0].0, items[0].1);
      var r := SetPairs(d', items[1..]);
      assert KeysOf(items)[1..] == KeysOf(items[1..]);
      assert forall k :: k in KeysOf(items) <==> k == items[0].0 || k in KeysOf(items[1..]);
      SetStepKeys(d, KeysOf(items), items[0].1);
      r
  }

  /** In a run of pair assignments, a key ends up with the value of its
      last pair. */
  lemma {:induction false} SetPairsLastWins<K(!new), V>(d: Dict<K, V>, items: seq<(K, V)>, i: nat)
    requires i < |items|
    requires forall j :: i < j < |items| ==> items[j].0 != items[i].0
    ensures Get(SetPairs(d, items), items[i].0) == Some(items[i].1)
    decreases |items|
  {
    var d' := Set(d, items[0].0, items[0].1);
    if i == 0 {
      assert items[0].0 !in KeysOf(items[1..]);
    } else {
      SetPairsLastWins(d', items[1..], i - 1);
    }
  }

  /** `OrderedDict(items)`: the keys in order of first occurrence. */
  function FromItems<K(!new), V>(items: seq<(K, V)>): (r: Dict<K, V>)
    ensures Valid(r)
    ensures r.keys == Fresh(KeysOf(items), {})
    ensures forall k :: k !in KeysOf(items) ==> Get(r, k) == None
  {
    var empty: Dict<K, V> := Empty();
    assert empty.keys == [] && empty.entries.Keys == {};
    assert forall k :: Get(empty, k) == None;
    SetPairs(empty, items)
  }

  /** Each key of `OrderedDict(items)` holds the value of its last pair. */
  lemma FromItemsLastWins<K(!new), V>(items: seq<(K, V)>, i: nat)
    requires i < |items|
    requires forall j :: i < j < |items| ==> items[j].0 != items[i].0
    ensures Get(FromItems(items), items[i].0) == Some(items[i].1)
  {
    SetPairsLastWins(Empty(), items, i);
  }

  /** `list(d.items())`: the key/value pairs in key order. */
  function Items<K(!new), V>(d: Dict<K, V>): (r: seq<(K, V)>)
    requires Valid(d)
    ensures |r| == |d.keys|
    ensures forall i :: 0 <= i < |r| ==> r[i] == (d.keys[i], d.entries[d.keys[i]])
  {
    Pairs(d.keys, d.entries)
  }

  function Pairs<K(!new), V>(ks: seq<K>, m: map<K, V>): (r: seq<(K, V)>)
    requires forall k :: k in ks ==> k in m
    ensures |r| == |ks|
    ensures forall i :: 0 <= i < |r| ==> r[i] == (ks[i], m[ks[i]])
    decreases |ks|
  {
    if |ks| == 0 then []
    else
      assert forall k :: k in ks[1..] ==> k in ks;
      [(ks[0], m[ks[0]])] + Pairs(ks[1..], m)
  }

  /** The same dictionary with every value wrapped in `Some`, so that it
      can be merged into one whose values may be `None`. */
  function Lift<K(!new), V>(d: Dict<K, V>): (r: Dict<K, Option<V>>)
    requires Valid(d)
    ensures r.keys == d.keys
    ensures r.entries.Keys == d.entries.Keys
    ensures forall k :: k in d.entries ==> r.entries[k] == Some(d.entries[k])
    ensures Valid(r)
  {
    Dict(d.keys, Wrapped(d.keys, d.entries))
  }

  function Wrapped<K(!new), V>(ks: seq<K>, m: map<K, V>): (r: map<K, Option<V>>)
    requires forall k :: k in ks ==> k in m
    ensures r.Keys == Elements(ks)
    ensures forall k :: k in r ==> r[k] == Some(m[k])
    decreases |ks|
  {
    if |ks| == 0 then map[]
    else
      assert forall k :: k in ks <==> k == ks[0] || k in ks[1..];
      Wrapped(ks[1..], m)[ks[0] := Some(m[ks[0]])]
  }

  /** A sequence without repetitions has as many distinct elements as it
      is long. */
  lemma {:induction false} DistinctCardinality<T(!new)>(s: seq<T>)
    requires Distinct(s)
    ensures |Elements(s)| == |s|
  {
    if |s| > 0 {
      assert Distinct(s[1..]);
      DistinctCardinality(s[1..]);
      assert Elements(s) == {s[0]} + Elements(s[1..]);
      assert s[0] !in Elements(s[1..]);
    }
  }

  /** A valid dictionary holds one entry per key. */
  lemma DictSize<K(!new), V>(d: Dict<K, V>)
    requires Valid(d)
    ensures |d.keys| == |d.entries|
  {
    DistinctCardinality(d.keys);
  }
}
