/**
 * A string-keyed map that keeps its keys in ascending order, as the
 * `btree.Map[string, V]` of the simulator does. Go compares strings byte by
 * byte in their UTF-8 encoding, which orders them as their sequences of code
 * points; `Less` is that lexicographic order on `seq<char>`.
 */
module OrderedMaps {
  import opened Wrappers

  /** Lexicographic order on strings: a proper prefix comes first. */
  predicate Less(a: string, b: string) {
    if |a| == 0 then |b| > 0
    else if |b| == 0 then false
    else if a[0] != b[0] then a[0] < b[0]
    else Less(a[1..], b[1..])
  }

  lemma {:induction false} LessTransitive(a: string, b: string, c: string)
    requires Less(a, b) && Less(b, c)
    ensures Less(a, c)
  {
    if |a| > 0 && a[0] == b[0] && b[0] == c[0] {
      LessTransitive(a[1..], b[1..], c[1..]);
    }
  }

  lemma {:induction false} LessTotal(a: string, b: string)
    requires a != b
    ensures Less(a, b) || Less(b, a)
  {
    if |a| > 0 && |b| > 0 && a[0] == b[0] {
      assert a == [a[0]] + a[1..] && b == [b[0]] + b[1..];
      LessTotal(a[1..], b[1..]);
    }
  }

  /** Each key is below the next one. */
  predicate Sorted(keys: seq<string>) {
    |keys| < 2 || (Less(keys[0], keys[1]) && Sorted(keys[1..]))
  }

  /** A sorted sequence is strictly ascending throughout, hence free of duplicates. */
  lemma {:induction false} SortedStrict(keys: seq<string>, i: nat, j: nat)
    requires Sorted(keys) && i < j < |keys|
    ensures Less(keys[i], keys[j])
    decreases j
  {
    if i == 0 && j == 1 {
    } else if i > 0 {
      SortedStrict(keys[1..], i - 1, j - 1);
    } else {
      SortedStrict(keys, 0, j - 1);
      SortedStrict(keys[1..], j - 2, j - 1);
      LessTransitive(keys[0], keys[j - 1], keys[j]);
    }
  }

  /** Puts `k` at its place in the ascending `keys`; a key already there is not repeated. */
  function InsertKey(keys: seq<string>, k: string): (r: seq<string>)
    requires Sorted(keys)
    ensures Sorted(r)
    ensures forall x :: x in r <==> x in keys || x == k
    ensures |r| > 0 && (r[0] == k || (keys != [] && r[0] == keys[0]))
  {
    if keys == [] then [k]
    else if keys[0] == k then keys
    else if Less(k, keys[0]) then
      assert ([k] + keys)[1..] == keys;
      [k] + keys
    else
      LessTotal(k, keys[0]);
      var rest := InsertKey(keys[1..], k);
      assert ([keys[0]] + rest)[1..] == rest;
      assert keys == [keys[0]] + keys[1..];
      [keys[0]] + rest
  }

  datatype OrderedMap<V> = OrderedMap(keys: seq<string>, entries: map<string, V>) {

    /** The keys are ascending and are exactly the keys of the entries. */
    ghost predicate Valid() {
      Sorted(keys) && forall k :: k in entries <==> k in keys
    }

    function Len(): nat {
      |keys|
    }

    /** `btree.Map.Get`. */
    function Get(k: string): (r: Option<V>)
      ensures r.Some? <==> k in entries
      ensures r.Some? ==> r.value == entries[k]
    {
      if k in entries then Some(entries[k]) else None
    }

    /** `btree.Map.Set`: insert or replace, keeping the keys ordered. */
    function Set(k: string, v: V): (r: OrderedMap<V>)
      requires Valid()
      ensures r.Valid()
      ensures r.entries == entries[k := v]
      ensures k in entries ==> r.keys == keys
    {
      if k in entries then OrderedMap(keys, entries[k := v])
      else OrderedMap(InsertKey(keys, k), entries[k := v])
    }

    /** Writes a new value under a key already present, as a write through a stored reference does. */
    function Replace(k: string, v: V): (r: OrderedMap<V>)
      requires Valid() && k in entries
      ensures r.Valid() && r.keys == keys
    {
      OrderedMap(keys, entries[k := v])
    }
  }

  function Empty<V>(): (m: OrderedMap<V>)
    ensures m.Valid() && m.entries == map[] && m.keys == []
  {
    OrderedMap([], map[])
  }
}
