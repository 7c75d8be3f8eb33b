/**
  An insertion-ordered dictionary with string keys, kept as a sequence of
  (key, value) pairs, as Python's `collections.OrderedDict` behaves for
  `get`, `has_key`, iteration and a one-entry `update`.
*/
module OrderedDict {
  import opened Results

  type Entries<V> = seq<(string, V)>

  /** The keys in iteration order. */
  function Keys<V>(m: Entries<V>): seq<string>
  {
    seq(|m|, i requires 0 <= i < |m| => m[i].0)
  }

  predicate Distinct(ks: seq<string>)
  {
    forall i, j :: 0 <= i < j < |ks| ==> ks[i] != ks[j]
  }

  /** Position of the first entry stored under `k`. */
  function IndexOf<V>(m: Entries<V>, k: string): (i: nat)
    requires k in Keys(m)
    ensures i < |m| && m[i].0 == k
    ensures forall j :: 0 <= j < i ==> m[j].0 != k
  {
    if m[0].0 == k then 0
    else
      assert Keys(m) == [m[0].0] + Keys(m[1..]);
      1 + IndexOf(m[1..], k)
  }

  /** `d.get(k)`: the value of the first entry under `k`, or `None`. */
  function Lookup<V>(m: Entries<V>, k: string): (r: Option<V>)
    ensures r.Some? <==> k in Keys(m)
    ensures r.Some? ==> r.value == m[IndexOf(m, k)].1
  {
    if m == [] then None
    else if m[0].0 == k then assert Keys(m)[0] == k; Some(m[0].1)
    else
      assert Keys(m) == [m[0].0] + Keys(m[1..]);
      Lookup(m[1..], k)
  }

  /** `d.update({k: v})`: overwrite the entry under `k` where it stands, or append one. */
  function Update<V>(m: Entries<V>, k: string, v: V): (r: Entries<V>)
    ensures (k, v) in r
    ensures |r| == if k in Keys(m) then |m| else |m| + 1
    ensures forall i :: 0 <= i < |m| && m[i].0 != k ==> r[i] == m[i]
  {
    if m == [] then [(k, v)]
    else if m[0].0 == k then assert Keys(m)[0] == k; [(k, v)] + m[1..]
    else
      assert Keys(m) == [m[0].0] + Keys(m[1..]);
      assert forall i :: 0 < i < |m| ==> m[i] == m[1..][i - 1];
      [m[0]] + Update(m[1..], k, v)
  }

  /** A new key is appended at the end; nothing before it moves. */
  lemma {:induction false} UpdateNew<V>(m: Entries<V>, k: string, v: V)
    requires k !in Keys(m)
    ensures Update(m, k, v) == m + [(k, v)]
  {
    if m != [] {
      assert Keys(m) == [m[0].0] + Keys(m[1..]);
      UpdateNew(m[1..], k, v);
      assert m == [m[0]] + m[1..];
    }
  }

  /** An existing key keeps its position and only its value changes. */
  lemma {:induction false} UpdateExisting<V>(m: Entries<V>, k: string, v: V)
    requires k in Keys(m)
    ensures Update(m, k, v) == m[IndexOf(m, k) := (k, v)]
  {
    assert Keys(m) == [m[0].0] + Keys(m[1..]);
    if m[0].0 != k {
      var i := IndexOf(m[1..], k);
      UpdateExisting(m[1..], k, v);
      assert IndexOf(m, k) == 1 + i;
      assert m[1 + i := (k, v)] == [m[0]] + m[1..][i := (k, v)];
    } else {
      assert m[0 := (k, v)] == [(k, v)] + m[1..];
    }
  }

  /** After the update, `k` reads back `v` and every other key reads what it read before. */
  lemma {:induction false} UpdateLookup<V>(m: Entries<V>, k: string, v: V, k': string)
    ensures Lookup(Update(m, k, v), k') == if k' == k then Some(v) else Lookup(m, k')
  {
    if m != [] && m[0].0 != k {
      UpdateLookup(m[1..], k, v, k');
    }
  }

  /** The keys after an update are the old keys plus `k`, still without duplicates. */
  lemma {:induction false} UpdateKeys<V>(m: Entries<V>, k: string, v: V)
    ensures forall k' :: k' in Keys(Update(m, k, v)) <==> k' == k || k' in Keys(m)
    ensures Distinct(Keys(m)) ==> Distinct(Keys(Update(m, k, v)))
  {
    if k in Keys(m) {
      UpdateExisting(m, k, v);
      var i := IndexOf(m, k);
      assert Keys(Update(m, k, v)) == Keys(m);
    } else {
      UpdateNew(m, k, v);
      assert Keys(Update(m, k, v)) == Keys(m) + [k];
    }
  }

  /** Appending a pair under a new key keeps the keys distinct. */
  lemma DistinctSnoc<V>(m: Entries<V>, p: (string, V))
    requires Distinct(Keys(m)) && p.0 !in Keys(m)
    ensures Distinct(Keys(m + [p]))
  {
    assert Keys(m + [p]) == Keys(m) + [p.0];
  }

  /** Without duplicate keys, copying the entries one by one into an empty dictionary
      rebuilds them in order: each copied key is new and lands at the end. */
  lemma UpdatePrefix<V>(m: Entries<V>, i: nat)
    requires Distinct(Keys(m)) && i < |m|
    ensures Update(m[..i], m[i].0, m[i].1) == m[..i + 1]
  {
    assert Keys(m)[i] == m[i].0;
    assert Keys(m[..i]) == Keys(m)[..i];
    UpdateNew(m[..i], m[i].0, m[i].1);
    assert m[..i] + [m[i]] == m[..i + 1];
  }

  /** A lookup finds a stored pair; without duplicate keys, every stored pair is what its key looks up. */
  lemma LookupMember<V>(m: Entries<V>, k: string, v: V)
    ensures Lookup(m, k) == Some(v) ==> (k, v) in m
    ensures Distinct(Keys(m)) && (k, v) in m ==> Lookup(m, k) == Some(v)
  {
    if Distinct(Keys(m)) && (k, v) in m {
      var i :| 0 <= i < |m| && m[i] == (k, v);
      DistinctLookup(m, i);
    }
  }

  /** In a dictionary without duplicate keys every entry is what its own key looks up. */
  lemma {:induction false} DistinctLookup<V>(m: Entries<V>, i: nat)
    requires Distinct(Keys(m)) && i < |m|
    ensures Lookup(m, m[i].0) == Some(m[i].1)
  {
    if i > 0 {
      assert Keys(m)[0] != Keys(m)[i];
      assert Keys(m[1..]) == Keys(m)[1..];
      DistinctLookup(m[1..], i - 1);
    }
  }
}
