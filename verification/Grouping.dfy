/** Grouping as a function of a row sequence: the keys in order of first
    appearance, and for each key the aggregates of exactly its rows. The
    logical semantics and the physical operator both instantiate it. */
module Grouping {
  import opened Seqs
  import opened Types
  import opened Aggregates

  type Key = seq<Datum>

  datatype AggSpec = AggSpec(fn: AggFn, ty: TypeId)

  function WithKey<R>(key: R -> Key, k: Key): R -> bool { (r: R) => key(r) == k }
  function ArgAt<R>(arg: (R, nat) -> Datum, i: nat): R -> Datum { (r: R) => arg(r, i) }

  /** Without GROUP BY there is one group, present even for no rows at all. */
  function GroupKeys<R>(rows: seq<R>, key: R -> Key, global: bool): seq<Key> {
    if global then [[]] else Distinct(Map(rows, key))
  }

  function Members<R>(rows: seq<R>, key: R -> Key, global: bool, k: Key): seq<R> {
    if global then rows else Filter(rows, WithKey(key, k))
  }

  /** One output row: the key cells, then one cell per aggregate. */
  function GroupCells<R>(fpu: FloatUnit, specs: seq<AggSpec>, arg: (R, nat) -> Datum, members: seq<R>,
                         k: Key): seq<Datum> {
    k + seq(|specs|, i requires 0 <= i < |specs| =>
      Summarize(fpu, specs[i].fn, specs[i].ty, Map(members, ArgAt(arg, i))))
  }

  function CellsFor<R>(fpu: FloatUnit, specs: seq<AggSpec>, key: R -> Key, arg: (R, nat) -> Datum, global: bool,
                       rows: seq<R>)
    : Key -> seq<Datum>
  {
    (k: Key) => GroupCells(fpu, specs, arg, Members(rows, key, global, k), k)
  }

  function GroupFold<R>(fpu: FloatUnit, specs: seq<AggSpec>, key: R -> Key, arg: (R, nat) -> Datum, global: bool,
                        rows: seq<R>)
    : seq<seq<Datum>>
  {
    Map(GroupKeys(rows, key, global), CellsFor(fpu, specs, key, arg, global, rows))
  }

  lemma {:induction false} FilterKeepsMembers<R>(rows: seq<R>, key: R -> Key, k: Key, p: R -> bool, pk: Key -> bool)
    requires forall r :: r in rows ==> p(r) == pk(key(r))
    requires pk(k)
    ensures Members(Filter(rows, p), key, false, k) == Members(rows, key, false, k)
  {
    FilterTwice(rows, p, WithKey(key, k), WithKey(key, k));
  }

  /** Filtering on the group key commutes with grouping. */
  lemma FilterCommutesWithGrouping<R>(
      fpu: FloatUnit, specs: seq<AggSpec>, key: R -> Key, arg: (R, nat) -> Datum, rows: seq<R>,
      p: R -> bool, pk: Key -> bool, q: seq<Datum> -> bool)
    requires forall r :: r in rows ==> p(r) == pk(key(r))
    requires forall r, rest: seq<Datum> :: r in rows ==> q(key(r) + rest) == pk(key(r))
    ensures GroupFold(fpu, specs, key, arg, false, Filter(rows, p))
         == Filter(GroupFold(fpu, specs, key, arg, false, rows), q)
  {
    var keys := GroupKeys(rows, key, false);
    var out := CellsFor(fpu, specs, key, arg, false, rows);
    var out' := CellsFor(fpu, specs, key, arg, false, Filter(rows, p));
    FilterMap(rows, key, p, pk);
    FilterDistinct(Map(rows, key), pk);
    var kept := GroupKeys(Filter(rows, p), key, false);
    assert kept == Filter(keys, pk);
    forall k | k in keys ensures q(out(k)) == pk(k) {
      DistinctMember(Map(rows, key), k);
    }
    FilterMap(keys, out, pk, q);
    forall i | 0 <= i < |kept| ensures out'(kept[i]) == out(kept[i]) {
      FilterMember(keys, pk, kept[i]);
      FilterKeepsMembers(rows, key, kept[i], p, pk);
    }
    assert Map(kept, out') == Map(kept, out);
  }

  lemma {:induction false} MembersOfImage<R, S>(
      rows: seq<R>, key: R -> Key, g: R -> S, key': S -> Key, k: Key)
    requires forall r :: r in rows ==> key'(g(r)) == key(r)
    ensures Filter(Map(rows, g), WithKey(key', k)) == Map(Filter(rows, WithKey(key, k)), g)
  {
    FilterMap(rows, g, WithKey(key, k), WithKey(key', k));
  }

  lemma FilterSubset<R>(rows: seq<R>, p: R -> bool)
    ensures forall r :: r in Filter(rows, p) ==> r in rows
  {
    forall r | r in Filter(rows, p) ensures r in rows { FilterMember(rows, p, r); }
  }

  /** Grouping the images of rows is grouping the rows, when keys and arguments agree. */
  lemma GroupFoldOfImage<R, S>(
      fpu: FloatUnit, specs: seq<AggSpec>, key: R -> Key, arg: (R, nat) -> Datum, global: bool, rows: seq<R>,
      g: R -> S, key': S -> Key, arg': (S, nat) -> Datum)
    requires forall r :: r in rows ==> key'(g(r)) == key(r)
    requires forall r, i: nat :: r in rows && i < |specs| ==> arg'(g(r), i) == arg(r, i)
    ensures GroupFold(fpu, specs, key', arg', global, Map(rows, g)) == GroupFold(fpu, specs, key, arg, global, rows)
  {
    assert Map(Map(rows, g), key') == Map(rows, key);
    var keys := GroupKeys(rows, key, global);
    forall k | k in keys
      ensures CellsFor(fpu, specs, key', arg', global, Map(rows, g))(k) ==
        CellsFor(fpu, specs, key, arg, global, rows)(k)
    {
      var members := Members(rows, key, global, k);
      MembersOfImage(rows, key, g, key', k);
      assert Members(Map(rows, g), key', global, k) == Map(members, g);
      FilterSubset(rows, WithKey(key, k));
      forall i: nat | i < |specs|
        ensures Map(Map(members, g), ArgAt(arg', i)) == Map(members, ArgAt(arg, i))
      {
      }
    }
  }
}
