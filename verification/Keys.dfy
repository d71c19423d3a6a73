/** Key encodings of the hash join and of grouping: equal bytes exactly when
    the keys are equal. */
module Keys {
  import opened Seqs
  import opened Types
  import opened ByteIO
  import opened KeyBytes
  import opened LogicalPlan
  import opened Physical
  import opened Chunks

  // ----- join keys -----

  /** ComputeJoinKey: no key at all when a key cell is NULL. */
  function JoinKey(row: Cells, ordinals: seq<nat>): Option<Bytes> {
    if NoNulls(KeyCells(row, ordinals)) then Some(EncodeCells(KeyCells(row, ordinals))) else None
  }

  method ComputeJoinKey(chunk: Chunk, ordinals: seq<nat>, row: nat) returns (key: Option<Bytes>)
    requires Valid(chunk) && row < chunk.rowCount
    requires forall o :: o in ordinals ==> o < |chunk.columns|
    ensures key == JoinKey(RowAt(chunk, row), ordinals)
  {
    var bytes: Bytes := [];
    ghost var cells := KeyCells(RowAt(chunk, row), ordinals);
    for i := 0 to |ordinals|
      invariant NoNulls(cells[..i])
      invariant bytes == EncodeCells(cells[..i])
    {
      assert ordinals[i] in ordinals;
      var cell := chunk.columns[ordinals[i]].cells[row];
      assert cells[i] == cell;
      if cell == Null {
        assert cells[i] in cells;
        return None;
      }
      assert cells[..i + 1] == cells[..i] + [cell];
      ConcatMapSnoc(cells[..i], cell, CellCode());
      bytes := bytes + EncodeCell(cell);
    }
    assert cells[..|ordinals|] == cells;
    key := Some(bytes);
  }

  predicate KeysTyped(row: Cells, ordinals: seq<nat>, types: seq<TypeId>) {
    Typed(KeyCells(row, ordinals), types)
  }

  /** Byte equality of join keys is the conjunction of the join's equalities,
      when the key types of the two sides read alike. */
  lemma JoinKeyEqualIffMatch(probe: Cells, probeKeys: seq<nat>, build: Cells, buildKeys: seq<nat>,
                             ss: seq<TypeId>, ts: seq<TypeId>)
    requires KeysTyped(probe, probeKeys, ss) && KeysTyped(build, buildKeys, ts)
    requires |ss| == |ts| && ReadAlike(ss, ts)
    ensures PhysKeysMatch(probeKeys, buildKeys, probe, build)
       <==> JoinKey(probe, probeKeys).Some? && JoinKey(probe, probeKeys) == JoinKey(build, buildKeys)
    ensures PhysKeysMatch(probeKeys, buildKeys, probe, build)
       <==> forall i :: 0 <= i < |probeKeys| ==> KeyEqual(CellAt(probe, probeKeys[i]), CellAt(build, buildKeys[i]))
  {
    var p, b := KeyCells(probe, probeKeys), KeyCells(build, buildKeys);
    assert CellsMatch(p, b) <==>
      forall i :: 0 <= i < |probeKeys| ==> KeyEqual(CellAt(probe, probeKeys[i]), CellAt(build, buildKeys[i]));
    if SameKey(p, b) { SameKeyMatches(p, b, ss, ts); }
    if CellsMatch(p, b) { MatchingCellsSameKey(p, b); }
  }

  // ----- group keys -----

  /** SerializeKeyBytes: a null flag, a type tag, then the value. */
  function GroupCell(d: Datum): Bytes {
    match d
    case Null => [1]
    case IntD(i) => [0, 0] + EncodeU32(ToU32(i))
    case FloatD(f) => [0, 1] + EncodeU32(f)
    case StrD(s) => [0, 2] + EncodeString(s)
    case BoolD(_) => []
  }

  predicate Storable(d: Datum) { !d.BoolD? }

  function GroupCode(): Datum -> Bytes { (d: Datum) => GroupCell(d) }
  function GroupKeyBytes(ds: seq<Datum>): Bytes { ConcatMap(ds, GroupCode()) }

  method SerializeGroupKey(chunk: Chunk, columns: seq<nat>, row: nat) returns (key: Bytes, values: seq<Datum>)
    requires Valid(chunk) && row < chunk.rowCount
    requires forall o :: o in columns ==> o < |chunk.columns|
    ensures values == PhysKey(columns)(RowAt(chunk, row))
    ensures key == GroupKeyBytes(values)
  {
    key, values := [], [];
    ghost var cells := PhysKey(columns)(RowAt(chunk, row));
    for i := 0 to |columns|
      invariant values == cells[..i]
      invariant key == GroupKeyBytes(cells[..i])
    {
      assert columns[i] in columns;
      var cell := chunk.columns[columns[i]].cells[row];
      assert cells[i] == cell;
      assert cells[..i + 1] == cells[..i] + [cell];
      ConcatMapSnoc(cells[..i], cell, GroupCode());
      key := key + GroupCell(cell);
      values := values + [cell];
    }
    assert cells[..|columns|] == cells;
  }

  lemma GroupCellShape(d: Datum, x: Bytes)
    requires Storable(d)
    ensures d == Null ==> (GroupCell(d) + x)[0] == 1 && (GroupCell(d) + x)[1..] == x
    ensures d != Null ==> |GroupCell(d)| >= 2 && (GroupCell(d) + x)[0] == 0
    ensures d != Null ==> (GroupCell(d) + x)[1] == (if d.IntD? then 0 else if d.FloatD? then 1 else 2)
    ensures d != Null ==> (GroupCell(d) + x)[2..] == EncodeCell(d) + x
  {
  }

  lemma GroupCellDelimits(a: Datum, b: Datum, x: Bytes, y: Bytes)
    requires Storable(a) && Storable(b)
    requires GroupCell(a) + x == GroupCell(b) + y
    ensures a == b && x == y
  {
    GroupCellShape(a, x);
    GroupCellShape(b, y);
    if a != Null {
      var ty := if a.IntD? then Integer else if a.FloatD? then Float else Varchar;
      CellDelimits(a, b, ty, ty, x, y);
    }
  }

  /** Group keys of the same width encode alike exactly when the tuples are
      equal, so all NULLs of a column fall into one group. */
  lemma {:induction false} GroupKeyInjective(a: seq<Datum>, b: seq<Datum>)
    requires |a| == |b|
    requires (forall d :: d in a ==> Storable(d)) && (forall d :: d in b ==> Storable(d))
    ensures GroupKeyBytes(a) == GroupKeyBytes(b) <==> a == b
  {
    if a != [] {
      ConcatMapHead(a, GroupCode());
      ConcatMapHead(b, GroupCode());
      assert a[0] in a && b[0] in b;
      assert (forall d :: d in a[1..] ==> d in a) && (forall d :: d in b[1..] ==> d in b);
      if GroupKeyBytes(a) == GroupKeyBytes(b) {
        GroupCellDelimits(a[0], b[0], GroupKeyBytes(a[1..]), GroupKeyBytes(b[1..]));
        GroupKeyInjective(a[1..], b[1..]);
        assert a == [a[0]] + a[1..] && b == [b[0]] + b[1..];
      }
    }
  }
}
