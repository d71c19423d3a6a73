/** The hash join: build once, then probe with a cursor that survives between
    calls when the matches of one row do not fit into a chunk. */
module HashJoin {
  import opened Seqs
  import opened Types
  import opened ByteIO
  import opened LogicalPlan
  import opened Physical
  import opened Chunks
  import opened Keys

  // ----- the hash table -----

  type HashTable = map<Bytes, seq<nat>>

  function Lookup(table: HashTable, k: Bytes): seq<nat> { if k in table then table[k] else [] }

  /** The build rows that carry a key, in order. */
  function IndicesOf(rows: seq<Cells>, keys: seq<nat>, k: Bytes): seq<nat> {
    if rows == [] then []
    else
      var before := IndicesOf(rows[..|rows| - 1], keys, k);
      if JoinKey(rows[|rows| - 1], keys) == Some(k) then before + [|rows| - 1] else before
  }

  ghost predicate Indexes(table: HashTable, rows: seq<Cells>, keys: seq<nat>) {
    forall k :: Lookup(table, k) == IndicesOf(rows, keys, k)
  }

  lemma InsertIndexes(table: HashTable, rows: seq<Cells>, keys: seq<nat>, row: Cells, k: Bytes)
    requires Indexes(table, rows, keys) && JoinKey(row, keys) == Some(k)
    ensures Indexes(table[k := Lookup(table, k) + [|rows|]], rows + [row], keys)
  {
    var table' := table[k := Lookup(table, k) + [|rows|]];
    forall x ensures Lookup(table', x) == IndicesOf(rows + [row], keys, x) {
      assert (rows + [row])[..|rows|] == rows;
      assert Lookup(table, x) == IndicesOf(rows, keys, x);
    }
  }

  lemma {:induction false} IndicesInRange(rows: seq<Cells>, keys: seq<nat>, k: Bytes)
    ensures forall j :: j in IndicesOf(rows, keys, k) ==> j < |rows|
  {
    if rows != [] { IndicesInRange(rows[..|rows| - 1], keys, k); }
  }

  function Keyed(keys: seq<nat>): Cells -> bool { (r: Cells) => JoinKey(r, keys).Some? }

  function PairWith(rows: seq<Cells>, probe: Cells): nat -> Cells {
    (j: nat) => if j < |rows| then rows[j] + probe else []
  }

  /** The output rows of one probe row and a list of build row numbers. */
  function Pairs(rows: seq<Cells>, js: seq<nat>, probe: Cells): seq<Cells> { Map(js, PairWith(rows, probe)) }

  lemma PairsSnoc(rows: seq<Cells>, row: Cells, js: seq<nat>, probe: Cells)
    requires forall j :: j in js ==> j < |rows|
    ensures Pairs(rows + [row], js, probe) == Pairs(rows, js, probe)
    ensures Pairs(rows + [row], js + [|rows|], probe) == Pairs(rows, js, probe) + [row + probe]
  {
    MapSame(js, PairWith(rows + [row], probe), PairWith(rows, probe));
    MapSnoc<nat, Cells>(js, |rows|, PairWith(rows + [row], probe));
  }

  /** Looking the probe key up finds the nested-loop matches, in build order. */
  lemma {:induction false} IndicesAreMatches(
      rows: seq<Cells>, buildKeys: seq<nat>, probe: Cells, probeKeys: seq<nat>, k: Bytes)
    requires JoinKey(probe, probeKeys) == Some(k)
    ensures Pairs(rows, IndicesOf(rows, buildKeys, k), probe)
         == Matches(probe, rows, PhysMatch(probeKeys, buildKeys), BuildThenProbe())
  {
    if rows != [] {
      var init, last := rows[..|rows| - 1], rows[|rows| - 1];
      IndicesAreMatches(init, buildKeys, probe, probeKeys, k);
      IndicesInRange(init, buildKeys, k);
      PairsSnoc(init, last, IndicesOf(init, buildKeys, k), probe);
      SplitLast(rows);
    }
  }

  lemma {:induction false} MatchesOfKeyed<A, B, C>(a: A, bs: seq<B>, m: (A, B) -> bool, f: (A, B) -> C, q: B -> bool)
    requires forall b :: b in bs && m(a, b) ==> q(b)
    ensures Matches(a, Filter(bs, q), m, f) == Matches(a, bs, m, f)
  {
    if bs != [] {
      var init, last := bs[..|bs| - 1], bs[|bs| - 1];
      assert forall b :: b in init ==> b in bs;
      MatchesOfKeyed(a, init, m, f, q);
      assert last in bs;
      if q(last) { MatchesSnoc(a, Filter(init, q), last, m, f); }
    }
  }

  lemma {:induction false} NoKeyNoMatches(probe: Cells, probeKeys: seq<nat>, rows: seq<Cells>, buildKeys: seq<nat>)
    requires JoinKey(probe, probeKeys).None?
    ensures Matches(probe, rows, PhysMatch(probeKeys, buildKeys), BuildThenProbe()) == []
  {
    if rows != [] { NoKeyNoMatches(probe, probeKeys, rows[..|rows| - 1], buildKeys); }
  }

  // ----- inputs -----

  /** What the two children deliver, chunk by chunk, and the key positions. */
  datatype Inputs = Inputs(
    build: seq<Chunk>, probe: seq<Chunk>,
    buildKeys: seq<nat>, probeKeys: seq<nat>,
    buildTypes: seq<TypeId>, probeTypes: seq<TypeId>)

  /** Chunks of the announced types; key columns exist, of whatever types. */
  ghost predicate WellTyped(ins: Inputs) {
    && ChunksTyped(ins.build, ins.buildTypes) && ChunksTyped(ins.probe, ins.probeTypes)
    && (forall o :: o in ins.buildKeys ==> o < |ins.buildTypes|)
    && (forall o :: o in ins.probeKeys ==> o < |ins.probeTypes|)
  }

  function OutTypes(ins: Inputs): seq<TypeId> { ins.buildTypes + ins.probeTypes }

  // ----- specification -----

  function MatchesOf(ins: Inputs, probe: Cells): seq<Cells>
    requires AllValid(ins.build)
  {
    Matches(probe, Stream(ins.build), PhysMatch(ins.probeKeys, ins.buildKeys), BuildThenProbe())
  }

  /** The join of a list of probe rows with the whole build side. */
  function Joined(ins: Inputs, probes: seq<Cells>): seq<Cells>
    requires AllValid(ins.build)
  {
    NestedLoop(probes, Stream(ins.build), PhysMatch(ins.probeKeys, ins.buildKeys), BuildThenProbe())
  }

  lemma JoinedHead(ins: Inputs, row: Cells, rest: seq<Cells>)
    requires AllValid(ins.build)
    ensures Joined(ins, [row] + rest) == MatchesOf(ins, row) + Joined(ins, rest)
  {
    var m := PhysMatch(ins.probeKeys, ins.buildKeys);
    NestedLoopConcat([row], rest, Stream(ins.build), m, BuildThenProbe());
    NestedLoopSnoc([], row, Stream(ins.build), m, BuildThenProbe());
    assert [] + [row] == [row];
    assert NestedLoop([], Stream(ins.build), m, BuildThenProbe()) + MatchesOf(ins, row) == MatchesOf(ins, row);
  }

  lemma JoinedConcat(ins: Inputs, a: seq<Cells>, b: seq<Cells>)
    requires AllValid(ins.build)
    ensures Joined(ins, a + b) == Joined(ins, a) + Joined(ins, b)
  {
    NestedLoopConcat(a, b, Stream(ins.build), PhysMatch(ins.probeKeys, ins.buildKeys), BuildThenProbe());
  }

  /** A probe row's matches, read off the hash table. */
  lemma TableFindsMatches(ins: Inputs, table: HashTable, rows: seq<Cells>, probe: Cells)
    requires WellTyped(ins) && AllValid(ins.build) && CellsTyped(probe, ins.probeTypes)
    requires rows == Filter(Stream(ins.build), Keyed(ins.buildKeys)) && Indexes(table, rows, ins.buildKeys)
    ensures match JoinKey(probe, ins.probeKeys)
            case None => MatchesOf(ins, probe) == []
            case Some(k) => Pairs(rows, Lookup(table, k), probe) == MatchesOf(ins, probe)
  {
    var all := Stream(ins.build);
    match JoinKey(probe, ins.probeKeys)
    case None => NoKeyNoMatches(probe, ins.probeKeys, all, ins.buildKeys);
    case Some(k) =>
      IndicesAreMatches(rows, ins.buildKeys, probe, ins.probeKeys, k);
      MatchesOfKeyed(probe, all, PhysMatch(ins.probeKeys, ins.buildKeys), BuildThenProbe(), Keyed(ins.buildKeys));
  }

  // ----- the build side -----

  /** The stored build rows, by column, and the hash table over them. */
  datatype BuildSide = BuildSide(columns: seq<Column>, count: nat, table: HashTable)

  predicate BuildShape(ins: Inputs, b: BuildSide) {
    ColumnsValid(b.columns, b.count) && ColumnsTyped(b.columns, ins.buildTypes)
  }

  function StoredRows(ins: Inputs, b: BuildSide): seq<Cells>
    requires BuildShape(ins, b)
  {
    RowsOf(b.columns, b.count)
  }

  /** Holds exactly the keyed rows of `rows`, indexed. */
  ghost predicate Holds(ins: Inputs, b: BuildSide, rows: seq<Cells>) {
    && BuildShape(ins, b)
    && StoredRows(ins, b) == Filter(rows, Keyed(ins.buildKeys))
    && Indexes(b.table, StoredRows(ins, b), ins.buildKeys)
  }

  ghost predicate Built(ins: Inputs, b: BuildSide) {
    AllValid(ins.build) && Holds(ins, b, Stream(ins.build))
  }

  method BuildRow(ins: Inputs, b: BuildSide, chunk: Chunk, i: nat, ghost before: seq<Cells>) returns (b': BuildSide)
    requires WellTyped(ins) && chunk in ins.build && Valid(chunk) && i < chunk.rowCount && Holds(ins, b, before)
    ensures Holds(ins, b', before + [RowAt(chunk, i)])
  {
    var row := RowAt(chunk, i);
    FilterSnoc(before, row, Keyed(ins.buildKeys));
    var key := ComputeJoinKey(chunk, ins.buildKeys, i);
    if key.None? {
      return b;
    }
    ChunkRowTyped(chunk, i);
    InsertIndexes(b.table, StoredRows(ins, b), ins.buildKeys, row, key.value);
    var columns := AppendRow(b.columns, b.count, ins.buildTypes, row);
    b' := BuildSide(columns, b.count + 1, b.table[key.value := Lookup(b.table, key.value) + [b.count]]);
  }

  method BuildChunk(ins: Inputs, b: BuildSide, chunk: Chunk, ghost before: seq<Cells>) returns (b': BuildSide)
    requires WellTyped(ins) && chunk in ins.build && Valid(chunk) && Holds(ins, b, before)
    ensures Holds(ins, b', before + SelectedRows(chunk))
  {
    b' := b;
    PlusEmpty(before);
    ghost var sofar := before;
    for i := 0 to chunk.rowCount
      invariant sofar == before + SelectedPrefix(chunk, i) && Holds(ins, b', sofar)
    {
      if chunk.selected[i] {
        Assoc(before, SelectedPrefix(chunk, i), [RowAt(chunk, i)]);
        b' := BuildRow(ins, b', chunk, i, sofar);
        sofar := sofar + [RowAt(chunk, i)];
      }
    }
  }

  /** Drains the build child: keyed, selected rows are copied and indexed. */
  method BuildPhase(ins: Inputs) returns (b: BuildSide)
    requires WellTyped(ins)
    ensures Built(ins, b)
  {
    b := BuildSide(EmptyColumns(ins.buildTypes), 0, map[]);
    assert RowsOf(b.columns, 0) == [];
    for c := 0 to |ins.build|
      invariant AllValid(ins.build[..c]) && Holds(ins, b, Stream(ins.build[..c]))
    {
      var chunk := ins.build[c];
      assert chunk in ins.build;
      assert ins.build[..c + 1] == ins.build[..c] + [chunk];
      StreamSnoc(ins.build[..c], chunk);
      b := BuildChunk(ins, b, chunk, Stream(ins.build[..c]));
    }
    assert ins.build[..|ins.build|] == ins.build;
  }

  // ----- the probe cursor -----

  /** The probe chunk being worked on: its row, and that row's matches from `index` on. */
  datatype Cursor = Cursor(chunk: Chunk, row: nat, matches: seq<nat>, index: nat)

  predicate CursorShape(ins: Inputs, cur: Cursor) {
    && Valid(cur.chunk) && TypesOf(cur.chunk) == ins.probeTypes && cur.row <= cur.chunk.rowCount
    && cur.index <= |cur.matches|
    && (cur.index < |cur.matches| ==> cur.row < cur.chunk.rowCount)
  }

  predicate CursorValid(ins: Inputs, count: nat, cur: Cursor) {
    CursorShape(ins, cur) && forall j :: j in cur.matches ==> j < count
  }

  /** The output rows the cursor still owes. */
  ghost function Owed(ins: Inputs, rows: seq<Cells>, cur: Cursor): seq<Cells>
    requires AllValid(ins.build) && CursorShape(ins, cur)
  {
    if cur.index < |cur.matches| then
      Pairs(rows, cur.matches[cur.index..], RowAt(cur.chunk, cur.row)) +
        Joined(ins, SelectedFrom(cur.chunk, cur.row + 1))
    else Joined(ins, SelectedFrom(cur.chunk, cur.row))
  }

  /** A row that is not selected, or has no match, owes nothing. */
  lemma OwedSkips(ins: Inputs, chunk: Chunk, row: nat)
    requires AllValid(ins.build) && Valid(chunk) && row < chunk.rowCount
    requires chunk.selected[row] ==> MatchesOf(ins, RowAt(chunk, row)) == []
    ensures Joined(ins, SelectedFrom(chunk, row)) == Joined(ins, SelectedFrom(chunk, row + 1))
  {
    if chunk.selected[row] {
      JoinedHead(ins, RowAt(chunk, row), SelectedFrom(chunk, row + 1));
      assert [] + Joined(ins, SelectedFrom(chunk, row + 1)) == Joined(ins, SelectedFrom(chunk, row + 1));
    }
  }

  /** Taking up a row's matches changes nothing that is owed. */
  lemma OwedFound(ins: Inputs, rows: seq<Cells>, cur: Cursor, matches: seq<nat>)
    requires AllValid(ins.build) && CursorShape(ins, cur) && cur.row < cur.chunk.rowCount
    requires cur.chunk.selected[cur.row] && matches != []
    requires Pairs(rows, matches, RowAt(cur.chunk, cur.row)) == MatchesOf(ins, RowAt(cur.chunk, cur.row))
    ensures Owed(ins, rows, cur.(matches := matches, index := 0)) == Joined(ins, SelectedFrom(cur.chunk, cur.row))
  {
    var probe, later := RowAt(cur.chunk, cur.row), SelectedFrom(cur.chunk, cur.row + 1);
    assert SelectedFrom(cur.chunk, cur.row) == [probe] + later;
    JoinedHead(ins, probe, later);
    WholeSlice(matches);
  }

  lemma WholeSlice<T>(s: seq<T>)
    ensures s[0..] == s
  {
  }

  /** The cursor after one match has been emitted. */
  function Advanced(cur: Cursor): Cursor {
    if cur.index + 1 < |cur.matches| then cur.(index := cur.index + 1) else Cursor(cur.chunk, cur.row + 1, [], 0)
  }

  lemma PairsHead(rows: seq<Cells>, j: nat, rest: seq<nat>, probe: Cells)
    requires j < |rows|
    ensures Pairs(rows, [j] + rest, probe) == [rows[j] + probe] + Pairs(rows, rest, probe)
  {
    MapConcat([j], rest, PairWith(rows, probe));
  }

  /** Emitting one match pays the first owed row. */
  lemma OwedEmits(ins: Inputs, rows: seq<Cells>, cur: Cursor)
    requires AllValid(ins.build) && CursorShape(ins, cur) && cur.index < |cur.matches| &&
      cur.matches[cur.index] < |rows|
    ensures CursorShape(ins, Advanced(cur))
    ensures Owed(ins, rows, cur)
         == [rows[cur.matches[cur.index]] + RowAt(cur.chunk, cur.row)] + Owed(ins, rows, Advanced(cur))
  {
    var probe, j, rest := RowAt(cur.chunk, cur.row), cur.matches[cur.index], cur.matches[cur.index + 1..];
    var later := Joined(ins, SelectedFrom(cur.chunk, cur.row + 1));
    assert cur.matches[cur.index..] == [j] + rest;
    PairsHead(rows, j, rest, probe);
    Assoc([rows[j] + probe], Pairs(rows, rest, probe), later);
    AdvancedOwes(ins, rows, cur);
  }

  lemma AdvancedOwes(ins: Inputs, rows: seq<Cells>, cur: Cursor)
    requires AllValid(ins.build) && CursorShape(ins, cur) && cur.index < |cur.matches|
    ensures CursorShape(ins, Advanced(cur))
    ensures Owed(ins, rows, Advanced(cur)) ==
      Pairs(rows, cur.matches[cur.index + 1..], RowAt(cur.chunk, cur.row)) +
        Joined(ins, SelectedFrom(cur.chunk, cur.row + 1))
  {
    if cur.index + 1 == |cur.matches| {
      assert cur.matches[cur.index + 1..] == [];
      PlusEmpty(Joined(ins, SelectedFrom(cur.chunk, cur.row + 1)));
    }
  }

  /** Looks at one probe row; what is owed stays the same. */
  method LookUpRow(ins: Inputs, b: BuildSide, cur: Cursor) returns (cur': Cursor)
    requires WellTyped(ins) && Built(ins, b) && CursorValid(ins, b.count, cur)
    requires cur.row < cur.chunk.rowCount && cur.index == |cur.matches|
    ensures CursorValid(ins, b.count, cur') && cur'.chunk == cur.chunk
    ensures Owed(ins, StoredRows(ins, b), cur') == Owed(ins, StoredRows(ins, b), cur)
    ensures cur'.row == if cur'.index < |cur'.matches| then cur.row else cur.row + 1
  {
    var chunk, row := cur.chunk, cur.row;
    ghost var rows := StoredRows(ins, b);
    if !chunk.selected[row] {
      OwedSkips(ins, chunk, row);
      return cur.(row := row + 1);
    }
    ChunkRowTyped(chunk, row);
    TableFindsMatches(ins, b.table, rows, RowAt(chunk, row));
    var key := ComputeJoinKey(chunk, ins.probeKeys, row);
    if key.None? {
      OwedSkips(ins, chunk, row);
      return cur.(row := row + 1);
    }
    IndicesInRange(rows, ins.buildKeys, key.value);
    var matches := Lookup(b.table, key.value);
    if matches == [] {
      OwedSkips(ins, chunk, row);
      cur' := Cursor(chunk, row + 1, [], 0);
    } else {
      OwedFound(ins, rows, cur, matches);
      cur' := Cursor(chunk, row, matches, 0);
    }
  }

  /** Moves the cursor past probe rows without matches. */
  method SkipToMatch(ins: Inputs, b: BuildSide, cur: Cursor) returns (cur': Cursor)
    requires WellTyped(ins) && Built(ins, b) && CursorValid(ins, b.count, cur)
    ensures CursorValid(ins, b.count, cur') && cur'.chunk == cur.chunk
    ensures Owed(ins, StoredRows(ins, b), cur') == Owed(ins, StoredRows(ins, b), cur)
    ensures cur'.index < |cur'.matches| || cur'.row == cur.chunk.rowCount
  {
    cur' := cur;
    while cur'.row < cur'.chunk.rowCount && cur'.index >= |cur'.matches|
      invariant CursorValid(ins, b.count, cur') && cur'.chunk == cur.chunk
      invariant Owed(ins, StoredRows(ins, b), cur') == Owed(ins, StoredRows(ins, b), cur)
      decreases cur'.chunk.rowCount - cur'.row, cur'.index >= |cur'.matches|
    {
      cur' := LookUpRow(ins, b, cur');
    }
  }

  /** Takes the current match off the cursor: one output row, build cells first. */
  method TakeMatch(ins: Inputs, b: BuildSide, cur: Cursor) returns (row: Cells, cur': Cursor)
    requires WellTyped(ins) && Built(ins, b) && CursorValid(ins, b.count, cur) && cur.index < |cur.matches|
    ensures CursorValid(ins, b.count, cur') && cur'.chunk == cur.chunk
    ensures CellsTyped(row, OutTypes(ins))
    ensures Owed(ins, StoredRows(ins, b), cur) == [row] + Owed(ins, StoredRows(ins, b), cur')
  {
    var j := cur.matches[cur.index];
    assert j in cur.matches;
    var buildRow := RowOf(b.columns, b.count, j);
    assert StoredRows(ins, b)[j] == buildRow;
    ChunkRowTyped(cur.chunk, cur.row);
    OwedEmits(ins, StoredRows(ins, b), cur);
    row, cur' := buildRow + RowAt(cur.chunk, cur.row), Advanced(cur);
  }

  ghost function OwedBy(ins: Inputs, rows: seq<Cells>, cur: Option<Cursor>): seq<Cells>
    requires AllValid(ins.build) && (cur.Some? ==> CursorShape(ins, cur.value))
  {
    if cur.None? then [] else Owed(ins, rows, cur.value)
  }

  /** Fills one output chunk from the current probe chunk. */
  method FillChunk(ins: Inputs, b: BuildSide, cur: Cursor)
      returns (out: seq<Column>, emitted: nat, cur': Option<Cursor>)
    requires WellTyped(ins) && Built(ins, b) && CursorValid(ins, b.count, cur)
    ensures emitted <= VECTOR_SIZE && ColumnsValid(out, emitted) && ColumnsTyped(out, OutTypes(ins))
    ensures cur'.Some? <==> emitted == VECTOR_SIZE
    ensures cur'.Some? ==> CursorValid(ins, b.count, cur'.value)
    ensures Owed(ins, StoredRows(ins, b), cur) == RowsOf(out, emitted) + OwedBy(ins, StoredRows(ins, b), cur')
  {
    var types := OutTypes(ins);
    out, emitted := EmptyColumns(types), 0;
    assert RowsOf(out, 0) == [];
    var at := cur;
    ghost var rows := StoredRows(ins, b);
    while emitted < VECTOR_SIZE
      invariant emitted <= VECTOR_SIZE && CursorValid(ins, b.count, at)
      invariant ColumnsValid(out, emitted) && ColumnsTyped(out, types)
      invariant Owed(ins, rows, cur) == RowsOf(out, emitted) + Owed(ins, rows, at)
    {
      at := SkipToMatch(ins, b, at);
      if at.index >= |at.matches| {
        assert SelectedFrom(at.chunk, at.row) == [];
        return out, emitted, None;
      }
      ghost var before := RowsOf(out, emitted);
      var row;
      row, at := TakeMatch(ins, b, at);
      out := AppendRow(out, emitted, types, row);
      emitted := emitted + 1;
      Assoc(before, [row], Owed(ins, rows, at));
    }
    cur' := Some(at);
  }

  // ----- the operator -----

  /** What the probe chunks from `n` on owe, split at the first of them. */
  lemma ProbeChunkOwes(ins: Inputs, n: nat)
    requires WellTyped(ins) && AllValid(ins.build) && n < |ins.probe|
    ensures Valid(ins.probe[n]) && TypesOf(ins.probe[n]) == ins.probeTypes
    ensures AllValid(ins.probe[n..]) && AllValid(ins.probe[n + 1..])
    ensures Joined(ins, Stream(ins.probe[n..]))
         == Joined(ins, SelectedFrom(ins.probe[n], 0)) + Joined(ins, Stream(ins.probe[n + 1..]))
  {
    var chunk, rest := ins.probe[n], ins.probe[n..];
    assert chunk in ins.probe && chunk == rest[0] && rest[1..] == ins.probe[n + 1..];
    StreamHead(rest);
    PrefixAndRest(chunk, 0);
    PlusEmpty(SelectedFrom(chunk, 0));
    JoinedConcat(ins, SelectedRows(chunk), Stream(rest[1..]));
  }

  /** What the operator hands over: chunks of the joined columns, nothing filtered out. */
  predicate JoinChunk(ins: Inputs, c: Chunk) {
    Valid(c) && TypesOf(c) == OutTypes(ins) && |SelectedRows(c)| == c.rowCount
  }

  class HashJoinOperator {
    const ins: Inputs
    var built: bool
    var store: BuildSide
    var probesTaken: nat
    var current: Option<Cursor>

    ghost predicate Consistent()
      reads this
    {
      && WellTyped(ins)
      && probesTaken <= |ins.probe|
      && (built ==> Built(ins, store) && (current.Some? ==> CursorValid(ins, store.count, current.value)))
      && (!built ==> current.None? && probesTaken == 0)
    }

    /** Everything this operator has still to deliver. */
    ghost function Remaining(): seq<Cells>
      requires Consistent()
      reads this
    {
      if built then OwedBy(ins, StoredRows(ins, store), current) + Joined(ins, Stream(ins.probe[probesTaken..]))
      else Joined(ins, Stream(ins.probe))
    }

    /** Probe chunks not yet finished. */
    function ChunksLeft(): nat
      requires probesTaken <= |ins.probe|
      reads this
    {
      |ins.probe| - probesTaken + (if current.Some? then 1 else 0)
    }

    constructor (inputs: Inputs)
      requires WellTyped(inputs)
      ensures Consistent() && ins == inputs && ChunksLeft() == |inputs.probe|
      ensures Remaining() == Joined(inputs, Stream(inputs.probe))
    {
      ins, built, store, probesTaken, current := inputs, false, BuildSide([], 0, map[]), 0, None;
    }

    /** Starts the next probe chunk when none is being worked on. */
    method TakeProbeChunk()
      requires built && Consistent()
      modifies `probesTaken, `current
      ensures Consistent() && Remaining() == old(Remaining()) && ChunksLeft() == old(ChunksLeft())
      ensures current.None? ==> Remaining() == [] && ChunksLeft() == 0
    {
      if current.Some? {
        return;
      }
      if probesTaken == |ins.probe| {
        assert ins.probe[probesTaken..] == [];
        return;
      }
      ProbeChunkOwes(ins, probesTaken);
      current, probesTaken := Some(Cursor(ins.probe[probesTaken], 0, [], 0)), probesTaken + 1;
    }

    method EnsureBuilt()
      requires Consistent()
      modifies `built, `store
      ensures Consistent() && built && Remaining() == old(Remaining()) && ChunksLeft() == old(ChunksLeft())
    {
      if !built {
        store := BuildPhase(ins);
        built := true;
        assert ins.probe[0..] == ins.probe;
        PlusEmpty(Joined(ins, Stream(ins.probe)));
      }
    }

    /** Works on the current probe chunk until the output is full or the chunk is done. */
    method ProbeCurrent() returns (chunk: Chunk)
      requires Consistent() && built && current.Some?
      modifies `current
      ensures Consistent() && JoinChunk(ins, chunk) && old(Remaining()) == SelectedRows(chunk) + Remaining()
      ensures chunk.rowCount <= VECTOR_SIZE && (current.Some? <==> chunk.rowCount == VECTOR_SIZE)
    {
      ghost var later := Joined(ins, Stream(ins.probe[probesTaken..]));
      var out, emitted, next := FillChunk(ins, store, current.value);
      AllSelectedRows(out, emitted);
      TypedColumns(out, emitted, OutTypes(ins));
      Assoc(RowsOf(out, emitted), OwedBy(ins, StoredRows(ins, store), next), later);
      current := next;
      chunk := AllSelected(out, emitted);
    }

    /** One pull. The chunk holds the next rows owed, at most 1024; a smaller one
        finishes its probe chunk; no chunk means that nothing was owed; and
        pulling cannot go on for ever. */
    method GetNext() returns (r: Option<Chunk>)
      requires Consistent()
      modifies this
      ensures Consistent() && built
      ensures r.None? <==> old(ChunksLeft()) == 0
      ensures r.None? ==> old(Remaining()) == [] && Remaining() == []
      ensures r.Some? ==> JoinChunk(ins, r.value) && old(Remaining()) == SelectedRows(r.value) + Remaining()
      ensures r.Some? && r.value.rowCount < VECTOR_SIZE ==> ChunksLeft() == old(ChunksLeft()) - 1
      ensures r.Some? && r.value.rowCount >= VECTOR_SIZE ==>
        r.value.rowCount == VECTOR_SIZE && ChunksLeft() == old(ChunksLeft())
      ensures r.Some? ==> ChunksLeft() < old(ChunksLeft())
                          || (ChunksLeft() == old(ChunksLeft()) && |Remaining()| < |old(Remaining())|)
    {
      ghost var before, chunks := Remaining(), ChunksLeft();
      EnsureBuilt();
      TakeProbeChunk();
      assert Remaining() == before && ChunksLeft() == chunks;
      if current.None? {
        return None;
      }
      var chunk := ProbeCurrent();
      assert before == SelectedRows(chunk) + Remaining();
      assert |before| == |SelectedRows(chunk)| + |Remaining()|;
      r := Some(chunk);
    }

    /** Pulling until the end: the chunks together are everything owed, and
        there is a chunk exactly when there is a probe chunk. */
    method Drain() returns (chunks: seq<Chunk>)
      requires Consistent()
      modifies this
      ensures forall c :: c in chunks ==> JoinChunk(ins, c)
      ensures AllValid(chunks) && Stream(chunks) == old(Remaining())
      ensures chunks != [] <==> old(ChunksLeft()) > 0
    {
      chunks := [];
      ghost var all, left := Remaining(), Remaining();
      PlusEmpty(all);
      var more := true;
      while more
        invariant Consistent() && left == Remaining() && (!more ==> left == [])
        invariant forall c :: c in chunks ==> JoinChunk(ins, c)
        invariant AllValid(chunks) && all == Stream(chunks) + left
        invariant chunks == [] && more ==> ChunksLeft() == old(ChunksLeft())
        invariant chunks == [] && !more ==> old(ChunksLeft()) == 0
        invariant chunks != [] ==> old(ChunksLeft()) > 0
        decreases more, ChunksLeft(), |left|
      {
        var r := GetNext();
        left := Remaining();
        if r.Some? {
          Assoc(Stream(chunks), SelectedRows(r.value), left);
          StreamSnoc(chunks, r.value);
          chunks := chunks + [r.value];
        } else {
          more := false;
        }
      }
      PlusEmpty(Stream(chunks));
    }
  }

  /** A fresh hash join, drained, is the nested-loop join of its two inputs. */
  method RunHashJoin(ins: Inputs) returns (chunks: seq<Chunk>)
    requires WellTyped(ins)
    ensures AllValid(ins.build) && AllValid(ins.probe)
    ensures ChunksTyped(chunks, OutTypes(ins)) && AllFull(chunks) && (chunks != [] <==> ins.probe != [])
    ensures AllValid(chunks) && Stream(chunks)
         == NestedLoop(Stream(ins.probe), Stream(ins.build), PhysMatch(ins.probeKeys, ins.buildKeys), BuildThenProbe())
  {
    var op := new HashJoinOperator(ins);
    chunks := op.Drain();
  }
}
