/** The whole engine: an operator tree, run by the operators' own machines over
    stored tables and one buffer pool, hands over what Run says or throws. */
module Engine {
  import opened Seqs
  import opened Types
  import opened Expressions
  import opened Typing
  import opened LogicalPlan
  import opened Physical
  import opened ZoneMaps
  import opened Footer
  import opened Chunks
  import opened Evaluator
  import opened Layout
  import opened BufferPool
  import opened ScanPins
  import opened SeqScan
  import Aggregation
  import HashJoin

  // ----- the stored database -----

  datatype StoredTable = StoredTable(types: seq<TypeId>, groups: seq<RowGroup>)

  /** The catalog's tables, and the floating-point unit the operators use. */
  datatype Database = Database(tables: map<nat, StoredTable>, fpu: FloatUnit)

  /** What the pages hold, table by table. */
  type Sources = map<nat, Source>

  ghost predicate TableHeld(table: StoredTable, s: Source, pages: Pages, end: nat) {
    s.pages == pages && s.end == end && Sourced(s, table.groups, table.types)
  }

  ghost predicate Stored(db: Database, sources: Sources, pages: Pages, end: nat) {
    forall t :: t in db.tables ==> t in sources && TableHeld(db.tables[t], sources[t], pages, end)
  }

  ghost function TableOf(table: StoredTable, s: Source): Table
    requires |s.contents| == |table.groups|
  {
    Table(table.types, TableView(table.groups, s.contents))
  }

  /** The database as the reference semantics sees it. */
  ghost function WorldOf(db: Database, sources: Sources, pages: Pages, end: nat): World
    requires Stored(db, sources, pages, end)
  {
    World(map t | t in db.tables :: TableOf(db.tables[t], sources[t]), db.fpu)
  }

  ghost predicate Quiet(pool: BufferPoolManager, pages: Pages, end: nat)
    reads pool, pool.replacer, pool.disk
  {
    Ready(pool.State(), pages, 1, end, multiset{}, map[]) && pool.unsaved == {}
  }

  // ----- well-typed operator trees -----

  predicate KeysIn(keys: seq<nat>, types: seq<TypeId>) { forall o :: o in keys ==> o < |types| }

  predicate Typed(e: Expr, types: seq<TypeId>) { Fits(e, types) && BoundType(e).Some? }

  /** The column types of the chunks an operator hands over; None when it is not well-typed. */
  function OpTypes(db: Database, op: Op): Option<seq<TypeId>> {
    match op
    case SeqScan(t, ordinals, _) =>
      if t in db.tables && OrdinalsIn(ordinals, |db.tables[t].types|)
      then Some(ScanTypes(db.tables[t].types, ordinals)) else None
    case FilterOp(c, e) =>
      var types :- OpTypes(db, c);
      if Fits(e, types) && IsPredicate(e) then Some(types) else None
    case HashJoinOp(b, p, bk, pk, announced) =>
      var build :- OpTypes(db, b);
      var probe :- OpTypes(db, p);
      if announced == build && KeysIn(bk, build) && KeysIn(pk, probe)
      then Some(build + probe) else None
    case AggregateOp(c, columns, groupTypes, specs) =>
      var types :- OpTypes(db, c);
      var cfg := Aggregation.Config(db.fpu, columns, groupTypes, specs, types);
      if Aggregation.WellTyped(cfg) then Some(Aggregation.OutTypes(cfg)) else None
    case ProjectOp(c, es) =>
      var types :- OpTypes(db, c);
      if forall e :: e in es ==> Typed(e, types) then Some(ItemTypes(es)) else None
  }

  /** Every row group the scans visit has the validity bits of its VARCHAR
      columns on the one bitmap page that a VARCHAR scan fetches. */
  predicate Legible(db: Database, op: Op) {
    match op
    case SeqScan(t, ordinals, skip) =>
      t in db.tables && OrdinalsIn(ordinals, |db.tables[t].types|) && GroupsLegible(db.tables[t], ordinals, skip)
    case FilterOp(c, _) => Legible(db, c)
    case HashJoinOp(b, p, _, _, _) => Legible(db, b) && Legible(db, p)
    case AggregateOp(c, _, _, _) => Legible(db, c)
    case ProjectOp(c, _) => Legible(db, c)
  }

  predicate GroupsLegible(table: StoredTable, ordinals: seq<nat>, skip: Option<Skip>)
    requires OrdinalsIn(ordinals, |table.types|)
  {
    forall k :: 0 <= k < |table.groups| && SkipTest(table.groups[k], skip).Some? ==>
      GroupFine(table.groups[k], table.types, ordinals, skip)
  }

  /** The chunks are of these types and stand for this output. */
  ghost predicate Carries(chunks: seq<Chunk>, types: seq<TypeId>, out: Output) {
    && ChunksTyped(chunks, types) && AllValid(chunks) && Stream(chunks) == out.rows
    && (chunks != [] <==> out.chunks) && (AnyRows(chunks) <==> out.filled)
  }

  // ----- scans -----

  lemma {:induction false} ScanDefined(groups: seq<StoredGroup>, ordinals: seq<nat>, skip: Option<Skip>)
    ensures ScanGroups(groups, ordinals, skip).Some? <==>
      forall k :: 0 <= k < |groups| ==> SkipsGroup(groups[k], skip).Some?
  {
    if groups != [] {
      var init := groups[..|groups| - 1];
      ScanDefined(init, ordinals, skip);
      assert forall k :: 0 <= k < |init| ==> groups[k] == init[k];
    }
  }

  /** Row groups are never empty, so a scan that visits one delivers rows. */
  lemma {:induction false} ScanFlags(groups: seq<StoredGroup>, ordinals: seq<nat>, skip: Option<Skip>)
    requires ScanGroups(groups, ordinals, skip).Some? && forall g :: g in groups ==> g.rows != []
    ensures ScanChunks(groups, skip) <==> ScanGroups(groups, ordinals, skip).value != []
    ensures ScanFills(groups, skip) <==> ScanGroups(groups, ordinals, skip).value != []
  {
    if groups != [] {
      var init, last := groups[..|groups| - 1], groups[|groups| - 1];
      ScanFlags(init, ordinals, skip);
      SplitLast(groups);
      assert last in groups;
      assert ScanChunks(groups, skip) <==> ScanChunks(init, skip) || Visited(last, skip) by {
        if g :| g in init && Visited(g, skip) { assert g in groups; }
      }
      assert ScanFills(groups, skip) <==> ScanFills(init, skip) || Visited(last, skip) by {
        if g :| g in init && Visited(g, skip) && g.rows != [] { assert g in groups; }
      }
      assert |Map(last.rows, Pick(ordinals))| > 0;
    }
  }

  lemma ViewNeverEmpty(table: StoredTable, s: Source)
    requires Sourced(s, table.groups, table.types)
    ensures forall g :: g in TableView(table.groups, s.contents) ==> g.rows != []
  {
    forall g | g in TableView(table.groups, s.contents) ensures g.rows != [] {
      var k :| 0 <= k < |table.groups| && TableView(table.groups, s.contents)[k] == g;
      ViewRows(s, table.groups, table.types, k);
    }
  }

  /** A scan reaches its end exactly when no test throws and every group visited is legible. */
  lemma FineIff(table: StoredTable, s: Source, ordinals: seq<nat>, skip: Option<Skip>)
    requires Sourced(s, table.groups, table.types) && OrdinalsIn(ordinals, |table.types|)
    ensures FineBetween(table.groups, table.types, ordinals, skip, 0, |table.groups|) <==>
      ScanGroups(TableView(table.groups, s.contents), ordinals, skip).Some? && GroupsLegible(table, ordinals, skip)
  {
    var view := TableView(table.groups, s.contents);
    ScanDefined(view, ordinals, skip);
    forall k | 0 <= k < |table.groups| ensures SkipTest(table.groups[k], skip) == SkipsGroup(view[k], skip) {
      SkipTestIs(table.groups[k], s.contents[k], skip);
    }
  }

  lemma ScanCarries(chunks: seq<Chunk>, table: StoredTable, s: Source, ordinals: seq<nat>, skip: Option<Skip>)
    requires Sourced(s, table.groups, table.types) && OrdinalsIn(ordinals, |table.types|)
    requires forall c :: c in chunks ==> ScanChunk(table.types, ordinals, c)
    requires AllValid(chunks)
    requires ScanGroups(TableView(table.groups, s.contents), ordinals, skip) == Some(Stream(chunks))
    ensures var view := TableView(table.groups, s.contents);
      Carries(chunks, ScanTypes(table.types, ordinals),
              Output(Stream(chunks), ScanChunks(view, skip), ScanFills(view, skip)))
  {
    ViewNeverEmpty(table, s);
    ScanFlags(TableView(table.groups, s.contents), ordinals, skip);
    FullStream(chunks);
    if chunks != [] { assert chunks[0] in chunks; }
  }

  method ScanTable(pool: BufferPoolManager, table: StoredTable, ordinals: seq<nat>, skip: Option<Skip>,
                   ghost s: Source) returns (chunks: Option<seq<Chunk>>)
    requires Sourced(s, table.groups, table.types) && OrdinalsIn(ordinals, |table.types|)
    requires Quiet(pool, s.pages, s.end)
    modifies pool, pool.replacer, pool.disk
    ensures Quiet(pool, s.pages, s.end)
    ensures var view := TableView(table.groups, s.contents);
      && (chunks.Some? <==> ScanGroups(view, ordinals, skip).Some? && GroupsLegible(table, ordinals, skip))
      && (chunks.Some? ==> Carries(chunks.value, ScanTypes(table.types, ordinals),
            Output(ScanGroups(view, ordinals, skip).value, ScanChunks(view, skip), ScanFills(view, skip))))
  {
    var scan := new SeqScanOperator(pool, table.types, table.groups, ordinals, skip, s);
    var ok, done := scan.Drain();
    FineIff(table, s, ordinals, skip);
    if !ok {
      return None;
    }
    ScanCarries(done, table, s, ordinals, skip);
    chunks := Some(done);
  }

  // ----- filters and projections -----

  function StreamTo(cs: seq<Chunk>, k: nat): seq<Cells>
    requires AllValid(cs) && k <= |cs|
  {
    Stream(cs[..k])
  }

  lemma StreamNext(cs: seq<Chunk>, k: nat)
    requires AllValid(cs) && k < |cs|
    ensures StreamTo(cs, k + 1) == StreamTo(cs, k) + SelectedRows(cs[k])
  {
    assert cs[..k + 1] == cs[..k] + [cs[k]];
    StreamSnoc(cs[..k], cs[k]);
  }

  lemma StreamWhole(cs: seq<Chunk>)
    requires AllValid(cs)
    ensures StreamTo(cs, 0) == [] && StreamTo(cs, |cs|) == Stream(cs)
  {
    assert cs[..|cs|] == cs;
  }

  /** Chunks made one by one from the first ones of the input, standing for these rows. */
  ghost predicate Made(input: seq<Chunk>, done: seq<Chunk>, types: seq<TypeId>, rows: seq<Cells>) {
    && |done| <= |input| && ChunksTyped(done, types) && AllValid(done) && Stream(done) == rows
    && forall j :: 0 <= j < |done| ==> done[j].rowCount == input[j].rowCount
  }

  lemma MadeNext(input: seq<Chunk>, done: seq<Chunk>, c: Chunk, types: seq<TypeId>, rows: seq<Cells>)
    requires Made(input, done, types, rows) && |done| < |input|
    requires Chunks.Valid(c) && TypesOf(c) == types && c.rowCount == input[|done|].rowCount
    ensures Made(input, done + [c], types, rows + SelectedRows(c))
  {
    StreamSnoc(done, c);
  }

  lemma SameRowCounts(a: seq<Chunk>, b: seq<Chunk>)
    requires |a| == |b| && forall j :: 0 <= j < |a| ==> a[j].rowCount == b[j].rowCount
    ensures AnyRows(a) <==> AnyRows(b)
    ensures AnyRows(a) <==> exists j :: 0 <= j < |a| && a[j].rowCount > 0
  {
    if c :| c in a && c.rowCount > 0 {
      var j :| 0 <= j < |a| && a[j] == c;
      assert b[j] in b;
    }
    if c :| c in b && c.rowCount > 0 {
      var j :| 0 <= j < |b| && b[j] == c;
      assert a[j] in a;
    }
  }

  /** All chunks made: they carry the rows as the input carries its own. */
  lemma MadeAll(input: seq<Chunk>, from: seq<TypeId>, out: Output, done: seq<Chunk>, types: seq<TypeId>,
                rows: seq<Cells>)
    requires Carries(input, from, out) && Made(input, done, types, rows) && |done| == |input|
    ensures Carries(done, types, out.(rows := rows))
  {
    SameRowCounts(input, done);
  }

  method FilterChunks(fpu: FloatUnit, e: Expr, input: seq<Chunk>, types: seq<TypeId>, ghost out: Output)
      returns (chunks: Option<seq<Chunk>>)
    requires Carries(input, types, out) && Fits(e, types) && IsPredicate(e)
    ensures chunks.None? <==> FilterThrows(e, out.filled)
    ensures chunks.Some? ==> Carries(chunks.value, types, out.(rows := Filter(out.rows, PhysPassing(fpu, e))))
  {
    var done: seq<Chunk> := [];
    ghost var keep := PhysPassing(fpu, e);
    StreamWhole(input);
    SameRowCounts(input, input);
    for k := 0 to |input|
      invariant |done| == k && Made(input, done, types, Filter(StreamTo(input, k), keep))
      invariant NoBooleanOperands(e) || forall j :: 0 <= j < k ==> input[j].rowCount == 0
    {
      assert input[k] in input;
      var chunk := FilterChunk(fpu, e, input[k]);
      if chunk.None? {
        return None;
      }
      StreamNext(input, k);
      FilterConcat(StreamTo(input, k), SelectedRows(input[k]), keep);
      MadeNext(input, done, chunk.value, types, Filter(StreamTo(input, k), keep));
      done := done + [chunk.value];
    }
    MadeAll(input, types, out, done, types, Filter(Stream(input), keep));
    chunks := Some(done);
  }

  lemma ThrowsByChunk(exprs: seq<Expr>, input: seq<Chunk>, out: Output, types: seq<TypeId>)
    requires Carries(input, types, out)
    ensures ProjectThrows(exprs, out.chunks, out.filled) <==>
      exists j :: 0 <= j < |input| && ProjectThrows(exprs, true, input[j].rowCount > 0)
  {
    SameRowCounts(input, input);
    if ProjectThrows(exprs, out.chunks, out.filled) {
      if out.filled && exists e :: e in exprs && !NoBooleanOperands(e) {
        var j :| 0 <= j < |input| && input[j].rowCount > 0;
        assert ProjectThrows(exprs, true, input[j].rowCount > 0);
      } else {
        assert ProjectThrows(exprs, true, input[0].rowCount > 0);
      }
    }
  }

  method ProjectChunks(fpu: FloatUnit, exprs: seq<Expr>, input: seq<Chunk>, types: seq<TypeId>, ghost out: Output)
      returns (chunks: Option<seq<Chunk>>)
    requires Carries(input, types, out) && forall e :: e in exprs ==> Typed(e, types)
    ensures chunks.None? <==> ProjectThrows(exprs, out.chunks, out.filled)
    ensures chunks.Some? ==>
      Carries(chunks.value, ItemTypes(exprs), out.(rows := Map(out.rows, PhysProjected(fpu, exprs))))
  {
    var done: seq<Chunk> := [];
    ghost var f := PhysProjected(fpu, exprs);
    StreamWhole(input);
    ThrowsByChunk(exprs, input, out, types);
    for k := 0 to |input|
      invariant |done| == k && Made(input, done, ItemTypes(exprs), Map(StreamTo(input, k), f))
      invariant forall j :: 0 <= j < k ==> !ProjectThrows(exprs, true, input[j].rowCount > 0)
    {
      assert input[k] in input;
      var chunk := ProjectChunk(fpu, exprs, input[k]);
      if chunk.None? {
        return None;
      }
      StreamNext(input, k);
      MapConcat(StreamTo(input, k), SelectedRows(input[k]), f);
      MadeNext(input, done, chunk.value, ItemTypes(exprs), Map(StreamTo(input, k), f));
      done := done + [chunk.value];
    }
    MadeAll(input, types, out, done, ItemTypes(exprs), Map(Stream(input), f));
    chunks := Some(done);
  }

  // ----- joins and aggregates -----

  method JoinChunks(build: seq<Chunk>, probe: seq<Chunk>, buildKeys: seq<nat>, probeKeys: seq<nat>,
                    buildTypes: seq<TypeId>, probeTypes: seq<TypeId>, ghost b: Output, ghost p: Output)
      returns (chunks: seq<Chunk>)
    requires Carries(build, buildTypes, b) && Carries(probe, probeTypes, p)
    requires KeysIn(buildKeys, buildTypes) && KeysIn(probeKeys, probeTypes)
    ensures var rows := NestedLoop(p.rows, b.rows, PhysMatch(probeKeys, buildKeys), BuildThenProbe());
      Carries(chunks, buildTypes + probeTypes, Output(rows, p.chunks, rows != []))
  {
    chunks := HashJoin.RunHashJoin(HashJoin.Inputs(build, probe, buildKeys, probeKeys, buildTypes, probeTypes));
    FullStream(chunks);
  }

  method AggregateChunks(cfg: Aggregation.Config, input: seq<Chunk>, ghost out: Output) returns (chunks: seq<Chunk>)
    requires Carries(input, cfg.inputTypes, out) && Aggregation.WellTyped(cfg)
    ensures var rows := Aggregation.Groups(cfg, out.rows);
      Carries(chunks, Aggregation.OutTypes(cfg), Output(rows, rows != [], rows != []))
  {
    chunks := Aggregation.RunAggregation(cfg, input);
    FullStream(chunks);
    if chunks != [] { assert chunks[0] in chunks; }
  }

  // ----- the operator tree -----

  lemma RunOfScan(db: Database, sources: Sources, pages: Pages, end: nat, t: nat, ordinals: seq<nat>,
                  skip: Option<Skip>)
    requires Stored(db, sources, pages, end) && t in db.tables
    ensures TableHeld(db.tables[t], sources[t], pages, end)
    ensures var view := TableView(db.tables[t].groups, sources[t].contents);
      Run(WorldOf(db, sources, pages, end), SeqScan(t, ordinals, skip)) ==
        if ScanGroups(view, ordinals, skip).None? then None
        else Some(Output(ScanGroups(view, ordinals, skip).value, ScanChunks(view, skip), ScanFills(view, skip)))
  {
    assert TableHeld(db.tables[t], sources[t], pages, end);
  }

  /** Runs a well-typed operator tree: it throws exactly when Run does or a row
      group is not legible, and its chunks are Run's output. Nothing stays pinned. */
  method Execute(pool: BufferPoolManager, db: Database, op: Op, ghost sources: Sources, ghost pages: Pages,
                 ghost end: nat)
      returns (chunks: Option<seq<Chunk>>)
    requires Stored(db, sources, pages, end) && OpTypes(db, op).Some? && Quiet(pool, pages, end)
    modifies pool, pool.replacer, pool.disk
    ensures Quiet(pool, pages, end)
    ensures chunks.Some? <==> Run(WorldOf(db, sources, pages, end), op).Some? && Legible(db, op)
    ensures chunks.Some? ==>
      Carries(chunks.value, OpTypes(db, op).value, Run(WorldOf(db, sources, pages, end), op).value)
    decreases op, 1
  {
    ghost var w := WorldOf(db, sources, pages, end);
    match op
    case SeqScan(t, ordinals, skip) =>
      RunOfScan(db, sources, pages, end, t, ordinals, skip);
      chunks := ScanTable(pool, db.tables[t], ordinals, skip, sources[t]);
    case FilterOp(c, e) =>
      var input := Execute(pool, db, c, sources, pages, end);
      if input.None? { return None; }
      chunks := FilterChunks(db.fpu, e, input.value, OpTypes(db, c).value, Run(w, c).value);
    case HashJoinOp(b, p, bk, pk, announced) =>
      chunks := ExecuteJoin(pool, db, b, p, bk, pk, announced, sources, pages, end);
    case AggregateOp(c, columns, groupTypes, specs) =>
      var input := Execute(pool, db, c, sources, pages, end);
      if input.None? { return None; }
      var cfg := Aggregation.Config(db.fpu, columns, groupTypes, specs, OpTypes(db, c).value);
      var groups := AggregateChunks(cfg, input.value, Run(w, c).value);
      chunks := Some(groups);
    case ProjectOp(c, es) =>
      var input := Execute(pool, db, c, sources, pages, end);
      if input.None? { return None; }
      chunks := ProjectChunks(db.fpu, es, input.value, OpTypes(db, c).value, Run(w, c).value);
  }

  /** The build side runs first, then the probe side. */
  method ExecuteJoin(pool: BufferPoolManager, db: Database, b: Op, p: Op, bk: seq<nat>, pk: seq<nat>,
                     announced: seq<TypeId>, ghost sources: Sources, ghost pages: Pages, ghost end: nat)
      returns (chunks: Option<seq<Chunk>>)
    requires Stored(db, sources, pages, end) && Quiet(pool, pages, end)
    requires OpTypes(db, HashJoinOp(b, p, bk, pk, announced)).Some?
    modifies pool, pool.replacer, pool.disk
    ensures Quiet(pool, pages, end)
    ensures var op := HashJoinOp(b, p, bk, pk, announced);
      && (chunks.Some? <==> Run(WorldOf(db, sources, pages, end), op).Some? && Legible(db, op))
      && (chunks.Some? ==>
            Carries(chunks.value, OpTypes(db, op).value, Run(WorldOf(db, sources, pages, end), op).value))
    decreases HashJoinOp(b, p, bk, pk, announced), 0
  {
    ghost var w := WorldOf(db, sources, pages, end);
    var build := Execute(pool, db, b, sources, pages, end);
    if build.None? { return None; }
    var probe := Execute(pool, db, p, sources, pages, end);
    if probe.None? { return None; }
    var joined := JoinChunks(build.value, probe.value, bk, pk, announced, OpTypes(db, p).value,
                             Run(w, b).value, Run(w, p).value);
    chunks := Some(joined);
  }
}
