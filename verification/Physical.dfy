/** Physical operators and the rows they produce. A physical row is a plain
    list of cells; columns are addressed by position. */
module Physical {
  import opened Seqs
  import opened Types
  import opened KeyBytes
  import opened Expressions
  import opened Typing
  import opened ZoneMaps
  import opened Grouping
  import opened LogicalPlan

  datatype AggregateSpec = AggregateSpec(spec: AggSpec, column: Option<nat>)

  datatype Op =
    | SeqScan(tableId: nat, ordinals: seq<nat>, skip: Option<Skip>)
    | FilterOp(child: Op, condition: Expr)
    | HashJoinOp(build: Op, probe: Op, buildKeys: seq<nat>, probeKeys: seq<nat>, buildTypes: seq<TypeId>)
    | AggregateOp(child: Op, groupColumns: seq<nat>, groupTypes: seq<TypeId>, specs: seq<AggregateSpec>)
    | ProjectOp(child: Op, exprs: seq<Expr>)

  function CellAt(row: Cells, i: nat): Datum { if i < |row| then row[i] else Null }

  function PhysEnv(row: Cells): Env { (ref: ColumnRef) => CellAt(row, ref.ordinal) }

  function PickFrom(row: Cells): nat -> Datum { (o: nat) => CellAt(row, o) }
  function Pick(ordinals: seq<nat>): Cells -> Cells { (row: Cells) => Map(ordinals, PickFrom(row)) }

  function PhysPassing(fpu: FloatUnit, e: Expr): Cells -> bool { (r: Cells) => Passes(fpu, e, PhysEnv(r)) }

  function KeyCells(row: Cells, ordinals: seq<nat>): seq<Datum> { Map(ordinals, PickFrom(row)) }

  predicate PhysKeysMatch(probeKeys: seq<nat>, buildKeys: seq<nat>, probe: Cells, build: Cells) {
    SameKey(KeyCells(probe, probeKeys), KeyCells(build, buildKeys))
  }
  function PhysMatch(probeKeys: seq<nat>, buildKeys: seq<nat>): (Cells, Cells) -> bool {
    (probe: Cells, build: Cells) => PhysKeysMatch(probeKeys, buildKeys, probe, build)
  }

  /** A joined row lists the build columns first. */
  function BuildThenProbe(): (Cells, Cells) -> Cells { (probe: Cells, build: Cells) => build + probe }

  function PhysKey(columns: seq<nat>): Cells -> Key { (r: Cells) => Map(columns, PickFrom(r)) }
  function PhysArg(specs: seq<AggregateSpec>): (Cells, nat) -> Datum {
    (r: Cells, i: nat) => if i < |specs| && specs[i].column.Some? then CellAt(r, specs[i].column.value) else Null
  }
  function SpecPart(): AggregateSpec -> AggSpec { (s: AggregateSpec) => s.spec }

  function PhysProjected(fpu: FloatUnit, exprs: seq<Expr>): Cells -> Cells {
    (r: Cells) => seq(|exprs|, i requires 0 <= i < |exprs| => Eval(fpu, exprs[i], PhysEnv(r)))
  }

  /** A scan visits the row groups in order and leaves out those its zone-map
      test rules out. None is an exception thrown by that test. */
  function ScanGroups(groups: seq<StoredGroup>, ordinals: seq<nat>, skip: Option<Skip>): Option<seq<Cells>> {
    if groups == [] then Some([])
    else
      var g := groups[|groups| - 1];
      var before :- ScanGroups(groups[..|groups| - 1], ordinals, skip);
      var out :- SkipsGroup(g, skip);
      Some(if out then before else before + Map(g.rows, Pick(ordinals)))
  }

  function SkipsGroup(g: StoredGroup, skip: Option<Skip>): Option<bool> {
    if skip.None? then Some(false)
    else if skip.value.ordinal >= |g.zones| then None
    else ZoneMapRulesOut(g.zones[skip.value.ordinal], skip.value.op, skip.value.constant)
  }

  predicate Visited(g: StoredGroup, skip: Option<Skip>) { SkipsGroup(g, skip) == Some(false) }

  /** Some chunk of the scan has rows. */
  predicate ScanFills(groups: seq<StoredGroup>, skip: Option<Skip>) {
    exists g :: g in groups && Visited(g, skip) && g.rows != []
  }

  /** The scan hands over some chunk. */
  predicate ScanChunks(groups: seq<StoredGroup>, skip: Option<Skip>) {
    exists g :: g in groups && Visited(g, skip)
  }

  /** What a drained operator has handed over: the selected rows of all its
      chunks, whether there was a chunk, and whether one had rows in it,
      selected or not. The last two decide whether an operator above throws. */
  datatype Output = Output(rows: seq<Cells>, chunks: bool, filled: bool)

  /** The evaluator throws on the first chunk with rows. */
  predicate FilterThrows(e: Expr, filled: bool) { filled && !NoBooleanOperands(e) }

  /** A boolean select item throws on the first chunk, even an empty one. */
  predicate ProjectThrows(exprs: seq<Expr>, chunks: bool, filled: bool) {
    || (chunks && exists e :: e in exprs && ResultType(e) == BooleanT)
    || (filled && exists e :: e in exprs && !NoBooleanOperands(e))
  }

  /** Draining an operator tree; None is an exception. */
  function Run(w: World, op: Op): Option<Output> {
    match op
    case SeqScan(t, ordinals, skip) =>
      if t !in w.tables then None
      else
        var groups := w.tables[t].groups;
        var rows :- ScanGroups(groups, ordinals, skip);
        Some(Output(rows, ScanChunks(groups, skip), ScanFills(groups, skip)))
    case FilterOp(c, e) =>
      var input :- Run(w, c);
      if FilterThrows(e, input.filled) then None
      else Some(input.(rows := Filter(input.rows, PhysPassing(w.fpu, e))))
    case HashJoinOp(b, p, bk, pk, _) =>
      var build :- Run(w, b);
      var probe :- Run(w, p);
      var rows := NestedLoop(probe.rows, build.rows, PhysMatch(pk, bk), BuildThenProbe());
      Some(Output(rows, probe.chunks, rows != []))
    case AggregateOp(c, cols, _, specs) =>
      var input :- Run(w, c);
      var rows := GroupFold(w.fpu, Map(specs, SpecPart()), PhysKey(cols), PhysArg(specs), cols == [], input.rows);
      Some(Output(rows, rows != [], rows != []))
    case ProjectOp(c, es) =>
      var input :- Run(w, c);
      if ProjectThrows(es, input.chunks, input.filled) then None
      else Some(input.(rows := Map(input.rows, PhysProjected(w.fpu, es))))
  }

  // ----- stored tables that zone maps describe -----

  function ColumnCells(rows: seq<Cells>, o: nat): seq<Datum> { Map(rows, (r: Cells) => CellAt(r, o)) }

  predicate GroupSound(g: StoredGroup, types: seq<TypeId>) {
    && |g.zones| == |types|
    && (forall r :: r in g.rows ==> CellsTyped(r, types))
    && (forall o :: 0 <= o < |types| ==> g.zones[o] == ZoneOf(types[o], ColumnCells(g.rows, o)))
    && (forall o :: 0 <= o < |types| && types[o] == Float ==> !NaNFirst(ColumnCells(g.rows, o)))
  }

  predicate TableSound(t: Table) {
    forall g :: g in t.groups ==> GroupSound(g, t.types)
  }

  // ----- zone-map skipping is invisible -----

  lemma {:induction false} FullScan(groups: seq<StoredGroup>, ordinals: seq<nat>)
    ensures ScanGroups(groups, ordinals, None) == Some(Map(Flatten(Map(groups, RowsOfGroup())), Pick(ordinals)))
  {
    if groups != [] {
      var init, g := groups[..|groups| - 1], groups[|groups| - 1];
      FullScan(init, ordinals);
      SplitLast(groups);
      MapSnoc(init, g, RowsOfGroup());
      FlattenSnoc(Map(init, RowsOfGroup()), g.rows);
      MapConcat(Flatten(Map(init, RowsOfGroup())), g.rows, Pick(ordinals));
    }
  }

  /** A row group that the test rules out has no row for which the comparison passes. */
  lemma RuledOutGroupHasNoMatch(
      fpu: FloatUnit, g: StoredGroup, types: seq<TypeId>, skip: Skip, aty: ExprType, row: Cells)
    requires GroupSound(g, types) && row in g.rows
    requires SkipsGroup(g, Some(skip)) == Some(true)
    ensures ApplyBinary(fpu, skip.op, aty, CellAt(row, skip.ordinal), LiteralDatum(skip.constant)) != BoolD(true)
  {
    var o := skip.ordinal;
    var cells := ColumnCells(g.rows, o);
    var i :| 0 <= i < |g.rows| && g.rows[i] == row;
    assert cells[i] == CellAt(row, o);
    assert CellsTyped(row, types);
    RuledOutMeansNoMatch(fpu, types[o], cells, skip.op, skip.constant, aty, CellAt(row, o));
  }

  /** Whatever filter rejects the rows of ruled-out groups sees the same rows
      with and without skipping. */
  lemma {:induction false} SkippingIsInvisible(
      groups: seq<StoredGroup>, ordinals: seq<nat>, skip: Option<Skip>, keep: Cells -> bool)
    requires forall g :: g in groups ==> SkipsGroup(g, skip).Some?
    requires forall g, row :: g in groups && row in g.rows && SkipsGroup(g, skip) == Some(true) ==>
      !keep(Pick(ordinals)(row))
    ensures ScanGroups(groups, ordinals, skip).Some? && ScanGroups(groups, ordinals, None).Some?
    ensures Filter(ScanGroups(groups, ordinals, skip).value, keep) ==
      Filter(ScanGroups(groups, ordinals, None).value, keep)
  {
    if groups != [] {
      var init, g := groups[..|groups| - 1], groups[|groups| - 1];
      assert forall x :: x in init ==> x in groups;
      assert g in groups;
      SkippingIsInvisible(init, ordinals, skip, keep);
      var picked := Map(g.rows, Pick(ordinals));
      FilterConcat(ScanGroups(init, ordinals, None).value, picked, keep);
      if SkipsGroup(g, skip) == Some(true) {
        forall x | x in picked ensures !keep(x) {
          var i :| 0 <= i < |g.rows| && picked[i] == x;
          assert g.rows[i] in g.rows;
        }
        FilterNone(picked, keep);
      } else {
        FilterConcat(ScanGroups(init, ordinals, skip).value, picked, keep);
      }
    }
  }

  /** The exact failure: a skip whose constant has another type than its column
      throws as soon as there is a row group to test. */
  lemma {:induction false} ScanThrowsIff(t: Table, ordinals: seq<nat>, skip: Skip)
    requires TableSound(t) && skip.ordinal < |t.types| && !skip.constant.StrL?
    ensures ScanGroups(t.groups, ordinals, Some(skip)).None?
       <==> t.groups != [] && LiteralType(skip.constant) != t.types[skip.ordinal]
    decreases |t.groups|
  {
    if t.groups != [] {
      var init, g := t.groups[..|t.groups| - 1], t.groups[|t.groups| - 1];
      assert forall x :: x in init ==> x in t.groups;
      assert GroupSound(g, t.types);
      ScanThrowsIff(Table(t.types, init), ordinals, skip);
      ZoneOfWellBuilt(t.types[skip.ordinal], ColumnCells(g.rows, skip.ordinal));
    }
  }
}
