/** Logical plans and their reference meaning. A row maps (table, ordinal) to
    a cell, and a plan denotes a sequence of rows. */
module LogicalPlan {
  import opened Seqs
  import opened Types
  import opened KeyBytes
  import opened Expressions
  import opened ZoneMaps
  import opened Aggregates
  import opened Grouping

  /** The table id under which the columns an Aggregate computes are visible. */
  const AGGREGATE_ID: nat := 0xFFFF_FFFF

  datatype AggCall = AggCall(fn: AggFn, arg: Option<ColumnRef>)

  type EquiPair = (ColumnRef, ColumnRef)

  datatype Plan =
    | ScanNode(bindingId: nat, tableId: nat, columns: seq<TypeId>, requiredOrdinals: seq<nat>)
    | FilterNode(input: Plan, condition: Expr)
    | JoinNode(left: Plan, right: Plan, equi: seq<EquiPair>)
    | AggregateNode(input: Plan, groupBy: seq<ColumnRef>, aggregates: seq<AggCall>)
    | ProjectNode(input: Plan, exprs: seq<Expr>)

  function CollectBindingIds(p: Plan): seq<nat> {
    match p
    case ScanNode(id, _, _, _) => [id]
    case JoinNode(l, r, _) => CollectBindingIds(l) + CollectBindingIds(r)
    case FilterNode(i, _) => CollectBindingIds(i)
    case AggregateNode(i, _, _) => CollectBindingIds(i)
    case ProjectNode(i, _) => CollectBindingIds(i)
  }

  // ----- stored tables -----

  type Cells = seq<Datum>

  predicate CellsTyped(row: Cells, types: seq<TypeId>) {
    |row| == |types| && forall k :: 0 <= k < |row| ==> HasType(row[k], types[k])
  }

  datatype StoredGroup = StoredGroup(rows: seq<Cells>, zones: seq<ColumnZone>)

  datatype Table = Table(types: seq<TypeId>, groups: seq<StoredGroup>)

  datatype World = World(tables: map<nat, Table>, fpu: FloatUnit)

  function RowsOfGroup(): StoredGroup -> seq<Cells> { (g: StoredGroup) => g.rows }

  function TableRows(w: World, tableId: nat): seq<Cells> {
    if tableId in w.tables then Flatten(Map(w.tables[tableId].groups, RowsOfGroup())) else []
  }

  // ----- rows -----

  type Row = map<(nat, nat), Datum>

  function Get(row: Row, tableId: nat, ordinal: nat): Datum {
    if (tableId, ordinal) in row then row[(tableId, ordinal)] else Null
  }

  function RowEnv(row: Row): Env { (ref: ColumnRef) => Get(row, ref.tableId, ref.ordinal) }

  /** The cells of one table row, addressed by ordinal. */
  function CellMap(tableId: nat, cells: Cells): Row {
    if cells == [] then map[] else CellMap(tableId, cells[..|cells| - 1])[(tableId, |cells| - 1) := cells[|cells| - 1]]
  }

  lemma {:induction false} CellMapGet(tableId: nat, cells: Cells, t: nat, o: nat)
    ensures (t, o) in CellMap(tableId, cells) <==> t == tableId && o < |cells|
    ensures t == tableId && o < |cells| ==> Get(CellMap(tableId, cells), t, o) == cells[o]
  {
    if cells != [] { CellMapGet(tableId, cells[..|cells| - 1], t, o); }
  }

  function ScanRow(bindingId: nat): Cells -> Row { (c: Cells) => CellMap(bindingId, c) }

  // ----- operators on rows -----

  function Passing(fpu: FloatUnit, e: Expr): Row -> bool { (r: Row) => Passes(fpu, e, RowEnv(r)) }
  function PassingAll(fpu: FloatUnit, cs: seq<Expr>): Row -> bool { (r: Row) => PassesAll(fpu, cs, RowEnv(r)) }

  /** Which of the two columns of an equality belongs to the left input. */
  function LeftKey(leftIds: seq<nat>, pair: EquiPair): ColumnRef {
    if pair.0.tableId in leftIds then pair.0 else pair.1
  }
  function RightKey(leftIds: seq<nat>, pair: EquiPair): ColumnRef {
    if pair.0.tableId in leftIds then pair.1 else pair.0
  }

  function LeftCell(leftIds: seq<nat>, l: Row): EquiPair -> Datum {
    (pair: EquiPair) => RowEnv(l)(LeftKey(leftIds, pair))
  }
  function RightCell(leftIds: seq<nat>, r: Row): EquiPair -> Datum {
    (pair: EquiPair) => RowEnv(r)(RightKey(leftIds, pair))
  }

  /** NULL keys never match; all others match by their bytes. */
  predicate KeysMatch(equi: seq<EquiPair>, leftIds: seq<nat>, l: Row, r: Row) {
    SameKey(Map(equi, LeftCell(leftIds, l)), Map(equi, RightCell(leftIds, r)))
  }

  function JoinMatch(equi: seq<EquiPair>, leftIds: seq<nat>): (Row, Row) -> bool {
    (l: Row, r: Row) => KeysMatch(equi, leftIds, l, r)
  }
  function Merge(): (Row, Row) -> Row { (l: Row, r: Row) => l + r }

  function KeyOf(groupBy: seq<ColumnRef>): Row -> Key {
    (r: Row) => Map(groupBy, RowEnv(r))
  }

  function SpecOf(): AggCall -> AggSpec {
    (c: AggCall) => AggSpec(c.fn, if c.arg.Some? then c.arg.value.ty else Integer)
  }

  function ArgOf(aggregates: seq<AggCall>): (Row, nat) -> Datum {
    (r: Row, i: nat) =>
      if i < |aggregates| && aggregates[i].arg.Some? then RowEnv(r)(aggregates[i].arg.value) else Null
  }

  /** The group-by columns stay visible under their own names, for HAVING. */
  function KeyColumns(groupBy: seq<ColumnRef>, cells: Cells): Row
    requires |groupBy| <= |cells|
  {
    if groupBy == [] then map[]
    else
      var n := |groupBy| - 1;
      KeyColumns(groupBy[..n], cells)[(groupBy[n].tableId, groupBy[n].ordinal) := cells[n]]
  }

  function AggregateRow(groupBy: seq<ColumnRef>): Cells -> Row {
    (c: Cells) => CellMap(AGGREGATE_ID, c) + (if |groupBy| <= |c| then KeyColumns(groupBy, c) else map[])
  }

  predicate Relational(p: Plan) {
    match p
    case ScanNode(_, _, _, _) => true
    case FilterNode(i, _) => Relational(i)
    case JoinNode(l, r, _) => Relational(l) && Relational(r)
    case AggregateNode(i, _, _) => Relational(i)
    case ProjectNode(_, _) => false
  }

  function Denote(w: World, p: Plan): seq<Row>
    requires Relational(p)
  {
    match p
    case ScanNode(id, tableId, _, _) => Map(TableRows(w, tableId), ScanRow(id))
    case FilterNode(i, e) => Filter(Denote(w, i), Passing(w.fpu, e))
    case JoinNode(l, r, equi) =>
      NestedLoop(Denote(w, l), Denote(w, r), JoinMatch(equi, CollectBindingIds(l)), Merge())
    case AggregateNode(i, groupBy, aggs) =>
      Map(GroupFold(w.fpu, Map(aggs, SpecOf()), KeyOf(groupBy), ArgOf(aggs), groupBy == [], Denote(w, i)),
          AggregateRow(groupBy))
  }

  function Projected(fpu: FloatUnit, exprs: seq<Expr>): Row -> Cells {
    (r: Row) => seq(|exprs|, i requires 0 <= i < |exprs| => Eval(fpu, exprs[i], RowEnv(r)))
  }

  /** The answer of a query: its root projection over the rows below. */
  function Answer(w: World, p: Plan): seq<Cells>
    requires p.ProjectNode? && Relational(p.input)
  {
    Map(Denote(w, p.input), Projected(w.fpu, p.exprs))
  }

  // ----- the plans the binder builds -----

  /** Scans, filters and joins over distinct bindings: a FROM/WHERE tree. */
  predicate FromTree(p: Plan) {
    match p
    case ScanNode(id, _, _, _) => id != AGGREGATE_ID
    case FilterNode(i, _) => FromTree(i)
    case JoinNode(l, r, _) =>
      && FromTree(l) && FromTree(r)
      && (forall id :: id in CollectBindingIds(l) ==> id !in CollectBindingIds(r))
    case _ => false
  }

  /** At most one Aggregate, over a FROM tree, with HAVING filters above it. */
  predicate Body(p: Plan) {
    match p
    case AggregateNode(i, _, _) => FromTree(i)
    case FilterNode(i, _) => Body(i)
    case _ => FromTree(p)
  }

  lemma FromTreeRelational(p: Plan)
    requires FromTree(p)
    ensures Relational(p)
  {
  }

  lemma BodyRelational(p: Plan)
    requires Body(p)
    ensures Relational(p)
  {
    match p
    case FilterNode(i, _) => BodyRelational(i);
    case AggregateNode(i, _, _) => FromTreeRelational(i);
    case _ => FromTreeRelational(p);
  }

  /** A row of a FROM tree only holds columns of the tree's bindings. */
  ghost predicate WithinIds(row: Row, ids: seq<nat>) {
    forall k :: k in row ==> k.0 in ids
  }

  lemma {:induction false} RowsWithinIds(w: World, p: Plan, row: Row)
    requires FromTree(p) && Relational(p)
    requires row in Denote(w, p)
    ensures WithinIds(row, CollectBindingIds(p))
  {
    match p
    case ScanNode(id, t, _, _) =>
      var i :| 0 <= i < |Denote(w, p)| && Denote(w, p)[i] == row;
      var cells := TableRows(w, t)[i];
      forall k | k in row ensures k.0 in CollectBindingIds(p) { CellMapGet(id, cells, k.0, k.1); }
    case FilterNode(i, e) =>
      FilterMember(Denote(w, i), Passing(w.fpu, e), row);
      RowsWithinIds(w, i, row);
    case JoinNode(l, r, equi) =>
      var m := JoinMatch(equi, CollectBindingIds(l));
      NestedLoopMember(Denote(w, l), Denote(w, r), m, Merge(), row);
      var a, b :| a in Denote(w, l) && b in Denote(w, r) && row == Merge()(a, b);
      RowsWithinIds(w, l, a);
      RowsWithinIds(w, r, b);
  }
}
