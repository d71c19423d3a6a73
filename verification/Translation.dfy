/** Translation to physical operators: every column reference becomes a
    position, and the physical row at that position holds the logical cell. */
module Translation {
  import opened Seqs
  import opened Types
  import opened Expressions
  import opened Typing
  import opened ZoneMaps
  import opened LogicalPlan
  import opened Physical

  function IndexOf(s: seq<nat>, x: nat): (r: Option<nat>)
    ensures r.Some? ==> r.value < |s| && s[r.value] == x
    ensures r.Some? <==> x in s
  {
    if s == [] then None
    else if s[0] == x then Some(0)
    else
      match IndexOf(s[1..], x)
      case None => None
      case Some(i) => Some(i + 1)
  }

  function TypesAt(columns: seq<TypeId>, ordinals: seq<nat>): Option<seq<TypeId>> {
    if ordinals == [] then Some([])
    else
      var before :- TypesAt(columns, ordinals[..|ordinals| - 1]);
      var o := ordinals[|ordinals| - 1];
      if o < |columns| then Some(before + [columns[o]]) else None
  }

  /** None where the code throws, or indexes past the scan's columns. */
  function PhysicalOutputSchema(p: Plan): Option<seq<TypeId>> {
    match p
    case ScanNode(_, _, columns, ordinals) => TypesAt(columns, ordinals)
    case FilterNode(i, _) => PhysicalOutputSchema(i)
    case JoinNode(l, r, _) =>
      var build :- PhysicalOutputSchema(r);
      var probe :- PhysicalOutputSchema(l);
      Some(build + probe)
    case _ => None
  }

  function FindColumnPosition(p: Plan, ref: ColumnRef): Option<nat> {
    match p
    case ScanNode(id, _, _, ordinals) => if id != ref.tableId then None else IndexOf(ordinals, ref.ordinal)
    case FilterNode(i, _) => FindColumnPosition(i, ref)
    case JoinNode(l, r, _) =>
      if ref.tableId in CollectBindingIds(l) then
        var build :- PhysicalOutputSchema(r);
        var pos :- FindColumnPosition(l, ref);
        Some(|build| + pos)
      else FindColumnPosition(r, ref)
    case AggregateNode(_, _, _) => if ref.tableId != AGGREGATE_ID then None else Some(ref.ordinal)
    case ProjectNode(_, _) => None
  }

  /** RewriteColumnRefsToPhysicalPositions overwrites the ordinal only. */
  function Positioned(e: Expr, child: Plan): Option<Expr> {
    match e
    case Col(ref) =>
      var pos :- FindColumnPosition(child, ref);
      Some(Col(ref.(ordinal := pos)))
    case Const(_) => Some(e)
    case Binary(op, l, r, ty) =>
      var l' :- Positioned(l, child);
      var r' :- Positioned(r, child);
      Some(Binary(op, l', r', ty))
    case Not(x) =>
      var x' :- Positioned(x, child);
      Some(Not(x'))
  }

  function PositionsOf(refs: seq<ColumnRef>, child: Plan): Option<seq<nat>> {
    if refs == [] then Some([])
    else
      var before :- PositionsOf(refs[..|refs| - 1], child);
      var pos :- FindColumnPosition(child, refs[|refs| - 1]);
      Some(before + [pos])
  }

  function PositionedAll(exprs: seq<Expr>, child: Plan): Option<seq<Expr>> {
    if exprs == [] then Some([])
    else
      var before :- PositionedAll(exprs[..|exprs| - 1], child);
      var e :- Positioned(exprs[|exprs| - 1], child);
      Some(before + [e])
  }

  function SpecsFor(aggs: seq<AggCall>, child: Plan): Option<seq<AggregateSpec>> {
    if aggs == [] then Some([])
    else
      var before :- SpecsFor(aggs[..|aggs| - 1], child);
      var call := aggs[|aggs| - 1];
      if call.arg.None? then Some(before + [AggregateSpec(SpecOf()(call), None)])
      else
        var pos :- FindColumnPosition(child, call.arg.value);
        Some(before + [AggregateSpec(SpecOf()(call), Some(pos))])
  }

  /** `column op constant` over a scan of that column's table, numeric constants only. */
  function TryExtractZoneMapSkip(condition: Expr, bindingId: nat): Option<Skip> {
    if condition.Binary? && condition.left.Col? && condition.right.Const?
       && condition.left.ref.tableId == bindingId && !condition.right.value.StrL?
    then Some(Skip(condition.left.ref.ordinal, condition.op, condition.right.value))
    else None
  }

  function LeftKeys(equi: seq<EquiPair>, leftIds: seq<nat>): seq<ColumnRef> {
    Map(equi, (e: EquiPair) => LeftKey(leftIds, e))
  }
  function RightKeys(equi: seq<EquiPair>, leftIds: seq<nat>): seq<ColumnRef> {
    Map(equi, (e: EquiPair) => RightKey(leftIds, e))
  }

  function Translate(catalog: set<nat>, p: Plan): Option<Op> {
    match p
    case ScanNode(_, t, _, ordinals) => if t in catalog then Some(SeqScan(t, ordinals, None)) else None
    case FilterNode(i, e) =>
      if i.ScanNode? then
        if i.tableId !in catalog then None
        else
          var e' :- Positioned(e, i);
          Some(FilterOp(SeqScan(i.tableId, i.requiredOrdinals, TryExtractZoneMapSkip(e, i.bindingId)), e'))
      else
        var e' :- Positioned(e, i);
        var child :- Translate(catalog, i);
        Some(FilterOp(child, e'))
    case JoinNode(l, r, equi) =>
      var left := CollectBindingIds(l);
      var probeKeys :- PositionsOf(LeftKeys(equi, left), l);
      var buildKeys :- PositionsOf(RightKeys(equi, left), r);
      var buildTypes :- PhysicalOutputSchema(r);
      var probe :- Translate(catalog, l);
      var build :- Translate(catalog, r);
      Some(HashJoinOp(build, probe, buildKeys, probeKeys, buildTypes))
    case AggregateNode(i, groupBy, aggs) =>
      var columns :- PositionsOf(groupBy, i);
      var specs :- SpecsFor(aggs, i);
      var child :- Translate(catalog, i);
      Some(AggregateOp(child, columns, Map(groupBy, (ref: ColumnRef) => ref.ty), specs))
    case ProjectNode(i, exprs) =>
      var exprs' :- PositionedAll(exprs, i);
      var child :- Translate(catalog, i);
      Some(ProjectOp(child, exprs'))
  }

  // ----- the translation loops -----

  lemma {:induction false} PositionsFail(refs: seq<ColumnRef>, k: nat, child: Plan)
    requires k <= |refs| && PositionsOf(refs[..k], child).None?
    ensures PositionsOf(refs, child).None?
  {
    if k < |refs| {
      var init := refs[..|refs| - 1];
      assert init[..k] == refs[..k];
      PositionsFail(init, k, child);
    } else {
      assert refs[..k] == refs;
    }
  }

  lemma PositionsNext(refs: seq<ColumnRef>, k: nat, child: Plan)
    requires k < |refs| && PositionsOf(refs[..k], child).Some?
    ensures PositionsOf(refs[..k + 1], child) ==
      match FindColumnPosition(child, refs[k])
      case None => None
      case Some(pos) => Some(PositionsOf(refs[..k], child).value + [pos])
  {
    assert refs[..k + 1][..k] == refs[..k];
  }

  method CollectPositions(refs: seq<ColumnRef>, child: Plan) returns (positions: Option<seq<nat>>)
    ensures positions == PositionsOf(refs, child)
  {
    var done: seq<nat> := [];
    for i := 0 to |refs|
      invariant PositionsOf(refs[..i], child) == Some(done)
    {
      PositionsNext(refs, i, child);
      var pos := FindColumnPosition(child, refs[i]);
      if pos.None? {
        PositionsFail(refs, i + 1, child);
        return None;
      }
      done := done + [pos.value];
    }
    assert refs[..|refs|] == refs;
    positions := Some(done);
  }

  /** The columns an equality asks for on either side. */
  method SidesOf(pair: EquiPair, leftIds: seq<nat>) returns (left: ColumnRef, right: ColumnRef)
    ensures left == LeftKey(leftIds, pair) && right == RightKey(leftIds, pair)
  {
    var firstIsLeft := pair.0.tableId in leftIds;
    left := if firstIsLeft then pair.0 else pair.1;
    right := if firstIsLeft then pair.1 else pair.0;
  }

  /** Each equality gives one probe and one build position. */
  method CollectJoinKeys(equi: seq<EquiPair>, leftIds: seq<nat>, l: Plan, r: Plan)
      returns (keys: Option<(seq<nat>, seq<nat>)>)
    ensures var probe, build := PositionsOf(LeftKeys(equi, leftIds), l), PositionsOf(RightKeys(equi, leftIds), r);
      && (keys.Some? <==> probe.Some? && build.Some?)
      && (keys.Some? ==> keys.value == (probe.value, build.value))
  {
    var probe: seq<nat>, build: seq<nat> := [], [];
    ghost var lefts, rights := LeftKeys(equi, leftIds), RightKeys(equi, leftIds);
    for i := 0 to |equi|
      invariant PositionsOf(lefts[..i], l) == Some(probe) && PositionsOf(rights[..i], r) == Some(build)
    {
      PositionsNext(lefts, i, l);
      PositionsNext(rights, i, r);
      var leftKey, rightKey := SidesOf(equi[i], leftIds);
      assert leftKey == lefts[i] && rightKey == rights[i];
      var left := FindColumnPosition(l, leftKey);
      if left.None? {
        PositionsFail(lefts, i + 1, l);
        return None;
      }
      var right := FindColumnPosition(r, rightKey);
      if right.None? {
        PositionsFail(rights, i + 1, r);
        return None;
      }
      probe, build := probe + [left.value], build + [right.value];
    }
    assert lefts[..|lefts|] == lefts && rights[..|rights|] == rights;
    keys := Some((probe, build));
  }

  lemma {:induction false} SpecsFail(aggs: seq<AggCall>, k: nat, child: Plan)
    requires k <= |aggs| && SpecsFor(aggs[..k], child).None?
    ensures SpecsFor(aggs, child).None?
  {
    if k < |aggs| {
      var init := aggs[..|aggs| - 1];
      assert init[..k] == aggs[..k];
      SpecsFail(init, k, child);
    } else {
      assert aggs[..k] == aggs;
    }
  }

  method CollectSpecs(aggs: seq<AggCall>, child: Plan) returns (specs: Option<seq<AggregateSpec>>)
    ensures specs == SpecsFor(aggs, child)
  {
    var done: seq<AggregateSpec> := [];
    for i := 0 to |aggs|
      invariant SpecsFor(aggs[..i], child) == Some(done)
    {
      assert aggs[..i + 1][..i] == aggs[..i];
      var column: Option<nat> := None;
      if aggs[i].arg.Some? {
        column := FindColumnPosition(child, aggs[i].arg.value);
        if column.None? {
          SpecsFail(aggs, i + 1, child);
          return None;
        }
      }
      done := done + [AggregateSpec(SpecOf()(aggs[i]), column)];
    }
    assert aggs[..|aggs|] == aggs;
    specs := Some(done);
  }

  lemma {:induction false} RewritesFail(exprs: seq<Expr>, k: nat, child: Plan)
    requires k <= |exprs| && PositionedAll(exprs[..k], child).None?
    ensures PositionedAll(exprs, child).None?
  {
    if k < |exprs| {
      var init := exprs[..|exprs| - 1];
      assert init[..k] == exprs[..k];
      RewritesFail(init, k, child);
    } else {
      assert exprs[..k] == exprs;
    }
  }

  method RewriteAll(exprs: seq<Expr>, child: Plan) returns (out: Option<seq<Expr>>)
    ensures out == PositionedAll(exprs, child)
  {
    var done: seq<Expr> := [];
    for i := 0 to |exprs|
      invariant PositionedAll(exprs[..i], child) == Some(done)
    {
      assert exprs[..i + 1][..i] == exprs[..i];
      var e := Positioned(exprs[i], child);
      if e.None? {
        RewritesFail(exprs, i + 1, child);
        return None;
      }
      done := done + [e.value];
    }
    assert exprs[..|exprs|] == exprs;
    out := Some(done);
  }

  /** Translate with its loops, given the ids of the catalog's tables; None is an exception. */
  method TranslatePlan(catalog: set<nat>, p: Plan) returns (op: Option<Op>)
    ensures op == Translate(catalog, p)
    decreases p
  {
    match p
    case ScanNode(_, t, _, ordinals) =>
      op := if t in catalog then Some(SeqScan(t, ordinals, None)) else None;
    case FilterNode(i, e) =>
      if i.ScanNode? {
        if i.tableId !in catalog {
          return None;
        }
        var skip := TryExtractZoneMapSkip(e, i.bindingId);
        var e' :- Positioned(e, i);
        return Some(FilterOp(SeqScan(i.tableId, i.requiredOrdinals, skip), e'));
      }
      var e' :- Positioned(e, i);
      var child :- TranslatePlan(catalog, i);
      op := Some(FilterOp(child, e'));
    case JoinNode(l, r, equi) =>
      var keys :- CollectJoinKeys(equi, CollectBindingIds(l), l, r);
      var buildTypes :- PhysicalOutputSchema(r);
      var probe :- TranslatePlan(catalog, l);
      var build :- TranslatePlan(catalog, r);
      op := Some(HashJoinOp(build, probe, keys.1, keys.0, buildTypes));
    case AggregateNode(i, groupBy, aggs) =>
      var columns :- CollectPositions(groupBy, i);
      var specs :- CollectSpecs(aggs, i);
      var child :- TranslatePlan(catalog, i);
      op := Some(AggregateOp(child, columns, Map(groupBy, (ref: ColumnRef) => ref.ty), specs));
    case ProjectNode(i, exprs) =>
      var exprs' :- RewriteAll(exprs, i);
      var child :- TranslatePlan(catalog, i);
      op := Some(ProjectOp(child, exprs'));
  }

  // ----- the column layout of a FROM tree -----

  type ColumnId = (nat, nat)

  function ColumnOf(id: nat): nat -> ColumnId { (o: nat) => (id, o) }

  /** Scans list their kept ordinals; a join lists the right (build) side first. */
  function Layout(p: Plan): seq<ColumnId> {
    match p
    case ScanNode(id, _, _, ordinals) => Map(ordinals, ColumnOf(id))
    case FilterNode(i, _) => Layout(i)
    case JoinNode(l, r, _) => Layout(r) + Layout(l)
    case _ => []
  }

  function CellIn(row: Row): ColumnId -> Datum { (k: ColumnId) => Get(row, k.0, k.1) }
  function Laid(layout: seq<ColumnId>): Row -> Cells { (row: Row) => Map(layout, CellIn(row)) }

  lemma {:induction false} TypesAtLength(columns: seq<TypeId>, ordinals: seq<nat>)
    ensures TypesAt(columns, ordinals).Some? ==> |TypesAt(columns, ordinals).value| == |ordinals|
    ensures (forall o :: o in ordinals ==> o < |columns|) ==> TypesAt(columns, ordinals).Some?
  {
    if ordinals != [] {
      var init, last := ordinals[..|ordinals| - 1], ordinals[|ordinals| - 1];
      TypesAtLength(columns, init);
      if forall o :: o in ordinals ==> o < |columns| {
        forall o | o in init ensures o < |columns| { assert o in ordinals; }
        assert last in ordinals;
        assert TypesAt(columns, init).Some?;
      }
    }
  }

  lemma {:induction false} SchemaMatchesLayout(p: Plan)
    requires FromTree(p)
    ensures PhysicalOutputSchema(p).Some? ==> |PhysicalOutputSchema(p).value| == |Layout(p)|
  {
    match p
    case ScanNode(_, _, columns, ordinals) => TypesAtLength(columns, ordinals);
    case FilterNode(i, _) => SchemaMatchesLayout(i);
    case JoinNode(l, r, _) => SchemaMatchesLayout(l); SchemaMatchesLayout(r);
  }

  /** FindColumnPosition answers with the place of the column in the layout. */
  lemma {:induction false} PositionIsPlace(p: Plan, ref: ColumnRef)
    requires FromTree(p) && FindColumnPosition(p, ref).Some?
    ensures FindColumnPosition(p, ref).value < |Layout(p)|
    ensures Layout(p)[FindColumnPosition(p, ref).value] == (ref.tableId, ref.ordinal)
  {
    match p
    case ScanNode(_, _, _, _) =>
    case FilterNode(i, _) => PositionIsPlace(i, ref);
    case JoinNode(l, r, _) =>
      if ref.tableId in CollectBindingIds(l) {
        SchemaMatchesLayout(r);
        PositionIsPlace(l, ref);
      } else {
        PositionIsPlace(r, ref);
      }
  }

  lemma {:induction false} LayoutWithinIds(p: Plan, k: ColumnId)
    requires FromTree(p) && k in Layout(p)
    ensures k.0 in CollectBindingIds(p)
  {
    match p
    case ScanNode(_, _, _, _) =>
    case FilterNode(i, _) => LayoutWithinIds(i, k);
    case JoinNode(l, r, _) => if k in Layout(r) { LayoutWithinIds(r, k); } else { LayoutWithinIds(l, k); }
  }

  // ----- expressions read the same cells -----

  ghost predicate AllFound(refs: seq<ColumnRef>, p: Plan) {
    forall ref :: ref in refs ==> FindColumnPosition(p, ref).Some?
  }

  lemma PositionHoldsCell(p: Plan, ref: ColumnRef, row: Row)
    requires FromTree(p) && FindColumnPosition(p, ref).Some?
    ensures CellAt(Laid(Layout(p))(row), FindColumnPosition(p, ref).value) == RowEnv(row)(ref)
  {
    PositionIsPlace(p, ref);
  }

  lemma {:induction false} PositionedEval(fpu: FloatUnit, e: Expr, p: Plan, row: Row)
    requires FromTree(p) && AllFound(CollectColumnRefs(e), p)
    ensures Positioned(e, p).Some?
    ensures Eval(fpu, Positioned(e, p).value, PhysEnv(Laid(Layout(p))(row))) == Eval(fpu, e, RowEnv(row))
  {
    match e
    case Col(ref) =>
      assert ref in CollectColumnRefs(e);
      PositionHoldsCell(p, ref, row);
    case Const(_) =>
    case Binary(_, l, r, _) =>
      PositionedEval(fpu, l, p, row);
      PositionedEval(fpu, r, p, row);
    case Not(x) => PositionedEval(fpu, x, p, row);
  }

  /** Rewriting changes no operand's type. */
  lemma {:induction false} PositionedKind(e: Expr, p: Plan)
    requires Positioned(e, p).Some?
    ensures ResultType(Positioned(e, p).value) == ResultType(e)
    ensures BoundType(Positioned(e, p).value) == BoundType(e)
    ensures NoBooleanOperands(Positioned(e, p).value) == NoBooleanOperands(e)
  {
    match e
    case Binary(_, l, r, _) => PositionedKind(l, p); PositionedKind(r, p);
    case Not(x) => PositionedKind(x, p);
    case _ =>
  }

  lemma {:induction false} PositionsOfFound(refs: seq<ColumnRef>, p: Plan)
    requires AllFound(refs, p)
    ensures PositionsOf(refs, p).Some? && |PositionsOf(refs, p).value| == |refs|
    ensures forall i :: 0 <= i < |refs| ==> FindColumnPosition(p, refs[i]) == Some(PositionsOf(refs, p).value[i])
  {
    if refs != [] {
      SplitLast(refs);
      PositionsOfFound(refs[..|refs| - 1], p);
      assert refs[|refs| - 1] in refs;
    }
  }

  // ----- FROM trees -----

  /** What pruning must leave behind for a FROM tree to be translated. */
  ghost predicate Ready(w: World, p: Plan) {
    match p
    case ScanNode(_, t, columns, ordinals) =>
      t in w.tables && w.tables[t].types == columns && forall o :: o in ordinals ==> o < |columns|
    case FilterNode(i, e) =>
      Ready(w, i) && AllFound(CollectColumnRefs(e), i)
    case JoinNode(l, r, equi) =>
      && Ready(w, l) && Ready(w, r)
      && AllFound(LeftKeys(equi, CollectBindingIds(l)), l)
      && AllFound(RightKeys(equi, CollectBindingIds(l)), r)
    case _ => false
  }

  /** A zone-map test compares a column with a constant of the column's own type. */
  predicate SkipTyped(e: Expr, scan: Plan)
    requires scan.ScanNode?
  {
    var skip := TryExtractZoneMapSkip(e, scan.bindingId);
    skip.Some? ==>
      skip.value.ordinal < |scan.columns| && LiteralType(skip.value.constant) == scan.columns[skip.value.ordinal]
  }

  ghost predicate WorldSound(w: World) {
    forall t :: t in w.tables ==> TableSound(w.tables[t])
  }

  // ----- when the operators of a tree throw -----

  /** The zone-map test under this filter throws: there is a row group to test,
      and the constant is not of the column's type. */
  predicate SkipThrows(w: World, scan: Plan, e: Expr)
    requires scan.ScanNode?
  {
    scan.tableId in w.tables && w.tables[scan.tableId].groups != [] && !SkipTyped(e, scan)
  }

  /** Some chunk that the tree's operators hand over has rows, selected or not. */
  predicate Filled(w: World, p: Plan)
    requires Relational(p)
  {
    match p
    case ScanNode(_, t, _, _) => t in w.tables && ScanFills(w.tables[t].groups, None)
    case FilterNode(i, e) =>
      if i.ScanNode? then
        i.tableId in w.tables && ScanFills(w.tables[i.tableId].groups, TryExtractZoneMapSkip(e, i.bindingId))
      else Filled(w, i)
    case _ => Denote(w, p) != []
  }

  /** The tree's operators hand over some chunk. */
  predicate Chunked(w: World, p: Plan)
    requires Relational(p)
  {
    match p
    case ScanNode(_, t, _, _) => t in w.tables && ScanChunks(w.tables[t].groups, None)
    case FilterNode(i, e) =>
      if i.ScanNode? then
        i.tableId in w.tables && ScanChunks(w.tables[i.tableId].groups, TryExtractZoneMapSkip(e, i.bindingId))
      else Chunked(w, i)
    case JoinNode(l, _, _) => Chunked(w, l)
    case _ => Denote(w, p) != []
  }

  /** Some operator throws: a zone-map test on a constant of another type, or a
      filter with a boolean operand that is handed rows. */
  predicate Throws(w: World, p: Plan)
    requires Relational(p)
  {
    match p
    case FilterNode(i, e) =>
      (if i.ScanNode? then SkipThrows(w, i, e) else Throws(w, i)) || FilterThrows(e, Filled(w, p))
    case JoinNode(l, r, _) => Throws(w, l) || Throws(w, r)
    case AggregateNode(i, _, _) => Throws(w, i)
    case _ => false
  }

  /** The simulation: the operators throw exactly when the tree says so, and
      otherwise deliver each logical row in its physical layout. */
  ghost predicate Simulates(w: World, p: Plan)
    requires Relational(p)
  {
    && Translate(w.tables.Keys, p).Some?
    && Run(w, Translate(w.tables.Keys, p).value) ==
       if Throws(w, p) then None
       else Some(Output(Map(Denote(w, p), Laid(Layout(p))), Chunked(w, p), Filled(w, p)))
  }

  lemma ScanRowLaid(p: Plan, cells: Cells)
    requires p.ScanNode?
    ensures Laid(Layout(p))(ScanRow(p.bindingId)(cells)) == Pick(p.requiredOrdinals)(cells)
  {
    forall i | 0 <= i < |p.requiredOrdinals|
      ensures Get(CellMap(p.bindingId, cells), p.bindingId, p.requiredOrdinals[i]) ==
        CellAt(cells, p.requiredOrdinals[i])
    {
      CellMapGet(p.bindingId, cells, p.bindingId, p.requiredOrdinals[i]);
    }
  }

  lemma FullScanLaid(w: World, p: Plan)
    requires p.ScanNode? && p.tableId in w.tables
    ensures ScanGroups(w.tables[p.tableId].groups, p.requiredOrdinals, None) == Some(Map(Denote(w, p), Laid(Layout(p))))
  {
    var rows := TableRows(w, p.tableId);
    FullScan(w.tables[p.tableId].groups, p.requiredOrdinals);
    forall i | 0 <= i < |rows|
      ensures Laid(Layout(p))(ScanRow(p.bindingId)(rows[i])) == Pick(p.requiredOrdinals)(rows[i])
    {
      ScanRowLaid(p, rows[i]);
    }
    assert Map(Map(rows, ScanRow(p.bindingId)), Laid(Layout(p))) == Map(rows, Pick(p.requiredOrdinals));
  }

  lemma FilterLaid(w: World, i: Plan, e: Expr)
    requires FromTree(i) && Relational(i) && AllFound(CollectColumnRefs(e), i)
    ensures Positioned(e, i).Some?
    ensures Filter(Map(Denote(w, i), Laid(Layout(i))), PhysPassing(w.fpu, Positioned(e, i).value))
         == Map(Filter(Denote(w, i), Passing(w.fpu, e)), Laid(Layout(i)))
  {
    PositionedEval(w.fpu, e, i, map[]);
    var e' := Positioned(e, i).value;
    forall r | r in Denote(w, i) ensures PhysPassing(w.fpu, e')(Laid(Layout(i))(r)) == Passing(w.fpu, e)(r) {
      PositionedEval(w.fpu, e, i, r);
    }
    FilterMap(Denote(w, i), Laid(Layout(i)), Passing(w.fpu, e), PhysPassing(w.fpu, e'));
  }

  /** The rows of a group its zone map rules out fail the predicate that was extracted. */
  lemma SkippedRowsFail(w: World, scan: Plan, e: Expr, g: StoredGroup, row: Cells)
    requires scan.ScanNode? && FromTree(scan) && Ready(w, FilterNode(scan, e)) && WorldSound(w)
    requires scan.tableId in w.tables && g in w.tables[scan.tableId].groups && row in g.rows
    requires SkipsGroup(g, TryExtractZoneMapSkip(e, scan.bindingId)) == Some(true)
    ensures Positioned(e, scan).Some?
    ensures !PhysPassing(w.fpu, Positioned(e, scan).value)(Pick(scan.requiredOrdinals)(row))
  {
    var skip := TryExtractZoneMapSkip(e, scan.bindingId).value;
    var logical := ScanRow(scan.bindingId)(row);
    ScanRowLaid(scan, row);
    PositionedEval(w.fpu, e, scan, logical);
    assert GroupSound(g, w.tables[scan.tableId].types);
    RuledOutGroupHasNoMatch(w.fpu, g, w.tables[scan.tableId].types, skip, e.arithmeticType, row);
    CellMapGet(scan.bindingId, row, scan.bindingId, skip.ordinal);
    assert CellsTyped(row, w.tables[scan.tableId].types);
  }

  lemma SkipInScan(w: World, scan: Plan, e: Expr)
    requires scan.ScanNode? && FromTree(scan) && Ready(w, FilterNode(scan, e))
    ensures var skip := TryExtractZoneMapSkip(e, scan.bindingId);
      skip.Some? ==> skip.value.ordinal < |scan.columns| && !skip.value.constant.StrL?
  {
    if TryExtractZoneMapSkip(e, scan.bindingId).Some? {
      assert e.left.ref in CollectColumnRefs(e);
      PositionIsPlace(scan, e.left.ref);
    }
  }

  /** With a well-typed skip, or nothing to skip, the filter hides what the zone maps leave out. */
  lemma FilteredScanRows(w: World, scan: Plan, e: Expr)
    requires scan.ScanNode? && FromTree(scan) && Ready(w, FilterNode(scan, e)) && WorldSound(w)
    requires !SkipThrows(w, scan, e)
    ensures Positioned(e, scan).Some? && scan.tableId in w.tables
    ensures var skip := TryExtractZoneMapSkip(e, scan.bindingId);
      var scanned := ScanGroups(w.tables[scan.tableId].groups, scan.requiredOrdinals, skip);
      && scanned.Some?
      && Filter(scanned.value, PhysPassing(w.fpu, Positioned(e, scan).value))
         == Map(Denote(w, FilterNode(scan, e)), Laid(Layout(scan)))
  {
    FilterLaid(w, scan, e);
    FullScanLaid(w, scan);
    var groups, skip := w.tables[scan.tableId].groups, TryExtractZoneMapSkip(e, scan.bindingId);
    var keep := PhysPassing(w.fpu, Positioned(e, scan).value);
    forall g | g in groups ensures SkipsGroup(g, skip).Some? {
      assert GroupSound(g, w.tables[scan.tableId].types);
      if skip.Some? { ZoneOfWellBuilt(scan.columns[skip.value.ordinal], ColumnCells(g.rows, skip.value.ordinal)); }
    }
    forall g, row | g in groups && row in g.rows && SkipsGroup(g, skip) == Some(true)
      ensures !keep(Pick(scan.requiredOrdinals)(row))
    {
      SkippedRowsFail(w, scan, e, g, row);
    }
    SkippingIsInvisible(groups, scan.requiredOrdinals, skip, keep);
  }

  /** Filter over a scan with the extracted skip equals filter over the full
      scan, unless the zone-map test or the filter throws. */
  lemma FilteredScanSimulates(w: World, scan: Plan, e: Expr)
    requires scan.ScanNode? && FromTree(scan) && Ready(w, FilterNode(scan, e)) && WorldSound(w)
    ensures Simulates(w, FilterNode(scan, e))
  {
    FilterLaid(w, scan, e);
    SkipInScan(w, scan, e);
    if SkipThrows(w, scan, e) {
      var skip := TryExtractZoneMapSkip(e, scan.bindingId).value;
      ScanThrowsIff(w.tables[scan.tableId], scan.requiredOrdinals, skip);
    } else {
      FilteredScanRows(w, scan, e);
      PositionedKind(e, scan);
    }
  }

  /** A filter over operators that deliver the laid-out rows of its input. */
  lemma RunFilter(w: World, child: Op, i: Plan, e: Expr, chunks: bool, filled: bool)
    requires FromTree(i) && Relational(i) && AllFound(CollectColumnRefs(e), i)
    requires Run(w, child) == Some(Output(Map(Denote(w, i), Laid(Layout(i))), chunks, filled))
    ensures Positioned(e, i).Some?
    ensures Run(w, FilterOp(child, Positioned(e, i).value)) ==
      if FilterThrows(e, filled) then None
      else Some(Output(Map(Denote(w, FilterNode(i, e)), Laid(Layout(i))), chunks, filled))
  {
    FilterLaid(w, i, e);
    PositionedKind(e, i);
  }

  lemma FilterSimulates(w: World, i: Plan, e: Expr)
    requires FromTree(i) && !i.ScanNode? && Ready(w, FilterNode(i, e)) && Relational(i) && Simulates(w, i)
    ensures Simulates(w, FilterNode(i, e))
  {
    FilterLaid(w, i, e);
    if !Throws(w, i) { RunFilter(w, Translate(w.tables.Keys, i).value, i, e, Chunked(w, i), Filled(w, i)); }
  }

  lemma MergedLaid(l: Plan, r: Plan, a: Row, b: Row)
    requires FromTree(l) && FromTree(r)
    requires WithinIds(a, CollectBindingIds(l)) && WithinIds(b, CollectBindingIds(r))
    requires forall id :: id in CollectBindingIds(l) ==> id !in CollectBindingIds(r)
    ensures Laid(Layout(r) + Layout(l))(Merge()(a, b)) == BuildThenProbe()(Laid(Layout(l))(a), Laid(Layout(r))(b))
  {
    forall k | k in Layout(r) ensures CellIn(a + b)(k) == CellIn(b)(k) { LayoutWithinIds(r, k); }
    forall k | k in Layout(l) ensures CellIn(a + b)(k) == CellIn(a)(k) { LayoutWithinIds(l, k); }
    MapConcat(Layout(r), Layout(l), CellIn(a + b));
    MapSame(Layout(r), CellIn(a + b), CellIn(b));
    MapSame(Layout(l), CellIn(a + b), CellIn(a));
  }

  /** The i-th key positions hold the i-th key cells of both rows. */
  lemma KeyCellsLaid(l: Plan, r: Plan, equi: seq<EquiPair>, a: Row, b: Row, i: nat)
    requires FromTree(l) && FromTree(r) && i < |equi|
    requires AllFound(LeftKeys(equi, CollectBindingIds(l)), l) && AllFound(RightKeys(equi, CollectBindingIds(l)), r)
    ensures var left := CollectBindingIds(l);
      var probeKeys, buildKeys := PositionsOf(LeftKeys(equi, left), l), PositionsOf(RightKeys(equi, left), r);
      && probeKeys.Some? && buildKeys.Some? && |probeKeys.value| == |buildKeys.value| == |equi|
      && CellAt(Laid(Layout(l))(a), probeKeys.value[i]) == RowEnv(a)(LeftKey(left, equi[i]))
      && CellAt(Laid(Layout(r))(b), buildKeys.value[i]) == RowEnv(b)(RightKey(left, equi[i]))
  {
    var left := CollectBindingIds(l);
    PositionsOfFound(LeftKeys(equi, left), l);
    PositionsOfFound(RightKeys(equi, left), r);
    assert LeftKeys(equi, left)[i] == LeftKey(left, equi[i]) && LeftKeys(equi, left)[i] in LeftKeys(equi, left);
    assert RightKeys(equi, left)[i] == RightKey(left, equi[i]) && RightKeys(equi, left)[i] in RightKeys(equi, left);
    PositionHoldsCell(l, LeftKey(left, equi[i]), a);
    PositionHoldsCell(r, RightKey(left, equi[i]), b);
  }

  lemma KeysLaid(l: Plan, r: Plan, equi: seq<EquiPair>, probeKeys: seq<nat>, buildKeys: seq<nat>, a: Row, b: Row)
    requires FromTree(l) && FromTree(r)
    requires AllFound(LeftKeys(equi, CollectBindingIds(l)), l) && AllFound(RightKeys(equi, CollectBindingIds(l)), r)
    requires PositionsOf(LeftKeys(equi, CollectBindingIds(l)), l) == Some(probeKeys)
    requires PositionsOf(RightKeys(equi, CollectBindingIds(l)), r) == Some(buildKeys)
    ensures JoinMatch(equi, CollectBindingIds(l))(a, b)
         == PhysMatch(probeKeys, buildKeys)(Laid(Layout(l))(a), Laid(Layout(r))(b))
  {
    var left := CollectBindingIds(l);
    PositionsOfFound(LeftKeys(equi, left), l);
    PositionsOfFound(RightKeys(equi, left), r);
    forall i | 0 <= i < |equi|
      ensures CellAt(Laid(Layout(l))(a), probeKeys[i]) == LeftCell(left, a)(equi[i])
      ensures CellAt(Laid(Layout(r))(b), buildKeys[i]) == RightCell(left, b)(equi[i])
    {
      KeyCellsLaid(l, r, equi, a, b, i);
    }
    assert Map(equi, LeftCell(left, a)) == KeyCells(Laid(Layout(l))(a), probeKeys);
    assert Map(equi, RightCell(left, b)) == KeyCells(Laid(Layout(r))(b), buildKeys);
  }

  lemma ReadyHasSchema(w: World, p: Plan)
    requires Ready(w, p)
    ensures PhysicalOutputSchema(p).Some?
  {
    match p
    case ScanNode(_, _, columns, ordinals) => TypesAtLength(columns, ordinals);
    case FilterNode(i, _) => ReadyHasSchema(w, i);
    case JoinNode(l, r, _) => ReadyHasSchema(w, l); ReadyHasSchema(w, r);
    case _ =>
  }

  /** The physical join of laid-out rows is the laid-out logical join. */
  lemma JoinRowsLaid(w: World, l: Plan, r: Plan, equi: seq<EquiPair>, probeKeys: seq<nat>, buildKeys: seq<nat>)
    requires FromTree(JoinNode(l, r, equi)) && Relational(l) && Relational(r)
    requires AllFound(LeftKeys(equi, CollectBindingIds(l)), l) && AllFound(RightKeys(equi, CollectBindingIds(l)), r)
    requires PositionsOf(LeftKeys(equi, CollectBindingIds(l)), l) == Some(probeKeys)
    requires PositionsOf(RightKeys(equi, CollectBindingIds(l)), r) == Some(buildKeys)
    ensures Map(NestedLoop(Denote(w, l), Denote(w, r), JoinMatch(equi, CollectBindingIds(l)), Merge()),
                Laid(Layout(r) + Layout(l)))
         == NestedLoop(Map(Denote(w, l), Laid(Layout(l))), Map(Denote(w, r), Laid(Layout(r))),
                       PhysMatch(probeKeys, buildKeys), BuildThenProbe())
  {
    var left := CollectBindingIds(l);
    var ls, rs := Denote(w, l), Denote(w, r);
    forall a, b | a in ls && b in rs
      ensures JoinMatch(equi, left)(a, b) == PhysMatch(probeKeys, buildKeys)(Laid(Layout(l))(a), Laid(Layout(r))(b))
      ensures Laid(Layout(r) + Layout(l))(Merge()(a, b)) == BuildThenProbe()(Laid(Layout(l))(a), Laid(Layout(r))(b))
    {
      RowsWithinIds(w, l, a);
      RowsWithinIds(w, r, b);
      KeysLaid(l, r, equi, probeKeys, buildKeys, a, b);
      MergedLaid(l, r, a, b);
    }
    MapLoop(ls, rs, JoinMatch(equi, left), Merge(), Laid(Layout(l)), Laid(Layout(r)), Laid(Layout(r) + Layout(l)),
            PhysMatch(probeKeys, buildKeys), BuildThenProbe());
  }

  lemma JoinSimulates(w: World, l: Plan, r: Plan, equi: seq<EquiPair>)
    requires FromTree(JoinNode(l, r, equi)) && Ready(w, JoinNode(l, r, equi))
    requires Relational(l) && Relational(r) && Simulates(w, l) && Simulates(w, r)
    ensures Simulates(w, JoinNode(l, r, equi))
  {
    var left := CollectBindingIds(l);
    ReadyHasSchema(w, r);
    PositionsOfFound(LeftKeys(equi, left), l);
    PositionsOfFound(RightKeys(equi, left), r);
    JoinRowsLaid(w, l, r, equi, PositionsOf(LeftKeys(equi, left), l).value,
      PositionsOf(RightKeys(equi, left), r).value);
  }

  /** A ready FROM tree translates; its operators throw exactly when it says so,
      and otherwise deliver the logical rows laid out. */
  lemma {:induction false} FromTreeSimulates(w: World, p: Plan)
    requires FromTree(p) && Ready(w, p) && WorldSound(w)
    ensures Relational(p) && Simulates(w, p)
  {
    FromTreeRelational(p);
    match p
    case ScanNode(_, _, _, _) => FullScanLaid(w, p);
    case FilterNode(i, e) =>
      if i.ScanNode? {
        FilteredScanSimulates(w, i, e);
      } else {
        FromTreeSimulates(w, i);
        FilterSimulates(w, i, e);
      }
    case JoinNode(l, r, equi) =>
      FromTreeSimulates(w, l);
      FromTreeSimulates(w, r);
      JoinSimulates(w, l, r, equi);
  }
}
