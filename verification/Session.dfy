/** A bound query from its plan to its chunks: the optimizer's operator trees
    are well-typed, so the engine can run them, and what comes out is the
    reference answer or one of the exceptions named. */
module Session {
  import opened Seqs
  import opened Types
  import opened Expressions
  import opened Typing
  import opened LogicalPlan
  import opened Pushdown
  import opened Placement
  import opened Pruning
  import opened Physical
  import opened Translation
  import opened Chunks
  import opened BufferPool
  import opened Layout
  import opened SeqScan
  import opened Optimizer
  import opened Engine
  import opened RoundTrip
  import Aggregation
  import HashJoin

  // ----- pruning keeps scopes -----

  lemma {:induction false} PrunedScoped(w: World, p: Plan, required: seq<ColumnRef>)
    requires FromTree(p) && Scoped(w, p)
    ensures forall ref :: Resolves(Pruned(p, required), ref) == Resolves(p, ref)
    ensures Scoped(w, Pruned(p, required))
    ensures ConditionsTyped(Pruned(p, required)) == ConditionsTyped(p)
  {
    match p
    case ScanNode(_, _, _, _) =>
    case FilterNode(i, e) => PrunedScoped(w, i, required + CollectColumnRefs(e));
    case JoinNode(l, r, equi) =>
      var all := required + EquiColumns(equi);
      var forLeft := Filter(all, InIds(CollectBindingIds(l)));
      var forRight := Filter(all, InIdsButNot(CollectBindingIds(r), CollectBindingIds(l)));
      PrunedScoped(w, l, forLeft);
      PrunedScoped(w, r, forRight);
      forall pair | pair in equi ensures PairScoped(Pruned(l, forLeft), Pruned(r, forRight), pair) {
        assert PairScoped(l, r, pair);
      }
  }

  // ----- positions have the announced types -----

  lemma {:induction false} TypesAtIs(columns: seq<TypeId>, ordinals: seq<nat>)
    requires TypesAt(columns, ordinals).Some?
    ensures |TypesAt(columns, ordinals).value| == |ordinals|
    ensures forall k :: 0 <= k < |ordinals| ==>
      ordinals[k] < |columns| && TypesAt(columns, ordinals).value[k] == columns[ordinals[k]]
  {
    if ordinals != [] {
      SplitLast(ordinals);
      TypesAtIs(columns, ordinals[..|ordinals| - 1]);
    }
  }

  predicate HoldsType(p: Plan, ref: ColumnRef, schema: seq<TypeId>) {
    var pos := FindColumnPosition(p, ref);
    pos.Some? && pos.value < |schema| && schema[pos.value] == ref.ty
  }

  /** The column found for a reference has the type the reference announces. */
  lemma {:induction false} PositionTyped(p: Plan, ref: ColumnRef)
    requires FromTree(p) && Resolves(p, ref)
    requires FindColumnPosition(p, ref).Some? && PhysicalOutputSchema(p).Some?
    ensures HoldsType(p, ref, PhysicalOutputSchema(p).value)
  {
    match p
    case ScanNode(_, _, columns, ordinals) => TypesAtIs(columns, ordinals);
    case FilterNode(i, _) => PositionTyped(i, ref);
    case JoinNode(l, r, _) =>
      if ref.tableId in CollectBindingIds(l) {
        if Resolves(r, ref) { ResolvesWithinIds(r, ref); }
        PositionTyped(l, ref);
      } else {
        if Resolves(l, ref) { ResolvesWithinIds(l, ref); }
        PositionTyped(r, ref);
      }
  }

  /** Every reference is found at a position of its type. */
  predicate AllHold(p: Plan, refs: seq<ColumnRef>, schema: seq<TypeId>) {
    forall ref :: ref in refs ==> HoldsType(p, ref, schema)
  }

  lemma ResolvedHold(p: Plan, refs: seq<ColumnRef>)
    requires FromTree(p) && AllResolve(p, refs) && AllFound(refs, p) && PhysicalOutputSchema(p).Some?
    ensures AllHold(p, refs, PhysicalOutputSchema(p).value)
  {
    forall ref | ref in refs ensures HoldsType(p, ref, PhysicalOutputSchema(p).value) { PositionTyped(p, ref); }
  }

  lemma {:induction false} PositionedFits(e: Expr, p: Plan, schema: seq<TypeId>)
    requires AllHold(p, CollectColumnRefs(e), schema)
    ensures Positioned(e, p).Some? && Fits(Positioned(e, p).value, schema)
  {
    match e
    case Col(ref) => assert ref in CollectColumnRefs(e);
    case Const(_) =>
    case Binary(_, l, r, _) => PositionedFits(l, p, schema); PositionedFits(r, p, schema);
    case Not(x) => PositionedFits(x, p, schema);
  }

  // ----- operator trees of FROM trees -----

  /** The database and the world have the same tables. */
  ghost predicate SameTables(db: Database, w: World) {
    w.tables.Keys == db.tables.Keys && forall t :: t in db.tables ==> w.tables[t].types == db.tables[t].types
  }

  lemma ScanTyped(db: Database, w: World, p: Plan)
    requires SameTables(db, w) && p.ScanNode? && Ready(w, p)
    ensures PhysicalOutputSchema(p).Some?
    ensures forall skip :: OpTypes(db, SeqScan(p.tableId, p.requiredOrdinals, skip)) == PhysicalOutputSchema(p)
  {
    ReadyHasSchema(w, p);
    TypesAtIs(p.columns, p.requiredOrdinals);
    forall k | 0 <= k < |p.requiredOrdinals| ensures p.requiredOrdinals[k] in p.requiredOrdinals { }
    assert ScanTypes(p.columns, p.requiredOrdinals) == TypesAt(p.columns, p.requiredOrdinals).value;
  }

  lemma FilterTyped(db: Database, child: Op, i: Plan, e: Expr)
    requires PhysicalOutputSchema(i).Some? && OpTypes(db, child) == PhysicalOutputSchema(i)
    requires AllHold(i, CollectColumnRefs(e), PhysicalOutputSchema(i).value) && IsPredicate(e)
    ensures Positioned(e, i).Some?
    ensures OpTypes(db, FilterOp(child, Positioned(e, i).value)) == PhysicalOutputSchema(i)
  {
    PositionedFits(e, i, PhysicalOutputSchema(i).value);
    PositionedKind(e, i);
  }

  lemma PositionsTyped(refs: seq<ColumnRef>, p: Plan, schema: seq<TypeId>)
    requires AllHold(p, refs, schema)
    ensures PositionsOf(refs, p).Some? && |PositionsOf(refs, p).value| == |refs|
    ensures KeysIn(PositionsOf(refs, p).value, schema)
    ensures forall i :: 0 <= i < |refs| ==>
      PositionsOf(refs, p).value[i] < |schema| && schema[PositionsOf(refs, p).value[i]] == refs[i].ty
  {
    PositionsOfFound(refs, p);
    forall i | 0 <= i < |refs| ensures HoldsType(p, refs[i], schema) { }
  }

  lemma KeysHold(l: Plan, r: Plan, equi: seq<EquiPair>, ls: seq<TypeId>, rs: seq<TypeId>)
    requires AllHold(l, LeftKeys(equi, CollectBindingIds(l)), ls) &&
      AllHold(r, RightKeys(equi, CollectBindingIds(l)), rs)
    ensures var left := CollectBindingIds(l);
      var probe, build := PositionsOf(LeftKeys(equi, left), l), PositionsOf(RightKeys(equi, left), r);
      && probe.Some? && build.Some? && KeysIn(probe.value, ls) && KeysIn(build.value, rs)
  {
    var left := CollectBindingIds(l);
    PositionsTyped(LeftKeys(equi, left), l, ls);
    PositionsTyped(RightKeys(equi, left), r, rs);
  }

  lemma JoinTyped(db: Database, w: World, l: Plan, r: Plan, equi: seq<EquiPair>, probe: Op, build: Op)
    requires FromTree(JoinNode(l, r, equi)) && Ready(w, JoinNode(l, r, equi)) && Scoped(w, JoinNode(l, r, equi))
    requires PhysicalOutputSchema(l).Some? && PhysicalOutputSchema(r).Some?
    requires Translate(w.tables.Keys, l) == Some(probe) && Translate(w.tables.Keys, r) == Some(build)
    requires OpTypes(db, probe) == PhysicalOutputSchema(l) && OpTypes(db, build) == PhysicalOutputSchema(r)
    ensures Translate(w.tables.Keys, JoinNode(l, r, equi)).Some?
    ensures OpTypes(db, Translate(w.tables.Keys, JoinNode(l, r, equi)).value) ==
      PhysicalOutputSchema(JoinNode(l, r, equi))
  {
    var left := CollectBindingIds(l);
    var ls, rs := PhysicalOutputSchema(l).value, PhysicalOutputSchema(r).value;
    forall i | 0 <= i < |equi|
      ensures Resolves(l, LeftKeys(equi, left)[i]) && Resolves(r, RightKeys(equi, left)[i])
    {
      assert PairScoped(l, r, equi[i]);
      PairSides(l, r, equi, equi[i]);
    }
    ResolvedHold(l, LeftKeys(equi, left));
    ResolvedHold(r, RightKeys(equi, left));
    KeysHold(l, r, equi, ls, rs);
  }

  /** The operators of a ready, scoped FROM tree are well-typed, with the tree's schema. */
  lemma {:induction false} FromTreeTyped(db: Database, w: World, p: Plan)
    requires SameTables(db, w) && FromTree(p) && Ready(w, p) && Scoped(w, p) && ConditionsTyped(p)
    ensures Translate(w.tables.Keys, p).Some? && PhysicalOutputSchema(p).Some?
    ensures OpTypes(db, Translate(w.tables.Keys, p).value) == PhysicalOutputSchema(p)
  {
    ReadyHasSchema(w, p);
    match p
    case ScanNode(_, _, _, _) => ScanTyped(db, w, p);
    case FilterNode(i, e) =>
      ResolvedHold(i, CollectColumnRefs(e));
      if i.ScanNode? {
        ScanTyped(db, w, i);
        FilterTyped(db, SeqScan(i.tableId, i.requiredOrdinals, TryExtractZoneMapSkip(e, i.bindingId)), i, e);
      } else {
        FromTreeTyped(db, w, i);
        FilterTyped(db, Translate(w.tables.Keys, i).value, i, e);
      }
    case JoinNode(l, r, equi) =>
      FromTreeTyped(db, w, l);
      FromTreeTyped(db, w, r);
      JoinTyped(db, w, l, r, equi, Translate(w.tables.Keys, l).value, Translate(w.tables.Keys, r).value);
  }

  // ----- aggregates and projections -----

  lemma {:induction false} SpecsTyped(aggs: seq<AggCall>, p: Plan, schema: seq<TypeId>)
    requires AllHold(p, ArgColumns(aggs), schema) && forall call :: call in aggs ==> CallTyped(call)
    ensures SpecsFor(aggs, p).Some? && |SpecsFor(aggs, p).value| == |aggs|
    ensures forall k :: 0 <= k < |aggs| ==> SpecsFor(aggs, p).value[k].spec == SpecOf()(aggs[k])
    ensures forall s :: s in SpecsFor(aggs, p).value ==>
      && (s.column.Some? ==> s.column.value < |schema| && schema[s.column.value] == s.spec.ty)
      && (s.spec.fn.Sum? || s.spec.fn.Avg? ==> s.spec.ty != Varchar)
  {
    if aggs != [] {
      var init, last := aggs[..|aggs| - 1], aggs[|aggs| - 1];
      SplitLast(aggs);
      assert forall ref :: ref in ArgColumns(init) ==> ref in ArgColumns(aggs);
      SpecsTyped(init, p, schema);
      assert CallTyped(last);
      if last.arg.Some? { assert last.arg.value in ArgColumns(aggs) && HoldsType(p, last.arg.value, schema); }
    }
  }

  lemma AggregateTyped(db: Database, catalog: set<nat>, i: Plan, groupBy: seq<ColumnRef>, aggs: seq<AggCall>, child: Op)
    requires PhysicalOutputSchema(i).Some? && Translate(catalog, i) == Some(child)
    requires OpTypes(db, child) == PhysicalOutputSchema(i)
    requires AllHold(i, groupBy, PhysicalOutputSchema(i).value) &&
      AllHold(i, ArgColumns(aggs), PhysicalOutputSchema(i).value)
    requires forall call :: call in aggs ==> CallTyped(call)
    ensures var op := Translate(catalog, AggregateNode(i, groupBy, aggs));
      op.Some? && OpTypes(db, op.value) == Some(OutputTypes(groupBy, aggs))
  {
    var schema := PhysicalOutputSchema(i).value;
    PositionsTyped(groupBy, i, schema);
    SpecsTyped(aggs, i, schema);
    var columns, specs := PositionsOf(groupBy, i).value, SpecsFor(aggs, i).value;
    var cfg := Aggregation.Config(db.fpu, columns, Map(groupBy, (ref: ColumnRef) => ref.ty), specs, schema);
    assert Aggregation.WellTyped(cfg);
    SpecsOutput(aggs, specs);
  }

  lemma SpecsOutput(aggs: seq<AggCall>, specs: seq<AggregateSpec>)
    requires |specs| == |aggs| && forall k :: 0 <= k < |aggs| ==> specs[k].spec == SpecOf()(aggs[k])
    ensures Map(specs, Aggregation.OutTypeOf()) == Map(aggs, (call: AggCall) => OutputType(call))
  {
    forall k | 0 <= k < |aggs| ensures Aggregation.OutType(specs[k]) == OutputType(aggs[k]) { }
  }

  lemma {:induction false} ItemsTyped(exprs: seq<Expr>, child: Plan, schema: seq<TypeId>)
    requires AllHold(child, ExprColumns(exprs), schema) && SelectTyped(exprs)
    ensures PositionedAll(exprs, child).Some?
    ensures forall e :: e in PositionedAll(exprs, child).value ==> Typed(e, schema)
  {
    if exprs != [] {
      var init, last := exprs[..|exprs| - 1], exprs[|exprs| - 1];
      SplitLast(exprs);
      assert last in exprs;
      ItemsTyped(init, child, schema);
      PositionedFits(last, child, schema);
      PositionedKind(last, child);
    }
  }

  lemma ProjectTyped(db: Database, catalog: set<nat>, child: Plan, exprs: seq<Expr>, op: Op, schema: seq<TypeId>)
    requires Translate(catalog, child) == Some(op) && OpTypes(db, op) == Some(schema)
    requires AllHold(child, ExprColumns(exprs), schema) && SelectTyped(exprs)
    ensures var root := Translate(catalog, ProjectNode(child, exprs));
      root.Some? && OpTypes(db, root.value).Some?
  {
    ItemsTyped(exprs, child, schema);
  }

  lemma OptimizedFromTreeTyped(db: Database, w: World, p: Plan)
    requires SameTables(db, w) && Query(w, p) && FromTree(p.input)
    ensures Optimize(w.tables.Keys, p).Some? && OpTypes(db, Optimize(w.tables.Keys, p).value).Some?
  {
    var tree, required := Rewritten(p.input), ExprColumns(p.exprs);
    RewrittenScoped(w, p.input);
    RewrittenTyped(p.input);
    assert Requirable(tree, required);
    PrunedReady(w, tree, required);
    PrunedScoped(w, tree, required);
    PrunedDenotes(w, tree, required);
    var child := Pruned(tree, required);
    FromTreeTyped(db, w, child);
    forall ref | ref in required ensures FindColumnPosition(child, ref).Some? { PrunedFinds(w, tree, required, ref); }
    ResolvedHold(child, required);
    ProjectTyped(db, w.tables.Keys, child, p.exprs, Translate(w.tables.Keys, child).value,
      PhysicalOutputSchema(child).value);
  }

  lemma {:induction false} BaseTyped(p: Plan)
    requires Body(p) && !FromTree(p) && ConditionsTyped(p)
    ensures ConditionsTyped(BaseInput(p))
  {
    if p.FilterNode? { BaseTyped(p.input); }
  }

  lemma OptimizedAggregateTyped(db: Database, w: World, body: Plan, exprs: seq<Expr>)
    requires SameTables(db, w) && Query(w, ProjectNode(body, exprs)) && !FromTree(body)
    ensures var op := Optimize(w.tables.Keys, ProjectNode(body, exprs));
      op.Some? && OpTypes(db, op.value).Some?
  {
    AggregateLogicalSide(w, body);
    RewrittenTyped(body);
    var agg := Rewritten(body);
    AggregateOverTree(db, w, agg.input, agg.groupBy, agg.aggregates, exprs);
    OptimizedAggregateShape(w.tables.Keys, body, exprs);
  }

  lemma AggregateOverTree(db: Database, w: World, i: Plan, groupBy: seq<ColumnRef>, aggs: seq<AggCall>,
                          exprs: seq<Expr>)
    requires SameTables(db, w) && FromTree(i) && Scoped(w, i) && ConditionsTyped(i) && AggregateScoped(i, groupBy, aggs)
    requires forall call :: call in aggs ==> CallTyped(call)
    requires SelectTyped(exprs) && forall ref :: ref in ExprColumns(exprs) ==> ResolvesAbove(groupBy, aggs, ref)
    ensures var op :=
      Translate(w.tables.Keys, ProjectNode(AggregateNode(Pruned(i, groupBy + ArgColumns(aggs)), groupBy, aggs), exprs));
      op.Some? && OpTypes(db, op.value).Some?
  {
    var required := groupBy + ArgColumns(aggs);
    PrunedAggregateFinds(w, i, groupBy, aggs);
    PrunedReady(w, i, required);
    PrunedScoped(w, i, required);
    PrunedDenotes(w, i, required);
    var child := Pruned(i, required);
    FromTreeTyped(db, w, child);
    ResolvedHold(child, groupBy);
    ResolvedHold(child, ArgColumns(aggs));
    AggregateTyped(db, w.tables.Keys, child, groupBy, aggs, Translate(w.tables.Keys, child).value);
    var agg := AggregateNode(child, groupBy, aggs);
    forall ref | ref in ExprColumns(exprs) ensures HoldsType(agg, ref, OutputTypes(groupBy, aggs)) {
      assert ResolvesAbove(groupBy, aggs, ref);
    }
    ProjectTyped(db, w.tables.Keys, agg, exprs, Translate(w.tables.Keys, agg).value, OutputTypes(groupBy, aggs));
  }

  /** The operators of every bound query are well-typed. */
  lemma OptimizedTyped(db: Database, w: World, p: Plan)
    requires SameTables(db, w) && Query(w, p)
    ensures Optimize(w.tables.Keys, p).Some? && OpTypes(db, Optimize(w.tables.Keys, p).value).Some?
  {
    if FromTree(p.input) {
      OptimizedFromTreeTyped(db, w, p);
    } else {
      OptimizedAggregateTyped(db, w, p.input, p.exprs);
      assert p == ProjectNode(p.input, p.exprs);
    }
  }

  // ----- the query -----

  /** No float column of any row group begins with a NaN. */
  ghost predicate AllNaNFree(db: Database, sources: Sources) {
    forall t, k :: t in db.tables && t in sources && 0 <= k < |sources[t].contents| ==> NaNFree(sources[t].contents[k])
  }

  lemma StoredWorldSound(db: Database, sources: Sources, pages: Pages, end: nat)
    requires Stored(db, sources, pages, end) && AllNaNFree(db, sources)
    ensures WorldSound(WorldOf(db, sources, pages, end)) && SameTables(db, WorldOf(db, sources, pages, end))
  {
    var w := WorldOf(db, sources, pages, end);
    forall t | t in w.tables ensures TableSound(w.tables[t]) {
      assert TableHeld(db.tables[t], sources[t], pages, end);
      ViewSound(db.tables[t], sources[t]);
    }
    forall t | t in db.tables ensures w.tables[t].types == db.tables[t].types {
      assert TableHeld(db.tables[t], sources[t], pages, end);
    }
  }

  lemma ViewSound(table: StoredTable, s: Source)
    requires Sourced(s, table.groups, table.types) && forall k :: 0 <= k < |s.contents| ==> NaNFree(s.contents[k])
    ensures TableSound(TableOf(table, s))
  {
    var view := TableView(table.groups, s.contents);
    forall g | g in view ensures GroupSound(g, table.types) {
      var k :| 0 <= k < |view| && view[k] == g;
      assert GroupFits(s.pages, s.end, table.types, table.groups[k], s.contents[k], s.extents[k]);
      StoredGroupSound(s.pages, table.groups[k], s.contents[k], s.extents[k].0, s.extents[k].1, table.types);
    }
  }

  ghost predicate Answers(chunks: Option<seq<Chunk>>, rows: seq<Cells>) {
    chunks.Some? && AllValid(chunks.value) && Stream(chunks.value) == rows
  }

  /** Why a bound query fails: planning throws on HAVING or on a one-sided join
      equality, an operator throws, or a row group is not legible. */
  ghost predicate QueryFails(db: Database, w: World, root: Plan)
    requires SameTables(db, w) && WorldSound(w) && BoundQuery(w, root)
  {
    || !HavingOverGroupBy(root.input)
    || !TwoSided(root.input)
    || (OptimizesIff(w, root); OptimizeRuns(w, root); QueryThrows(w, root.input, root.exprs))
    || (OptimizesIff(w, root); !Legible(db, Optimize(w.tables.Keys, root).value))
  }

  /** A bound query over a stored database, from optimizer to chunks. It fails
      exactly when HAVING reads a column that is not grouped, a join equality has
      both columns on one side, an operator of the rewritten plan throws, or a
      row group is not legible; the chunks are the
      reference answer exactly when, besides, no column-free HAVING over an
      aggregate without GROUP BY fails. */
  method ExecuteQuery(pool: BufferPoolManager, db: Database, root: Plan,
                      ghost sources: Sources, ghost pages: Pages, ghost end: nat) returns (chunks: Option<seq<Chunk>>)
    requires Stored(db, sources, pages, end) && AllNaNFree(db, sources) && Quiet(pool, pages, end)
    requires BoundQuery(WorldOf(db, sources, pages, end), root)
    modifies pool, pool.replacer, pool.disk
    ensures Quiet(pool, pages, end) && Relational(root.input)
    ensures var w := WorldOf(db, sources, pages, end);
      && SameTables(db, w) && WorldSound(w)
      && (chunks.None? <==> QueryFails(db, w, root))
      && (Answers(chunks, Answer(w, root)) <==> !QueryFails(db, w, root) && ConstantHavingHolds(w.fpu, root.input))
  {
    ghost var w := WorldOf(db, sources, pages, end);
    StoredWorldSound(db, sources, pages, end);
    BodyRelational(root.input);
    OptimizesIff(w, root);
    var op := OptimizeQuery(db.tables.Keys, root);
    if op.None? {
      return None;
    }
    OptimizedTyped(db, w, root);
    OptimizeRuns(w, root);
    OptimizeCorrectIff(w, root);
    chunks := Execute(pool, db, op.value, sources, pages, end);
  }
}
