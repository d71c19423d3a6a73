/** The optimizer end to end: pushdown, pruning and translation together turn
    a bound query into operators that deliver exactly the query's answer. */
module Optimizer {
  import opened Seqs
  import opened Types
  import opened Expressions
  import opened Typing
  import opened Grouping
  import opened LogicalPlan
  import opened Pushdown
  import opened Placement
  import opened Pruning
  import opened Physical
  import opened Translation

  function Optimize(catalog: set<nat>, root: Plan): Option<Op> {
    Translate(catalog, Pruned(Rewritten(root), []))
  }

  // ----- scoping, as name resolution leaves it -----

  /** The reference names an existing column of one of the tree's scans. */
  predicate Resolves(p: Plan, ref: ColumnRef) {
    match p
    case ScanNode(id, _, columns, _) => ref.tableId == id && ref.ordinal < |columns| && columns[ref.ordinal] == ref.ty
    case FilterNode(i, _) => Resolves(i, ref)
    case JoinNode(l, r, _) => Resolves(l, ref) || Resolves(r, ref)
    case _ => false
  }

  predicate AllResolve(p: Plan, refs: seq<ColumnRef>) {
    forall ref :: ref in refs ==> Resolves(p, ref)
  }

  /** Each equality has one column on each side; the two types may differ. */
  predicate PairScoped(l: Plan, r: Plan, pair: EquiPair) {
    (Resolves(l, pair.0) && Resolves(r, pair.1)) || (Resolves(r, pair.0) && Resolves(l, pair.1))
  }

  predicate Scoped(w: World, p: Plan) {
    match p
    case ScanNode(_, t, columns, _) => t in w.tables && w.tables[t].types == columns
    case FilterNode(i, e) => Scoped(w, i) && AllResolve(i, CollectColumnRefs(e))
    case JoinNode(l, r, equi) => Scoped(w, l) && Scoped(w, r) && forall pair :: pair in equi ==> PairScoped(l, r, pair)
    case _ => false
  }

  predicate AggregateScoped(i: Plan, groupBy: seq<ColumnRef>, aggs: seq<AggCall>) {
    AllResolve(i, groupBy) && AllResolve(i, ArgColumns(aggs))
  }

  /** A query body: its FROM tree is scoped, and HAVING uses columns of that tree. */
  predicate BodyScoped(w: World, p: Plan) {
    if FromTree(p) then Scoped(w, p)
    else
      match p
      case AggregateNode(i, groupBy, aggs) => Scoped(w, i) && AggregateScoped(i, groupBy, aggs)
      case FilterNode(i, e) => BodyScoped(w, i) && AllResolve(BaseInput(i), CollectColumnRefs(e))
      case _ => false
  }

  function BaseInput(p: Plan): Plan {
    match p
    case AggregateNode(i, _, _) => i
    case FilterNode(i, _) => BaseInput(i)
    case _ => p
  }

  function BaseAggregates(p: Plan): seq<AggCall> {
    match p
    case AggregateNode(_, _, aggs) => aggs
    case FilterNode(i, _) => BaseAggregates(i)
    case _ => []
  }

  function OutputType(call: AggCall): TypeId {
    match call.fn
    case CountStar => Integer
    case Count => Integer
    case Avg => Float
    case _ => SpecOf()(call).ty
  }

  /** The types of an aggregate's output columns: its keys, then its functions. */
  function OutputTypes(groupBy: seq<ColumnRef>, aggs: seq<AggCall>): seq<TypeId> {
    Map(groupBy, (ref: ColumnRef) => ref.ty) + Map(aggs, (call: AggCall) => OutputType(call))
  }

  /** The reference names an output column of the aggregate by its position. */
  predicate ResolvesAbove(groupBy: seq<ColumnRef>, aggs: seq<AggCall>, ref: ColumnRef) {
    && ref.tableId == AGGREGATE_ID && ref.ordinal < |groupBy| + |aggs|
    && OutputTypes(groupBy, aggs)[ref.ordinal] == ref.ty
  }

  predicate SelectScoped(body: Plan, exprs: seq<Expr>) {
    if FromTree(body) then AllResolve(body, ExprColumns(exprs))
    else forall ref :: ref in ExprColumns(exprs) ==> ResolvesAbove(BaseGroupBy(body), BaseAggregates(body), ref)
  }

  /** Only COUNT(*) has no argument, and text is neither summed nor averaged. */
  predicate CallTyped(call: AggCall) {
    && (call.fn.CountStar? <==> call.arg.None?)
    && (call.fn.Sum? || call.fn.Avg? ==> call.arg.value.ty != Varchar)
  }

  predicate SelectTyped(exprs: seq<Expr>) { forall e :: e in exprs ==> BoundType(e).Some? }

  /** What the binder checks of the root projection and of the whole plan. */
  ghost predicate RootTyped(p: Plan) {
    && p.ProjectNode?
    && Body(p.input) && SelectScoped(p.input, p.exprs)
    && ConditionsTyped(p) && SelectTyped(p.exprs)
    && (forall call :: call in BaseAggregates(p.input) ==> CallTyped(call))
  }

  /** What the binder hands over: resolved columns and type-checked expressions.
      An ON equality may name any two columns in scope, of any types. */
  ghost predicate BoundQuery(w: World, p: Plan) { RootTyped(p) && BodyNamed(w, p.input) }

  /** A bound query that can be planned: HAVING reads group-by columns, and each
      join equality has one column on each side. */
  ghost predicate Query(w: World, p: Plan) {
    RootTyped(p) && BodyScoped(w, p.input) && HavingOverGroupBy(p.input)
  }

  // ----- join equalities with both columns on one side -----

  /** A column of one of these tables is a column of the tree. */
  predicate RefNamed(p: Plan, ref: ColumnRef) { ref.tableId in CollectBindingIds(p) ==> Resolves(p, ref) }

  /** Scoped, but for the sides of the join equalities. */
  predicate Named(w: World, p: Plan) {
    match p
    case ScanNode(_, t, columns, _) => t in w.tables && w.tables[t].types == columns
    case FilterNode(i, e) => Named(w, i) && AllResolve(i, CollectColumnRefs(e))
    case JoinNode(l, r, equi) =>
      Named(w, l) && Named(w, r) && forall pair :: pair in equi ==> RefNamed(p, pair.0) && RefNamed(p, pair.1)
    case _ => false
  }

  predicate BodyNamed(w: World, p: Plan) {
    if FromTree(p) then Named(w, p)
    else
      match p
      case AggregateNode(i, groupBy, aggs) => Named(w, i) && AggregateScoped(i, groupBy, aggs)
      case FilterNode(i, e) => BodyNamed(w, i) && AllResolve(BaseInput(i), CollectColumnRefs(e))
      case _ => false
  }

  /** The column looked up on each side belongs to that side. */
  predicate Sided(left: seq<nat>, right: seq<nat>, pair: EquiPair) {
    LeftKey(left, pair).tableId in left && RightKey(left, pair).tableId in right
  }

  predicate TwoSided(p: Plan) {
    match p
    case ScanNode(_, _, _, _) => true
    case FilterNode(i, _) => TwoSided(i)
    case JoinNode(l, r, equi) =>
      && TwoSided(l) && TwoSided(r)
      && forall pair :: pair in equi ==> Sided(CollectBindingIds(l), CollectBindingIds(r), pair)
    case AggregateNode(i, _, _) => TwoSided(i)
    case ProjectNode(i, _) => TwoSided(i)
  }

  lemma PairScopedIff(l: Plan, r: Plan, equi: seq<EquiPair>, pair: EquiPair)
    requires FromTree(JoinNode(l, r, equi))
    ensures PairScoped(l, r, pair) <==>
      && RefNamed(JoinNode(l, r, equi), pair.0) && RefNamed(JoinNode(l, r, equi), pair.1)
      && Sided(CollectBindingIds(l), CollectBindingIds(r), pair)
  {
    forall ref | ref == pair.0 || ref == pair.1
      ensures Resolves(l, ref) ==> ref.tableId in CollectBindingIds(l)
      ensures Resolves(r, ref) ==> ref.tableId in CollectBindingIds(r)
    {
      if Resolves(l, ref) { ResolvesWithinIds(l, ref); }
      if Resolves(r, ref) { ResolvesWithinIds(r, ref); }
    }
  }

  lemma {:induction false} ScopedIff(w: World, p: Plan)
    requires FromTree(p)
    ensures Scoped(w, p) <==> Named(w, p) && TwoSided(p)
  {
    match p
    case ScanNode(_, _, _, _) =>
    case FilterNode(i, _) => ScopedIff(w, i);
    case JoinNode(l, r, equi) =>
      ScopedIff(w, l);
      ScopedIff(w, r);
      forall pair ensures PairScoped(l, r, pair) <==>
        RefNamed(p, pair.0) && RefNamed(p, pair.1) && Sided(CollectBindingIds(l), CollectBindingIds(r), pair)
      {
        PairScopedIff(l, r, equi, pair);
      }
  }

  lemma {:induction false} BodyScopedIff(w: World, p: Plan)
    requires Body(p)
    ensures BodyScoped(w, p) <==> BodyNamed(w, p) && TwoSided(p)
  {
    if FromTree(p) {
      ScopedIff(w, p);
    } else {
      match p
      case AggregateNode(i, _, _) => ScopedIff(w, i);
      case FilterNode(i, _) => BodyScopedIff(w, i);
    }
  }

  lemma {:induction false} ResolvesWithinIds(p: Plan, ref: ColumnRef)
    requires FromTree(p) && Resolves(p, ref)
    ensures ref.tableId in CollectBindingIds(p)
  {
    match p
    case ScanNode(_, _, _, _) =>
    case FilterNode(i, _) => ResolvesWithinIds(i, ref);
    case JoinNode(l, r, _) => if Resolves(l, ref) { ResolvesWithinIds(l, ref); } else { ResolvesWithinIds(r, ref); }
  }

  // ----- pushdown keeps queries scoped -----

  lemma {:induction false} ConjoinRefs(cs: seq<Expr>, ref: ColumnRef)
    requires cs != [] && ref in CollectColumnRefs(Conjoin(cs))
    ensures exists c :: c in cs && ref in CollectColumnRefs(c)
  {
    if |cs| > 1 {
      SplitLast(cs);
      if ref in CollectColumnRefs(Conjoin(cs[..|cs| - 1])) { ConjoinRefs(cs[..|cs| - 1], ref); }
    }
  }

  lemma {:induction false} ConjunctRefs(e: Expr, c: Expr, ref: ColumnRef)
    requires c in Conjuncts(e) && ref in CollectColumnRefs(c)
    ensures ref in CollectColumnRefs(e)
  {
    if e.Binary? && e.op.And? {
      if c in Conjuncts(e.left) { ConjunctRefs(e.left, c, ref); } else { ConjunctRefs(e.right, c, ref); }
    }
  }

  predicate AllScoped(p: Plan, cs: seq<Expr>) {
    forall c :: c in cs ==> AllResolve(p, CollectColumnRefs(c))
  }

  lemma WrapScoped(w: World, p: Plan, cs: seq<Expr>)
    requires Scoped(w, p) && AllScoped(p, cs)
    ensures Scoped(w, WrapInFilter(p, cs))
  {
    if cs != [] {
      forall ref | ref in CollectColumnRefs(Conjoin(cs)) ensures Resolves(p, ref) { ConjoinRefs(cs, ref); }
    }
  }

  lemma {:induction false} PlacedResolves(p: Plan, cs: seq<Expr>, ref: ColumnRef)
    requires FromTree(p)
    ensures Resolves(Placed(p, cs), ref) == Resolves(p, ref)
  {
    if cs != [] && p.JoinNode? {
      var left, right := CollectBindingIds(p.left), CollectBindingIds(p.right);
      PlacedResolves(p.left, Filter(cs, OnLeft(left)), ref);
      PlacedResolves(p.right, Filter(cs, OnRight(left, right)), ref);
    }
  }

  lemma BucketsScoped(l: Plan, r: Plan, equi: seq<EquiPair>, cs: seq<Expr>)
    requires FromTree(JoinNode(l, r, equi)) && AllScoped(JoinNode(l, r, equi), cs)
    ensures AllScoped(l, Filter(cs, OnLeft(CollectBindingIds(l))))
    ensures AllScoped(r, Filter(cs, OnRight(CollectBindingIds(l), CollectBindingIds(r))))
    ensures AllScoped(JoinNode(l, r, equi), Filter(cs, OnBoth(CollectBindingIds(l), CollectBindingIds(r))))
  {
    var left, right := CollectBindingIds(l), CollectBindingIds(r);
    FilterMembers(cs, OnLeft(left));
    FilterMembers(cs, OnRight(left, right));
    FilterMembers(cs, OnBoth(left, right));
    forall c, ref | c in Filter(cs, OnLeft(left)) && ref in CollectColumnRefs(c) ensures Resolves(l, ref) {
      assert Resolves(JoinNode(l, r, equi), ref);
      if Resolves(r, ref) { ResolvesWithinIds(r, ref); }
    }
    forall c, ref | c in Filter(cs, OnRight(left, right)) && ref in CollectColumnRefs(c) ensures Resolves(r, ref) {
      assert Resolves(JoinNode(l, r, equi), ref);
      if Resolves(l, ref) { ResolvesWithinIds(l, ref); }
    }
  }

  lemma {:induction false} PlacedScoped(w: World, p: Plan, cs: seq<Expr>)
    requires FromTree(p) && Scoped(w, p) && AllScoped(p, cs)
    ensures Scoped(w, Placed(p, cs))
    decreases p, 1
  {
    if cs != [] {
      match p
      case ScanNode(_, _, _, _) => WrapScoped(w, p, cs);
      case FilterNode(i, e) =>
        forall ref | ref in CollectColumnRefs(Conjoin([e] + cs)) ensures Resolves(i, ref) {
          ConjoinRefs([e] + cs, ref);
          var c :| c in [e] + cs && ref in CollectColumnRefs(c);
          if c != e { assert c in cs && Resolves(p, ref); }
        }
      case JoinNode(l, r, equi) => PlacedJoinScoped(w, l, r, equi, cs);
    }
  }

  lemma {:induction false} PlacedJoinScoped(w: World, l: Plan, r: Plan, equi: seq<EquiPair>, cs: seq<Expr>)
    requires cs != []
    requires FromTree(JoinNode(l, r, equi)) && Scoped(w, JoinNode(l, r, equi)) && AllScoped(JoinNode(l, r, equi), cs)
    ensures Scoped(w, Placed(JoinNode(l, r, equi), cs))
    decreases JoinNode(l, r, equi), 0
  {
    var left, right := CollectBindingIds(l), CollectBindingIds(r);
    var lcs, rcs, bcs := Filter(cs, OnLeft(left)), Filter(cs, OnRight(left, right)), Filter(cs, OnBoth(left, right));
    BucketsScoped(l, r, equi, cs);
    PlacedScoped(w, l, lcs);
    PlacedScoped(w, r, rcs);
    var join := JoinNode(Placed(l, lcs), Placed(r, rcs), equi);
    forall ref ensures Resolves(Placed(l, lcs), ref) == Resolves(l, ref) { PlacedResolves(l, lcs, ref); }
    forall ref ensures Resolves(Placed(r, rcs), ref) == Resolves(r, ref) { PlacedResolves(r, rcs, ref); }
    assert Scoped(w, join) by {
      forall pair | pair in equi
        ensures PairScoped(Placed(l, lcs), Placed(r, rcs), pair)
      {
        assert PairScoped(l, r, pair);
      }
    }
    assert AllScoped(join, bcs) by {
      forall c, ref | c in bcs && ref in CollectColumnRefs(c) ensures Resolves(join, ref) {
        assert Resolves(JoinNode(l, r, equi), ref);
      }
    }
    WrapScoped(w, join, bcs);
  }

  lemma {:induction false} RewrittenScoped(w: World, p: Plan)
    requires FromTree(p) && Scoped(w, p)
    ensures FromTree(Rewritten(p)) && Scoped(w, Rewritten(p))
    ensures forall ref :: Resolves(Rewritten(p), ref) == Resolves(p, ref)
  {
    RewrittenFromTree(p);
    match p
    case ScanNode(_, _, _, _) =>
    case FilterNode(i, e) =>
      RewrittenScoped(w, i);
      RewrittenFromTree(i);
      forall c, ref | c in Conjuncts(e) && ref in CollectColumnRefs(c) ensures Resolves(Rewritten(i), ref) {
        ConjunctRefs(e, c, ref);
      }
      PlacedScoped(w, Rewritten(i), Conjuncts(e));
      forall ref ensures Resolves(Rewritten(p), ref) == Resolves(p, ref) {
        PlacedResolves(Rewritten(i), Conjuncts(e), ref);
      }
    case JoinNode(l, r, equi) =>
      RewrittenScoped(w, l);
      RewrittenScoped(w, r);
      forall pair | pair in equi ensures PairScoped(Rewritten(l), Rewritten(r), pair) { assert PairScoped(l, r, pair); }
  }

  // ----- pruning leaves every needed column in place -----

  predicate Covered(p: Plan, required: seq<ColumnRef>, ref: ColumnRef) {
    ref in required && Resolves(p, ref)
  }

  lemma JoinRequirementsCover(l: Plan, r: Plan, equi: seq<EquiPair>, required: seq<ColumnRef>, ref: ColumnRef)
    requires FromTree(JoinNode(l, r, equi))
    requires ref in required + EquiColumns(equi)
    ensures Resolves(l, ref) ==> ref in Filter(required + EquiColumns(equi), InIds(CollectBindingIds(l)))
    ensures Resolves(r, ref) ==>
      ref in Filter(required + EquiColumns(equi), InIdsButNot(CollectBindingIds(r), CollectBindingIds(l)))
      && ref.tableId !in CollectBindingIds(l)
  {
    var all := required + EquiColumns(equi);
    FilterMembers(all, InIds(CollectBindingIds(l)));
    FilterMembers(all, InIdsButNot(CollectBindingIds(r), CollectBindingIds(l)));
    if Resolves(l, ref) { ResolvesWithinIds(l, ref); }
    if Resolves(r, ref) { ResolvesWithinIds(r, ref); }
  }

  /** Every requirement a scan may receive is one of its columns. */
  predicate Requirable(p: Plan, required: seq<ColumnRef>) {
    forall ref :: ref in required && ref.tableId in CollectBindingIds(p) ==> Resolves(p, ref)
  }

  lemma {:induction false} PrunedFinds(w: World, p: Plan, required: seq<ColumnRef>, ref: ColumnRef)
    requires FromTree(p) && Scoped(w, p) && Requirable(p, required) && Covered(p, required, ref)
    ensures FindColumnPosition(Pruned(p, required), ref).Some?
    decreases p, 0
  {
    match p
    case ScanNode(id, _, _, _) => NeededOrdinalsMember(id, required, ref.ordinal);
    case FilterNode(i, e) => PrunedFinds(w, i, required + CollectColumnRefs(e), ref);
    case JoinNode(l, r, equi) =>
      var all := required + EquiColumns(equi);
      var forLeft, forRight := Filter(all, InIds(CollectBindingIds(l))),
        Filter(all, InIdsButNot(CollectBindingIds(r), CollectBindingIds(l)));
      JoinRequirementsCover(l, r, equi, required, ref);
      JoinRequirable(w, l, r, equi, required);
      PrunedKeepsIds(l, forLeft);
      if Resolves(l, ref) {
        ResolvesWithinIds(l, ref);
        PrunedFinds(w, l, forLeft, ref);
        PrunedHasSchema(w, r, forRight);
      } else {
        PrunedFinds(w, r, forRight, ref);
      }
  }

  lemma {:induction false} EquiColumnsResolve(l: Plan, r: Plan, equi: seq<EquiPair>, ref: ColumnRef)
    requires ref in EquiColumns(equi) && forall pair :: pair in equi ==> PairScoped(l, r, pair)
    ensures Resolves(l, ref) || Resolves(r, ref)
  {
    var last := equi[|equi| - 1];
    assert PairScoped(l, r, last);
    if ref != last.0 && ref != last.1 {
      assert forall pair :: pair in equi[..|equi| - 1] ==> pair in equi;
      EquiColumnsResolve(l, r, equi[..|equi| - 1], ref);
    }
  }

  lemma JoinRequirable(w: World, l: Plan, r: Plan, equi: seq<EquiPair>, required: seq<ColumnRef>)
    requires FromTree(JoinNode(l, r, equi)) && Scoped(w, JoinNode(l, r, equi)) &&
      Requirable(JoinNode(l, r, equi), required)
    ensures Requirable(l, Filter(required + EquiColumns(equi), InIds(CollectBindingIds(l))))
    ensures Requirable(r, Filter(required + EquiColumns(equi), InIdsButNot(CollectBindingIds(r), CollectBindingIds(l))))
  {
    var all := required + EquiColumns(equi);
    FilterMembers(all, InIds(CollectBindingIds(l)));
    FilterMembers(all, InIdsButNot(CollectBindingIds(r), CollectBindingIds(l)));
    forall ref | ref in all && ref.tableId in CollectBindingIds(l) + CollectBindingIds(r)
      ensures ref.tableId in CollectBindingIds(l) ==> Resolves(l, ref)
      ensures ref.tableId !in CollectBindingIds(l) ==> Resolves(r, ref)
    {
      if ref in required {
        assert Resolves(JoinNode(l, r, equi), ref);
      } else {
        EquiColumnsResolve(l, r, equi, ref);
      }
      if Resolves(l, ref) { ResolvesWithinIds(l, ref); }
      if Resolves(r, ref) { ResolvesWithinIds(r, ref); }
    }
  }

  lemma {:induction false} PrunedHasSchema(w: World, p: Plan, required: seq<ColumnRef>)
    requires FromTree(p) && Scoped(w, p) && Requirable(p, required)
    ensures PhysicalOutputSchema(Pruned(p, required)).Some?
  {
    match p
    case ScanNode(id, _, columns, _) =>
      forall o | o in NeededOrdinals(id, required) ensures o < |columns| {
        NeededOrdinalsMember(id, required, o);
        var ref :| ref in required && ref.tableId == id && ref.ordinal == o;
        assert Resolves(p, ref);
      }
      TypesAtLength(columns, NeededOrdinals(id, required));
    case FilterNode(i, e) => PrunedHasSchema(w, i, required + CollectColumnRefs(e));
    case JoinNode(l, r, equi) =>
      JoinRequirable(w, l, r, equi, required);
      var all := required + EquiColumns(equi);
      PrunedHasSchema(w, l, Filter(all, InIds(CollectBindingIds(l))));
      PrunedHasSchema(w, r, Filter(all, InIdsButNot(CollectBindingIds(r), CollectBindingIds(l))));
  }

  lemma JoinKeysFound(w: World, l: Plan, r: Plan, equi: seq<EquiPair>, required: seq<ColumnRef>)
    requires FromTree(JoinNode(l, r, equi)) && Scoped(w, JoinNode(l, r, equi)) &&
      Requirable(JoinNode(l, r, equi), required)
    ensures var all := required + EquiColumns(equi);
      var left := CollectBindingIds(l);
      && AllFound(LeftKeys(equi, left), Pruned(l, Filter(all, InIds(left))))
      && AllFound(RightKeys(equi, left), Pruned(r, Filter(all, InIdsButNot(CollectBindingIds(r), left))))
  {
    var all := required + EquiColumns(equi);
    var left := CollectBindingIds(l);
    var forLeft, forRight := Filter(all, InIds(left)), Filter(all, InIdsButNot(CollectBindingIds(r), left));
    JoinRequirable(w, l, r, equi, required);
    forall pair | pair in equi
      ensures FindColumnPosition(Pruned(l, forLeft), LeftKey(left, pair)).Some?
      ensures FindColumnPosition(Pruned(r, forRight), RightKey(left, pair)).Some?
    {
      assert PairScoped(l, r, pair);
      EquiColumnsMember(equi, pair);
      PairSides(l, r, equi, pair);
      JoinRequirementsCover(l, r, equi, required, LeftKey(left, pair));
      JoinRequirementsCover(l, r, equi, required, RightKey(left, pair));
      PrunedFinds(w, l, forLeft, LeftKey(left, pair));
      PrunedFinds(w, r, forRight, RightKey(left, pair));
    }
  }

  lemma PairSides(l: Plan, r: Plan, equi: seq<EquiPair>, pair: EquiPair)
    requires FromTree(JoinNode(l, r, equi)) && PairScoped(l, r, pair)
    ensures Resolves(l, LeftKey(CollectBindingIds(l), pair)) && Resolves(r, RightKey(CollectBindingIds(l), pair))
  {
    if Resolves(l, pair.0) && Resolves(r, pair.1) {
      ResolvesWithinIds(l, pair.0);
    } else {
      ResolvesWithinIds(r, pair.0);
    }
  }

  /** After pruning, a scoped FROM tree is ready for translation. */
  lemma {:induction false} PrunedReady(w: World, p: Plan, required: seq<ColumnRef>)
    requires FromTree(p) && Scoped(w, p) && Requirable(p, required)
    ensures Ready(w, Pruned(p, required))
  {
    match p
    case ScanNode(id, _, columns, _) =>
      forall o | o in NeededOrdinals(id, required) ensures o < |columns| {
        NeededOrdinalsMember(id, required, o);
        var ref :| ref in required && ref.tableId == id && ref.ordinal == o;
        assert Resolves(p, ref);
      }
    case FilterNode(i, e) =>
      var more := required + CollectColumnRefs(e);
      PrunedReady(w, i, more);
      forall ref | ref in CollectColumnRefs(e) ensures FindColumnPosition(Pruned(i, more), ref).Some? {
        PrunedFinds(w, i, more, ref);
      }
    case JoinNode(l, r, equi) =>
      JoinRequirable(w, l, r, equi, required);
      var all := required + EquiColumns(equi);
      var forLeft, forRight := Filter(all, InIds(CollectBindingIds(l))),
        Filter(all, InIdsButNot(CollectBindingIds(r), CollectBindingIds(l)));
      PrunedReady(w, l, forLeft);
      PrunedReady(w, r, forRight);
      PrunedKeepsIds(l, forLeft);
      JoinKeysFound(w, l, r, equi, required);
  }

  /** Pruning moves no exception: row groups are skipped, and chunks filled, as before. */
  lemma {:induction false} PrunedTraffic(w: World, p: Plan, required: seq<ColumnRef>)
    requires FromTree(p) && Relational(p) && Relational(Pruned(p, required))
    ensures Throws(w, Pruned(p, required)) == Throws(w, p)
    ensures Filled(w, Pruned(p, required)) == Filled(w, p)
    ensures Chunked(w, Pruned(p, required)) == Chunked(w, p)
  {
    PrunedDenotes(w, p, required);
    match p
    case ScanNode(_, _, _, _) =>
    case FilterNode(i, e) => PrunedTraffic(w, i, required + CollectColumnRefs(e));
    case JoinNode(l, r, equi) =>
      var all := required + EquiColumns(equi);
      PrunedTraffic(w, l, Filter(all, InIds(CollectBindingIds(l))));
      PrunedTraffic(w, r, Filter(all, InIdsButNot(CollectBindingIds(r), CollectBindingIds(l))));
  }

  // ----- aggregates and projections on top -----

  lemma {:induction false} SpecsFound(aggs: seq<AggCall>, p: Plan)
    requires AllFound(ArgColumns(aggs), p)
    ensures SpecsFor(aggs, p).Some? && |SpecsFor(aggs, p).value| == |aggs|
    ensures forall i :: 0 <= i < |aggs| ==> SpecsFor(aggs, p).value[i].spec == SpecOf()(aggs[i])
    ensures forall i :: 0 <= i < |aggs| ==>
      SpecsFor(aggs, p).value[i].column == if aggs[i].arg.Some? then FindColumnPosition(p, aggs[i].arg.value) else None
  {
    if aggs != [] {
      var init, last := aggs[..|aggs| - 1], aggs[|aggs| - 1];
      assert forall ref :: ref in ArgColumns(init) ==> ref in ArgColumns(aggs);
      SpecsFound(init, p);
    }
  }

  lemma GroupKeyLaid(i: Plan, groupBy: seq<ColumnRef>, columns: seq<nat>, row: Row)
    requires FromTree(i) && AllFound(groupBy, i) && PositionsOf(groupBy, i) == Some(columns)
    ensures PhysKey(columns)(Laid(Layout(i))(row)) == KeyOf(groupBy)(row)
  {
    PositionsOfFound(groupBy, i);
    forall k | 0 <= k < |groupBy| ensures CellAt(Laid(Layout(i))(row), columns[k]) == RowEnv(row)(groupBy[k]) {
      PositionHoldsCell(i, groupBy[k], row);
    }
  }

  lemma ArgLaid(i: Plan, aggs: seq<AggCall>, row: Row, k: nat)
    requires FromTree(i) && AllFound(ArgColumns(aggs), i) && k < |aggs|
    ensures SpecsFor(aggs, i).Some?
    ensures PhysArg(SpecsFor(aggs, i).value)(Laid(Layout(i))(row), k) == ArgOf(aggs)(row, k)
  {
    SpecsFound(aggs, i);
    if aggs[k].arg.Some? {
      ArgColumnsMember(aggs, aggs[k]);
      PositionHoldsCell(i, aggs[k].arg.value, row);
    }
  }

  lemma GroupFoldLaid(w: World, i: Plan, groupBy: seq<ColumnRef>, aggs: seq<AggCall>, rows: seq<Row>)
    requires FromTree(i) && AllFound(groupBy, i) && AllFound(ArgColumns(aggs), i)
    ensures PositionsOf(groupBy, i).Some? && SpecsFor(aggs, i).Some?
    ensures
      GroupFold(w.fpu, Map(aggs, SpecOf()), PhysKey(PositionsOf(groupBy, i).value), PhysArg(SpecsFor(aggs, i).value),
                groupBy == [], Map(rows, Laid(Layout(i))))
      == GroupFold(w.fpu, Map(aggs, SpecOf()), KeyOf(groupBy), ArgOf(aggs), groupBy == [], rows)
  {
    PositionsOfFound(groupBy, i);
    SpecsFound(aggs, i);
    var columns, specs := PositionsOf(groupBy, i).value, SpecsFor(aggs, i).value;
    forall r | r in rows ensures PhysKey(columns)(Laid(Layout(i))(r)) == KeyOf(groupBy)(r) {
      GroupKeyLaid(i, groupBy, columns, r);
    }
    forall r, k: nat | r in rows && k < |Map(aggs, SpecOf())|
      ensures PhysArg(specs)(Laid(Layout(i))(r), k) == ArgOf(aggs)(r, k)
    {
      ArgLaid(i, aggs, r, k);
    }
    GroupFoldOfImage(w.fpu, Map(aggs, SpecOf()), KeyOf(groupBy), ArgOf(aggs), groupBy == [], rows,
                     Laid(Layout(i)), PhysKey(columns), PhysArg(specs));
  }

  function LogicalGroups(w: World, i: Plan, groupBy: seq<ColumnRef>, aggs: seq<AggCall>): seq<Cells>
    requires Relational(i)
  {
    GroupFold(w.fpu, Map(aggs, SpecOf()), KeyOf(groupBy), ArgOf(aggs), groupBy == [], Denote(w, i))
  }

  lemma RunAggregate(w: World, child: Op, columns: seq<nat>, types: seq<TypeId>, specs: seq<AggregateSpec>,
                     input: Output, plain: seq<AggSpec>, groups: seq<Cells>)
    requires Run(w, child) == Some(input) && Map(specs, SpecPart()) == plain
    requires groups == GroupFold(w.fpu, plain, PhysKey(columns), PhysArg(specs), columns == [], input.rows)
    ensures Run(w, AggregateOp(child, columns, types, specs)) == Some(Output(groups, groups != [], groups != []))
  {
  }

  lemma TranslateAggregate(w: World, i: Plan, groupBy: seq<ColumnRef>, aggs: seq<AggCall>,
                           child: Op, columns: seq<nat>, specs: seq<AggregateSpec>)
    requires Translate(w.tables.Keys, i) == Some(child) && PositionsOf(groupBy, i) == Some(columns) &&
      SpecsFor(aggs, i) == Some(specs)
    ensures Translate(w.tables.Keys, AggregateNode(i, groupBy, aggs))
         == Some(AggregateOp(child, columns, Map(groupBy, (ref: ColumnRef) => ref.ty), specs))
  {
  }

  /** The aggregation operator over the laid-out input computes the logical groups. */
  lemma AggregateSimulates(w: World, i: Plan, groupBy: seq<ColumnRef>, aggs: seq<AggCall>)
    requires FromTree(i) && Relational(i) && Simulates(w, i)
    requires AllFound(groupBy, i) && AllFound(ArgColumns(aggs), i)
    ensures Translate(w.tables.Keys, AggregateNode(i, groupBy, aggs)).Some?
    ensures var groups := LogicalGroups(w, i, groupBy, aggs);
      Run(w, Translate(w.tables.Keys, AggregateNode(i, groupBy, aggs)).value) ==
        if Throws(w, i) then None else Some(Output(groups, groups != [], groups != []))
  {
    GroupFoldLaid(w, i, groupBy, aggs, Denote(w, i));
    PositionsOfFound(groupBy, i);
    SpecsFound(aggs, i);
    var child, columns, specs := Translate(w.tables.Keys, i).value, PositionsOf(groupBy, i).value,
      SpecsFor(aggs, i).value;
    TranslateAggregate(w, i, groupBy, aggs, child, columns, specs);
    if !Throws(w, i) {
      RunAggregate(w, child, columns, Map(groupBy, (ref: ColumnRef) => ref.ty), specs,
                   Output(Map(Denote(w, i), Laid(Layout(i))), Chunked(w, i), Filled(w, i)),
                   Map(aggs, SpecOf()), LogicalGroups(w, i, groupBy, aggs));
    }
  }

  /** Positions in a projection read what the references named. */
  ghost predicate Faithful(fpu: FloatUnit, e: Expr, child: Plan, cells: Cells, row: Row) {
    && Positioned(e, child).Some?
    && Eval(fpu, Positioned(e, child).value, PhysEnv(cells)) == Eval(fpu, e, RowEnv(row))
  }

  lemma {:induction false} PositionedAllFaithful(fpu: FloatUnit, exprs: seq<Expr>, child: Plan, cells: Cells, row: Row)
    requires forall e :: e in exprs ==> Faithful(fpu, e, child, cells, row)
    ensures PositionedAll(exprs, child).Some? && |PositionedAll(exprs, child).value| == |exprs|
    ensures forall i :: 0 <= i < |exprs| ==>
      Eval(fpu, PositionedAll(exprs, child).value[i], PhysEnv(cells)) == Eval(fpu, exprs[i], RowEnv(row))
  {
    if exprs != [] {
      assert forall e :: e in exprs[..|exprs| - 1] ==> e in exprs;
      assert Faithful(fpu, exprs[|exprs| - 1], child, cells, row);
      PositionedAllFaithful(fpu, exprs[..|exprs| - 1], child, cells, row);
    }
  }

  lemma ProjectFaithful(fpu: FloatUnit, exprs: seq<Expr>, child: Plan, cells: Cells, row: Row)
    requires forall e :: e in exprs ==> Faithful(fpu, e, child, cells, row)
    ensures PositionedAll(exprs, child).Some?
    ensures PhysProjected(fpu, PositionedAll(exprs, child).value)(cells) == Projected(fpu, exprs)(row)
  {
    PositionedAllFaithful(fpu, exprs, child, cells, row);
  }

  /** PositionedAll does not depend on the row, so success on one shape is success. */
  lemma {:induction false} PositionedAllDefined(exprs: seq<Expr>, child: Plan)
    requires forall e :: e in exprs ==> Positioned(e, child).Some?
    ensures PositionedAll(exprs, child).Some?
  {
    if exprs != [] {
      assert forall e :: e in exprs[..|exprs| - 1] ==> e in exprs;
      PositionedAllDefined(exprs[..|exprs| - 1], child);
      assert exprs[|exprs| - 1] in exprs;
    }
  }

  lemma {:induction false} AggregateRefsPositioned(fpu: FloatUnit, e: Expr, agg: Plan, cells: Cells)
    requires agg.AggregateNode?
    requires forall ref :: ref in CollectColumnRefs(e) ==> ref.tableId == AGGREGATE_ID && ref.ordinal < |cells|
    requires forall ref :: ref in agg.groupBy ==> ref.tableId != AGGREGATE_ID
    ensures Faithful(fpu, e, agg, cells, AggregateRow(agg.groupBy)(cells))
  {
    match e
    case Col(ref) =>
      assert ref in CollectColumnRefs(e);
      CellMapGet(AGGREGATE_ID, cells, ref.tableId, ref.ordinal);
      if |agg.groupBy| <= |cells| { KeyColumnsAvoid(agg.groupBy, cells, ref.ordinal); }
    case Const(_) =>
    case Binary(_, l, r, _) =>
      AggregateRefsPositioned(fpu, l, agg, cells);
      AggregateRefsPositioned(fpu, r, agg, cells);
    case Not(x) => AggregateRefsPositioned(fpu, x, agg, cells);
  }

  lemma {:induction false} KeyColumnsAvoid(groupBy: seq<ColumnRef>, cells: Cells, o: nat)
    requires |groupBy| <= |cells| && forall ref :: ref in groupBy ==> ref.tableId != AGGREGATE_ID
    ensures (AGGREGATE_ID, o) !in KeyColumns(groupBy, cells)
  {
    if groupBy != [] {
      assert groupBy[|groupBy| - 1] in groupBy;
      assert forall ref :: ref in groupBy[..|groupBy| - 1] ==> ref in groupBy;
      KeyColumnsAvoid(groupBy[..|groupBy| - 1], cells, o);
    }
  }

  // ----- the theorem -----

  /** The logical meaning of the plan that reaches the translator is the query's own. */
  lemma LogicalSideFromTree(w: World, p: Plan)
    requires Query(w, p) && FromTree(p.input)
    ensures FromTree(Rewritten(p.input)) && Relational(p.input)
    ensures var pruned := Pruned(Rewritten(p.input), ExprColumns(p.exprs));
      FromTree(pruned) && Relational(pruned) && Denote(w, pruned) == Denote(w, p.input)
  {
    RewrittenFromTreeDenotes(w, p.input);
    RewrittenFromTree(p.input);
    PrunedDenotes(w, Rewritten(p.input), ExprColumns(p.exprs));
  }

  lemma {:induction false} FoundRefsFaithful(fpu: FloatUnit, exprs: seq<Expr>, child: Plan, row: Row)
    requires FromTree(child) && AllFound(ExprColumns(exprs), child)
    ensures forall e :: e in exprs ==> Faithful(fpu, e, child, Laid(Layout(child))(row), row)
  {
    forall e | e in exprs ensures Faithful(fpu, e, child, Laid(Layout(child))(row), row) {
      forall ref | ref in CollectColumnRefs(e) ensures FindColumnPosition(child, ref).Some? {
        ExprColumnsMember(exprs, e, ref);
      }
      PositionedEval(fpu, e, child, row);
    }
  }

  /** Rewriting to positions changes neither the types nor the operands of select items. */
  lemma {:induction false} PositionedAllKinds(exprs: seq<Expr>, child: Plan)
    requires PositionedAll(exprs, child).Some?
    ensures |PositionedAll(exprs, child).value| == |exprs|
    ensures forall i :: 0 <= i < |exprs| ==> Positioned(exprs[i], child) == Some(PositionedAll(exprs, child).value[i])
  {
    if exprs != [] {
      SplitLast(exprs);
      PositionedAllKinds(exprs[..|exprs| - 1], child);
    }
  }

  lemma PositionedThrows(exprs: seq<Expr>, child: Plan, chunks: bool, filled: bool)
    requires PositionedAll(exprs, child).Some?
    ensures ProjectThrows(PositionedAll(exprs, child).value, chunks, filled) == ProjectThrows(exprs, chunks, filled)
  {
    PositionedAllKinds(exprs, child);
    var exprs' := PositionedAll(exprs, child).value;
    forall i | 0 <= i < |exprs|
      ensures ResultType(exprs'[i]) == ResultType(exprs[i]) &&
        NoBooleanOperands(exprs'[i]) == NoBooleanOperands(exprs[i])
    {
      PositionedKind(exprs[i], child);
    }
    SameKindsThrow(exprs, exprs', chunks, filled);
  }

  predicate SomeWhere(es: seq<Expr>, p: Expr -> bool) { exists i :: 0 <= i < |es| && p(es[i]) }

  lemma SomeIn(es: seq<Expr>, p: Expr -> bool)
    ensures SomeWhere(es, p) <==> exists e :: e in es && p(e)
  {
    if e :| e in es && p(e) {
      var i :| 0 <= i < |es| && es[i] == e;
    }
    if i :| 0 <= i < |es| && p(es[i]) { assert es[i] in es; }
  }

  lemma SomeInBoth(a: seq<Expr>, b: seq<Expr>, p: Expr -> bool)
    requires |a| == |b| && forall i :: 0 <= i < |a| ==> p(a[i]) == p(b[i])
    ensures SomeWhere(a, p) == SomeWhere(b, p)
  {
    if i :| 0 <= i < |a| && p(a[i]) { assert p(b[i]); }
    if i :| 0 <= i < |b| && p(b[i]) { assert p(a[i]); }
  }

  lemma SameKindsThrow(a: seq<Expr>, b: seq<Expr>, chunks: bool, filled: bool)
    requires |a| == |b|
    requires forall i :: 0 <= i < |a| ==>
      ResultType(a[i]) == ResultType(b[i]) && NoBooleanOperands(a[i]) == NoBooleanOperands(b[i])
    ensures ProjectThrows(a, chunks, filled) == ProjectThrows(b, chunks, filled)
  {
    var isBoolean, hasBoolean := (e: Expr) => ResultType(e) == BooleanT, (e: Expr) => !NoBooleanOperands(e);
    SomeInBoth(a, b, isBoolean);
    SomeInBoth(a, b, hasBoolean);
    SomeIn(a, isBoolean);
    SomeIn(b, isBoolean);
    SomeIn(a, hasBoolean);
    SomeIn(b, hasBoolean);
  }

  /** Running a projection over operators that deliver the images of `rows`. */
  lemma ProjectRuns<R>(w: World, child: Plan, exprs: seq<Expr>, rows: seq<R>, image: R -> Cells, logical: R -> Row,
                       chunks: bool, filled: bool)
    requires Translate(w.tables.Keys, child).Some?
    requires Run(w, Translate(w.tables.Keys, child).value) == Some(Output(Map(rows, image), chunks, filled))
    requires forall e :: e in exprs ==> Positioned(e, child).Some?
    requires forall r, e :: r in rows && e in exprs ==> Faithful(w.fpu, e, child, image(r), logical(r))
    ensures Translate(w.tables.Keys, ProjectNode(child, exprs)).Some?
    ensures Run(w, Translate(w.tables.Keys, ProjectNode(child, exprs)).value) ==
      if ProjectThrows(exprs, chunks, filled) then None
      else Some(Output(Map(Map(rows, logical), Projected(w.fpu, exprs)), chunks, filled))
  {
    PositionedAllDefined(exprs, child);
    PositionedThrows(exprs, child, chunks, filled);
    var exprs' := PositionedAll(exprs, child).value;
    forall i | 0 <= i < |rows|
      ensures PhysProjected(w.fpu, exprs')(image(rows[i])) == Projected(w.fpu, exprs)(logical(rows[i]))
    {
      assert rows[i] in rows;
      ProjectFaithful(w.fpu, exprs, child, image(rows[i]), logical(rows[i]));
    }
    assert Map(Map(rows, image), PhysProjected(w.fpu, exprs')) == Map(Map(rows, logical), Projected(w.fpu, exprs));
  }

  /** A projection over operators that throw. */
  lemma ProjectOfFailure(w: World, child: Plan, exprs: seq<Expr>)
    requires Translate(w.tables.Keys, child).Some? && Run(w, Translate(w.tables.Keys, child).value).None?
    requires forall e :: e in exprs ==> Positioned(e, child).Some?
    ensures Translate(w.tables.Keys, ProjectNode(child, exprs)).Some?
    ensures Run(w, Translate(w.tables.Keys, ProjectNode(child, exprs)).value).None?
  {
    PositionedAllDefined(exprs, child);
  }

  /** Some operator of the optimized query throws. */
  predicate QueryThrows(w: World, body: Plan, exprs: seq<Expr>)
    requires Relational(Rewritten(body))
  {
    || Throws(w, Rewritten(body))
    || ProjectThrows(exprs, Chunked(w, Rewritten(body)), Filled(w, Rewritten(body)))
  }

  /** What the optimized query does: it throws, or it delivers the projected
      rows of the rewritten body. */
  ghost predicate Delivers(w: World, body: Plan, exprs: seq<Expr>, result: Option<Output>)
    requires Relational(Rewritten(body))
  {
    result ==
      if QueryThrows(w, body, exprs) then None
      else Some(Output(Map(Denote(w, Rewritten(body)), Projected(w.fpu, exprs)),
                       Chunked(w, Rewritten(body)), Filled(w, Rewritten(body))))
  }

  function Itself(): Row -> Row { (r: Row) => r }

  lemma OptimizeFromTree(w: World, p: Plan)
    requires Query(w, p) && FromTree(p.input) && WorldSound(w)
    ensures Relational(p.input) && Relational(Rewritten(p.input)) && Optimize(w.tables.Keys, p).Some?
    ensures Delivers(w, p.input, p.exprs, Run(w, Optimize(w.tables.Keys, p).value))
  {
    var tree, required := Rewritten(p.input), ExprColumns(p.exprs);
    RewrittenScoped(w, p.input);
    LogicalSideFromTree(w, p);
    FromTreeRelational(tree);
    assert Requirable(tree, required);
    PrunedReady(w, tree, required);
    PrunedTraffic(w, tree, required);
    PrunedDenotes(w, tree, required);
    var child := Pruned(tree, required);
    FromTreeSimulates(w, child);
    forall ref | ref in required ensures FindColumnPosition(child, ref).Some? { PrunedFinds(w, tree, required, ref); }
    ProjectFromTree(w, child, p.exprs);
  }

  /** A projection over a ready FROM tree. */
  lemma ProjectFromTree(w: World, child: Plan, exprs: seq<Expr>)
    requires FromTree(child) && Relational(child) && Simulates(w, child) && AllFound(ExprColumns(exprs), child)
    ensures Translate(w.tables.Keys, ProjectNode(child, exprs)).Some?
    ensures Run(w, Translate(w.tables.Keys, ProjectNode(child, exprs)).value) ==
      if Throws(w, child) || ProjectThrows(exprs, Chunked(w, child), Filled(w, child)) then None
      else Some(Output(Map(Denote(w, child), Projected(w.fpu, exprs)), Chunked(w, child), Filled(w, child)))
  {
    FoundRefsFaithful(w.fpu, exprs, child, map[]);
    if Throws(w, child) {
      ProjectOfFailure(w, child, exprs);
    } else {
      forall r, e | r in Denote(w, child) && e in exprs
        ensures Faithful(w.fpu, e, child, Laid(Layout(child))(r), Itself()(r))
      {
        FoundRefsFaithful(w.fpu, exprs, child, r);
      }
      ProjectRuns(w, child, exprs, Denote(w, child), Laid(Layout(child)), Itself(), Chunked(w, child),
        Filled(w, child));
      assert Map(Denote(w, child), Itself()) == Denote(w, child);
    }
  }

  /** An aggregate query after pushdown: one aggregate over a scoped FROM tree. */
  lemma {:induction false} RewrittenAggregateScoped(w: World, p: Plan)
    requires Body(p) && BodyScoped(w, p) && HavingOverGroupBy(p) && !FromTree(p)
    ensures Rewritten(p).AggregateNode?
    ensures Rewritten(p).groupBy == BaseGroupBy(p) && Rewritten(p).aggregates == BaseAggregates(p)
    ensures FromTree(Rewritten(p).input) && Scoped(w, Rewritten(p).input)
    ensures forall ref :: Resolves(Rewritten(p).input, ref) == Resolves(BaseInput(p), ref)
  {
    if p.AggregateNode? {
      RewrittenScoped(w, p.input);
    } else {
      RewrittenAggregateScoped(w, p.input);
      var agg, cs := Rewritten(p.input), Conjuncts(p.condition);
      var down := Filter(cs, Eligible(agg.groupBy));
      FilterMembers(cs, Eligible(agg.groupBy));
      FilterNone(cs, Ineligible(agg.groupBy));
      forall c, ref | c in down && ref in CollectColumnRefs(c) ensures Resolves(agg.input, ref) {
        ConjunctRefs(p.condition, c, ref);
      }
      PlacedScoped(w, agg.input, down);
      PlacedFromTree(agg.input, down);
      forall ref ensures Resolves(Placed(agg.input, down), ref) == Resolves(agg.input, ref) {
        PlacedResolves(agg.input, down, ref);
      }
    }
  }

  lemma {:induction false} AggregateInputScoped(w: World, p: Plan)
    requires Body(p) && BodyScoped(w, p) && !FromTree(p)
    ensures FromTree(BaseInput(p)) && AggregateScoped(BaseInput(p), BaseGroupBy(p), BaseAggregates(p))
  {
    if p.FilterNode? { AggregateInputScoped(w, p.input); }
  }

  lemma GroupCellsLength(w: World, i: Plan, groupBy: seq<ColumnRef>, aggs: seq<AggCall>, cells: Cells)
    requires Relational(i) && cells in LogicalGroups(w, i, groupBy, aggs)
    ensures |cells| == |groupBy| + |aggs|
  {
    var keys := GroupKeys(Denote(w, i), KeyOf(groupBy), groupBy == []);
    var n :| 0 <= n < |keys| && LogicalGroups(w, i, groupBy, aggs)[n] == cells;
    if groupBy != [] {
      DistinctMember(Map(Denote(w, i), KeyOf(groupBy)), keys[n]);
    }
  }

  lemma PrunedAggregateFinds(w: World, i: Plan, groupBy: seq<ColumnRef>, aggs: seq<AggCall>)
    requires FromTree(i) && Scoped(w, i) && AggregateScoped(i, groupBy, aggs)
    ensures Requirable(i, groupBy + ArgColumns(aggs))
    ensures AllFound(groupBy, Pruned(i, groupBy + ArgColumns(aggs)))
    ensures AllFound(ArgColumns(aggs), Pruned(i, groupBy + ArgColumns(aggs)))
  {
    var required := groupBy + ArgColumns(aggs);
    forall ref | ref in required ensures FindColumnPosition(Pruned(i, required), ref).Some? {
      PrunedFinds(w, i, required, ref);
    }
  }

  lemma GroupByAvoidsAggregateId(p: Plan, refs: seq<ColumnRef>)
    requires FromTree(p) && AllResolve(p, refs)
    ensures forall ref :: ref in refs ==> ref.tableId != AGGREGATE_ID
  {
    forall ref | ref in refs ensures ref.tableId != AGGREGATE_ID {
      ResolvesWithinIds(p, ref);
      IdsAvoidAggregateId(p, ref.tableId);
    }
  }

  lemma {:induction false} IdsAvoidAggregateId(p: Plan, id: nat)
    requires FromTree(p) && id in CollectBindingIds(p)
    ensures id != AGGREGATE_ID
  {
    match p
    case ScanNode(_, _, _, _) =>
    case FilterNode(i, _) => IdsAvoidAggregateId(i, id);
    case JoinNode(l, r, _) =>
      if id in CollectBindingIds(l) { IdsAvoidAggregateId(l, id); } else { IdsAvoidAggregateId(r, id); }
  }

  lemma SelectFaithful(w: World, agg: Plan, exprs: seq<Expr>, cells: Cells)
    requires agg.AggregateNode? && |cells| == |agg.groupBy| + |agg.aggregates|
    requires forall ref :: ref in agg.groupBy ==> ref.tableId != AGGREGATE_ID
    requires forall ref :: ref in ExprColumns(exprs) ==> ResolvesAbove(agg.groupBy, agg.aggregates, ref)
    ensures forall e :: e in exprs ==> Faithful(w.fpu, e, agg, cells, AggregateRow(agg.groupBy)(cells))
  {
    forall e | e in exprs ensures Faithful(w.fpu, e, agg, cells, AggregateRow(agg.groupBy)(cells)) {
      forall ref | ref in CollectColumnRefs(e) ensures ref in ExprColumns(exprs) { ExprColumnsMember(exprs, e, ref); }
      AggregateRefsPositioned(w.fpu, e, agg, cells);
    }
  }

  function SameCells(): Cells -> Cells { (c: Cells) => c }

  /** Projecting an aggregate: the select list reads the operator's output columns. */
  lemma ProjectAggregateRuns(w: World, agg: Plan, exprs: seq<Expr>)
    requires agg.AggregateNode? && Relational(agg.input)
    requires Translate(w.tables.Keys, agg).Some?
    requires var groups := LogicalGroups(w, agg.input, agg.groupBy, agg.aggregates);
      Run(w, Translate(w.tables.Keys, agg).value) ==
        if Throws(w, agg.input) then None else Some(Output(groups, groups != [], groups != []))
    requires forall ref :: ref in agg.groupBy ==> ref.tableId != AGGREGATE_ID
    requires forall ref :: ref in ExprColumns(exprs) ==> ResolvesAbove(agg.groupBy, agg.aggregates, ref)
    ensures Translate(w.tables.Keys, ProjectNode(agg, exprs)).Some?
    ensures Run(w, Translate(w.tables.Keys, ProjectNode(agg, exprs)).value) ==
      if Throws(w, agg) || ProjectThrows(exprs, Chunked(w, agg), Filled(w, agg)) then None
      else Some(Output(Map(Denote(w, agg), Projected(w.fpu, exprs)), Chunked(w, agg), Filled(w, agg)))
  {
    var groups := LogicalGroups(w, agg.input, agg.groupBy, agg.aggregates);
    forall c, e | c in groups && e in exprs
      ensures Faithful(w.fpu, e, agg, SameCells()(c), AggregateRow(agg.groupBy)(c))
    {
      GroupCellsLength(w, agg.input, agg.groupBy, agg.aggregates, c);
      SelectFaithful(w, agg, exprs, c);
    }
    SelectFaithful(w, agg, exprs, seq(|agg.groupBy| + |agg.aggregates|, i => Null));
    if Throws(w, agg) {
      ProjectOfFailure(w, agg, exprs);
    } else {
      assert Map(groups, SameCells()) == groups;
      ProjectRuns(w, agg, exprs, groups, SameCells(), AggregateRow(agg.groupBy), groups != [], groups != []);
    }
  }

  lemma AggregatePhysicalSide(w: World, i: Plan, groupBy: seq<ColumnRef>, aggs: seq<AggCall>, exprs: seq<Expr>)
    requires FromTree(i) && Relational(i) && Scoped(w, i) && AggregateScoped(i, groupBy, aggs) && WorldSound(w)
    requires forall ref :: ref in ExprColumns(exprs) ==> ResolvesAbove(groupBy, aggs, ref)
    ensures var agg := AggregateNode(i, groupBy, aggs);
      var op := Translate(w.tables.Keys,
        ProjectNode(AggregateNode(Pruned(i, groupBy + ArgColumns(aggs)), groupBy, aggs), exprs));
      op.Some? && Run(w, op.value) ==
        if Throws(w, agg) || ProjectThrows(exprs, Chunked(w, agg), Filled(w, agg)) then None
        else Some(Output(Map(Denote(w, agg), Projected(w.fpu, exprs)), Chunked(w, agg), Filled(w, agg)))
  {
    var required := groupBy + ArgColumns(aggs);
    GroupByAvoidsAggregateId(i, groupBy);
    PrunedAggregateFinds(w, i, groupBy, aggs);
    PrunedReady(w, i, required);
    PrunedDenotes(w, i, required);
    PrunedTraffic(w, i, required);
    var child := Pruned(i, required);
    FromTreeSimulates(w, child);
    AggregateSimulates(w, child, groupBy, aggs);
    ProjectAggregateRuns(w, AggregateNode(child, groupBy, aggs), exprs);
  }

  lemma AggregateLogicalSide(w: World, p: Plan)
    requires Body(p) && BodyScoped(w, p) && HavingOverGroupBy(p) && !FromTree(p)
    ensures Rewritten(p).AggregateNode?
    ensures var agg := Rewritten(p);
      && agg.groupBy == BaseGroupBy(p) && agg.aggregates == BaseAggregates(p)
      && FromTree(agg.input) && Scoped(w, agg.input)
      && AggregateScoped(agg.input, agg.groupBy, agg.aggregates)
  {
    RewrittenAggregateScoped(w, p);
    AggregateInputScoped(w, p);
  }

  lemma OptimizedAggregateShape(catalog: set<nat>, body: Plan, exprs: seq<Expr>)
    requires Rewritten(body).AggregateNode?
    ensures var agg := Rewritten(body);
      Optimize(catalog, ProjectNode(body, exprs)) == Translate(catalog,
        ProjectNode(AggregateNode(Pruned(agg.input, agg.groupBy + ArgColumns(agg.aggregates)), agg.groupBy,
          agg.aggregates), exprs))
  {
    var agg := Rewritten(body);
    assert Rewritten(ProjectNode(body, exprs)) == ProjectNode(agg, exprs);
    assert Pruned(ProjectNode(agg, exprs), []) == ProjectNode(Pruned(agg, ExprColumns(exprs)), exprs);
  }

  lemma OptimizeAggregate(w: World, body: Plan, exprs: seq<Expr>)
    requires Body(body) && BodyScoped(w, body) && HavingOverGroupBy(body) && !FromTree(body)
    requires SelectScoped(body, exprs) && WorldSound(w)
    ensures Relational(Rewritten(body)) && Optimize(w.tables.Keys, ProjectNode(body, exprs)).Some?
    ensures Delivers(w, body, exprs, Run(w, Optimize(w.tables.Keys, ProjectNode(body, exprs)).value))
  {
    AggregateLogicalSide(w, body);
    var agg := Rewritten(body);
    FromTreeRelational(agg.input);
    AggregatePhysicalSide(w, agg.input, agg.groupBy, agg.aggregates, exprs);
    OptimizedAggregateShape(w.tables.Keys, body, exprs);
    assert agg == AggregateNode(agg.input, agg.groupBy, agg.aggregates);
  }

  /** Optimizing a bound query never fails, and running the operators throws
      exactly when QueryThrows says so. */
  lemma OptimizeRuns(w: World, p: Plan)
    requires Query(w, p) && WorldSound(w)
    ensures Relational(p.input) && Relational(Rewritten(p.input)) && Optimize(w.tables.Keys, p).Some?
    ensures Delivers(w, p.input, p.exprs, Run(w, Optimize(w.tables.Keys, p).value))
  {
    BodyRelational(p.input);
    if FromTree(p.input) { OptimizeFromTree(w, p); } else { OptimizeAggregate(w, p.input, p.exprs); }
  }

  // ----- HAVING over other columns -----

  /** The condition reads a table column. */
  ghost predicate ReadsTable(e: Expr) { exists ref :: ref in CollectColumnRefs(e) && ref.tableId != AGGREGATE_ID }

  lemma {:induction false} ConjoinReads(cs: seq<Expr>, c: Expr)
    requires cs != [] && c in cs && ReadsTable(c)
    ensures ReadsTable(Conjoin(cs))
  {
    var ref :| ref in CollectColumnRefs(c) && ref.tableId != AGGREGATE_ID;
    ConjoinHasRefs(cs, c, ref);
  }

  lemma {:induction false} ConjoinHasRefs(cs: seq<Expr>, c: Expr, ref: ColumnRef)
    requires cs != [] && c in cs && ref in CollectColumnRefs(c)
    ensures ref in CollectColumnRefs(Conjoin(cs))
  {
    if |cs| > 1 {
      SplitLast(cs);
      if c != cs[|cs| - 1] { ConjoinHasRefs(cs[..|cs| - 1], c, ref); }
    }
  }

  /** No table column can be found above an aggregate. */
  lemma {:induction false} NoPositionAbove(e: Expr, agg: Plan)
    requires agg.AggregateNode? && ReadsTable(e)
    ensures Positioned(e, agg).None?
  {
    match e
    case Col(_) =>
    case Const(_) =>
    case Binary(_, l, r, _) =>
      if ReadsTable(l) {
        NoPositionAbove(l, agg);
      } else {
        assert ReadsTable(r);
        NoPositionAbove(r, agg);
      }
    case Not(x) =>
      assert ReadsTable(x);
      NoPositionAbove(x, agg);
  }

  /** A filter that stayed above the aggregate although it reads a table column. */
  ghost predicate Stuck(p: Plan) { p.FilterNode? && p.input.AggregateNode? && ReadsTable(p.condition) }

  lemma UngroupedStuck(agg: Plan, cs: seq<Expr>, c: Expr)
    requires agg.AggregateNode? && c in cs && !ReferencesOnlyGroupByColumns(c, agg.groupBy)
    requires forall ref :: ref in CollectColumnRefs(c) ==> ref.tableId != AGGREGATE_ID
    ensures Stuck(Placed(agg, cs))
  {
    var up := Filter(cs, Ineligible(agg.groupBy));
    FilterMembers(cs, Ineligible(agg.groupBy));
    assert c in up;
    var ref :| ref in CollectColumnRefs(c) && !IsGroupByColumn(ref, agg.groupBy);
    ConjoinReads(up, c);
  }

  lemma {:induction false} RewrittenStuck(w: World, p: Plan)
    requires Body(p) && BodyNamed(w, p) && !FromTree(p)
    ensures FromTree(BaseInput(p))
    ensures HavingOverGroupBy(p) ==> Rewritten(p).AggregateNode? && Rewritten(p).groupBy == BaseGroupBy(p)
    ensures !HavingOverGroupBy(p) ==> Stuck(Rewritten(p))
  {
    if p.FilterNode? {
      RewrittenStuck(w, p.input);
      var cs := Conjuncts(p.condition);
      if !HavingOverGroupBy(p.input) {
        ConjoinReads([Rewritten(p.input).condition] + cs, Rewritten(p.input).condition);
      } else if HavingOverGroupBy(p) {
        HavingIsAbsorbed(p);
      } else {
        var c :| c in cs && !ReferencesOnlyGroupByColumns(c, BaseGroupBy(p));
        forall ref | ref in CollectColumnRefs(c) ensures ref.tableId != AGGREGATE_ID {
          ConjunctRefs(p.condition, c, ref);
          ResolvesWithinIds(BaseInput(p), ref);
          IdsAvoidAggregateId(BaseInput(p), ref.tableId);
        }
        UngroupedStuck(Rewritten(p.input), cs, c);
      }
    }
  }

  lemma StuckUntranslated(catalog: set<nat>, agg: Plan, e: Expr)
    requires agg.AggregateNode? && ReadsTable(e)
    ensures Translate(catalog, FilterNode(agg, e)).None?
  {
    NoPositionAbove(e, agg);
  }

  lemma OptimizeOfRoot(catalog: set<nat>, body: Plan, exprs: seq<Expr>)
    requires Translate(catalog, Pruned(Rewritten(body), ExprColumns(exprs))).None?
    ensures Optimize(catalog, ProjectNode(body, exprs)).None?
  {
    assert Pruned(Rewritten(ProjectNode(body, exprs)), []) ==
      ProjectNode(Pruned(Rewritten(body), ExprColumns(exprs)), exprs);
  }

  lemma StuckFails(catalog: set<nat>, body: Plan, exprs: seq<Expr>)
    requires Stuck(Rewritten(body))
    ensures Optimize(catalog, ProjectNode(body, exprs)).None?
  {
    var stuck, required := Rewritten(body), ExprColumns(exprs);
    var child := Pruned(stuck.input, required + CollectColumnRefs(stuck.condition));
    assert Pruned(stuck, required) == FilterNode(child, stuck.condition);
    StuckUntranslated(catalog, child, stuck.condition);
    OptimizeOfRoot(catalog, body, exprs);
  }

  // ----- one-sided join equalities -----

  lemma WrapTwoSided(p: Plan, cs: seq<Expr>)
    ensures TwoSided(WrapInFilter(p, cs)) == TwoSided(p)
  {
  }

  lemma {:induction false} PlacedTwoSided(p: Plan, cs: seq<Expr>)
    requires FromTree(p)
    ensures TwoSided(Placed(p, cs)) == TwoSided(p)
  {
    if cs != [] && p.JoinNode? {
      var left, right := CollectBindingIds(p.left), CollectBindingIds(p.right);
      var l, r := Placed(p.left, Filter(cs, OnLeft(left))), Placed(p.right, Filter(cs, OnRight(left, right)));
      PlacedTwoSided(p.left, Filter(cs, OnLeft(left)));
      PlacedTwoSided(p.right, Filter(cs, OnRight(left, right)));
      PlacedKeepsIds(p.left, Filter(cs, OnLeft(left)));
      PlacedKeepsIds(p.right, Filter(cs, OnRight(left, right)));
      WrapTwoSided(JoinNode(l, r, p.equi), Filter(cs, OnBoth(left, right)));
    }
  }

  lemma PlacedBodyTwoSided(p: Plan, cs: seq<Expr>)
    requires Body(p)
    ensures TwoSided(Placed(p, cs)) == TwoSided(p)
  {
    if FromTree(p) {
      PlacedTwoSided(p, cs);
    } else if cs != [] && p.AggregateNode? {
      var i := Placed(p.input, Filter(cs, Eligible(p.groupBy)));
      PlacedTwoSided(p.input, Filter(cs, Eligible(p.groupBy)));
      WrapTwoSided(AggregateNode(i, p.groupBy, p.aggregates), Filter(cs, Ineligible(p.groupBy)));
    }
  }

  lemma {:induction false} RewrittenTwoSided(p: Plan)
    requires Body(p)
    ensures TwoSided(Rewritten(p)) == TwoSided(p)
  {
    match p
    case ScanNode(_, _, _, _) =>
    case FilterNode(i, e) =>
      RewrittenTwoSided(i);
      RewrittenBody(i);
      PlacedBodyTwoSided(Rewritten(i), Conjuncts(e));
    case JoinNode(l, r, _) =>
      FromTreeBody(l);
      FromTreeBody(r);
      RewrittenTwoSided(l);
      RewrittenTwoSided(r);
      RewrittenKeepsIds(l);
      RewrittenKeepsIds(r);
    case AggregateNode(i, _, _) =>
      FromTreeBody(i);
      RewrittenTwoSided(i);
  }

  lemma {:induction false} PrunedTwoSided(p: Plan, required: seq<ColumnRef>)
    requires FromTree(p)
    ensures TwoSided(Pruned(p, required)) == TwoSided(p)
  {
    match p
    case ScanNode(_, _, _, _) =>
    case FilterNode(i, e) => PrunedTwoSided(i, required + CollectColumnRefs(e));
    case JoinNode(l, r, equi) =>
      var all := required + EquiColumns(equi);
      var left, right := CollectBindingIds(l), CollectBindingIds(r);
      PrunedTwoSided(l, Filter(all, InIds(left)));
      PrunedTwoSided(r, Filter(all, InIdsButNot(right, left)));
      PrunedKeepsIds(l, Filter(all, InIds(left)));
      PrunedKeepsIds(r, Filter(all, InIdsButNot(right, left)));
  }

  lemma {:induction false} PositionWithinIds(p: Plan, ref: ColumnRef)
    requires FromTree(p) && FindColumnPosition(p, ref).Some?
    ensures ref.tableId in CollectBindingIds(p)
  {
    match p
    case ScanNode(_, _, _, _) =>
    case FilterNode(i, _) => PositionWithinIds(i, ref);
    case JoinNode(l, r, _) => if ref.tableId !in CollectBindingIds(l) { PositionWithinIds(r, ref); }
  }

  lemma {:induction false} PositionsWithinIds(refs: seq<ColumnRef>, p: Plan, ref: ColumnRef)
    requires FromTree(p) && PositionsOf(refs, p).Some? && ref in refs
    ensures ref.tableId in CollectBindingIds(p)
  {
    SplitLast(refs);
    if ref == refs[|refs| - 1] { PositionWithinIds(p, ref); } else { PositionsWithinIds(refs[..|refs| - 1], p, ref); }
  }

  lemma {:induction false} TranslatedTwoSided(catalog: set<nat>, p: Plan)
    requires FromTree(p) && Translate(catalog, p).Some?
    ensures TwoSided(p)
  {
    match p
    case ScanNode(_, _, _, _) =>
    case FilterNode(i, _) => if !i.ScanNode? { TranslatedTwoSided(catalog, i); }
    case JoinNode(l, r, equi) =>
      TranslatedTwoSided(catalog, l);
      TranslatedTwoSided(catalog, r);
      var left := CollectBindingIds(l);
      forall pair | pair in equi ensures Sided(left, CollectBindingIds(r), pair) {
        var i :| 0 <= i < |equi| && equi[i] == pair;
        assert LeftKeys(equi, left)[i] == LeftKey(left, pair) && RightKeys(equi, left)[i] == RightKey(left, pair);
        PositionsWithinIds(LeftKeys(equi, left), l, LeftKey(left, pair));
        PositionsWithinIds(RightKeys(equi, left), r, RightKey(left, pair));
      }
  }

  /** A query is not planned unless all its join equalities are two-sided. */
  lemma PlannedTwoSided(w: World, body: Plan, exprs: seq<Expr>)
    requires Body(body) && (FromTree(body) || Rewritten(body).AggregateNode?)
    requires Optimize(w.tables.Keys, ProjectNode(body, exprs)).Some?
    ensures TwoSided(body)
  {
    var inner, required := Rewritten(body), ExprColumns(exprs);
    RewrittenTwoSided(body);
    RewrittenBody(body);
    if Translate(w.tables.Keys, Pruned(inner, required)).None? { OptimizeOfRoot(w.tables.Keys, body, exprs); }
    if FromTree(body) {
      RewrittenFromTree(body);
      TreeTwoSided(w, inner, required);
    } else {
      TreeTwoSided(w, inner.input, inner.groupBy + ArgColumns(inner.aggregates));
    }
  }

  lemma TreeTwoSided(w: World, p: Plan, required: seq<ColumnRef>)
    requires FromTree(p) && Translate(w.tables.Keys, Pruned(p, required)).Some?
    ensures TwoSided(p)
  {
    PrunedDenotes(w, p, required);
    TranslatedTwoSided(w.tables.Keys, Pruned(p, required));
    PrunedTwoSided(p, required);
  }

  // ----- the main results -----

  /** The binder accepts HAVING over any column and ON over any two columns;
      planning throws exactly when HAVING reads a column that is not grouped or
      an equality has both its columns on one side of the join. */
  lemma OptimizesIff(w: World, p: Plan)
    requires BoundQuery(w, p) && WorldSound(w)
    ensures Optimize(w.tables.Keys, p).Some? <==> HavingOverGroupBy(p.input) && TwoSided(p.input)
    ensures Optimize(w.tables.Keys, p).Some? <==> Query(w, p)
  {
    BodyScopedIff(w, p.input);
    assert p == ProjectNode(p.input, p.exprs);
    if !FromTree(p.input) { RewrittenStuck(w, p.input); }
    if !HavingOverGroupBy(p.input) {
      StuckFails(w.tables.Keys, p.input, p.exprs);
    } else if TwoSided(p.input) {
      OptimizeRuns(w, p);
    } else if Optimize(w.tables.Keys, p).Some? {
      PlannedTwoSided(w, p.input, p.exprs);
    }
  }

  ghost predicate Gives(result: Option<Output>, rows: seq<Cells>) { result.Some? && result.value.rows == rows }

  /** The query is planned, and its operators deliver these rows. */
  ghost predicate PlannedGives(w: World, p: Plan, rows: seq<Cells>) {
    Optimize(w.tables.Keys, p).Some? && Gives(Run(w, Optimize(w.tables.Keys, p).value), rows)
  }

  /** Exactly when the operators of a bound query deliver the reference rows, in
      order: if and only if it can be planned, no operator throws, and no
      column-free HAVING over an aggregate without GROUP BY fails. */
  lemma OptimizeCorrectIff(w: World, p: Plan)
    requires BoundQuery(w, p) && WorldSound(w)
    ensures Relational(p.input) && Relational(Rewritten(p.input))
    ensures PlannedGives(w, p, Answer(w, p)) <==>
      && HavingOverGroupBy(p.input) && TwoSided(p.input)
      && ConstantHavingHolds(w.fpu, p.input) && !QueryThrows(w, p.input, p.exprs)
  {
    OptimizesIff(w, p);
    RewrittenBody(p.input);
    BodyRelational(p.input);
    BodyRelational(Rewritten(p.input));
    if Query(w, p) {
      OptimizeRuns(w, p);
      PushdownPreservesRowsIff(w, p.input);
    }
  }

  /** The optimizer, pass after pass, given the ids of the catalog's tables. */
  method OptimizeQuery(catalog: set<nat>, root: Plan) returns (op: Option<Op>)
    ensures op == Optimize(catalog, root)
  {
    var plan := PushdownPredicates(root);
    plan := Propagate(plan, []);
    op := TranslatePlan(catalog, plan);
  }
}
