/** When an optimized query throws although the binder accepted it: a condition
    a caller can read off the query that rules it out, and the smallest queries
    that do throw, each with its exact condition on the stored table. */
module Failures {
  import opened Seqs
  import opened Types
  import opened Expressions
  import opened Typing
  import opened LogicalPlan
  import opened Pushdown
  import opened Placement
  import opened Pruning
  import opened ZoneMaps
  import opened Physical
  import opened Translation
  import opened Optimizer

  /** No boolean is compared or added, and a column compared with a numeric
      literal has the literal's type. The binder asks for neither. */
  predicate ConjunctSafe(c: Expr) {
    && NoBooleanOperands(c)
    && (c.Binary? && c.left.Col? && c.right.Const? && !c.right.value.StrL? ==>
          LiteralType(c.right.value) == c.left.ref.ty)
  }

  predicate ItemSafe(e: Expr) { NoBooleanOperands(e) && ResultType(e) != BooleanT }

  lemma SafeSkip(w: World, i: Plan, e: Expr)
    requires i.ScanNode? && Scoped(w, FilterNode(i, e)) && IsPredicate(e)
    requires forall c :: c in Conjuncts(e) ==> ConjunctSafe(c)
    ensures SkipTyped(e, i)
  {
    if TryExtractZoneMapSkip(e, i.bindingId).Some? {
      assert e.left.ref in CollectColumnRefs(e);
      assert Resolves(i, e.left.ref);
      assert BoundType(e.left) == Some(OfTypeId(e.left.ref.ty));
      assert Conjuncts(e) == [e];
      assert e in Conjuncts(e);
    }
  }

  lemma {:induction false} SafeTreeNeverThrows(w: World, p: Plan)
    requires FromTree(p) && Relational(p) && Scoped(w, p) && ConditionsTyped(p)
    requires forall c :: c in PlanConjuncts(p) ==> ConjunctSafe(c)
    ensures !Throws(w, p)
  {
    match p
    case ScanNode(_, _, _, _) =>
    case FilterNode(i, e) =>
      forall c | c in Conjuncts(e) ensures ConjunctSafe(c) { assert c in PlanConjuncts(p); }
      ConjunctsTyped(e);
      if i.ScanNode? { SafeSkip(w, i, e); } else { SafeTreeNeverThrows(w, i); }
    case JoinNode(l, r, _) =>
      SafeTreeNeverThrows(w, l);
      SafeTreeNeverThrows(w, r);
  }

  /** What a caller can check on the query alone: then it throws on no database. */
  lemma SafeQueryNeverThrows(w: World, p: Plan)
    requires Query(w, p)
    requires forall c :: c in PlanConjuncts(p) ==> ConjunctSafe(c)
    requires forall e :: e in p.exprs ==> ItemSafe(e)
    ensures Relational(Rewritten(p.input)) && !QueryThrows(w, p.input, p.exprs)
  {
    var body := Rewritten(p.input);
    PushdownConserves(p.input);
    RewrittenTyped(p.input);
    RewrittenBody(p.input);
    BodyRelational(body);
    if FromTree(p.input) {
      RewrittenScoped(w, p.input);
      SafeTreeNeverThrows(w, body);
    } else {
      AggregateLogicalSide(w, p.input);
      FromTreeRelational(body.input);
      SafeTreeNeverThrows(w, body.input);
    }
  }

  // ----- the smallest queries that throw -----

  /** SELECT item FROM t WHERE condition, for a table with one column. */
  function WhereQuery(t: nat, ty: TypeId, condition: Expr, item: Expr): Plan {
    ProjectNode(FilterNode(OneScan(t, ty), condition), [item])
  }

  function Only(ty: TypeId): Expr { Col(ColumnRef(0, 0, ty)) }

  predicate OverOnly(e: Expr, ty: TypeId) { forall ref :: ref in CollectColumnRefs(e) ==> Col(ref) == Only(ty) }

  lemma ColumnsOfOne(item: Expr)
    ensures ExprColumns([item]) == CollectColumnRefs(item)
  {
    assert [item][..0] == [];
    PlusEmpty(CollectColumnRefs(item));
  }

  function OneScan(t: nat, ty: TypeId): Plan { ScanNode(0, t, [ty], []) }

  lemma OnlyResolves(t: nat, ty: TypeId, e: Expr)
    requires OverOnly(e, ty)
    ensures AllResolve(OneScan(t, ty), CollectColumnRefs(e))
  {
    forall ref | ref in CollectColumnRefs(e) ensures Resolves(OneScan(t, ty), ref) { assert Col(ref) == Only(ty); }
  }

  lemma FilterResolves(i: Plan, e: Expr, refs: seq<ColumnRef>)
    requires AllResolve(i, refs)
    ensures AllResolve(FilterNode(i, e), refs)
  {
  }

  lemma ScanIsScoped(w: World, t: nat, ty: TypeId)
    requires t in w.tables && w.tables[t].types == [ty]
    ensures FromTree(OneScan(t, ty)) && Scoped(w, OneScan(t, ty)) && ConditionsTyped(OneScan(t, ty))
  {
  }

  lemma WhereIsQuery(w: World, t: nat, ty: TypeId, condition: Expr, item: Expr)
    requires t in w.tables && w.tables[t].types == [ty]
    requires OverOnly(condition, ty) && OverOnly(item, ty) && IsPredicate(condition) && BoundType(item).Some?
    requires Conjuncts(condition) == [condition]
    ensures Query(w, WhereQuery(t, ty, condition, item))
    ensures Rewritten(FilterNode(OneScan(t, ty), condition)) == FilterNode(OneScan(t, ty), condition)
  {
    var scan := OneScan(t, ty);
    assert Placed(scan, [condition]) == FilterNode(scan, condition);
    ScanIsScoped(w, t, ty);
    OnlyResolves(t, ty, condition);
    OnlyResolves(t, ty, item);
    FilterIsQuery(w, scan, condition, item);
  }

  lemma FilterIsQuery(w: World, scan: Plan, condition: Expr, item: Expr)
    requires FromTree(scan) && scan.ScanNode? && Scoped(w, scan) && ConditionsTyped(scan)
    requires AllResolve(scan, CollectColumnRefs(condition)) && AllResolve(scan, CollectColumnRefs(item))
    requires IsPredicate(condition) && BoundType(item).Some?
    ensures Query(w, ProjectNode(FilterNode(scan, condition), [item]))
  {
    var body := FilterNode(scan, condition);
    FilterResolves(scan, condition, CollectColumnRefs(item));
    ColumnsOfOne(item);
    assert FromTree(body) && Scoped(w, body) && ConditionsTyped(body);
    FromTreeBody(body);
    assert SelectTyped([item]);
  }

  lemma ComparisonHasNoBooleans(op: BinaryOp, ref: ColumnRef, v: Literal, ty: ExprType)
    ensures NoBooleanOperands(Binary(op, Col(ref), Const(v), ty))
  {
  }

  /** A FLOAT column compared with an INTEGER literal: accepted, extracted as a
      skip, and thrown at as soon as the table has a row group. */
  lemma MistypedSkipThrowsIff(w: World, t: nat, c: Int32)
    requires t in w.tables && w.tables[t].types == [Float]
    ensures var condition := Binary(GreaterThan, Only(Float), Const(IntL(c)), BooleanT);
      var p := WhereQuery(t, Float, condition, Only(Float));
      && Query(w, p) && Relational(Rewritten(p.input))
      && (QueryThrows(w, p.input, p.exprs) <==> w.tables[t].groups != [])
  {
    var condition := Binary(GreaterThan, Only(Float), Const(IntL(c)), BooleanT);
    WhereIsQuery(w, t, Float, condition, Only(Float));
    var scan := OneScan(t, Float);
    assert TryExtractZoneMapSkip(condition, 0) == Some(Skip(0, GreaterThan, IntL(c)));
    assert !SkipTyped(condition, scan);
  }

  /** The same comparison beside another conjunct is no skip, and nothing throws. */
  lemma FusedComparisonIsFine(w: World, t: nat, c: Int32, d: Int32)
    requires t in w.tables && w.tables[t].types == [Float]
    ensures var above := Binary(GreaterThan, Only(Float), Const(IntL(c)), BooleanT);
      var below := Binary(LessThan, Only(Float), Const(IntL(d)), BooleanT);
      var p := WhereQuery(t, Float, Binary(And, above, below, IntegerT), Only(Float));
      Relational(Rewritten(p.input)) && !QueryThrows(w, p.input, p.exprs)
  {
    var above := Binary(GreaterThan, Only(Float), Const(IntL(c)), BooleanT);
    var below := Binary(LessThan, Only(Float), Const(IntL(d)), BooleanT);
    var both, scan := Binary(And, above, below, IntegerT), OneScan(t, Float);
    assert Conjuncts(both) == [above, below];
    assert [above, below][..1] == [above];
    assert Conjoin([above, below]) == Binary(And, above, below, IntegerT);
    assert Rewritten(FilterNode(scan, both)) == FilterNode(scan, both);
    assert TryExtractZoneMapSkip(both, 0).None?;
    ComparisonHasNoBooleans(GreaterThan, ColumnRef(0, 0, Float), IntL(c), BooleanT);
    ComparisonHasNoBooleans(LessThan, ColumnRef(0, 0, Float), IntL(d), BooleanT);
    assert NoBooleanOperands(both) && NoBooleanOperands(Only(Float));
  }

  function OnlyIs(c: Int32): Expr { Binary(Equal, Only(Integer), Const(IntL(c)), BooleanT) }

  /** (a = 1) = (a = 2): accepted, and thrown at as soon as some row is stored. */
  lemma BooleanOperandThrowsIff(w: World, t: nat)
    requires t in w.tables && w.tables[t].types == [Integer]
    ensures var p := WhereQuery(t, Integer, Binary(Equal, OnlyIs(1), OnlyIs(2), BooleanT), Only(Integer));
      && Query(w, p) && Relational(Rewritten(p.input))
      && (QueryThrows(w, p.input, p.exprs) <==> exists g :: g in w.tables[t].groups && g.rows != [])
  {
    var condition := Binary(Equal, OnlyIs(1), OnlyIs(2), BooleanT);
    assert IsPredicate(OnlyIs(1)) && IsPredicate(OnlyIs(2));
    WhereIsQuery(w, t, Integer, condition, Only(Integer));
    assert TryExtractZoneMapSkip(condition, 0).None?;
    assert !NoBooleanOperands(condition);
    var groups := w.tables[t].groups;
    if g :| g in groups && g.rows != [] { assert Visited(g, None); }
  }

  /** SELECT a = 1 FROM t: accepted, and thrown at as soon as there is a row group. */
  lemma BooleanItemThrowsIff(w: World, t: nat)
    requires t in w.tables && w.tables[t].types == [Integer]
    ensures var p := ProjectNode(OneScan(t, Integer), [OnlyIs(1)]);
      && Query(w, p) && Relational(Rewritten(p.input))
      && (QueryThrows(w, p.input, p.exprs) <==> w.tables[t].groups != [])
  {
    var scan := OneScan(t, Integer);
    ColumnsOfOne(OnlyIs(1));
    assert OnlyIs(1) in [OnlyIs(1)] && ResultType(OnlyIs(1)) == BooleanT;
    if w.tables[t].groups != [] { assert Visited(w.tables[t].groups[0], None); }
  }
}
