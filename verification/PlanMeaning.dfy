/** What the nodes of a plan mean row by row, and which columns a pruned plan
    still reads. */
module PlanMeaning {
  import opened Seqs
  import opened Types
  import opened Expressions
  import opened Operators
  import opened KeyBytes
  import opened LogicalPlan
  import opened Pruning
  import opened Optimizer

  // ----- rows and cells -----

  /** A scan gives the table's rows in order, cell by cell, under its binding. */
  lemma ScanMeans(w: World, p: Plan, n: nat)
    requires p.ScanNode? && n < |TableRows(w, p.tableId)|
    ensures |Denote(w, p)| == |TableRows(w, p.tableId)|
    ensures forall t: nat, o: nat ::
      (t, o) in Denote(w, p)[n] <==> t == p.bindingId && o < |TableRows(w, p.tableId)[n]|
    ensures forall o: nat :: o < |TableRows(w, p.tableId)[n]| ==>
      Get(Denote(w, p)[n], p.bindingId, o) == TableRows(w, p.tableId)[n][o]
  {
    var cells := TableRows(w, p.tableId)[n];
    forall t: nat, o: nat
      ensures (t, o) in Denote(w, p)[n] <==> t == p.bindingId && o < |cells|
      ensures t == p.bindingId && o < |cells| ==> Get(Denote(w, p)[n], p.bindingId, o) == cells[o]
    {
      CellMapGet(p.bindingId, cells, t, o);
    }
  }

  /** A filter keeps exactly the rows for which its condition is true, neither
      false nor NULL. */
  lemma FilterMeans(w: World, i: Plan, e: Expr, r: Row)
    requires Relational(i)
    ensures r in Denote(w, FilterNode(i, e)) <==> r in Denote(w, i) && Eval(w.fpu, e, RowEnv(r)) == BoolD(true)
  {
    FilterMember(Denote(w, i), LogicalPlan.Passing(w.fpu, e), r);
  }

  /** The column of the equality that belongs to the left, or to the right, input. */
  function OwnColumn(pair: EquiPair, left: seq<nat>, isLeft: bool): ColumnRef {
    if (pair.0.tableId in left) == isLeft then pair.0 else pair.1
  }

  function KeyCellsOf(equi: seq<EquiPair>, left: seq<nat>, isLeft: bool, row: Row): (cells: seq<Datum>)
    ensures |cells| == |equi|
    ensures forall k :: 0 <= k < |equi| ==> cells[k] == RowEnv(row)(OwnColumn(equi[k], left, isLeft))
  {
    seq(|equi|, k requires 0 <= k < |equi| => RowEnv(row)(OwnColumn(equi[k], left, isLeft)))
  }

  /** No key cell is NULL, and both keys have the same bytes. */
  predicate RowsJoin(equi: seq<EquiPair>, left: seq<nat>, l: Row, r: Row) {
    SameKey(KeyCellsOf(equi, left, true, l), KeyCellsOf(equi, left, false, r))
  }

  lemma RowsJoinIsMatch(equi: seq<EquiPair>, left: seq<nat>, l: Row, r: Row)
    ensures RowsJoin(equi, left, l, r) <==> JoinMatch(equi, left)(l, r)
  {
    var ls, rs := Map(equi, LeftCell(left, l)), Map(equi, RightCell(left, r));
    var ks, js := KeyCellsOf(equi, left, true, l), KeyCellsOf(equi, left, false, r);
    forall k | 0 <= k < |equi| ensures ks[k] == ls[k] && js[k] == rs[k] {
      assert LeftKey(left, equi[k]) == OwnColumn(equi[k], left, true);
      assert RightKey(left, equi[k]) == OwnColumn(equi[k], left, false);
    }
    assert ks == ls && js == rs;
  }

  /** A join gives the merged rows of all pairs whose keys match. */
  lemma JoinHas(w: World, l: Plan, r: Plan, equi: seq<EquiPair>, a: Row, b: Row)
    requires Relational(l) && Relational(r) && a in Denote(w, l) && b in Denote(w, r)
    requires RowsJoin(equi, CollectBindingIds(l), a, b)
    ensures a + b in Denote(w, JoinNode(l, r, equi))
  {
    RowsJoinIsMatch(equi, CollectBindingIds(l), a, b);
    NestedLoopHas(Denote(w, l), Denote(w, r), JoinMatch(equi, CollectBindingIds(l)), Merge(), a, b);
  }

  /** It gives no other rows. */
  lemma JoinOnly(w: World, l: Plan, r: Plan, equi: seq<EquiPair>, row: Row) returns (a: Row, b: Row)
    requires Relational(l) && Relational(r) && row in Denote(w, JoinNode(l, r, equi))
    ensures a in Denote(w, l) && b in Denote(w, r) && row == a + b && RowsJoin(equi, CollectBindingIds(l), a, b)
  {
    var m := JoinMatch(equi, CollectBindingIds(l));
    NestedLoopMember(Denote(w, l), Denote(w, r), m, Merge(), row);
    a, b :| a in Denote(w, l) && b in Denote(w, r) && m(a, b) && row == Merge()(a, b);
    RowsJoinIsMatch(equi, CollectBindingIds(l), a, b);
  }

  /** The answer has, for each row of the body in order, the value of each item in order. */
  lemma AnswerMeans(w: World, body: Plan, exprs: seq<Expr>)
    requires Relational(body)
    ensures var answer, rows := Answer(w, ProjectNode(body, exprs)), Denote(w, body);
      && |answer| == |rows|
      && forall n :: 0 <= n < |rows| ==>
           |answer[n]| == |exprs| &&
             forall j :: 0 <= j < |exprs| ==> answer[n][j] == Eval(w.fpu, exprs[j], RowEnv(rows[n]))
  {
  }

  // ----- the columns a plan reads -----

  predicate MentionsColumn(e: Expr, t: nat, o: nat) {
    match e
    case Col(ref) => ref.tableId == t && ref.ordinal == o
    case Const(_) => false
    case Binary(_, l, r, _) => MentionsColumn(l, t, o) || MentionsColumn(r, t, o)
    case Not(x) => MentionsColumn(x, t, o)
  }

  predicate Names(ref: ColumnRef, t: nat, o: nat) { ref.tableId == t && ref.ordinal == o }

  predicate ListNames(refs: seq<ColumnRef>, t: nat, o: nat) { exists ref :: ref in refs && Names(ref, t, o) }

  /** Some condition, equality, grouping, argument or item of the plan reads the column. */
  predicate Uses(p: Plan, t: nat, o: nat) {
    match p
    case ScanNode(_, _, _, _) => false
    case FilterNode(i, e) => MentionsColumn(e, t, o) || Uses(i, t, o)
    case JoinNode(l, r, equi) =>
      || (exists pair :: pair in equi && (Names(pair.0, t, o) || Names(pair.1, t, o)))
      || Uses(l, t, o) || Uses(r, t, o)
    case AggregateNode(i, groupBy, aggs) =>
      || ListNames(groupBy, t, o)
      || (exists call :: call in aggs && call.arg.Some? && Names(call.arg.value, t, o))
      || Uses(i, t, o)
    case ProjectNode(i, exprs) => (exists e :: e in exprs && MentionsColumn(e, t, o)) || Uses(i, t, o)
  }

  /** The scan of binding `t` still reads ordinal `o`. */
  predicate Keeps(p: Plan, t: nat, o: nat) {
    match p
    case ScanNode(id, _, _, ordinals) => id == t && o in ordinals
    case FilterNode(i, _) => Keeps(i, t, o)
    case JoinNode(l, r, _) => Keeps(l, t, o) || Keeps(r, t, o)
    case AggregateNode(i, _, _) => Keeps(i, t, o)
    case ProjectNode(i, _) => Keeps(i, t, o)
  }

  // ----- the collected lists name what is mentioned -----

  lemma {:induction false} CollectedNames(e: Expr, t: nat, o: nat)
    ensures ListNames(CollectColumnRefs(e), t, o) <==> MentionsColumn(e, t, o)
  {
    match e
    case Col(ref) => assert ref in CollectColumnRefs(e);
    case Const(_) =>
    case Binary(_, l, r, _) =>
      CollectedNames(l, t, o);
      CollectedNames(r, t, o);
      ListNamesConcat(CollectColumnRefs(l), CollectColumnRefs(r), t, o);
    case Not(x) => CollectedNames(x, t, o);
  }

  lemma ListNamesConcat(a: seq<ColumnRef>, b: seq<ColumnRef>, t: nat, o: nat)
    ensures ListNames(a + b, t, o) <==> ListNames(a, t, o) || ListNames(b, t, o)
  {
    if ref :| ref in a && Names(ref, t, o) { assert ref in a + b; }
    if ref :| ref in b && Names(ref, t, o) { assert ref in a + b; }
  }

  lemma {:induction false} EquiNames(equi: seq<EquiPair>, t: nat, o: nat)
    ensures ListNames(EquiColumns(equi), t, o) <==>
      exists pair :: pair in equi && (Names(pair.0, t, o) || Names(pair.1, t, o))
  {
    if equi != [] {
      var init, last := equi[..|equi| - 1], equi[|equi| - 1];
      EquiNames(init, t, o);
      SplitLast(equi);
      ListNamesConcat(EquiColumns(init), [last.0, last.1], t, o);
      assert last.0 in [last.0, last.1] && last.1 in [last.0, last.1];
    }
  }

  lemma {:induction false} ArgNames(aggs: seq<AggCall>, t: nat, o: nat)
    ensures ListNames(ArgColumns(aggs), t, o) <==>
      exists call :: call in aggs && call.arg.Some? && Names(call.arg.value, t, o)
  {
    if aggs != [] {
      var init, last := aggs[..|aggs| - 1], aggs[|aggs| - 1];
      ArgNames(init, t, o);
      SplitLast(aggs);
      if last.arg.Some? {
        ListNamesConcat(ArgColumns(init), [last.arg.value], t, o);
        assert last.arg.value in [last.arg.value];
      }
    }
  }

  lemma {:induction false} ItemNames(exprs: seq<Expr>, t: nat, o: nat)
    ensures ListNames(ExprColumns(exprs), t, o) <==> exists e :: e in exprs && MentionsColumn(e, t, o)
  {
    if exprs != [] {
      var init, last := exprs[..|exprs| - 1], exprs[|exprs| - 1];
      ItemNames(init, t, o);
      SplitLast(exprs);
      CollectedNames(last, t, o);
      ListNamesConcat(ExprColumns(init), CollectColumnRefs(last), t, o);
    }
  }

  // ----- pruning keeps exactly what is used -----

  /** A scoped tree uses columns of its own tables only. */
  lemma {:induction false} UsesOwn(w: World, p: Plan, t: nat, o: nat)
    requires FromTree(p) && Scoped(w, p) && Uses(p, t, o)
    ensures t in CollectBindingIds(p)
  {
    match p
    case FilterNode(i, e) =>
      if MentionsColumn(e, t, o) {
        CollectedNames(e, t, o);
        var ref :| ref in CollectColumnRefs(e) && Names(ref, t, o);
        ResolvesWithinIds(i, ref);
      } else {
        UsesOwn(w, i, t, o);
      }
    case JoinNode(l, r, equi) =>
      if pair :| pair in equi && (Names(pair.0, t, o) || Names(pair.1, t, o)) {
        assert PairScoped(l, r, pair);
        PairWithinIds(l, r, equi, pair);
      } else if Uses(l, t, o) {
        UsesOwn(w, l, t, o);
      } else {
        UsesOwn(w, r, t, o);
      }
  }

  lemma PairWithinIds(l: Plan, r: Plan, equi: seq<EquiPair>, pair: EquiPair)
    requires FromTree(JoinNode(l, r, equi)) && PairScoped(l, r, pair)
    ensures pair.0.tableId in CollectBindingIds(l) + CollectBindingIds(r)
    ensures pair.1.tableId in CollectBindingIds(l) + CollectBindingIds(r)
  {
    if Resolves(l, pair.0) && Resolves(r, pair.1) {
      ResolvesWithinIds(l, pair.0);
      ResolvesWithinIds(r, pair.1);
    } else {
      ResolvesWithinIds(r, pair.0);
      ResolvesWithinIds(l, pair.1);
    }
  }

  lemma ScanKeeps(id: nat, required: seq<ColumnRef>, o: nat)
    ensures o in NeededOrdinals(id, required) <==> ListNames(required, id, o)
  {
    NeededOrdinalsMember(id, required, o);
    if ref :| ref in required && ref.tableId == id && ref.ordinal == o { assert Names(ref, id, o); }
  }

  /** Handing requirements down to one side loses none of that side's columns. */
  lemma SideNames(all: seq<ColumnRef>, side: ColumnRef -> bool, t: nat, o: nat)
    requires forall ref :: ref in all && ref.tableId == t ==> side(ref)
    ensures ListNames(Filter(all, side), t, o) <==> ListNames(all, t, o)
  {
    FilterMembers(all, side);
    if ref :| ref in all && Names(ref, t, o) { assert ref in Filter(all, side); }
  }

  lemma {:induction false} PrunedKeeps(w: World, p: Plan, required: seq<ColumnRef>, t: nat, o: nat)
    requires FromTree(p) && Scoped(w, p)
    ensures Keeps(Pruned(p, required), t, o) <==>
      t in CollectBindingIds(p) && (ListNames(required, t, o) || Uses(p, t, o))
    decreases p, 1
  {
    match p
    case ScanNode(id, _, _, _) => ScanKeeps(id, required, o);
    case FilterNode(i, e) =>
      PrunedKeeps(w, i, required + CollectColumnRefs(e), t, o);
      ListNamesConcat(required, CollectColumnRefs(e), t, o);
      CollectedNames(e, t, o);
    case JoinNode(l, r, equi) => PrunedJoinKeeps(w, l, r, equi, required, t, o);
  }

  lemma {:induction false} PrunedJoinKeeps(w: World, l: Plan, r: Plan, equi: seq<EquiPair>, required: seq<ColumnRef>,
                                           t: nat, o: nat)
    requires FromTree(JoinNode(l, r, equi)) && Scoped(w, JoinNode(l, r, equi))
    ensures Keeps(Pruned(JoinNode(l, r, equi), required), t, o) <==>
      && t in CollectBindingIds(l) + CollectBindingIds(r)
      && (ListNames(required, t, o) || Uses(JoinNode(l, r, equi), t, o))
    decreases JoinNode(l, r, equi), 0
  {
    var left, right, all := CollectBindingIds(l), CollectBindingIds(r), required + EquiColumns(equi);
    PrunedKeeps(w, l, Filter(all, InIds(left)), t, o);
    PrunedKeeps(w, r, Filter(all, InIdsButNot(right, left)), t, o);
    ListNamesConcat(required, EquiColumns(equi), t, o);
    EquiNames(equi, t, o);
    if Uses(l, t, o) { UsesOwn(w, l, t, o); }
    if Uses(r, t, o) { UsesOwn(w, r, t, o); }
    if t in left { SideNames(all, InIds(left), t, o); }
    if t in right { SideNames(all, InIdsButNot(right, left), t, o); }
  }

  /** After pruning, a query without aggregate reads exactly the columns it uses. */
  lemma PruningIsExact(w: World, body: Plan, exprs: seq<Expr>, t: nat, o: nat)
    requires FromTree(body) && Scoped(w, body)
    ensures Keeps(Pruned(ProjectNode(body, exprs), []), t, o) <==>
      t in CollectBindingIds(body) && Uses(ProjectNode(body, exprs), t, o)
  {
    PrunedKeeps(w, body, ExprColumns(exprs), t, o);
    ItemNames(exprs, t, o);
  }

  /** Below an aggregate, exactly those that it and its input use. */
  lemma AggregatePruningIsExact(w: World, i: Plan, groupBy: seq<ColumnRef>, aggs: seq<AggCall>, exprs: seq<Expr>,
                                t: nat, o: nat)
    requires FromTree(i) && Scoped(w, i)
    ensures Keeps(Pruned(ProjectNode(AggregateNode(i, groupBy, aggs), exprs), []), t, o) <==>
      t in CollectBindingIds(i) && Uses(AggregateNode(i, groupBy, aggs), t, o)
  {
    PrunedKeeps(w, i, groupBy + ArgColumns(aggs), t, o);
    ListNamesConcat(groupBy, ArgColumns(aggs), t, o);
    ArgNames(aggs, t, o);
  }
}
