/** Predicate pushdown: where each conjunct goes, and why the plan still means
    the same row sequence. */
module Pushdown {
  import opened Seqs
  import opened Types
  import opened Expressions
  import opened Aggregates
  import opened Grouping
  import opened LogicalPlan

  predicate AllColumnsAvailable(c: Expr, ids: seq<nat>) {
    forall ref :: ref in CollectColumnRefs(c) ==> ref.tableId in ids
  }

  predicate IsGroupByColumn(ref: ColumnRef, groupBy: seq<ColumnRef>) {
    exists k :: k in groupBy && k.tableId == ref.tableId && k.ordinal == ref.ordinal
  }

  predicate ReferencesOnlyGroupByColumns(c: Expr, groupBy: seq<ColumnRef>) {
    forall ref :: ref in CollectColumnRefs(c) ==> IsGroupByColumn(ref, groupBy)
  }

  function OnLeft(left: seq<nat>): Expr -> bool { (c: Expr) => AllColumnsAvailable(c, left) }
  function OnRight(left: seq<nat>, right: seq<nat>): Expr -> bool {
    (c: Expr) => !AllColumnsAvailable(c, left) && AllColumnsAvailable(c, right)
  }
  function OnBoth(left: seq<nat>, right: seq<nat>): Expr -> bool {
    (c: Expr) => !AllColumnsAvailable(c, left) && !AllColumnsAvailable(c, right)
  }
  function Eligible(groupBy: seq<ColumnRef>): Expr -> bool {
    (c: Expr) => ReferencesOnlyGroupByColumns(c, groupBy)
  }
  function Ineligible(groupBy: seq<ColumnRef>): Expr -> bool {
    (c: Expr) => !ReferencesOnlyGroupByColumns(c, groupBy)
  }

  function WrapInFilter(p: Plan, cs: seq<Expr>): Plan {
    if cs == [] then p else FilterNode(p, Conjoin(cs))
  }

  /** Where PlaceInto leaves the plan. */
  function Placed(p: Plan, cs: seq<Expr>): Plan {
    if cs == [] then p
    else
      match p
      case ScanNode(_, _, _, _) => WrapInFilter(p, cs)
      case FilterNode(i, e) => FilterNode(i, Conjoin([e] + cs))
      case JoinNode(l, r, equi) =>
        var left, right := CollectBindingIds(l), CollectBindingIds(r);
        WrapInFilter(
          JoinNode(Placed(l, Filter(cs, OnLeft(left))), Placed(r, Filter(cs, OnRight(left, right))), equi),
          Filter(cs, OnBoth(left, right)))
      case AggregateNode(i, groupBy, aggs) =>
        WrapInFilter(AggregateNode(Placed(i, Filter(cs, Eligible(groupBy))), groupBy, aggs),
                     Filter(cs, Ineligible(groupBy)))
      case ProjectNode(i, exprs) => ProjectNode(Placed(i, cs), exprs)
  }

  function Rewritten(p: Plan): Plan {
    match p
    case ScanNode(_, _, _, _) => p
    case FilterNode(i, e) => Placed(Rewritten(i), Conjuncts(e))
    case JoinNode(l, r, equi) => JoinNode(Rewritten(l), Rewritten(r), equi)
    case AggregateNode(i, groupBy, aggs) => AggregateNode(Rewritten(i), groupBy, aggs)
    case ProjectNode(i, exprs) => ProjectNode(Rewritten(i), exprs)
  }

  // ----- the code: conjuncts move into buckets in loops -----

  method SplitForJoin(conjuncts: seq<Expr>, leftIds: seq<nat>, rightIds: seq<nat>)
      returns (leftBucket: seq<Expr>, rightBucket: seq<Expr>, staysHere: seq<Expr>)
    ensures leftBucket == Filter(conjuncts, OnLeft(leftIds))
    ensures rightBucket == Filter(conjuncts, OnRight(leftIds, rightIds))
    ensures staysHere == Filter(conjuncts, OnBoth(leftIds, rightIds))
  {
    leftBucket, rightBucket, staysHere := [], [], [];
    for i := 0 to |conjuncts|
      invariant leftBucket == Filter(conjuncts[..i], OnLeft(leftIds))
      invariant rightBucket == Filter(conjuncts[..i], OnRight(leftIds, rightIds))
      invariant staysHere == Filter(conjuncts[..i], OnBoth(leftIds, rightIds))
    {
      var c := conjuncts[i];
      assert conjuncts[..i + 1] == conjuncts[..i] + [c];
      FilterSnoc(conjuncts[..i], c, OnLeft(leftIds));
      FilterSnoc(conjuncts[..i], c, OnRight(leftIds, rightIds));
      FilterSnoc(conjuncts[..i], c, OnBoth(leftIds, rightIds));
      if AllColumnsAvailable(c, leftIds) {
        leftBucket := leftBucket + [c];
      } else if AllColumnsAvailable(c, rightIds) {
        rightBucket := rightBucket + [c];
      } else {
        staysHere := staysHere + [c];
      }
    }
    assert conjuncts[..|conjuncts|] == conjuncts;
  }

  method SplitForAggregate(conjuncts: seq<Expr>, groupBy: seq<ColumnRef>)
      returns (eligible: seq<Expr>, ineligible: seq<Expr>)
    ensures eligible == Filter(conjuncts, Eligible(groupBy))
    ensures ineligible == Filter(conjuncts, Ineligible(groupBy))
  {
    eligible, ineligible := [], [];
    for i := 0 to |conjuncts|
      invariant eligible == Filter(conjuncts[..i], Eligible(groupBy))
      invariant ineligible == Filter(conjuncts[..i], Ineligible(groupBy))
    {
      var c := conjuncts[i];
      assert conjuncts[..i + 1] == conjuncts[..i] + [c];
      FilterSnoc(conjuncts[..i], c, Eligible(groupBy));
      FilterSnoc(conjuncts[..i], c, Ineligible(groupBy));
      if ReferencesOnlyGroupByColumns(c, groupBy) {
        eligible := eligible + [c];
      } else {
        ineligible := ineligible + [c];
      }
    }
    assert conjuncts[..|conjuncts|] == conjuncts;
  }

  method PlaceInto(node: Plan, conjuncts: seq<Expr>) returns (result: Plan)
    ensures result == Placed(node, conjuncts)
    decreases node
  {
    if conjuncts == [] {
      return node;
    }
    match node
    case ScanNode(_, _, _, _) =>
      var e := RebuildConjunction(conjuncts);
      result := FilterNode(node, e);
    case FilterNode(i, condition) =>
      var e := RebuildConjunction([condition] + conjuncts);
      result := FilterNode(i, e);
    case JoinNode(l, r, equi) =>
      var leftBucket, rightBucket, staysHere :=
        SplitForJoin(conjuncts, CollectBindingIds(l), CollectBindingIds(r));
      var left := PlaceInto(l, leftBucket);
      var right := PlaceInto(r, rightBucket);
      result := JoinNode(left, right, equi);
      if staysHere != [] {
        var e := RebuildConjunction(staysHere);
        result := FilterNode(result, e);
      }
    case AggregateNode(i, groupBy, aggs) =>
      var eligible, ineligible := SplitForAggregate(conjuncts, groupBy);
      var input := PlaceInto(i, eligible);
      result := AggregateNode(input, groupBy, aggs);
      if ineligible != [] {
        var e := RebuildConjunction(ineligible);
        result := FilterNode(result, e);
      }
    case ProjectNode(i, exprs) =>
      var input := PlaceInto(i, conjuncts);
      result := ProjectNode(input, exprs);
  }

  method PushdownPredicates(root: Plan) returns (result: Plan)
    ensures result == Rewritten(root)
    decreases root
  {
    match root
    case ScanNode(_, _, _, _) => result := root;
    case FilterNode(i, condition) =>
      var child := PushdownPredicates(i);
      result := PlaceInto(child, Conjuncts(condition));
    case JoinNode(l, r, equi) =>
      var left := PushdownPredicates(l);
      var right := PushdownPredicates(r);
      result := JoinNode(left, right, equi);
    case AggregateNode(i, groupBy, aggs) =>
      var input := PushdownPredicates(i);
      result := AggregateNode(input, groupBy, aggs);
    case ProjectNode(i, exprs) =>
      var input := PushdownPredicates(i);
      result := ProjectNode(input, exprs);
  }

  // ----- shape -----

  lemma {:induction false} PlacedKeepsIds(p: Plan, cs: seq<Expr>)
    ensures CollectBindingIds(Placed(p, cs)) == CollectBindingIds(p)
  {
    if cs != [] {
      match p
      case JoinNode(l, r, _) =>
        PlacedKeepsIds(l, Filter(cs, OnLeft(CollectBindingIds(l))));
        PlacedKeepsIds(r, Filter(cs, OnRight(CollectBindingIds(l), CollectBindingIds(r))));
      case AggregateNode(i, groupBy, _) => PlacedKeepsIds(i, Filter(cs, Eligible(groupBy)));
      case ProjectNode(i, _) => PlacedKeepsIds(i, cs);
      case _ =>
    }
  }

  lemma {:induction false} RewrittenKeepsIds(p: Plan)
    ensures CollectBindingIds(Rewritten(p)) == CollectBindingIds(p)
  {
    match p
    case ScanNode(_, _, _, _) =>
    case FilterNode(i, e) => RewrittenKeepsIds(i); PlacedKeepsIds(Rewritten(i), Conjuncts(e));
    case JoinNode(l, r, _) => RewrittenKeepsIds(l); RewrittenKeepsIds(r);
    case AggregateNode(i, _, _) => RewrittenKeepsIds(i);
    case ProjectNode(i, _) => RewrittenKeepsIds(i);
  }

  lemma {:induction false} PlacedFromTree(p: Plan, cs: seq<Expr>)
    requires FromTree(p)
    ensures FromTree(Placed(p, cs)) && Relational(Placed(p, cs)) && Relational(p)
  {
    FromTreeRelational(p);
    if cs != [] && p.JoinNode? {
      var left, right := CollectBindingIds(p.left), CollectBindingIds(p.right);
      PlacedFromTree(p.left, Filter(cs, OnLeft(left)));
      PlacedFromTree(p.right, Filter(cs, OnRight(left, right)));
      PlacedKeepsIds(p.left, Filter(cs, OnLeft(left)));
      PlacedKeepsIds(p.right, Filter(cs, OnRight(left, right)));
    }
  }

  lemma {:induction false} PlacedBody(p: Plan, cs: seq<Expr>)
    requires Body(p)
    ensures Body(Placed(p, cs)) && Relational(Placed(p, cs)) && Relational(p)
  {
    BodyRelational(p);
    if FromTree(p) {
      PlacedFromTree(p, cs);
      FromTreeBody(Placed(p, cs));
    } else if cs != [] && p.AggregateNode? {
      PlacedFromTree(p.input, Filter(cs, Eligible(p.groupBy)));
    }
    BodyRelational(Placed(p, cs));
  }

  lemma FromTreeBody(p: Plan)
    requires FromTree(p)
    ensures Body(p)
  {
    match p
    case FilterNode(i, _) => FromTreeBody(i);
    case _ =>
  }

  lemma {:induction false} RewrittenFromTree(p: Plan)
    requires FromTree(p)
    ensures FromTree(Rewritten(p))
  {
    match p
    case ScanNode(_, _, _, _) =>
    case FilterNode(i, e) => RewrittenFromTree(i); PlacedFromTree(Rewritten(i), Conjuncts(e));
    case JoinNode(l, r, _) =>
      RewrittenFromTree(l); RewrittenFromTree(r); RewrittenKeepsIds(l); RewrittenKeepsIds(r);
  }

  lemma {:induction false} RewrittenBody(p: Plan)
    requires Body(p)
    ensures Body(Rewritten(p))
  {
    match p
    case FilterNode(i, e) => RewrittenBody(i); PlacedBody(Rewritten(i), Conjuncts(e));
    case AggregateNode(i, _, _) => RewrittenFromTree(i);
    case _ => RewrittenFromTree(p); FromTreeBody(Rewritten(p));
  }

  // ----- filters over one input -----

  lemma WrapDenotes(w: World, p: Plan, cs: seq<Expr>)
    requires Relational(p)
    ensures Relational(WrapInFilter(p, cs))
    ensures Denote(w, WrapInFilter(p, cs)) == Filter(Denote(w, p), PassingAll(w.fpu, cs))
  {
    if cs == [] {
      FilterAll(Denote(w, p), PassingAll(w.fpu, cs));
    } else {
      forall r | r in Denote(w, p)
        ensures Passing(w.fpu, Conjoin(cs))(r) == PassingAll(w.fpu, cs)(r)
      {
        PassesConjoin(w.fpu, cs, RowEnv(r));
      }
      FilterSame(Denote(w, p), Passing(w.fpu, Conjoin(cs)), PassingAll(w.fpu, cs));
    }
  }

  /** Fusing into an existing filter: its predicate and the new conjuncts together. */
  lemma FusedDenotes(w: World, i: Plan, e: Expr, cs: seq<Expr>)
    requires Relational(i)
    ensures Denote(w, FilterNode(i, Conjoin([e] + cs))) == Filter(Denote(w, FilterNode(i, e)), PassingAll(w.fpu, cs))
  {
    var rows, fused := Denote(w, i), Passing(w.fpu, Conjoin([e] + cs));
    forall r | r in rows ensures fused(r) == (Passing(w.fpu, e)(r) && PassingAll(w.fpu, cs)(r)) {
      PassesConjoin(w.fpu, [e] + cs, RowEnv(r));
      assert forall c :: c in [e] + cs <==> c == e || c in cs;
    }
    FilterTwice(rows, Passing(w.fpu, e), PassingAll(w.fpu, cs), fused);
  }

  // ----- joins -----

  lemma PassesAllDependsOnRefs(fpu: FloatUnit, cs: seq<Expr>, f: Env, g: Env)
    requires forall c, ref :: c in cs && ref in CollectColumnRefs(c) ==> f(ref) == g(ref)
    ensures PassesAll(fpu, cs, f) == PassesAll(fpu, cs, g)
  {
    forall c | c in cs ensures Passes(fpu, c, f) == Passes(fpu, c, g) { EvalDependsOnRefs(fpu, c, f, g); }
  }

  lemma MergedRowReadsLeft(fpu: FloatUnit, cs: seq<Expr>, left: seq<nat>, right: seq<nat>, l: Row, r: Row)
    requires WithinIds(r, right) && (forall id :: id in left ==> id !in right)
    requires forall c :: c in cs ==> AllColumnsAvailable(c, left)
    ensures PassingAll(fpu, cs)(Merge()(l, r)) == PassingAll(fpu, cs)(l)
  {
    PassesAllDependsOnRefs(fpu, cs, RowEnv(l + r), RowEnv(l));
  }

  lemma MergedRowReadsRight(fpu: FloatUnit, cs: seq<Expr>, left: seq<nat>, right: seq<nat>, l: Row, r: Row)
    requires WithinIds(l, left) && (forall id :: id in left ==> id !in right)
    requires forall c :: c in cs ==> AllColumnsAvailable(c, right)
    ensures PassingAll(fpu, cs)(Merge()(l, r)) == PassingAll(fpu, cs)(r)
  {
    PassesAllDependsOnRefs(fpu, cs, RowEnv(l + r), RowEnv(r));
  }

  lemma SplitJoinPasses(fpu: FloatUnit, cs: seq<Expr>, left: seq<nat>, right: seq<nat>, env: Env)
    ensures PassesAll(fpu, cs, env) <==>
      && PassesAll(fpu, Filter(cs, OnLeft(left)), env)
      && PassesAll(fpu, Filter(cs, OnRight(left, right)), env)
      && PassesAll(fpu, Filter(cs, OnBoth(left, right)), env)
  {
    FilterMembers(cs, OnLeft(left));
    FilterMembers(cs, OnRight(left, right));
    FilterMembers(cs, OnBoth(left, right));
  }

  /** A filter over a join is the three-way split: left conjuncts, right conjuncts, the rest. */
  lemma JoinFilterSplits(w: World, l: Plan, r: Plan, equi: seq<EquiPair>, cs: seq<Expr>)
    requires FromTree(JoinNode(l, r, equi)) && Relational(l) && Relational(r)
    ensures
      var left, right := CollectBindingIds(l), CollectBindingIds(r);
      Filter(Denote(w, JoinNode(l, r, equi)), PassingAll(w.fpu, cs))
      == Filter(
           NestedLoop(Filter(Denote(w, l), PassingAll(w.fpu, Filter(cs, OnLeft(left)))),
                      Filter(Denote(w, r), PassingAll(w.fpu, Filter(cs, OnRight(left, right)))),
                      JoinMatch(equi, left), Merge()),
           PassingAll(w.fpu, Filter(cs, OnBoth(left, right))))
  {
    var left, right := CollectBindingIds(l), CollectBindingIds(r);
    var ls, rs, m := Denote(w, l), Denote(w, r), JoinMatch(equi, left);
    var lcs, rcs, bcs := Filter(cs, OnLeft(left)), Filter(cs, OnRight(left, right)), Filter(cs, OnBoth(left, right));
    var pl, pr, pb := PassingAll(w.fpu, lcs), PassingAll(w.fpu, rcs), PassingAll(w.fpu, bcs);
    var rows := NestedLoop(ls, rs, m, Merge());
    var notLeft := (row: Row) => pr(row) && pb(row);
    forall row | row in rows ensures PassingAll(w.fpu, cs)(row) == (pl(row) && notLeft(row)) {
      SplitJoinPasses(w.fpu, cs, left, right, RowEnv(row));
    }
    FilterTwice(rows, pl, notLeft, PassingAll(w.fpu, cs));
    FilterTwice(Filter(rows, pl), pr, pb, notLeft);
    forall a, b | a in ls && b in rs ensures pl(Merge()(a, b)) == pl(a) && pr(Merge()(a, b)) == pr(b) {
      RowsWithinIds(w, l, a);
      RowsWithinIds(w, r, b);
      FilterMembers(cs, OnLeft(left));
      FilterMembers(cs, OnRight(left, right));
      MergedRowReadsLeft(w.fpu, lcs, left, right, a, b);
      MergedRowReadsRight(w.fpu, rcs, left, right, a, b);
    }
    FilterLoopOuter(ls, rs, m, Merge(), pl, pl);
    FilterSubset(ls, pl);
    FilterLoopInner(Filter(ls, pl), rs, m, Merge(), pr, pr);
  }

  /** Placing conjuncts into a FROM tree filters exactly its rows. */
  lemma {:induction false} PlacedDenotes(w: World, p: Plan, cs: seq<Expr>)
    requires FromTree(p)
    ensures Relational(p) && Relational(Placed(p, cs))
    ensures Denote(w, Placed(p, cs)) == Filter(Denote(w, p), PassingAll(w.fpu, cs))
    decreases p, 1
  {
    PlacedFromTree(p, cs);
    if cs == [] {
      FilterAll(Denote(w, p), PassingAll(w.fpu, cs));
    } else {
      match p
      case ScanNode(_, _, _, _) => WrapDenotes(w, p, cs);
      case FilterNode(i, e) => FusedDenotes(w, i, e, cs);
      case JoinNode(l, r, equi) => PlacedIntoJoin(w, l, r, equi, cs);
    }
  }

  lemma {:induction false} PlacedIntoJoin(w: World, l: Plan, r: Plan, equi: seq<EquiPair>, cs: seq<Expr>)
    requires FromTree(JoinNode(l, r, equi)) && cs != []
    requires Relational(l) && Relational(r) && Relational(Placed(JoinNode(l, r, equi), cs))
    ensures Denote(w, Placed(JoinNode(l, r, equi), cs)) ==
      Filter(Denote(w, JoinNode(l, r, equi)), PassingAll(w.fpu, cs))
    decreases JoinNode(l, r, equi), 0
  {
    var left, right := CollectBindingIds(l), CollectBindingIds(r);
    var lcs, rcs := Filter(cs, OnLeft(left)), Filter(cs, OnRight(left, right));
    PlacedDenotes(w, l, lcs);
    PlacedDenotes(w, r, rcs);
    PlacedKeepsIds(l, lcs);
    JoinFilterSplits(w, l, r, equi, cs);
    WrapDenotes(w, JoinNode(Placed(l, lcs), Placed(r, rcs), equi), Filter(cs, OnBoth(left, right)));
  }

  // ----- aggregates -----

  lemma {:induction false} KeyColumnsGet(groupBy: seq<ColumnRef>, row: Row, cells: Cells, ref: ColumnRef)
    requires |groupBy| <= |cells| && (forall i :: 0 <= i < |groupBy| ==> cells[i] == RowEnv(row)(groupBy[i]))
    requires IsGroupByColumn(ref, groupBy)
    ensures (ref.tableId, ref.ordinal) in KeyColumns(groupBy, cells)
    ensures Get(KeyColumns(groupBy, cells), ref.tableId, ref.ordinal) == RowEnv(row)(ref)
  {
    var n := |groupBy| - 1;
    if groupBy[n].tableId == ref.tableId && groupBy[n].ordinal == ref.ordinal {
    } else {
      SplitLast(groupBy);
      KeyColumnsGet(groupBy[..n], row, cells, ref);
    }
  }

  /** A predicate over group-by columns reads the same on a row and on its group. */
  lemma GroupRowAgrees(fpu: FloatUnit, cs: seq<Expr>, groupBy: seq<ColumnRef>, row: Row, rest: Cells)
    requires forall c :: c in cs ==> ReferencesOnlyGroupByColumns(c, groupBy)
    ensures PassingAll(fpu, cs)(AggregateRow(groupBy)(KeyOf(groupBy)(row) + rest)) == PassingAll(fpu, cs)(row)
  {
    var cells := KeyOf(groupBy)(row) + rest;
    forall c, ref | c in cs && ref in CollectColumnRefs(c)
      ensures RowEnv(AggregateRow(groupBy)(cells))(ref) == RowEnv(row)(ref)
    {
      KeyColumnsGet(groupBy, row, cells, ref);
    }
    PassesAllDependsOnRefs(fpu, cs, RowEnv(AggregateRow(groupBy)(cells)), RowEnv(row));
  }

  function KeyPasses(fpu: FloatUnit, cs: seq<Expr>, groupBy: seq<ColumnRef>): Key -> bool {
    (k: Key) => PassingAll(fpu, cs)(AggregateRow(groupBy)(k))
  }

  function CellsPass(fpu: FloatUnit, cs: seq<Expr>, groupBy: seq<ColumnRef>): Cells -> bool {
    (c: Cells) => PassingAll(fpu, cs)(AggregateRow(groupBy)(c))
  }

  lemma RowPassesWithItsKey(fpu: FloatUnit, cs: seq<Expr>, groupBy: seq<ColumnRef>, rows: seq<Row>)
    requires forall c :: c in cs ==> ReferencesOnlyGroupByColumns(c, groupBy)
    ensures forall r :: r in rows ==> PassingAll(fpu, cs)(r) == KeyPasses(fpu, cs, groupBy)(KeyOf(groupBy)(r))
  {
    forall r | r in rows
      ensures PassingAll(fpu, cs)(r) == KeyPasses(fpu, cs, groupBy)(KeyOf(groupBy)(r))
    {
      GroupRowAgrees(fpu, cs, groupBy, r, []);
      assert KeyOf(groupBy)(r) + [] == KeyOf(groupBy)(r);
    }
  }

  lemma CellsPassWithTheirKey(fpu: FloatUnit, cs: seq<Expr>, groupBy: seq<ColumnRef>, rows: seq<Row>)
    requires forall c :: c in cs ==> ReferencesOnlyGroupByColumns(c, groupBy)
    ensures forall r, rest: Cells :: r in rows ==>
      CellsPass(fpu, cs, groupBy)(KeyOf(groupBy)(r) + rest) == KeyPasses(fpu, cs, groupBy)(KeyOf(groupBy)(r))
  {
    RowPassesWithItsKey(fpu, cs, groupBy, rows);
    forall r, rest: Cells | r in rows
      ensures CellsPass(fpu, cs, groupBy)(KeyOf(groupBy)(r) + rest) == KeyPasses(fpu, cs, groupBy)(KeyOf(groupBy)(r))
    {
      GroupRowAgrees(fpu, cs, groupBy, r, rest);
    }
  }

  /** Filtering a grouped aggregate on its keys is aggregating the filtered input. */
  lemma GroupedFilterCommutes(w: World, rows: seq<Row>, groupBy: seq<ColumnRef>, aggs: seq<AggCall>, cs: seq<Expr>)
    requires forall c :: c in cs ==> ReferencesOnlyGroupByColumns(c, groupBy)
    ensures
      Map(GroupFold(w.fpu, Map(aggs, SpecOf()), KeyOf(groupBy), ArgOf(aggs), false,
        Filter(rows, PassingAll(w.fpu, cs))),
          AggregateRow(groupBy))
      == Filter(Map(GroupFold(w.fpu, Map(aggs, SpecOf()), KeyOf(groupBy), ArgOf(aggs), false, rows),
        AggregateRow(groupBy)),
                PassingAll(w.fpu, cs))
  {
    var specs, key, arg := Map(aggs, SpecOf()), KeyOf(groupBy), ArgOf(aggs);
    var p, pk, q := PassingAll(w.fpu, cs), KeyPasses(w.fpu, cs, groupBy), CellsPass(w.fpu, cs, groupBy);
    RowPassesWithItsKey(w.fpu, cs, groupBy, rows);
    CellsPassWithTheirKey(w.fpu, cs, groupBy, rows);
    FilterCommutesWithGrouping(w.fpu, specs, key, arg, rows, p, pk, q);
    var groups := GroupFold(w.fpu, specs, key, arg, false, rows);
    assert forall c :: c in groups ==> p(AggregateRow(groupBy)(c)) == q(c);
    FilterMap(groups, AggregateRow(groupBy), q, p);
  }

  /** A conjunct without columns has one answer everywhere. */
  lemma ConstantPasses(fpu: FloatUnit, c: Expr, f: Env, g: Env)
    requires CollectColumnRefs(c) == []
    ensures Passes(fpu, c, f) == Passes(fpu, c, g)
  {
    EvalDependsOnRefs(fpu, c, f, g);
  }

  predicate ConstantsPass(fpu: FloatUnit, cs: seq<Expr>) {
    forall c :: c in cs && CollectColumnRefs(c) == [] ==> Passes(fpu, c, RowEnv(map[]))
  }

  /** The branch that loses meaning: PlaceInto moves a column-free conjunct
      below an Aggregate without GROUP BY, which still emits its row. */
  predicate GlobalAggregate(p: Plan) {
    match p
    case AggregateNode(_, groupBy, _) => groupBy == []
    case FilterNode(i, _) => GlobalAggregate(i)
    case _ => false
  }

  lemma SplitAggregatePasses(fpu: FloatUnit, cs: seq<Expr>, groupBy: seq<ColumnRef>, env: Env)
    ensures PassesAll(fpu, cs, env) <==>
      PassesAll(fpu, Filter(cs, Eligible(groupBy)), env) && PassesAll(fpu, Filter(cs, Ineligible(groupBy)), env)
  {
    FilterMembers(cs, Eligible(groupBy));
    FilterMembers(cs, Ineligible(groupBy));
  }

  lemma EligibleOfNothing(groupBy: seq<ColumnRef>, c: Expr)
    requires groupBy == []
    ensures ReferencesOnlyGroupByColumns(c, groupBy) ==> CollectColumnRefs(c) == []
  {
    var refs := CollectColumnRefs(c);
    if refs != [] { assert refs[0] in refs && !IsGroupByColumn(refs[0], groupBy); }
  }

  lemma GlobalFilterIsInvisible(w: World, rows: seq<Row>, cs: seq<Expr>)
    requires forall c :: c in cs ==> CollectColumnRefs(c) == []
    requires ConstantsPass(w.fpu, cs)
    ensures Filter(rows, PassingAll(w.fpu, cs)) == rows
  {
    forall r | r in rows ensures PassingAll(w.fpu, cs)(r) {
      forall c | c in cs ensures Passes(w.fpu, c, RowEnv(r)) { ConstantPasses(w.fpu, c, RowEnv(r), RowEnv(map[])); }
    }
    FilterAll(rows, PassingAll(w.fpu, cs));
  }

  lemma PlacedIntoAggregate(w: World, i: Plan, groupBy: seq<ColumnRef>, aggs: seq<AggCall>, cs: seq<Expr>)
    requires FromTree(i) && cs != []
    requires groupBy == [] ==> ConstantsPass(w.fpu, cs)
    requires Relational(i) && Relational(Placed(AggregateNode(i, groupBy, aggs), cs))
    ensures Denote(w, Placed(AggregateNode(i, groupBy, aggs), cs))
         == Filter(Denote(w, AggregateNode(i, groupBy, aggs)), PassingAll(w.fpu, cs))
  {
    var agg := AggregateNode(i, groupBy, aggs);
    var down, up := Filter(cs, Eligible(groupBy)), Filter(cs, Ineligible(groupBy));
    PlacedDenotes(w, i, down);
    var lowered := AggregateNode(Placed(i, down), groupBy, aggs);
    FilterMembers(cs, Eligible(groupBy));
    assert Denote(w, lowered) == Filter(Denote(w, agg), PassingAll(w.fpu, down)) by {
      if groupBy == [] {
        forall c | c in down ensures CollectColumnRefs(c) == [] { EligibleOfNothing(groupBy, c); }
        GlobalFilterIsInvisible(w, Denote(w, i), down);
        GlobalFilterIsInvisible(w, Denote(w, agg), down);
      } else {
        GroupedFilterCommutes(w, Denote(w, i), groupBy, aggs, down);
      }
    }
    WrapDenotes(w, lowered, up);
    forall r | r in Denote(w, agg)
      ensures PassingAll(w.fpu, cs)(r) == (PassingAll(w.fpu, down)(r) && PassingAll(w.fpu, up)(r))
    {
      SplitAggregatePasses(w.fpu, cs, groupBy, RowEnv(r));
    }
    FilterTwice(Denote(w, agg), PassingAll(w.fpu, down), PassingAll(w.fpu, up), PassingAll(w.fpu, cs));
  }

  lemma PlacedIntoBody(w: World, p: Plan, cs: seq<Expr>)
    requires Body(p)
    requires GlobalAggregate(p) ==> ConstantsPass(w.fpu, cs)
    ensures Relational(p) && Relational(Placed(p, cs))
    ensures Denote(w, Placed(p, cs)) == Filter(Denote(w, p), PassingAll(w.fpu, cs))
  {
    PlacedBody(p, cs);
    if FromTree(p) {
      PlacedDenotes(w, p, cs);
    } else if cs == [] {
      FilterAll(Denote(w, p), PassingAll(w.fpu, cs));
    } else if p.FilterNode? {
      FusedDenotes(w, p.input, p.condition, cs);
    } else {
      PlacedIntoAggregate(w, p.input, p.groupBy, p.aggregates, cs);
    }
  }

  // ----- the whole pass -----

  lemma {:induction false} RewrittenFromTreeDenotes(w: World, p: Plan)
    requires FromTree(p)
    ensures Relational(p) && Relational(Rewritten(p))
    ensures Denote(w, Rewritten(p)) == Denote(w, p)
  {
    FromTreeRelational(p);
    RewrittenFromTree(p);
    FromTreeRelational(Rewritten(p));
    match p
    case ScanNode(_, _, _, _) =>
    case FilterNode(i, e) =>
      RewrittenFromTreeDenotes(w, i);
      RewrittenFromTree(i);
      PlacedDenotes(w, Rewritten(i), Conjuncts(e));
      FilterByConjuncts(w, Denote(w, i), e);
    case JoinNode(l, r, _) =>
      RewrittenFromTreeDenotes(w, l);
      RewrittenFromTreeDenotes(w, r);
      RewrittenKeepsIds(l);
  }

  lemma FilterByConjuncts(w: World, rows: seq<Row>, e: Expr)
    ensures Filter(rows, PassingAll(w.fpu, Conjuncts(e))) == Filter(rows, Passing(w.fpu, e))
  {
    forall r | r in rows ensures PassingAll(w.fpu, Conjuncts(e))(r) == Passing(w.fpu, e)(r) {
      PassesConjuncts(w.fpu, e, RowEnv(r));
    }
    FilterSame(rows, PassingAll(w.fpu, Conjuncts(e)), Passing(w.fpu, e));
  }

  /** Every column-free HAVING conjunct over a global aggregate holds. */
  predicate ConstantHavingHolds(fpu: FloatUnit, p: Plan) {
    p.FilterNode? ==>
      ConstantHavingHolds(fpu, p.input) && (GlobalAggregate(p.input) ==> ConstantsPass(fpu, Conjuncts(p.condition)))
  }

  lemma {:induction false} RewrittenGlobal(p: Plan)
    requires Body(p)
    ensures GlobalAggregate(Rewritten(p)) == GlobalAggregate(p)
  {
    match p
    case FilterNode(i, e) =>
      RewrittenGlobal(i);
      RewrittenBody(i);
      PlacedGlobal(Rewritten(i), Conjuncts(e));
    case ScanNode(_, _, _, _) =>
    case JoinNode(_, _, _) =>
    case AggregateNode(_, _, _) =>
  }

  lemma PlacedGlobal(p: Plan, cs: seq<Expr>)
    requires Body(p)
    ensures GlobalAggregate(Placed(p, cs)) == GlobalAggregate(p)
  {
  }

  /** Predicate pushdown preserves the row sequence. */
  lemma {:induction false} PushdownPreservesRows(w: World, p: Plan)
    requires Body(p) && ConstantHavingHolds(w.fpu, p)
    ensures Relational(p) && Body(Rewritten(p)) && Relational(Rewritten(p))
    ensures Denote(w, Rewritten(p)) == Denote(w, p)
  {
    BodyRelational(p);
    RewrittenBody(p);
    BodyRelational(Rewritten(p));
    if FromTree(p) {
      RewrittenFromTreeDenotes(w, p);
    } else if p.AggregateNode? {
      RewrittenFromTreeDenotes(w, p.input);
    } else {
      PushdownPreservesRows(w, p.input);
      RewrittenGlobal(p.input);
      PlacedIntoBody(w, Rewritten(p.input), Conjuncts(p.condition));
      FilterByConjuncts(w, Denote(w, p.input), p.condition);
    }
  }

  /** HAVING reads nothing but group-by columns. */
  predicate HavingOverGroupBy(p: Plan) {
    p.FilterNode? && !FromTree(p) ==>
      && HavingOverGroupBy(p.input)
      && (forall c :: c in Conjuncts(p.condition) ==> ReferencesOnlyGroupByColumns(c, BaseGroupBy(p)))
  }

  function BaseGroupBy(p: Plan): seq<ColumnRef> {
    match p
    case AggregateNode(_, groupBy, _) => groupBy
    case FilterNode(i, _) => BaseGroupBy(i)
    case _ => []
  }

  /** Such a HAVING leaves no filter above the aggregate. */
  lemma {:induction false} HavingIsAbsorbed(p: Plan)
    requires Body(p) && HavingOverGroupBy(p) && !FromTree(p)
    ensures Rewritten(p).AggregateNode? && FromTree(Rewritten(p).input)
    ensures Rewritten(p).groupBy == BaseGroupBy(p)
  {
    RewrittenBody(p);
    if p.FilterNode? {
      HavingIsAbsorbed(p.input);
      var agg, cs := Rewritten(p.input), Conjuncts(p.condition);
      forall c | c in cs ensures !Ineligible(agg.groupBy)(c) { }
      FilterNone(cs, Ineligible(agg.groupBy));
    }
  }

  lemma {:induction false} FailingConstantEmptiesRows(w: World, p: Plan)
    requires Body(p) && Relational(p) && HavingOverGroupBy(p) && GlobalAggregate(p)
    requires !ConstantHavingHolds(w.fpu, p)
    ensures Denote(w, p) == []
  {
    if ConstantHavingHolds(w.fpu, p.input) {
      var c :| c in Conjuncts(p.condition) && CollectColumnRefs(c) == [] && !Passes(w.fpu, c, RowEnv(map[]));
      forall r | r in Denote(w, p.input) ensures !Passing(w.fpu, p.condition)(r) {
        ConstantPasses(w.fpu, c, RowEnv(r), RowEnv(map[]));
        PassesConjuncts(w.fpu, p.condition, RowEnv(r));
      }
      FilterNone(Denote(w, p.input), Passing(w.fpu, p.condition));
    } else {
      GlobalIsNotFromTree(p);
      FailingConstantEmptiesRows(w, p.input);
    }
  }

  lemma {:induction false} GlobalIsNotFromTree(p: Plan)
    requires GlobalAggregate(p)
    ensures !FromTree(p)
  {
    if p.FilterNode? { GlobalIsNotFromTree(p.input); }
  }

  lemma {:induction false} HavingHoldsUnlessGlobal(fpu: FloatUnit, p: Plan)
    requires !GlobalAggregate(p)
    ensures ConstantHavingHolds(fpu, p)
  {
    if p.FilterNode? { HavingHoldsUnlessGlobal(fpu, p.input); }
  }

  /** Exactly when pushdown keeps the meaning: on every query body whose HAVING
      reads group-by columns, if and only if no column-free HAVING conjunct
      over an aggregate without GROUP BY fails. */
  lemma PushdownPreservesRowsIff(w: World, p: Plan)
    requires Body(p) && HavingOverGroupBy(p)
    ensures Relational(p) && Relational(Rewritten(p))
    ensures Denote(w, Rewritten(p)) == Denote(w, p) <==> ConstantHavingHolds(w.fpu, p)
    ensures !ConstantHavingHolds(w.fpu, p) ==> Denote(w, p) == [] && |Denote(w, Rewritten(p))| == 1
  {
    BodyRelational(p);
    RewrittenBody(p);
    BodyRelational(Rewritten(p));
    if ConstantHavingHolds(w.fpu, p) {
      PushdownPreservesRows(w, p);
    } else {
      if !GlobalAggregate(p) { HavingHoldsUnlessGlobal(w.fpu, p); }
      GlobalIsNotFromTree(p);
      FailingConstantEmptiesRows(w, p);
      HavingIsAbsorbed(p);
      RewrittenGlobal(p);
      assert |Denote(w, Rewritten(p))| == 1;
    }
  }

  function CountWithHaving(t: nat, having: Expr): Plan {
    FilterNode(AggregateNode(ScanNode(0, t, [Integer], [0]), [], [AggCall(CountStar, None)]), having)
  }

  /** A concrete query that changes: COUNT(*) without GROUP BY, HAVING 1 = 2. */
  lemma FalseHavingIsLost(w: World, t: nat)
    ensures
      var p := CountWithHaving(t, Binary(Equal, Const(IntL(1)), Const(IntL(2)), IntegerT));
      Body(p) && HavingOverGroupBy(p) && Relational(p) && Relational(Rewritten(p))
      && Denote(w, Rewritten(p)) != Denote(w, p)
  {
    var e := Binary(Equal, Const(IntL(1)), Const(IntL(2)), IntegerT);
    assert CollectColumnRefs(e) == [];
    ConstantHavingShape(w, t, e);
    PushdownPreservesRowsIff(w, CountWithHaving(t, e));
  }

  lemma ConstantHavingShape(w: World, t: nat, e: Expr)
    requires CollectColumnRefs(e) == [] && Conjuncts(e) == [e] && Eval(w.fpu, e, RowEnv(map[])) == BoolD(false)
    ensures Body(CountWithHaving(t, e)) && HavingOverGroupBy(CountWithHaving(t, e))
    ensures !ConstantHavingHolds(w.fpu, CountWithHaving(t, e))
  {
    assert e in Conjuncts(e);
  }
}
