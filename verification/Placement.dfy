/** What pushdown does with the conjuncts themselves: none is lost, added or
    duplicated, none stays above a join that one side could answer, and all
    conditions it builds are well-typed. */
module Placement {
  import opened Seqs
  import opened Expressions
  import opened Typing
  import opened LogicalPlan
  import opened Pushdown

  /** Every conjunct of every filter in the plan, with multiplicity. */
  function PlanConjuncts(p: Plan): multiset<Expr> {
    match p
    case ScanNode(_, _, _, _) => multiset{}
    case FilterNode(i, e) => PlanConjuncts(i) + multiset(Conjuncts(e))
    case JoinNode(l, r, _) => PlanConjuncts(l) + PlanConjuncts(r)
    case AggregateNode(i, _, _) => PlanConjuncts(i)
    case ProjectNode(i, _) => PlanConjuncts(i)
  }

  predicate Leaves(cs: seq<Expr>) {
    forall c :: c in cs ==> Conjuncts(c) == [c]
  }

  lemma {:induction false} FilterPartition<T>(s: seq<T>, p: T -> bool, q: T -> bool, r: T -> bool)
    requires forall x :: x in s ==> (p(x) && !q(x) && !r(x)) || (!p(x) && q(x) && !r(x)) || (!p(x) && !q(x) && r(x))
    ensures multiset(Filter(s, p)) + multiset(Filter(s, q)) + multiset(Filter(s, r)) == multiset(s)
  {
    if s != [] {
      assert forall x :: x in s[..|s| - 1] ==> x in s;
      FilterPartition(s[..|s| - 1], p, q, r);
      SplitLast(s);
    }
  }

  lemma WrapConserves(p: Plan, cs: seq<Expr>)
    requires Leaves(cs)
    ensures PlanConjuncts(WrapInFilter(p, cs)) == PlanConjuncts(p) + multiset(cs)
  {
    if cs != [] {
      ConjunctsOfConjoin(cs);
      AllConjunctsOfLeaves(cs);
    }
  }

  lemma FuseConserves(e: Expr, cs: seq<Expr>)
    requires Leaves(cs)
    ensures multiset(Conjuncts(Conjoin([e] + cs))) == multiset(Conjuncts(e)) + multiset(cs)
  {
    ConjunctsOfConjoin([e] + cs);
    AllConjunctsConcat(e, cs);
    AllConjunctsOfLeaves(cs);
  }

  lemma AllConjunctsConcat(e: Expr, cs: seq<Expr>)
    ensures AllConjuncts([e] + cs) == Conjuncts(e) + AllConjuncts(cs)
  {
    assert Map([e] + cs, c => Conjuncts(c)) == [Conjuncts(e)] + Map(cs, c => Conjuncts(c));
    FlattenConcat([Conjuncts(e)], Map(cs, c => Conjuncts(c)));
    assert [Conjuncts(e)] == [] + [Conjuncts(e)];
    FlattenSnoc([], Conjuncts(e));
    PlusEmpty(Conjuncts(e));
  }

  lemma FilterLeaves(cs: seq<Expr>, p: Expr -> bool)
    requires Leaves(cs)
    ensures Leaves(Filter(cs, p))
  {
    FilterMembers(cs, p);
  }

  lemma JoinBuckets(cs: seq<Expr>, left: seq<nat>, right: seq<nat>)
    requires Leaves(cs)
    ensures var l, r, b := Filter(cs, OnLeft(left)), Filter(cs, OnRight(left, right)), Filter(cs, OnBoth(left, right));
      && Leaves(l) && Leaves(r) && Leaves(b)
      && multiset(l) + multiset(r) + multiset(b) == multiset(cs)
  {
    FilterLeaves(cs, OnLeft(left));
    FilterLeaves(cs, OnRight(left, right));
    FilterLeaves(cs, OnBoth(left, right));
    FilterPartition(cs, OnLeft(left), OnRight(left, right), OnBoth(left, right));
  }

  lemma AggregateBuckets(cs: seq<Expr>, groupBy: seq<ColumnRef>)
    requires Leaves(cs)
    ensures var down, up := Filter(cs, Eligible(groupBy)), Filter(cs, Ineligible(groupBy));
      Leaves(down) && Leaves(up) && multiset(down) + multiset(up) == multiset(cs)
  {
    FilterLeaves(cs, Eligible(groupBy));
    FilterLeaves(cs, Ineligible(groupBy));
    FilterPartition(cs, Eligible(groupBy), Ineligible(groupBy), c => false);
    FilterNone(cs, c => false);
  }

  lemma SumsAdd<T>(a: multiset<T>, b: multiset<T>, x: multiset<T>, y: multiset<T>, z: multiset<T>)
    ensures ((a + x) + (b + y)) + z == (a + b) + (x + y + z)
  {
  }

  lemma {:induction false} PlacedConserves(p: Plan, cs: seq<Expr>)
    requires Leaves(cs)
    ensures PlanConjuncts(Placed(p, cs)) == PlanConjuncts(p) + multiset(cs)
  {
    if cs != [] {
      match p
      case ScanNode(_, _, _, _) => WrapConserves(p, cs);
      case FilterNode(i, e) => FuseConserves(e, cs);
      case JoinNode(l, r, equi) =>
        var left, right := CollectBindingIds(l), CollectBindingIds(r);
        var lcs, rcs, bcs := Filter(cs, OnLeft(left)), Filter(cs, OnRight(left, right)),
          Filter(cs, OnBoth(left, right));
        JoinBuckets(cs, left, right);
        PlacedConserves(l, lcs);
        PlacedConserves(r, rcs);
        var join := JoinNode(Placed(l, lcs), Placed(r, rcs), equi);
        WrapConserves(join, bcs);
        SumsAdd(PlanConjuncts(l), PlanConjuncts(r), multiset(lcs), multiset(rcs), multiset(bcs));
      case AggregateNode(i, groupBy, aggs) =>
        var down, up := Filter(cs, Eligible(groupBy)), Filter(cs, Ineligible(groupBy));
        AggregateBuckets(cs, groupBy);
        PlacedConserves(i, down);
        WrapConserves(AggregateNode(Placed(i, down), groupBy, aggs), up);
      case ProjectNode(i, _) => PlacedConserves(i, cs);
    }
  }

  /** Pushdown moves conjuncts and does nothing else with them, on every plan. */
  lemma {:induction false} PushdownConserves(p: Plan)
    ensures PlanConjuncts(Rewritten(p)) == PlanConjuncts(p)
  {
    match p
    case ScanNode(_, _, _, _) =>
    case FilterNode(i, e) =>
      PushdownConserves(i);
      ConjunctsAreLeaves(e);
      PlacedConserves(Rewritten(i), Conjuncts(e));
    case JoinNode(l, r, _) => PushdownConserves(l); PushdownConserves(r);
    case AggregateNode(i, _, _) => PushdownConserves(i);
    case ProjectNode(i, _) => PushdownConserves(i);
  }

  predicate FilterFree(p: Plan) {
    match p
    case ScanNode(_, _, _, _) => true
    case JoinNode(l, r, _) => FilterFree(l) && FilterFree(r)
    case _ => false
  }

  /** No filter directly above a join holds a conjunct that one side covers. */
  predicate PushedAsFarAsPossible(p: Plan) {
    match p
    case ScanNode(_, _, _, _) => true
    case FilterNode(i, e) =>
      && PushedAsFarAsPossible(i)
      && !i.FilterNode?
      && (i.JoinNode? ==> forall c :: c in Conjuncts(e) ==>
            !AllColumnsAvailable(c, CollectBindingIds(i.left)) && !AllColumnsAvailable(c, CollectBindingIds(i.right)))
    case JoinNode(l, r, _) => PushedAsFarAsPossible(l) && PushedAsFarAsPossible(r)
    case AggregateNode(i, _, _) => PushedAsFarAsPossible(i)
    case ProjectNode(i, _) => PushedAsFarAsPossible(i)
  }

  lemma {:induction false} PlacedDeep(p: Plan, cs: seq<Expr>)
    requires FilterFree(p) && Leaves(cs)
    ensures PushedAsFarAsPossible(Placed(p, cs))
  {
    if cs == [] {
      FilterFreeIsPushed(p);
    } else if p.JoinNode? {
      var left, right := CollectBindingIds(p.left), CollectBindingIds(p.right);
      var lcs, rcs, bcs := Filter(cs, OnLeft(left)), Filter(cs, OnRight(left, right)), Filter(cs, OnBoth(left, right));
      FilterLeaves(cs, OnLeft(left));
      FilterLeaves(cs, OnRight(left, right));
      FilterLeaves(cs, OnBoth(left, right));
      PlacedDeep(p.left, lcs);
      PlacedDeep(p.right, rcs);
      PlacedKeepsIds(p.left, lcs);
      PlacedKeepsIds(p.right, rcs);
      if bcs != [] {
        ConjunctsOfConjoin(bcs);
        AllConjunctsOfLeaves(bcs);
        FilterMembers(cs, OnBoth(left, right));
      }
    }
  }

  lemma {:induction false} FilterFreeIsPushed(p: Plan)
    requires FilterFree(p)
    ensures PushedAsFarAsPossible(p) && Rewritten(p) == p
  {
    match p
    case ScanNode(_, _, _, _) =>
    case JoinNode(l, r, _) => FilterFreeIsPushed(l); FilterFreeIsPushed(r);
  }

  /** A WHERE clause over a filter-free join tree ends as low as its columns allow. */
  lemma WhereIsPushedDeep(tree: Plan, condition: Expr)
    requires FilterFree(tree)
    ensures PushedAsFarAsPossible(Rewritten(FilterNode(tree, condition)))
  {
    FilterFreeIsPushed(tree);
    ConjunctsAreLeaves(condition);
    PlacedDeep(tree, Conjuncts(condition));
  }

  // ----- conditions stay type-checked -----

  /** Every condition in the plan has passed the binder's type rules. */
  predicate ConditionsTyped(p: Plan) {
    match p
    case ScanNode(_, _, _, _) => true
    case FilterNode(i, e) => ConditionsTyped(i) && IsPredicate(e)
    case JoinNode(l, r, _) => ConditionsTyped(l) && ConditionsTyped(r)
    case AggregateNode(i, _, _) => ConditionsTyped(i)
    case ProjectNode(i, _) => ConditionsTyped(i)
  }

  predicate AllPredicates(cs: seq<Expr>) { forall c :: c in cs ==> IsPredicate(c) }

  lemma WrapTyped(p: Plan, cs: seq<Expr>)
    requires ConditionsTyped(p) && AllPredicates(cs)
    ensures ConditionsTyped(WrapInFilter(p, cs))
  {
    if cs != [] { ConjoinTyped(cs); }
  }

  lemma FilterPredicates(cs: seq<Expr>, p: Expr -> bool)
    requires AllPredicates(cs)
    ensures AllPredicates(Filter(cs, p))
  {
    FilterMembers(cs, p);
  }

  lemma {:induction false} PlacedTyped(p: Plan, cs: seq<Expr>)
    requires ConditionsTyped(p) && AllPredicates(cs)
    ensures ConditionsTyped(Placed(p, cs))
  {
    if cs != [] {
      match p
      case ScanNode(_, _, _, _) => WrapTyped(p, cs);
      case FilterNode(_, e) => ConjoinTyped([e] + cs);
      case JoinNode(l, r, equi) =>
        var left, right := CollectBindingIds(l), CollectBindingIds(r);
        FilterPredicates(cs, OnLeft(left));
        FilterPredicates(cs, OnRight(left, right));
        FilterPredicates(cs, OnBoth(left, right));
        PlacedTyped(l, Filter(cs, OnLeft(left)));
        PlacedTyped(r, Filter(cs, OnRight(left, right)));
        WrapTyped(JoinNode(Placed(l, Filter(cs, OnLeft(left))), Placed(r, Filter(cs, OnRight(left, right))), equi),
                  Filter(cs, OnBoth(left, right)));
      case AggregateNode(i, groupBy, aggs) =>
        FilterPredicates(cs, Eligible(groupBy));
        FilterPredicates(cs, Ineligible(groupBy));
        PlacedTyped(i, Filter(cs, Eligible(groupBy)));
        WrapTyped(AggregateNode(Placed(i, Filter(cs, Eligible(groupBy))), groupBy, aggs),
          Filter(cs, Ineligible(groupBy)));
      case ProjectNode(i, _) => PlacedTyped(i, cs);
    }
  }

  lemma {:induction false} RewrittenTyped(p: Plan)
    requires ConditionsTyped(p)
    ensures ConditionsTyped(Rewritten(p))
  {
    match p
    case ScanNode(_, _, _, _) =>
    case FilterNode(i, e) =>
      RewrittenTyped(i);
      ConjunctsTyped(e);
      PlacedTyped(Rewritten(i), Conjuncts(e));
    case JoinNode(l, r, _) => RewrittenTyped(l); RewrittenTyped(r);
    case AggregateNode(i, _, _) => RewrittenTyped(i);
    case ProjectNode(i, _) => RewrittenTyped(i);
  }

  // ----- where one conjunct goes -----

  predicate ReadsOnly(c: Expr, ids: seq<nat>) { forall ref :: ref in CollectColumnRefs(c) ==> ref.tableId in ids }

  predicate ReadsOnlyKeys(c: Expr, groupBy: seq<ColumnRef>) {
    forall ref :: ref in CollectColumnRefs(c) ==>
      exists k :: k in groupBy && k.tableId == ref.tableId && k.ordinal == ref.ordinal
  }

  lemma FilterOne(c: Expr, p: Expr -> bool)
    ensures Filter([c], p) == if p(c) then [c] else []
  {
    assert [c] == [] + [c];
    FilterSnoc([], c, p);
  }

  /** Into a join: to the left if its columns are there (also one without columns),
      else to the right if they are there, else on top. */
  lemma OneIntoJoin(l: Plan, r: Plan, equi: seq<EquiPair>, c: Expr)
    ensures Placed(JoinNode(l, r, equi), [c]) ==
      if ReadsOnly(c, CollectBindingIds(l)) then JoinNode(Placed(l, [c]), r, equi)
      else if ReadsOnly(c, CollectBindingIds(r)) then JoinNode(l, Placed(r, [c]), equi)
      else FilterNode(JoinNode(l, r, equi), c)
  {
    var left, right := CollectBindingIds(l), CollectBindingIds(r);
    FilterOne(c, OnLeft(left));
    FilterOne(c, OnRight(left, right));
    FilterOne(c, OnBoth(left, right));
  }

  /** Into an aggregate: below it if it reads group-by columns only, else on top. */
  lemma OneIntoAggregate(i: Plan, groupBy: seq<ColumnRef>, aggs: seq<AggCall>, c: Expr)
    ensures Placed(AggregateNode(i, groupBy, aggs), [c]) ==
      if ReadsOnlyKeys(c, groupBy) then AggregateNode(Placed(i, [c]), groupBy, aggs)
      else FilterNode(AggregateNode(i, groupBy, aggs), c)
  {
    FilterOne(c, Eligible(groupBy));
    FilterOne(c, Ineligible(groupBy));
  }

  /** Into a filter: behind its condition. Onto a scan: as a filter. */
  lemma OneIntoFilter(i: Plan, e: Expr, c: Expr)
    ensures Placed(FilterNode(i, e), [c]) == FilterNode(i, Binary(And, e, c, IntegerT))
    ensures i.ScanNode? ==> Placed(i, [c]) == FilterNode(i, c)
  {
    var both := [e] + [c];
    assert both[..|both| - 1] == [e] && both[|both| - 1] == c;
    assert Conjoin([e]) == e && Conjoin(both) == Binary(And, Conjoin([e]), c, IntegerT);
    assert Conjoin([c]) == c;
  }
}
