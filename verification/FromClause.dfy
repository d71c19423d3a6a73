/** What a comma join means: the plan that BindFromClause builds, under its
    residual filter, denotes the cross product of the FROM items filtered by
    the equalities it kept, as keys, and by the residual. */
module FromClause {
  import opened Seqs
  import opened Types
  import opened Expressions
  import opened KeyBytes
  import opened LogicalPlan
  import opened Pushdown
  import opened Binder

  // ----- key equality and SQL equality -----

  /** `a = b` holds as the evaluator computes it. */
  predicate SameValue(fpu: FloatUnit, a: Datum, b: Datum) { ApplyBinary(fpu, Equal, BooleanT, a, b) == BoolD(true) }

  predicate IsZero(f: Float32) { FloatKey(f) == 0 }

  /** Comparing these two cells by their bytes answers as comparing their values. */
  predicate KeysTell(fpu: FloatUnit, a: Datum, b: Datum) {
    match (a, b)
    case (FloatD(f), FloatD(g)) => !(if f == g then IsNaN(f) else IsZero(f) && IsZero(g))
    case (IntD(i), FloatD(f)) => Bits(a) == f <==> FloatEqual(fpu.ofInt(i), f)
    case (FloatD(f), IntD(i)) => f == Bits(b) <==> FloatEqual(f, fpu.ofInt(i))
    case (StrD(s), IntD(i)) => !(s == [] && i == 0)
    case (IntD(i), StrD(s)) => !(s == [] && i == 0)
    case (StrD(s), FloatD(f)) => !(s == [] && f == 0)
    case (FloatD(f), StrD(s)) => !(s == [] && f == 0)
    case _ => true
  }

  /** The hash join compares bytes. That is SQL equality on INTEGERs and on
      VARCHARs; on FLOATs except for a NaN met with itself and for +0 met with
      -0; between INTEGER and FLOAT only where the bits say what the conversion
      says; and a number never equals a string, but 0 has the key of ''. */
  lemma KeyEqualityIsValueEqualityIff(fpu: FloatUnit, a: Datum, b: Datum, s: TypeId, t: TypeId)
    requires HasType(a, s) && HasType(b, t)
    ensures KeyEqual(a, b) == SameValue(fpu, a, b) <==> KeysTell(fpu, a, b)
  {
    KeyEqualMeans(a, b, s, t);
    if a.FloatD? && b.FloatD? && a.f != b.f && FloatKey(a.f) == FloatKey(b.f) { FloatKeyInjective(a.f, b.f); }
  }

  lemma FloatKeyInjective(a: Float32, b: Float32)
    requires a != b && FloatKey(a) == FloatKey(b)
    ensures IsZero(a) && IsZero(b) && !IsNaN(a) && !IsNaN(b)
  {
  }

  // ----- the FROM items -----

  /** Bound FROM items: FROM trees over disjoint bindings. */
  ghost predicate PartsBound(parts: seq<Part>) {
    && (forall i :: 0 <= i < |parts| ==>
         FromTree(parts[i].plan) && Relational(parts[i].plan) && parts[i].ids == CollectBindingIds(parts[i].plan))
    && (forall i, j, id :: 0 <= i < j < |parts| && id in parts[i].ids ==> id !in parts[j].ids)
  }

  function IdsUpTo(parts: seq<Part>, n: nat): seq<nat>
    requires n <= |parts|
  {
    if n == 0 then [] else IdsUpTo(parts, n - 1) + parts[n - 1].ids
  }

  lemma {:induction false} IdsUpToMember(parts: seq<Part>, n: nat, id: nat)
    requires n <= |parts|
    ensures id in IdsUpTo(parts, n) <==> exists i :: 0 <= i < n && id in parts[i].ids
  {
    if n > 0 { IdsUpToMember(parts, n - 1, id); }
  }

  /** Bindings of a part are none of the parts before it. */
  lemma LaterIdsApart(parts: seq<Part>, n: nat, id: nat)
    requires PartsBound(parts) && n < |parts| && id in IdsUpTo(parts, n)
    ensures id !in parts[n].ids
  {
    IdsUpToMember(parts, n, id);
  }

  function Always(): (Row, Row) -> bool { (l: Row, r: Row) => true }

  /** Every combination of rows of the first `n` items, in order. */
  ghost function Cross(w: World, parts: seq<Part>, n: nat): seq<Row>
    requires 0 < n <= |parts| && PartsBound(parts)
  {
    if n == 1 then Denote(w, parts[0].plan)
    else NestedLoop(Cross(w, parts, n - 1), Denote(w, parts[n - 1].plan), Always(), Merge())
  }

  lemma {:induction false} CrossWithinIds(w: World, parts: seq<Part>, n: nat, row: Row)
    requires PartsBound(parts) && 0 < n <= |parts| && row in Cross(w, parts, n)
    ensures WithinIds(row, IdsUpTo(parts, n))
  {
    if n == 1 {
      RowsWithinIds(w, parts[0].plan, row);
      assert IdsUpTo(parts, 1) == IdsUpTo(parts, 0) + parts[0].ids;
    } else {
      var ls, rs := Cross(w, parts, n - 1), Denote(w, parts[n - 1].plan);
      NestedLoopMember(ls, rs, Always(), Merge(), row);
      var l, r :| l in ls && r in rs && row == Merge()(l, r);
      CrossWithinIds(w, parts, n - 1, l);
      RowsWithinIds(w, parts[n - 1].plan, r);
    }
  }

  // ----- one more join -----

  lemma {:induction false} MatchesFiltered<A, B, C>(
      a: A, bs: seq<B>, m: (A, B) -> bool, all: (A, B) -> bool, f: (A, B) -> C, q: C -> bool)
    requires forall b :: b in bs ==> all(a, b) && q(f(a, b)) == m(a, b)
    ensures Matches(a, bs, m, f) == Filter(Matches(a, bs, all, f), q)
  {
    if bs != [] {
      var init, last := bs[..|bs| - 1], bs[|bs| - 1];
      assert forall b :: b in init ==> b in bs;
      MatchesFiltered(a, init, m, all, f, q);
      assert last in bs;
      FilterSnoc(Matches(a, init, all, f), f(a, last), q);
    }
  }

  /** A join is the filtered product. */
  lemma {:induction false} LoopFiltered<A, B, C>(
      as_: seq<A>, bs: seq<B>, m: (A, B) -> bool, all: (A, B) -> bool, f: (A, B) -> C, q: C -> bool)
    requires forall a, b :: a in as_ && b in bs ==> all(a, b) && q(f(a, b)) == m(a, b)
    ensures NestedLoop(as_, bs, m, f) == Filter(NestedLoop(as_, bs, all, f), q)
  {
    if as_ != [] {
      var init, last := as_[..|as_| - 1], as_[|as_| - 1];
      assert forall a :: a in init ==> a in as_;
      LoopFiltered(init, bs, m, all, f, q);
      assert last in as_;
      MatchesFiltered(last, bs, m, all, f, q);
      FilterConcat(NestedLoop(init, bs, all, f), Matches(last, bs, all, f), q);
    }
  }

  /** An equality with one column on each side, whichever side it names first. */
  predicate Spans(pair: EquiPair, left: seq<nat>, right: seq<nat>) {
    if pair.0.tableId in left then pair.1.tableId in right else pair.0.tableId in right && pair.1.tableId in left
  }

  predicate JoinsRow(pair: EquiPair, row: Row) { KeyEqual(RowEnv(row)(pair.0), RowEnv(row)(pair.1)) }

  /** The row has equal, non-NULL keys in the two columns of each pair. */
  function JoiningAll(pairs: seq<EquiPair>): Row -> bool {
    (row: Row) => forall pair :: pair in pairs ==> JoinsRow(pair, row)
  }
  function Joining(pair: EquiPair): Row -> bool { (row: Row) => JoinsRow(pair, row) }

  lemma SingleKey(a: Datum, b: Datum)
    ensures SameKey([a], [b]) <==> KeyEqual(a, b)
  {
    ConcatMapSnoc([], a, CellCode());
    ConcatMapSnoc([], b, CellCode());
    PlusEmpty([a]);
    PlusEmpty([b]);
    PlusEmpty(EncodeCell(a));
    PlusEmpty(EncodeCell(b));
    assert a in [a] && b in [b];
  }

  /** The two rows join exactly when the merged row has equal keys. */
  lemma JoinsWhenMerged(pair: EquiPair, left: seq<nat>, right: seq<nat>, l: Row, r: Row)
    requires Spans(pair, left, right) && (forall id :: id in left ==> id !in right)
    requires WithinIds(l, left) && WithinIds(r, right)
    ensures Joining(pair)(Merge()(l, r)) == JoinMatch([pair], left)(l, r)
  {
    var x, y := LeftKey(left, pair), RightKey(left, pair);
    assert RowEnv(l + r)(x) == RowEnv(l)(x) && RowEnv(l + r)(y) == RowEnv(r)(y);
    assert Map([pair], LeftCell(left, l)) == [RowEnv(l)(x)] && Map([pair], RightCell(left, r)) == [RowEnv(r)(y)];
    SingleKey(RowEnv(l)(x), RowEnv(r)(y));
  }

  /** One join of the FROM plan, as a filter over the product. */
  lemma JoinIsFilteredProduct(pair: EquiPair, left: seq<nat>, right: seq<nat>, ls: seq<Row>, rs: seq<Row>)
    requires Spans(pair, left, right) && (forall id :: id in left ==> id !in right)
    requires (forall l :: l in ls ==> WithinIds(l, left)) && (forall r :: r in rs ==> WithinIds(r, right))
    ensures NestedLoop(ls, rs, JoinMatch([pair], left), Merge())
         == Filter(NestedLoop(ls, rs, Always(), Merge()), Joining(pair))
  {
    forall l, r | l in ls && r in rs
      ensures Always()(l, r) && Joining(pair)(Merge()(l, r)) == JoinMatch([pair], left)(l, r)
    {
      JoinsWhenMerged(pair, left, right, l, r);
    }
    LoopFiltered(ls, rs, JoinMatch([pair], left), Always(), Merge(), Joining(pair));
  }

  // ----- the whole FROM clause -----

  function Equalities(parts: seq<Part>, conjuncts: seq<Expr>): seq<Expr> { Filter(conjuncts, Connecting(parts)) }

  /** Each link names a column of either of its parts. */
  ghost predicate LinksTie(parts: seq<Part>, links: seq<Link>) {
    forall k :: 0 <= k < |links| ==> Ties(parts, links[k])
  }

  ghost predicate Ties(parts: seq<Part>, l: Link) {
    && l.a < |parts| && l.b < |parts|
    && l.pair.0.tableId in parts[l.a].ids && l.pair.1.tableId in parts[l.b].ids
  }

  function PairOf(e: Expr): EquiPair
    requires IsColumnEquality(e)
  {
    (e.left.ref, e.right.ref)
  }

  lemma EqualitiesTie(parts: seq<Part>, conjuncts: seq<Expr>)
    requires AllBound(parts, conjuncts)
    ensures var eqs, links := Equalities(parts, conjuncts), Links(parts, conjuncts);
      && LinksTie(parts, links) && |eqs| == |links|
      && forall k :: 0 <= k < |eqs| ==> IsColumnEquality(eqs[k]) && links[k].pair == PairOf(eqs[k])
  {
    var eqs, links := Equalities(parts, conjuncts), Links(parts, conjuncts);
    FilterMembers(conjuncts, Connecting(parts));
    forall k | 0 <= k < |eqs|
      ensures Ties(parts, links[k]) && IsColumnEquality(eqs[k]) && links[k].pair == PairOf(eqs[k])
    {
      assert eqs[k] in eqs && Connects(parts, eqs[k]) && Bound(parts, eqs[k]);
    }
  }

  /** The columns that join part `i`. */
  function JoinedOn(links: seq<Link>, i: nat): EquiPair
    requires FirstReaching(links, i).Some?
  {
    links[FirstReaching(links, i).value].pair
  }

  /** The equalities that became join conditions, part after part. */
  function KeptPairs(links: seq<Link>, n: nat): seq<EquiPair>
    requires 0 < n && AllReachable(links, n)
  {
    if n == 1 then [] else KeptPairs(links, n - 1) + [JoinedOn(links, n - 1)]
  }

  lemma TieSpans(parts: seq<Part>, l: Link, i: nat)
    requires PartsBound(parts) && 0 < i < |parts| && Ties(parts, l) && Reaches(l, i)
    ensures Spans(l.pair, IdsUpTo(parts, i), parts[i].ids)
  {
    IdsUpToMember(parts, i, l.pair.0.tableId);
    IdsUpToMember(parts, i, l.pair.1.tableId);
    if l.pair.0.tableId in IdsUpTo(parts, i) { LaterIdsApart(parts, i, l.pair.0.tableId); }
  }

  lemma JoinedOnSpans(parts: seq<Part>, links: seq<Link>, i: nat)
    requires PartsBound(parts) && LinksTie(parts, links) && 0 < i < |parts| && FirstReaching(links, i).Some?
    ensures Spans(JoinedOn(links, i), IdsUpTo(parts, i), parts[i].ids)
  {
    TieSpans(parts, links[FirstReaching(links, i).value], i);
  }

  lemma JoinOfTrees(l: Plan, r: Plan, pair: EquiPair, left: seq<nat>, right: seq<nat>)
    requires FromTree(l) && FromTree(r) && CollectBindingIds(l) == left && CollectBindingIds(r) == right
    requires forall id :: id in left ==> id !in right
    ensures FromTree(JoinNode(l, r, [pair])) && CollectBindingIds(JoinNode(l, r, [pair])) == left + right
  {
  }

  predicate PairWithin(pair: EquiPair, ids: seq<nat>) { pair.0.tableId in ids && pair.1.tableId in ids }

  lemma AllWithinMore(parts: seq<Part>, n: nat, pairs: seq<EquiPair>, pair: EquiPair)
    requires n < |parts| && Spans(pair, IdsUpTo(parts, n), parts[n].ids)
    requires forall p :: p in pairs ==> PairWithin(p, IdsUpTo(parts, n))
    ensures forall p :: p in pairs + [pair] ==> PairWithin(p, IdsUpTo(parts, n + 1))
  {
    assert IdsUpTo(parts, n + 1) == IdsUpTo(parts, n) + parts[n].ids;
  }

  lemma CrossRowsWithin(w: World, parts: seq<Part>, n: nat)
    requires PartsBound(parts) && 0 < n < |parts|
    ensures forall l :: l in Cross(w, parts, n) ==> WithinIds(l, IdsUpTo(parts, n))
    ensures forall r :: r in Denote(w, parts[n].plan) ==> WithinIds(r, parts[n].ids)
    ensures forall id :: id in IdsUpTo(parts, n) ==> id !in parts[n].ids
  {
    forall l | l in Cross(w, parts, n) ensures WithinIds(l, IdsUpTo(parts, n)) { CrossWithinIds(w, parts, n, l); }
    forall r | r in Denote(w, parts[n].plan) ensures WithinIds(r, parts[n].ids) { RowsWithinIds(w, parts[n].plan, r); }
    forall id | id in IdsUpTo(parts, n) ensures id !in parts[n].ids { LaterIdsApart(parts, n, id); }
  }

  lemma JoinsReadLeft(pairs: seq<EquiPair>, left: seq<nat>, right: seq<nat>, l: Row, r: Row)
    requires WithinIds(r, right) && (forall id :: id in left ==> id !in right)
    requires forall pair :: pair in pairs ==> PairWithin(pair, left)
    ensures JoiningAll(pairs)(Merge()(l, r)) == JoiningAll(pairs)(l)
  {
    forall pair | pair in pairs ensures JoinsRow(pair, l + r) == JoinsRow(pair, l) {
      assert RowEnv(l + r)(pair.0) == RowEnv(l)(pair.0) && RowEnv(l + r)(pair.1) == RowEnv(l)(pair.1);
    }
  }

  lemma JoiningSnoc(pairs: seq<EquiPair>, pair: EquiPair, row: Row)
    ensures JoiningAll(pairs + [pair])(row) == (JoiningAll(pairs)(row) && Joining(pair)(row))
  {
    assert forall p :: p in pairs + [pair] <==> p in pairs || p == pair;
  }

  lemma ProductStep(w: World, parts: seq<Part>, pairs: seq<EquiPair>, pair: EquiPair, n: nat)
    requires PartsBound(parts) && 0 < n < |parts|
    requires forall p :: p in pairs ==> PairWithin(p, IdsUpTo(parts, n))
    ensures var kept := Filter(Cross(w, parts, n), JoiningAll(pairs));
      Filter(NestedLoop(kept, Denote(w, parts[n].plan), Always(), Merge()), Joining(pair))
        == Filter(Cross(w, parts, n + 1), JoiningAll(pairs + [pair]))
  {
    var ls, rs, p := Cross(w, parts, n), Denote(w, parts[n].plan), JoiningAll(pairs);
    CrossRowsWithin(w, parts, n);
    forall l, r | l in ls && r in rs ensures p(Merge()(l, r)) == p(l) {
      JoinsReadLeft(pairs, IdsUpTo(parts, n), parts[n].ids, l, r);
    }
    FilterLoopOuter(ls, rs, Always(), Merge(), p, p);
    var rows := NestedLoop(ls, rs, Always(), Merge());
    forall row | row in rows ensures JoiningAll(pairs + [pair])(row) == (p(row) && Joining(pair)(row)) {
      JoiningSnoc(pairs, pair, row);
    }
    FilterTwice(rows, p, Joining(pair), JoiningAll(pairs + [pair]));
  }

  /** The plan denotes the product of the first `n` items filtered by the keys of `pairs`. */
  ghost predicate MeansFiltered(w: World, parts: seq<Part>, plan: Plan, pairs: seq<EquiPair>, n: nat)
    requires PartsBound(parts) && 0 < n <= |parts|
  {
    && FromTree(plan) && Relational(plan) && CollectBindingIds(plan) == IdsUpTo(parts, n)
    && (forall p :: p in pairs ==> PairWithin(p, IdsUpTo(parts, n)))
    && Denote(w, plan) == Filter(Cross(w, parts, n), JoiningAll(pairs))
  }

  lemma FirstMeans(w: World, parts: seq<Part>)
    requires PartsBound(parts) && parts != []
    ensures MeansFiltered(w, parts, parts[0].plan, [], 1)
  {
    FilterAll(Cross(w, parts, 1), JoiningAll([]));
    assert IdsUpTo(parts, 1) == IdsUpTo(parts, 0) + parts[0].ids;
  }

  lemma JoinRows(w: World, parts: seq<Part>, plan: Plan, pairs: seq<EquiPair>, pair: EquiPair, n: nat)
    requires PartsBound(parts) && 0 < n < |parts| && MeansFiltered(w, parts, plan, pairs, n)
    requires Spans(pair, IdsUpTo(parts, n), parts[n].ids)
    ensures Denote(w, JoinNode(plan, parts[n].plan, [pair])) ==
      Filter(Cross(w, parts, n + 1), JoiningAll(pairs + [pair]))
  {
    var ls, rs := Filter(Cross(w, parts, n), JoiningAll(pairs)), Denote(w, parts[n].plan);
    CrossRowsWithin(w, parts, n);
    FilterMembers(Cross(w, parts, n), JoiningAll(pairs));
    JoinIsFilteredProduct(pair, IdsUpTo(parts, n), parts[n].ids, ls, rs);
    ProductStep(w, parts, pairs, pair, n);
  }

  /** One more join on top of such a plan. */
  lemma JoinMeans(w: World, parts: seq<Part>, plan: Plan, pairs: seq<EquiPair>, pair: EquiPair, n: nat)
    requires PartsBound(parts) && 0 < n < |parts| && MeansFiltered(w, parts, plan, pairs, n)
    requires Spans(pair, IdsUpTo(parts, n), parts[n].ids)
    ensures MeansFiltered(w, parts, JoinNode(plan, parts[n].plan, [pair]), pairs + [pair], n + 1)
  {
    JoinRows(w, parts, plan, pairs, pair, n);
    CrossRowsWithin(w, parts, n);
    JoinOfTrees(plan, parts[n].plan, pair, IdsUpTo(parts, n), parts[n].ids);
    AllWithinMore(parts, n, pairs, pair);
  }

  /** The joins of the clause: the product filtered by the keys of the equalities kept. */
  lemma {:induction false} JoinedMeans(w: World, parts: seq<Part>, links: seq<Link>, n: nat)
    requires PartsBound(parts) && LinksTie(parts, links) && 0 < n <= |parts| && AllReachable(links, n)
    ensures MeansFiltered(w, parts, Joined(parts, links, n), KeptPairs(links, n), n)
  {
    if n == 1 {
      FirstMeans(w, parts);
    } else {
      JoinedMeans(w, parts, links, n - 1);
      OneMoreMeans(w, parts, links, n - 1);
    }
  }

  lemma OneMoreMeans(w: World, parts: seq<Part>, links: seq<Link>, m: nat)
    requires PartsBound(parts) && LinksTie(parts, links) && 0 < m < |parts| && AllReachable(links, m + 1)
    requires MeansFiltered(w, parts, Joined(parts, links, m), KeptPairs(links, m), m)
    ensures MeansFiltered(w, parts, Joined(parts, links, m + 1), KeptPairs(links, m + 1), m + 1)
  {
    JoinedOnSpans(parts, links, m);
    JoinMeans(w, parts, Joined(parts, links, m), KeptPairs(links, m), JoinedOn(links, m), m);
  }

  // ----- the WHERE clause -----

  /** BindFromClause accepts the clause. */
  ghost predicate BindsTo(parts: seq<Part>, conjuncts: seq<Expr>) {
    PartsBound(parts) && parts != [] && AllBound(parts, conjuncts) && AllReachable(Links(parts, conjuncts), |parts|)
  }

  /** What it makes of the clause: its joins under its residual filter. */
  ghost function BoundRows(w: World, parts: seq<Part>, conjuncts: seq<Expr>): seq<Row>
    requires BindsTo(parts, conjuncts)
  {
    EqualitiesTie(parts, conjuncts);
    JoinedMeans(w, parts, Links(parts, conjuncts), |parts|);
    Filter(Denote(w, Joined(parts, Links(parts, conjuncts), |parts|)), PassingAll(w.fpu, Residue(parts, conjuncts)))
  }

  function Residue(parts: seq<Part>, conjuncts: seq<Expr>): seq<Expr> { Filter(conjuncts, Residual(parts)) }

  function Kept(parts: seq<Part>, conjuncts: seq<Expr>): seq<EquiPair>
    requires parts != [] && AllReachable(Links(parts, conjuncts), |parts|)
  {
    KeptPairs(Links(parts, conjuncts), |parts|)
  }

  lemma FilterEqualIff<T(!new)>(s: seq<T>, p: T -> bool, q: T -> bool)
    ensures Filter(s, p) == Filter(s, q) <==> forall x :: x in s ==> p(x) == q(x)
  {
    FilterMembers(s, p);
    FilterMembers(s, q);
    if forall x :: x in s ==> p(x) == q(x) { FilterSame(s, p, q); }
  }

  function Both(p: Row -> bool, q: Row -> bool): Row -> bool { (row: Row) => p(row) && q(row) }

  lemma WhereSplits(fpu: FloatUnit, parts: seq<Part>, conjuncts: seq<Expr>, row: Row)
    ensures PassingAll(fpu, conjuncts)(row) ==
      (PassingAll(fpu, Equalities(parts, conjuncts))(row) && PassingAll(fpu, Residue(parts, conjuncts))(row))
  {
    FilterMembers(conjuncts, Connecting(parts));
    FilterMembers(conjuncts, Residual(parts));
    assert forall e :: e in conjuncts <==> e in Equalities(parts, conjuncts) || e in Residue(parts, conjuncts);
  }

  /** On this row, the keys of the equalities kept say what all the equalities say. */
  ghost predicate KeptTell(fpu: FloatUnit, parts: seq<Part>, conjuncts: seq<Expr>, row: Row)
    requires BindsTo(parts, conjuncts)
  {
    JoiningAll(Kept(parts, conjuncts))(row) <==> PassingAll(fpu, Equalities(parts, conjuncts))(row)
  }

  /** The bound FROM clause under its residual filter is the product of the items
      filtered by the keys of the equalities kept and by the residual. It is the
      product filtered by the whole WHERE clause exactly when, on every row of
      the product that passes the residual, those keys tell all equalities. */
  lemma FromClauseMeans(w: World, parts: seq<Part>, conjuncts: seq<Expr>)
    requires BindsTo(parts, conjuncts)
    ensures var product, residual := Cross(w, parts, |parts|), PassingAll(w.fpu, Residue(parts, conjuncts));
      && BoundRows(w, parts, conjuncts) == Filter(Filter(product, JoiningAll(Kept(parts, conjuncts))), residual)
      && (BoundRows(w, parts, conjuncts) == Filter(product, PassingAll(w.fpu, conjuncts)) <==>
          forall row :: row in product && residual(row) ==> KeptTell(w.fpu, parts, conjuncts, row))
  {
    var product, residual := Cross(w, parts, |parts|), PassingAll(w.fpu, Residue(parts, conjuncts));
    var keys := JoiningAll(Kept(parts, conjuncts));
    EqualitiesTie(parts, conjuncts);
    JoinedMeans(w, parts, Links(parts, conjuncts), |parts|);
    FilterTwice(product, keys, residual, Both(keys, residual));
    FilterEqualIff(product, Both(keys, residual), PassingAll(w.fpu, conjuncts));
    forall row | row in product
      ensures Both(keys, residual)(row) == PassingAll(w.fpu, conjuncts)(row) <==>
        (residual(row) ==> KeptTell(w.fpu, parts, conjuncts, row))
    {
      WhereSplits(w.fpu, parts, conjuncts, row);
    }
  }
}
