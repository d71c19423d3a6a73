/** Which comma joins mean their WHERE clause. BindFromClause keeps one equality
    for each FROM item after the first, compares its columns by their bytes and
    drops the others. That says the same as the WHERE clause, whatever is stored
    and whatever else the clause asks, exactly when its equalities compare two
    INTEGER or two VARCHAR columns and follow from those kept. */
module KeptEqualities {
  import opened Seqs
  import opened Types
  import opened Expressions
  import opened KeyBytes
  import opened LogicalPlan
  import opened Binder
  import opened FromClause
  import opened Optimizer

  // ----- what follows from a list of equalities -----

  type Column = (nat, nat)

  function ColOf(ref: ColumnRef): Column { (ref.tableId, ref.ordinal) }

  /** The representative of a column after merging the ends of each equality. */
  function RepOf(pairs: seq<EquiPair>, c: Column): Column {
    if pairs == [] then c
    else
      var init, last := pairs[..|pairs| - 1], pairs[|pairs| - 1];
      if RepOf(init, c) == RepOf(init, ColOf(last.0)) then RepOf(init, ColOf(last.1)) else RepOf(init, c)
  }

  /** The equality is a consequence of the listed ones. */
  predicate Follows(pairs: seq<EquiPair>, pair: EquiPair) { RepOf(pairs, ColOf(pair.0)) == RepOf(pairs, ColOf(pair.1)) }

  lemma {:induction false} ListedFollow(pairs: seq<EquiPair>, pair: EquiPair)
    requires pair in pairs
    ensures Follows(pairs, pair)
  {
    if pair != pairs[|pairs| - 1] { ListedFollow(pairs[..|pairs| - 1], pair); }
  }

  /** The colouring does not tell the ends of a listed equality apart. */
  ghost predicate Respects(colour: Column -> bool, pairs: seq<EquiPair>) {
    forall pair :: pair in pairs ==> colour(ColOf(pair.0)) == colour(ColOf(pair.1))
  }

  lemma {:induction false} RepColour(pairs: seq<EquiPair>, colour: Column -> bool, c: Column)
    requires Respects(colour, pairs)
    ensures colour(RepOf(pairs, c)) == colour(c)
  {
    if pairs != [] {
      var init, last := pairs[..|pairs| - 1], pairs[|pairs| - 1];
      assert Respects(colour, init);
      RepColour(init, colour, c);
      RepColour(init, colour, ColOf(last.0));
      RepColour(init, colour, ColOf(last.1));
      assert last in pairs;
    }
  }

  /** What follows has ends of one colour, whenever the listed ones have. */
  lemma FollowsColour(pairs: seq<EquiPair>, colour: Column -> bool, pair: EquiPair)
    requires Respects(colour, pairs) && Follows(pairs, pair)
    ensures colour(ColOf(pair.0)) == colour(ColOf(pair.1))
  {
    RepColour(pairs, colour, ColOf(pair.0));
    RepColour(pairs, colour, ColOf(pair.1));
  }

  /** Key equality passes along: a row with equal keys in the listed columns has
      them in every pair that follows, unless the pair is a column with itself. */
  lemma FollowingKeys(pairs: seq<EquiPair>, pair: EquiPair, row: Row)
    requires JoiningAll(pairs)(row) && Follows(pairs, pair) && ColOf(pair.0) != ColOf(pair.1)
    ensures JoinsRow(pair, row)
  {
    var x := ColOf(pair.0);
    var key := Get(row, x.0, x.1);
    if key == Null {
      var itself := (c: Column) => c == x;
      assert Respects(itself, pairs) by {
        forall p | p in pairs ensures itself(ColOf(p.0)) == itself(ColOf(p.1)) { assert JoinsRow(p, row); }
      }
      FollowsColour(pairs, itself, pair);
    } else {
      var same := (c: Column) => KeyEqual(Get(row, c.0, c.1), key);
      assert Respects(same, pairs) by {
        forall p | p in pairs ensures same(ColOf(p.0)) == same(ColOf(p.1)) { assert JoinsRow(p, row); }
      }
      FollowsColour(pairs, same, pair);
    }
  }

  // ----- the equalities in force -----

  /** The ON equalities of a FROM item. */
  function Inner(p: Plan): seq<EquiPair> {
    match p
    case FilterNode(i, _) => Inner(i)
    case JoinNode(l, r, equi) => Inner(l) + Inner(r) + equi
    case _ => []
  }

  function InnerUpTo(parts: seq<Part>, n: nat): seq<EquiPair>
    requires n <= |parts|
  {
    if n == 0 then [] else InnerUpTo(parts, n - 1) + Inner(parts[n - 1].plan)
  }

  function InForce(parts: seq<Part>, conjuncts: seq<Expr>): seq<EquiPair>
    requires parts != [] && AllReachable(Links(parts, conjuncts), |parts|)
  {
    InnerUpTo(parts, |parts|) + Kept(parts, conjuncts)
  }

  /** Neither side is text, or both are. */
  predicate Alike(pair: EquiPair) { pair.0.ty == Varchar <==> pair.1.ty == Varchar }

  predicate AllAlike(pairs: seq<EquiPair>) { forall pair :: pair in pairs ==> Alike(pair) }

  // ----- typed rows -----

  ghost predicate RowsTyped(w: World) {
    forall t, row :: t in w.tables && row in TableRows(w, t) ==> CellsTyped(row, w.tables[t].types)
  }

  lemma MergedReads(l: Row, r: Row, left: seq<nat>, right: seq<nat>, ref: ColumnRef)
    requires WithinIds(l, left) && WithinIds(r, right) && (forall id :: id in left ==> id !in right)
    ensures ref.tableId in left ==> RowEnv(l + r)(ref) == RowEnv(l)(ref)
    ensures ref.tableId in right ==> RowEnv(l + r)(ref) == RowEnv(r)(ref)
  {
  }

  /** A joined row reads its two halves. */
  lemma HalvesOf(w: World, l: Plan, r: Plan, equi: seq<EquiPair>, row: Row) returns (a: Row, b: Row)
    requires FromTree(JoinNode(l, r, equi)) && Relational(l) && Relational(r)
    requires row in Denote(w, JoinNode(l, r, equi))
    ensures a in Denote(w, l) && b in Denote(w, r) && KeysMatch(equi, CollectBindingIds(l), a, b)
    ensures forall ref: ColumnRef :: ref.tableId in CollectBindingIds(l) ==> RowEnv(row)(ref) == RowEnv(a)(ref)
    ensures forall ref: ColumnRef :: ref.tableId in CollectBindingIds(r) ==> RowEnv(row)(ref) == RowEnv(b)(ref)
  {
    var left, right := CollectBindingIds(l), CollectBindingIds(r);
    var m := JoinMatch(equi, left);
    NestedLoopMember(Denote(w, l), Denote(w, r), m, Merge(), row);
    a, b :| a in Denote(w, l) && b in Denote(w, r) && m(a, b) && row == Merge()(a, b);
    RowsWithinIds(w, l, a);
    RowsWithinIds(w, r, b);
    forall ref: ColumnRef
      ensures ref.tableId in left ==> RowEnv(row)(ref) == RowEnv(a)(ref)
      ensures ref.tableId in right ==> RowEnv(row)(ref) == RowEnv(b)(ref)
    {
      MergedReads(a, b, left, right, ref);
    }
  }

  lemma ScanCellTyped(w: World, id: nat, t: nat, row: Row, ordinal: nat)
    requires RowsTyped(w) && t in w.tables && ordinal < |w.tables[t].types|
    requires row in Map(TableRows(w, t), ScanRow(id))
    ensures HasType(Get(row, id, ordinal), w.tables[t].types[ordinal])
  {
    var i :| 0 <= i < |TableRows(w, t)| && Map(TableRows(w, t), ScanRow(id))[i] == row;
    var cells := TableRows(w, t)[i];
    assert cells in TableRows(w, t) && CellsTyped(cells, w.tables[t].types);
    CellMapGet(id, cells, id, ordinal);
  }

  lemma {:induction false} CellTyped(w: World, p: Plan, row: Row, ref: ColumnRef)
    requires FromTree(p) && Relational(p) && Scoped(w, p) && RowsTyped(w) && row in Denote(w, p) && Resolves(p, ref)
    ensures HasType(RowEnv(row)(ref), ref.ty)
  {
    match p
    case ScanNode(id, t, columns, _) => ScanCellTyped(w, id, t, row, ref.ordinal);
    case FilterNode(i, e) =>
      FilterMember(Denote(w, i), Passing(w.fpu, e), row);
      CellTyped(w, i, row, ref);
    case JoinNode(l, r, equi) =>
      var a, b := HalvesOf(w, l, r, equi, row);
      if Resolves(l, ref) {
        ResolvesWithinIds(l, ref);
        CellTyped(w, l, a, ref);
      } else {
        ResolvesWithinIds(r, ref);
        CellTyped(w, r, b, ref);
      }
  }

  // ----- the ON equalities hold on every row -----

  lemma {:induction false} AlikeReadAlike(ss: seq<TypeId>, ts: seq<TypeId>)
    requires |ss| == |ts| && forall i :: 0 <= i < |ss| ==> (ss[i] == Varchar <==> ts[i] == Varchar)
    ensures ReadAlike(ss, ts)
  {
    if ss != [] {
      forall i | 0 <= i < |ss| - 1
        ensures ss[1..][i] == Varchar <==> ts[1..][i] == Varchar
      {
        assert ss[1..][i] == ss[i + 1];
      }
      AlikeReadAlike(ss[1..], ts[1..]);
    }
  }

  lemma JoinKeysHold(w: World, l: Plan, r: Plan, equi: seq<EquiPair>, a: Row, b: Row, pair: EquiPair)
    requires FromTree(JoinNode(l, r, equi)) && Relational(l) && Relational(r)
    requires Scoped(w, JoinNode(l, r, equi)) && RowsTyped(w) && AllAlike(equi)
    requires a in Denote(w, l) && b in Denote(w, r) && KeysMatch(equi, CollectBindingIds(l), a, b) && pair in equi
    ensures KeyEqual(LeftCell(CollectBindingIds(l), a)(pair), RightCell(CollectBindingIds(l), b)(pair))
  {
    var left := CollectBindingIds(l);
    var xs, ys := Map(equi, LeftCell(left, a)), Map(equi, RightCell(left, b));
    var ss := seq(|equi|, i requires 0 <= i < |equi| => LeftKey(left, equi[i]).ty);
    var ts := seq(|equi|, i requires 0 <= i < |equi| => RightKey(left, equi[i]).ty);
    forall i | 0 <= i < |equi|
      ensures HasType(xs[i], ss[i]) && HasType(ys[i], ts[i]) && (ss[i] == Varchar <==> ts[i] == Varchar)
    {
      assert equi[i] in equi && Alike(equi[i]);
      assert PairScoped(l, r, equi[i]);
      PairSides(l, r, equi, equi[i]);
      CellTyped(w, l, a, LeftKey(left, equi[i]));
      CellTyped(w, r, b, RightKey(left, equi[i]));
    }
    AlikeReadAlike(ss, ts);
    SameKeyMatches(xs, ys, ss, ts);
    var i :| 0 <= i < |equi| && equi[i] == pair;
    assert KeyEqual(xs[i], ys[i]);
  }

  lemma {:induction false} InnerHold(w: World, p: Plan, row: Row, pair: EquiPair)
    requires FromTree(p) && Relational(p) && Scoped(w, p) && RowsTyped(w) && AllAlike(Inner(p))
    requires row in Denote(w, p) && pair in Inner(p)
    ensures JoinsRow(pair, row) && Resolves(p, pair.0) && Resolves(p, pair.1)
  {
    match p
    case FilterNode(i, e) =>
      FilterMember(Denote(w, i), Passing(w.fpu, e), row);
      InnerHold(w, i, row, pair);
    case JoinNode(l, r, equi) =>
      var a, b := HalvesOf(w, l, r, equi, row);
      if pair in Inner(l) {
        InnerHold(w, l, a, pair);
        ResolvesWithinIds(l, pair.0);
        ResolvesWithinIds(l, pair.1);
      } else if pair in Inner(r) {
        InnerHold(w, r, b, pair);
        ResolvesWithinIds(r, pair.0);
        ResolvesWithinIds(r, pair.1);
      } else {
        JoinKeysHold(w, l, r, equi, a, b, pair);
        assert PairScoped(l, r, pair);
        PairSides(l, r, equi, pair);
        ResolvesWithinIds(l, LeftKey(CollectBindingIds(l), pair));
        ResolvesWithinIds(r, RightKey(CollectBindingIds(l), pair));
      }
  }

  // ----- rows of the product -----

  /** A row of the product reads, on each item's columns, a row of that item. */
  lemma {:induction false} PartOfRow(w: World, parts: seq<Part>, n: nat, row: Row, i: nat) returns (part: Row)
    requires PartsBound(parts) && 0 < n <= |parts| && i < n && row in Cross(w, parts, n)
    ensures part in Denote(w, parts[i].plan)
    ensures forall ref: ColumnRef :: ref.tableId in parts[i].ids ==> RowEnv(row)(ref) == RowEnv(part)(ref)
  {
    if n == 1 { return row; }
    var m: nat := n - 1;
    var ls, rs := Cross(w, parts, m), Denote(w, parts[m].plan);
    NestedLoopMember(ls, rs, Always(), Merge(), row);
    var l, r :| l in ls && r in rs && row == Merge()(l, r);
    CrossRowsWithin(w, parts, m);
    var lower, upper := IdsUpTo(parts, m), parts[m].ids;
    forall ref: ColumnRef
      ensures ref.tableId in lower ==> RowEnv(row)(ref) == RowEnv(l)(ref)
      ensures ref.tableId in upper ==> RowEnv(row)(ref) == RowEnv(r)(ref)
    {
      MergedReads(l, r, lower, upper, ref);
    }
    if i == m {
      part := r;
    } else {
      part := PartOfRow(w, parts, m, l, i);
      forall id | id in parts[i].ids ensures id in lower { IdsUpToMember(parts, m, id); }
    }
  }

  /** The items are scoped over this world. */
  ghost predicate ItemsScoped(w: World, parts: seq<Part>) { forall i :: 0 <= i < |parts| ==> Scoped(w, parts[i].plan) }

  lemma {:induction false} InnerUpToHold(w: World, parts: seq<Part>, n: nat, row: Row, k: nat, pair: EquiPair)
    requires PartsBound(parts) && ItemsScoped(w, parts) && RowsTyped(w) && 0 < n <= |parts| && k <= n
    requires AllAlike(InnerUpTo(parts, k)) && row in Cross(w, parts, n) && pair in InnerUpTo(parts, k)
    ensures JoinsRow(pair, row)
  {
    var m: nat := k - 1;
    var before, own := InnerUpTo(parts, m), Inner(parts[m].plan);
    assert InnerUpTo(parts, k) == before + own;
    if pair in before {
      InnerUpToHold(w, parts, n, row, m, pair);
    } else {
      var part := PartOfRow(w, parts, n, row, m);
      InnerHold(w, parts[m].plan, part, pair);
      ResolvesWithinIds(parts[m].plan, pair.0);
      ResolvesWithinIds(parts[m].plan, pair.1);
    }
  }

  // ----- the kept keys tell all equalities -----

  /** The columns exist. */
  predicate RefResolves(parts: seq<Part>, ref: ColumnRef) {
    exists i :: 0 <= i < |parts| && Resolves(parts[i].plan, ref)
  }

  predicate EqualitiesResolve(parts: seq<Part>, eqs: seq<Expr>) {
    forall e :: e in eqs && IsColumnEquality(e) ==> RefResolves(parts, e.left.ref) && RefResolves(parts, e.right.ref)
  }

  /** FROM items over the world's tables, as the binder leaves them. */
  ghost predicate Items(w: World, parts: seq<Part>) {
    PartsBound(parts) && ItemsScoped(w, parts) && AllAlike(InnerUpTo(parts, |parts|))
  }

  /** Two INTEGER or two VARCHAR columns, and equal whenever the equalities in force hold. */
  predicate ToldBy(pairs: seq<EquiPair>, pair: EquiPair) {
    pair.0.ty == pair.1.ty && pair.0.ty != Float && Follows(pairs, pair)
  }

  predicate Tells(pairs: seq<EquiPair>, eqs: seq<Expr>) {
    forall e :: e in eqs && IsColumnEquality(e) ==> ToldBy(pairs, PairOf(e))
  }

  /** The equalities in force tell all equalities of the clause. */
  predicate Told(parts: seq<Part>, conjuncts: seq<Expr>)
    requires parts != [] && AllReachable(Links(parts, conjuncts), |parts|)
  {
    Tells(InForce(parts, conjuncts), Equalities(parts, conjuncts))
  }

  lemma EqualityConnects(parts: seq<Part>, conjuncts: seq<Expr>, e: Expr)
    requires e in Equalities(parts, conjuncts)
    ensures IsColumnEquality(e) && e.left.ref.tableId != e.right.ref.tableId
  {
    FilterMember(conjuncts, Connecting(parts), e);
  }

  lemma ProductCellTyped(w: World, parts: seq<Part>, row: Row, ref: ColumnRef)
    requires PartsBound(parts) && ItemsScoped(w, parts) && RowsTyped(w) && parts != []
    requires row in Cross(w, parts, |parts|) && RefResolves(parts, ref)
    ensures HasType(RowEnv(row)(ref), ref.ty)
  {
    var i: nat :| i < |parts| && Resolves(parts[i].plan, ref);
    var part := PartOfRow(w, parts, |parts|, row, i);
    ResolvesWithinIds(parts[i].plan, ref);
    CellTyped(w, parts[i].plan, part, ref);
  }

  lemma EqualityEval(fpu: FloatUnit, e: Expr, row: Row)
    requires IsColumnEquality(e)
    ensures Passing(fpu, e)(row) == SameValue(fpu, RowEnv(row)(e.left.ref), RowEnv(row)(e.right.ref))
  {
    assert Eval(fpu, e.left, RowEnv(row)) == RowEnv(row)(e.left.ref);
    assert Eval(fpu, e.right, RowEnv(row)) == RowEnv(row)(e.right.ref);
  }

  /** On a row of the product, such an equality passes exactly when its keys are equal. */
  lemma KeyTellsEquality(w: World, parts: seq<Part>, row: Row, e: Expr)
    requires PartsBound(parts) && ItemsScoped(w, parts) && RowsTyped(w) && parts != []
    requires row in Cross(w, parts, |parts|) && EqualitiesResolve(parts, [e]) && IsColumnEquality(e)
    requires e.left.ref.ty == e.right.ref.ty && e.left.ref.ty != Float
    ensures Passing(w.fpu, e)(row) == JoinsRow(PairOf(e), row)
  {
    assert e in [e];
    var x, y := RowEnv(row)(e.left.ref), RowEnv(row)(e.right.ref);
    ProductCellTyped(w, parts, row, e.left.ref);
    ProductCellTyped(w, parts, row, e.right.ref);
    KeyEqualityIsValueEqualityIff(w.fpu, x, y, e.left.ref.ty, e.right.ref.ty);
    EqualityEval(w.fpu, e, row);
  }

  lemma {:induction false} KeptLink(links: seq<Link>, n: nat, pair: EquiPair) returns (k: nat)
    requires 0 < n && AllReachable(links, n) && pair in KeptPairs(links, n)
    ensures k < |links| && links[k].pair == pair
  {
    var m: nat := n - 1;
    if pair in KeptPairs(links, m) {
      k := KeptLink(links, m, pair);
    } else {
      k := FirstReaching(links, m).value;
    }
  }

  lemma KeptAreEqualities(parts: seq<Part>, conjuncts: seq<Expr>, pair: EquiPair) returns (e: Expr)
    requires BindsTo(parts, conjuncts) && pair in Kept(parts, conjuncts)
    ensures e in Equalities(parts, conjuncts) && IsColumnEquality(e) && PairOf(e) == pair
  {
    var k := KeptLink(Links(parts, conjuncts), |parts|, pair);
    EqualitiesTie(parts, conjuncts);
    e := Equalities(parts, conjuncts)[k];
  }

  lemma ToldOnRow(w: World, parts: seq<Part>, conjuncts: seq<Expr>, row: Row)
    requires BindsTo(parts, conjuncts) && Items(w, parts) && RowsTyped(w)
    requires EqualitiesResolve(parts, Equalities(parts, conjuncts)) && Told(parts, conjuncts)
    requires row in Cross(w, parts, |parts|)
    ensures KeptTell(w.fpu, parts, conjuncts, row)
  {
    var eqs, kept, force := Equalities(parts, conjuncts), Kept(parts, conjuncts), InForce(parts, conjuncts);
    forall e | e in eqs
      ensures IsColumnEquality(e) && Passing(w.fpu, e)(row) == JoinsRow(PairOf(e), row) && ToldBy(force, PairOf(e))
    {
      EqualityConnects(parts, conjuncts, e);
      assert EqualitiesResolve(parts, [e]);
      KeyTellsEquality(w, parts, row, e);
    }
    if JoiningAll(kept)(row) {
      forall pair | pair in force ensures JoinsRow(pair, row) {
        if pair in InnerUpTo(parts, |parts|) { InnerUpToHold(w, parts, |parts|, row, |parts|, pair); }
      }
      forall e | e in eqs ensures Passing(w.fpu, e)(row) {
        EqualityConnects(parts, conjuncts, e);
        FollowingKeys(force, PairOf(e), row);
      }
    }
    if PassingAll(w.fpu, eqs)(row) {
      forall pair | pair in kept ensures JoinsRow(pair, row) {
        var e := KeptAreEqualities(parts, conjuncts, pair);
        assert Passing(w.fpu, e)(row);
      }
    }
  }

  /** The bound FROM clause under its residual filter is the product filtered by the WHERE clause. */
  ghost predicate MeansWhere(w: World, parts: seq<Part>, conjuncts: seq<Expr>)
    requires BindsTo(parts, conjuncts)
  {
    BoundRows(w, parts, conjuncts) == Filter(Cross(w, parts, |parts|), PassingAll(w.fpu, conjuncts))
  }

  lemma ToldMeansWhere(w: World, parts: seq<Part>, conjuncts: seq<Expr>)
    requires BindsTo(parts, conjuncts) && Items(w, parts) && RowsTyped(w)
    requires EqualitiesResolve(parts, Equalities(parts, conjuncts)) && Told(parts, conjuncts)
    ensures MeansWhere(w, parts, conjuncts)
  {
    FromClauseMeans(w, parts, conjuncts);
    forall row | row in Cross(w, parts, |parts|) ensures KeptTell(w.fpu, parts, conjuncts, row) {
      ToldOnRow(w, parts, conjuncts, row);
    }
  }

  // ----- planning never refuses a comma join -----

  lemma SpansSided(pair: EquiPair, left: seq<nat>, right: seq<nat>)
    ensures Spans(pair, left, right) ==> Sided(left, right, pair)
  {
  }

  lemma JoinedIds(w: World, parts: seq<Part>, links: seq<Link>, n: nat)
    requires PartsBound(parts) && LinksTie(parts, links) && 0 < n <= |parts| && AllReachable(links, n)
    ensures CollectBindingIds(Joined(parts, links, n)) == IdsUpTo(parts, n)
  {
    JoinedMeans(w, parts, links, n);
  }

  predicate PartsTwoSided(parts: seq<Part>, n: nat)
    requires n <= |parts|
  {
    n > 0 ==> PartsTwoSided(parts, n - 1) && TwoSided(parts[n - 1].plan)
  }

  lemma JoinSided(w: World, parts: seq<Part>, links: seq<Link>, n: nat)
    requires PartsBound(parts) && LinksTie(parts, links) && 0 < n < |parts| && AllReachable(links, n + 1)
    ensures Sided(CollectBindingIds(Joined(parts, links, n)), parts[n].ids, JoinedOn(links, n))
  {
    JoinedIds(w, parts, links, n);
    JoinedOnSpans(parts, links, n);
    SpansSided(JoinedOn(links, n), IdsUpTo(parts, n), parts[n].ids);
  }

  /** The joins made from the WHERE clause have one column on each side. */
  lemma {:induction false} JoinedTwoSided(w: World, parts: seq<Part>, links: seq<Link>, n: nat)
    requires PartsBound(parts) && LinksTie(parts, links) && 0 < n <= |parts| && AllReachable(links, n)
    ensures TwoSided(Joined(parts, links, n)) <==> PartsTwoSided(parts, n)
  {
    if n > 1 {
      JoinedTwoSided(w, parts, links, n - 1);
      JoinSided(w, parts, links, n - 1);
      OneMoreJoin(Joined(parts, links, n - 1), parts[n - 1].plan, JoinedOn(links, n - 1));
    } else {
      assert PartsTwoSided(parts, 0);
    }
  }

  lemma OneMoreJoin(l: Plan, r: Plan, pair: EquiPair)
    requires Sided(CollectBindingIds(l), CollectBindingIds(r), pair)
    ensures TwoSided(JoinNode(l, r, [pair])) <==> TwoSided(l) && TwoSided(r)
  {
  }

  // ----- one equality for each item -----

  lemma {:induction false} KeptOnes(links: seq<Link>, n: nat, i: nat)
    requires 0 < n && AllReachable(links, n) && 1 <= i < n
    ensures JoinedOn(links, i) in KeptPairs(links, n)
  {
    if i < n - 1 { KeptOnes(links, n - 1, i); }
  }

  lemma UsedCovers(links: seq<Link>, n: nat, k: nat)
    requires 0 < n && AllReachable(links, n) && |links| == n - 1 && k < |links|
    ensures k in Used(links, n)
  {
    EveryEqualityUsedIff(links, n);
  }

  lemma PlaceOf(s: seq<nat>, k: nat) returns (j: nat)
    requires k in s
    ensures j < |s| && s[j] == k
  {
    j :| j < |s| && s[j] == k;
  }

  /** With as many equalities as there are joins, each of them joins some part. */
  lemma UsedBy(links: seq<Link>, n: nat, k: nat) returns (i: nat)
    requires 0 < n && AllReachable(links, n) && |links| == n - 1 && k < |links|
    ensures 1 <= i < n && FirstReaching(links, i) == Some(k)
  {
    UsedCovers(links, n, k);
    var j := PlaceOf(Used(links, n), k);
    i := j + 1;
  }

  lemma AllKept(parts: seq<Part>, conjuncts: seq<Expr>, e: Expr)
    requires BindsTo(parts, conjuncts) && |Links(parts, conjuncts)| == |parts| - 1
    requires e in Equalities(parts, conjuncts)
    ensures IsColumnEquality(e) && PairOf(e) in Kept(parts, conjuncts)
  {
    var eqs, links := Equalities(parts, conjuncts), Links(parts, conjuncts);
    EqualitiesTie(parts, conjuncts);
    var k: nat :| k < |eqs| && eqs[k] == e;
    var i := UsedBy(links, |parts|, k);
    KeptOnes(links, |parts|, i);
  }

  /** On this row, the keys of each equality say what its values say. */
  ghost predicate KeysSayValues(fpu: FloatUnit, eqs: seq<Expr>, row: Row) {
    forall e :: e in eqs && IsColumnEquality(e) ==> Passing(fpu, e)(row) == JoinsRow(PairOf(e), row)
  }

  /** With exactly parts minus one equalities, of any types: the clause means its
      WHERE wherever the keys of each equality say what its values say. */
  lemma AllKeptMeansWhere(w: World, parts: seq<Part>, conjuncts: seq<Expr>)
    requires BindsTo(parts, conjuncts) && |Links(parts, conjuncts)| == |parts| - 1
    requires forall row :: row in Cross(w, parts, |parts|) ==> KeysSayValues(w.fpu, Equalities(parts, conjuncts), row)
    ensures MeansWhere(w, parts, conjuncts)
  {
    var eqs, kept := Equalities(parts, conjuncts), Kept(parts, conjuncts);
    forall row | row in Cross(w, parts, |parts|) ensures KeptTell(w.fpu, parts, conjuncts, row) {
      forall e | e in eqs
        ensures IsColumnEquality(e) && PairOf(e) in kept && Passing(w.fpu, e)(row) == JoinsRow(PairOf(e), row)
      {
        AllKept(parts, conjuncts, e);
      }
      forall pair | pair in kept ensures exists e :: e in eqs && IsColumnEquality(e) && PairOf(e) == pair {
        var e := KeptAreEqualities(parts, conjuncts, pair);
      }
    }
    FromClauseMeans(w, parts, conjuncts);
  }

  // ----- worlds that tell -----

  /** What every cell of every table holds. */
  type Filling = (Column, TypeId) -> Datum

  function Fill(val: Filling, ref: ColumnRef): Datum { val(ColOf(ref), ref.ty) }

  ghost predicate FillsTyped(val: Filling) { forall c, ty :: HasType(val(c, ty), ty) }

  ghost predicate FillsAgree(val: Filling, pairs: seq<EquiPair>) {
    forall pair :: pair in pairs ==> KeyEqual(Fill(val, pair.0), Fill(val, pair.1))
  }

  function BindingCells(val: Filling, types: seq<TypeId>): nat -> Cells {
    (id: nat) => seq(|types|, o requires 0 <= o < |types| => val((id, o), types[o]))
  }

  /** Every table has one row for each binding. */
  function FilledTable(types: seq<TypeId>, ids: seq<nat>, val: Filling): Table {
    Table(types, [StoredGroup(Map(ids, BindingCells(val, types)), [])])
  }

  function FilledWorld(w: World, ids: seq<nat>, val: Filling): World {
    World(map t | t in w.tables :: FilledTable(w.tables[t].types, ids, val), w.fpu)
  }

  ghost predicate SameSchema(v: World, w: World) {
    && v.tables.Keys == w.tables.Keys && v.fpu == w.fpu
    && forall t :: t in w.tables ==> v.tables[t].types == w.tables[t].types
  }

  lemma {:induction false} SchemaScopes(v: World, w: World, p: Plan)
    requires SameSchema(v, w)
    ensures Scoped(v, p) == Scoped(w, p)
  {
    match p
    case FilterNode(i, _) => SchemaScopes(v, w, i);
    case JoinNode(l, r, _) => SchemaScopes(v, w, l); SchemaScopes(v, w, r);
    case _ =>
  }

  lemma FilledRows(w: World, ids: seq<nat>, val: Filling, t: nat)
    requires t in w.tables
    ensures TableRows(FilledWorld(w, ids, val), t) == Map(ids, BindingCells(val, w.tables[t].types))
  {
    var groups := FilledTable(w.tables[t].types, ids, val).groups;
    var rows := Map(ids, BindingCells(val, w.tables[t].types));
    assert Map(groups, RowsOfGroup()) == [] + [rows];
    FlattenSnoc([], rows);
    PlusEmpty(rows);
  }

  lemma FilledSchema(w: World, ids: seq<nat>, val: Filling)
    ensures SameSchema(FilledWorld(w, ids, val), w)
  {
  }

  lemma BindingRowsTyped(types: seq<TypeId>, ids: seq<nat>, val: Filling, row: Cells)
    requires FillsTyped(val) && row in Map(ids, BindingCells(val, types))
    ensures CellsTyped(row, types)
  {
    var i :| 0 <= i < |ids| && Map(ids, BindingCells(val, types))[i] == row;
    assert row == BindingCells(val, types)(ids[i]);
  }

  lemma FilledTyped(w: World, ids: seq<nat>, val: Filling)
    requires FillsTyped(val)
    ensures RowsTyped(FilledWorld(w, ids, val))
  {
    var v := FilledWorld(w, ids, val);
    forall t, row | t in v.tables && row in TableRows(v, t) ensures CellsTyped(row, v.tables[t].types) {
      var types := w.tables[t].types;
      FilledRows(w, ids, val, t);
      BindingRowsTyped(types, ids, val, row);
    }
  }

  /** The row of a FROM item that reads the filling. */
  function FilledRow(val: Filling, p: Plan): Row {
    match p
    case ScanNode(id, _, columns, _) => CellMap(id, BindingCells(val, columns)(id))
    case FilterNode(i, _) => FilledRow(val, i)
    case JoinNode(l, r, _) => Merge()(FilledRow(val, l), FilledRow(val, r))
    case _ => map[]
  }

  /** Scans and joins, as the binder builds FROM items. */
  predicate Unfiltered(p: Plan) {
    match p
    case ScanNode(_, _, _, _) => true
    case JoinNode(l, r, _) => Unfiltered(l) && Unfiltered(r)
    case _ => false
  }

  ghost predicate Reads(row: Row, val: Filling, p: Plan) {
    forall ref :: Resolves(p, ref) ==> RowEnv(row)(ref) == Fill(val, ref)
  }

  lemma FilledScanReads(val: Filling, p: Plan)
    requires p.ScanNode?
    ensures Reads(FilledRow(val, p), val, p)
  {
    var cells := BindingCells(val, p.columns)(p.bindingId);
    forall ref | Resolves(p, ref) ensures RowEnv(FilledRow(val, p))(ref) == Fill(val, ref) {
      CellMapGet(p.bindingId, cells, ref.tableId, ref.ordinal);
    }
  }

  lemma MapHas<T, U>(s: seq<T>, f: T -> U, x: T)
    requires x in s
    ensures f(x) in Map(s, f)
  {
    var i :| 0 <= i < |s| && s[i] == x;
    assert Map(s, f)[i] == f(x);
  }

  lemma FilledScan(w: World, ids: seq<nat>, val: Filling, p: Plan)
    requires p.ScanNode? && Scoped(w, p) && p.bindingId in ids
    ensures FilledRow(val, p) in Denote(FilledWorld(w, ids, val), p)
  {
    var cells := BindingCells(val, p.columns);
    FilledRows(w, ids, val, p.tableId);
    MapHas(ids, cells, p.bindingId);
    MapHas(Map(ids, cells), ScanRow(p.bindingId), cells(p.bindingId));
  }

  lemma FilledKeysMatch(l: Plan, r: Plan, equi: seq<EquiPair>, val: Filling, a: Row, b: Row)
    requires FromTree(JoinNode(l, r, equi)) && (forall pair :: pair in equi ==> PairScoped(l, r, pair))
    requires Reads(a, val, l) && Reads(b, val, r) && FillsAgree(val, equi)
    ensures KeysMatch(equi, CollectBindingIds(l), a, b)
  {
    var left := CollectBindingIds(l);
    var xs, ys := Map(equi, LeftCell(left, a)), Map(equi, RightCell(left, b));
    forall i | 0 <= i < |equi| ensures KeyEqual(xs[i], ys[i]) {
      var pair := equi[i];
      assert pair in equi && PairScoped(l, r, pair);
      PairSides(l, r, equi, pair);
    }
    MatchingCellsSameKey(xs, ys);
  }

  lemma MergedReadsFilling(l: Plan, r: Plan, equi: seq<EquiPair>, val: Filling, a: Row, b: Row)
    requires FromTree(JoinNode(l, r, equi))
    requires WithinIds(a, CollectBindingIds(l)) && WithinIds(b, CollectBindingIds(r))
    requires Reads(a, val, l) && Reads(b, val, r)
    ensures Reads(Merge()(a, b), val, JoinNode(l, r, equi))
  {
    forall ref | Resolves(JoinNode(l, r, equi), ref) ensures RowEnv(a + b)(ref) == Fill(val, ref) {
      MergedReads(a, b, CollectBindingIds(l), CollectBindingIds(r), ref);
      if Resolves(l, ref) { ResolvesWithinIds(l, ref); } else { ResolvesWithinIds(r, ref); }
    }
  }

  /** When the filling agrees on the ON equalities, the item has that row. */
  lemma {:induction false} FilledItem(w: World, ids: seq<nat>, val: Filling, p: Plan)
    requires FromTree(p) && Relational(p) && Unfiltered(p) && Scoped(w, p) && FillsAgree(val, Inner(p))
    requires forall id :: id in CollectBindingIds(p) ==> id in ids
    ensures FilledRow(val, p) in Denote(FilledWorld(w, ids, val), p) && Reads(FilledRow(val, p), val, p)
  {
    match p
    case ScanNode(_, _, _, _) => FilledScan(w, ids, val, p); FilledScanReads(val, p);
    case JoinNode(l, r, equi) =>
      var v := FilledWorld(w, ids, val);
      var a, b := FilledRow(val, l), FilledRow(val, r);
      FilledItem(w, ids, val, l);
      FilledItem(w, ids, val, r);
      RowsWithinIds(v, l, a);
      RowsWithinIds(v, r, b);
      FilledKeysMatch(l, r, equi, val, a, b);
      NestedLoopHas(Denote(v, l), Denote(v, r), JoinMatch(equi, CollectBindingIds(l)), Merge(), a, b);
      MergedReadsFilling(l, r, equi, val, a, b);
  }

  function FilledCross(val: Filling, parts: seq<Part>, n: nat): Row
    requires 0 < n <= |parts|
  {
    if n == 1 then FilledRow(val, parts[0].plan)
    else Merge()(FilledCross(val, parts, n - 1), FilledRow(val, parts[n - 1].plan))
  }

  ghost predicate CrossReads(row: Row, val: Filling, parts: seq<Part>, n: nat)
    requires n <= |parts|
  {
    forall i :: 0 <= i < n ==> Reads(row, val, parts[i].plan)
  }

  lemma CrossReadsOn(l: Row, r: Row, val: Filling, parts: seq<Part>, n: nat)
    requires PartsBound(parts) && 0 < n < |parts| && WithinIds(l, IdsUpTo(parts, n)) && WithinIds(r, parts[n].ids)
    requires CrossReads(l, val, parts, n) && Reads(r, val, parts[n].plan)
    ensures CrossReads(Merge()(l, r), val, parts, n + 1)
  {
    var lower, upper := IdsUpTo(parts, n), parts[n].ids;
    forall id | id in lower ensures id !in upper { LaterIdsApart(parts, n, id); }
    forall i, ref | 0 <= i <= n && Resolves(parts[i].plan, ref) ensures RowEnv(l + r)(ref) == Fill(val, ref) {
      MergedReads(l, r, lower, upper, ref);
      ResolvesWithinIds(parts[i].plan, ref);
      if i < n {
        IdsUpToMember(parts, n, ref.tableId);
        assert Reads(l, val, parts[i].plan);
      }
    }
  }

  ghost predicate ItemsUnfiltered(parts: seq<Part>) { forall i :: 0 <= i < |parts| ==> Unfiltered(parts[i].plan) }

  lemma {:induction false} InnerMember(parts: seq<Part>, n: nat, i: nat, pair: EquiPair)
    requires i < n <= |parts| && pair in Inner(parts[i].plan)
    ensures pair in InnerUpTo(parts, n)
  {
    if i < n - 1 { InnerMember(parts, n - 1, i, pair); }
  }

  lemma FilledPart(w: World, val: Filling, parts: seq<Part>, i: nat)
    requires PartsBound(parts) && ItemsScoped(w, parts) && ItemsUnfiltered(parts) && i < |parts|
    requires FillsAgree(val, InnerUpTo(parts, |parts|))
    ensures var v := FilledWorld(w, IdsUpTo(parts, |parts|), val);
      FilledRow(val, parts[i].plan) in Denote(v, parts[i].plan) &&
        Reads(FilledRow(val, parts[i].plan), val, parts[i].plan)
  {
    var ids := IdsUpTo(parts, |parts|);
    forall id | id in parts[i].ids ensures id in ids { IdsUpToMember(parts, |parts|, id); }
    forall pair | pair in Inner(parts[i].plan) ensures pair in InnerUpTo(parts, |parts|) {
      InnerMember(parts, |parts|, i, pair);
    }
    FilledItem(w, ids, val, parts[i].plan);
  }

  lemma ProductOn(v: World, val: Filling, parts: seq<Part>, n: nat, l: Row, r: Row)
    requires PartsBound(parts) && 0 < n < |parts|
    requires l in Cross(v, parts, n) && r in Denote(v, parts[n].plan)
    requires CrossReads(l, val, parts, n) && Reads(r, val, parts[n].plan)
    ensures Merge()(l, r) in Cross(v, parts, n + 1) && CrossReads(Merge()(l, r), val, parts, n + 1)
  {
    NestedLoopHas(Cross(v, parts, n), Denote(v, parts[n].plan), Always(), Merge(), l, r);
    CrossRowsWithin(v, parts, n);
    CrossReadsOn(l, r, val, parts, n);
  }

  ghost predicate ItemsFilled(v: World, val: Filling, parts: seq<Part>)
    requires PartsBound(parts)
  {
    forall i :: 0 <= i < |parts| ==>
      FilledRow(val, parts[i].plan) in Denote(v, parts[i].plan) &&
        Reads(FilledRow(val, parts[i].plan), val, parts[i].plan)
  }

  /** The product has the row that reads the filling everywhere. */
  lemma {:induction false} FilledProduct(v: World, val: Filling, parts: seq<Part>, n: nat)
    requires PartsBound(parts) && ItemsFilled(v, val, parts) && 0 < n <= |parts|
    ensures FilledCross(val, parts, n) in Cross(v, parts, n) && CrossReads(FilledCross(val, parts, n), val, parts, n)
  {
    if n > 1 {
      FilledProduct(v, val, parts, n - 1);
      ProductOn(v, val, parts, n - 1, FilledCross(val, parts, n - 1), FilledRow(val, parts[n - 1].plan));
    }
  }

  // ----- exactly which equalities are told -----

  ghost predicate Refuted(w: World, parts: seq<Part>, conjuncts: seq<Expr>)
    requires BindsTo(parts, conjuncts)
  {
    exists v :: SameSchema(v, w) && RowsTyped(v) && !MeansWhere(v, parts, conjuncts)
  }

  lemma ReadsRef(row: Row, val: Filling, parts: seq<Part>, ref: ColumnRef)
    requires CrossReads(row, val, parts, |parts|) && RefResolves(parts, ref)
    ensures RowEnv(row)(ref) == Fill(val, ref)
  {
    var i: nat :| i < |parts| && Resolves(parts[i].plan, ref);
    assert Reads(row, val, parts[i].plan);
  }

  /** A row of the product with equal keys in the kept columns that fails an equality. */
  lemma RefutingRow(v: World, val: Filling, parts: seq<Part>, eqs: seq<Expr>, row: Row, e: Expr)
    requires BindsTo(parts, eqs) && Equalities(parts, eqs) == eqs && EqualitiesResolve(parts, eqs)
    requires row in Cross(v, parts, |parts|) && CrossReads(row, val, parts, |parts|)
    requires FillsAgree(val, Kept(parts, eqs))
    requires e in eqs && IsColumnEquality(e) && !SameValue(v.fpu, Fill(val, e.left.ref), Fill(val, e.right.ref))
    ensures !MeansWhere(v, parts, eqs)
  {
    forall pair | pair in Kept(parts, eqs) ensures JoinsRow(pair, row) {
      var kept := KeptAreEqualities(parts, eqs, pair);
      ReadsRef(row, val, parts, pair.0);
      ReadsRef(row, val, parts, pair.1);
    }
    ReadsRef(row, val, parts, e.left.ref);
    ReadsRef(row, val, parts, e.right.ref);
    EqualityEval(v.fpu, e, row);
    assert !KeptTell(v.fpu, parts, eqs, row);
    forall c | c in Residue(parts, eqs) ensures false {
      FilterMember(eqs, Residual(parts), c);
      FilterMember(eqs, Connecting(parts), c);
    }
    FromClauseMeans(v, parts, eqs);
  }

  /** Everything zero, and every string empty. */
  function Zeros(): Filling { (c: Column, ty: TypeId) => ZeroCell(ty) }

  const NAN_BITS: Float32 := 0x7FC0_0000

  /** Every number the bits of a NaN. */
  function NaNs(): Filling {
    (c: Column, ty: TypeId) =>
      match ty case Integer => IntD(NAN_BITS) case Float => FloatD(NAN_BITS) case Varchar => StrD([])
  }

  /** Ones in the columns whose equality with `c` follows, zeros in all others. */
  function Coloured(pairs: seq<EquiPair>, c: Column): Filling {
    (d: Column, ty: TypeId) =>
      if RepOf(pairs, d) != RepOf(pairs, c) then ZeroCell(ty)
      else match ty case Integer => IntD(1) case Float => FloatD(1) case Varchar => StrD([1])
  }

  lemma ZerosAgree(a: TypeId, b: TypeId)
    ensures KeyEqual(ZeroCell(a), ZeroCell(b))
  {
    ZeroCellBytes(a);
    ZeroCellBytes(b);
  }

  lemma ColoursAgree(pairs: seq<EquiPair>, c: Column)
    requires AllAlike(pairs)
    ensures FillsAgree(Coloured(pairs, c), pairs)
  {
    forall pair | pair in pairs
      ensures KeyEqual(Fill(Coloured(pairs, c), pair.0), Fill(Coloured(pairs, c), pair.1))
    {
      ListedFollow(pairs, pair);
      assert Alike(pair);
      ZerosAgree(pair.0.ty, pair.1.ty);
    }
  }

  lemma NaNsAgree(pairs: seq<EquiPair>)
    requires AllAlike(pairs)
    ensures FillsAgree(NaNs(), pairs)
  {
    forall pair | pair in pairs ensures KeyEqual(Fill(NaNs(), pair.0), Fill(NaNs(), pair.1)) { assert Alike(pair); }
  }

  /** The filling has equal keys at all `pairs`, but not equal values at `e`. */
  ghost predicate Separates(fpu: FloatUnit, val: Filling, pairs: seq<EquiPair>, e: Expr) {
    && FillsTyped(val) && FillsAgree(val, pairs)
    && IsColumnEquality(e) && !SameValue(fpu, Fill(val, e.left.ref), Fill(val, e.right.ref))
  }

  /** A number compared with a string: both keys are zeros. */
  lemma ZerosSeparate(fpu: FloatUnit, pairs: seq<EquiPair>, e: Expr)
    requires IsColumnEquality(e) && !Alike(PairOf(e))
    ensures Separates(fpu, Zeros(), pairs, e)
  {
    forall pair | pair in pairs ensures KeyEqual(Fill(Zeros(), pair.0), Fill(Zeros(), pair.1)) {
      ZerosAgree(pair.0.ty, pair.1.ty);
    }
  }

  /** A FLOAT compared with a number: the keys are those of a NaN. */
  lemma NaNsSeparate(fpu: FloatUnit, pairs: seq<EquiPair>, e: Expr)
    requires AllAlike(pairs) && IsColumnEquality(e) && Alike(PairOf(e))
    requires e.left.ref.ty == Float || e.right.ref.ty == Float
    ensures Separates(fpu, NaNs(), pairs, e)
  {
    NaNsAgree(pairs);
  }

  /** An equality that does not follow: its columns get two colours. */
  lemma ColoursSeparate(fpu: FloatUnit, pairs: seq<EquiPair>, e: Expr)
    requires AllAlike(pairs) && IsColumnEquality(e) && !Follows(pairs, PairOf(e))
    requires e.left.ref.ty == e.right.ref.ty && e.left.ref.ty != Float
    ensures Separates(fpu, Coloured(pairs, ColOf(e.left.ref)), pairs, e)
  {
    ColoursAgree(pairs, ColOf(e.left.ref));
  }

  lemma SeparatingFilling(fpu: FloatUnit, pairs: seq<EquiPair>, eqs: seq<Expr>) returns (val: Filling, e: Expr)
    requires !Tells(pairs, eqs)
    requires forall pair :: pair in pairs ==>
      Alike(pair) || exists e :: e in eqs && IsColumnEquality(e) && PairOf(e) == pair
    ensures e in eqs && Separates(fpu, val, pairs, e)
  {
    if d :| d in eqs && IsColumnEquality(d) && !Alike(PairOf(d)) {
      ZerosSeparate(fpu, pairs, d);
      return Zeros(), d;
    }
    e :| e in eqs && IsColumnEquality(e) && !ToldBy(pairs, PairOf(e));
    if e.left.ref.ty == Float || e.right.ref.ty == Float {
      NaNsSeparate(fpu, pairs, e);
      val := NaNs();
    } else {
      ColoursSeparate(fpu, pairs, e);
      val := Coloured(pairs, ColOf(e.left.ref));
    }
  }

  lemma FillingRefutes(w: World, parts: seq<Part>, eqs: seq<Expr>, val: Filling, e: Expr)
    requires BindsTo(parts, eqs) && Items(w, parts) && ItemsUnfiltered(parts)
    requires Equalities(parts, eqs) == eqs && EqualitiesResolve(parts, eqs)
    requires e in eqs && Separates(w.fpu, val, InForce(parts, eqs), e)
    ensures Refuted(w, parts, eqs)
  {
    var v := FilledWorld(w, IdsUpTo(parts, |parts|), val);
    FilledSchema(w, IdsUpTo(parts, |parts|), val);
    FilledTyped(w, IdsUpTo(parts, |parts|), val);
    forall i | 0 <= i < |parts|
      ensures FilledRow(val, parts[i].plan) in Denote(v, parts[i].plan) &&
        Reads(FilledRow(val, parts[i].plan), val, parts[i].plan)
    {
      FilledPart(w, val, parts, i);
    }
    FilledProduct(v, val, parts, |parts|);
    RefutingRow(v, val, parts, eqs, FilledCross(val, parts, |parts|), e);
  }

  lemma UntoldRefuted(w: World, parts: seq<Part>, eqs: seq<Expr>)
    requires BindsTo(parts, eqs) && Items(w, parts) && ItemsUnfiltered(parts)
    requires Equalities(parts, eqs) == eqs && EqualitiesResolve(parts, eqs) && !Told(parts, eqs)
    ensures Refuted(w, parts, eqs)
  {
    var pairs := InForce(parts, eqs);
    forall pair | pair in pairs
      ensures Alike(pair) || exists e :: e in eqs && IsColumnEquality(e) && PairOf(e) == pair
    {
      if pair in Kept(parts, eqs) { var e := KeptAreEqualities(parts, eqs, pair); }
    }
    var val, e := SeparatingFilling(w.fpu, pairs, eqs);
    FillingRefutes(w, parts, eqs, val, e);
  }

  lemma EqualitiesAlone(parts: seq<Part>, conjuncts: seq<Expr>)
    requires BindsTo(parts, conjuncts)
    ensures var eqs := Equalities(parts, conjuncts);
      && Equalities(parts, eqs) == eqs && BindsTo(parts, eqs) && Links(parts, eqs) == Links(parts, conjuncts)
  {
    var eqs := Equalities(parts, conjuncts);
    FilterMembers(conjuncts, Connecting(parts));
    FilterAll(eqs, Connecting(parts));
  }

  ghost predicate SameEqualities(parts: seq<Part>, more: seq<Expr>, conjuncts: seq<Expr>) {
    BindsTo(parts, more) && Equalities(parts, more) == Equalities(parts, conjuncts)
  }

  /** The bound FROM clause means its WHERE clause on all tables of these types,
      whatever else the WHERE clause asks, if and only if every equality between
      two FROM items compares two INTEGER or two VARCHAR columns and follows from
      the equalities kept and the ON equalities. */
  lemma MeansWhereIff(w: World, parts: seq<Part>, conjuncts: seq<Expr>)
    requires BindsTo(parts, conjuncts) && Items(w, parts) && ItemsUnfiltered(parts)
    requires EqualitiesResolve(parts, Equalities(parts, conjuncts))
    ensures Told(parts, conjuncts) <==>
      forall v, more :: SameSchema(v, w) && RowsTyped(v) && SameEqualities(parts, more, conjuncts) ==>
        MeansWhere(v, parts, more)
  {
    var eqs := Equalities(parts, conjuncts);
    EqualitiesAlone(parts, conjuncts);
    if Told(parts, conjuncts) {
      forall v, more | SameSchema(v, w) && RowsTyped(v) && SameEqualities(parts, more, conjuncts)
        ensures MeansWhere(v, parts, more)
      {
        forall i | 0 <= i < |parts| ensures Scoped(v, parts[i].plan) { SchemaScopes(v, w, parts[i].plan); }
        assert Links(parts, more) == Links(parts, conjuncts);
        ToldMeansWhere(v, parts, more);
      }
    } else {
      UntoldRefuted(w, parts, eqs);
    }
  }
}
