/** Comma joins: the FROM items of a SELECT are joined by the equalities that
    the WHERE clause states between them, tracked with a union-find. */
module Binder {
  import opened Seqs
  import opened Types
  import opened Expressions
  import opened LogicalPlan

  // ----- union-find -----

  /** Parent links form a forest: `rep` names each element's root and `rank`
      grows along the links, so following them ends. */
  ghost predicate Forest(p: seq<nat>, rep: seq<nat>, rank: seq<nat>) {
    && |p| == |rep| == |rank|
    && (forall x :: 0 <= x < |p| ==> p[x] < |p| && rep[x] < |p|)
    && (forall x :: 0 <= x < |p| ==> p[rep[x]] == rep[x] && rep[p[x]] == rep[x])
    && (forall x :: 0 <= x < |p| ==> if p[x] == x then rep[x] == x else rank[x] < rank[p[x]])
  }

  lemma HalvingKeeps(p: seq<nat>, rep: seq<nat>, rank: seq<nat>, x: nat)
    requires Forest(p, rep, rank) && x < |p| && p[x] != x
    ensures Forest(p[x := p[p[x]]], rep, rank) && rank[x] < rank[p[p[x]]]
  {
    var y := p[x];
    assert rank[x] < rank[y] && (p[y] != y ==> rank[y] < rank[p[y]]);
    assert rep[p[y]] == rep[y] && rep[y] == rep[x];
    forall z | 0 <= z < |p| ensures rep[z] != x { assert p[rep[z]] == rep[z]; }
  }

  /** The representatives after the class of `a` has been given to `b`'s. */
  function Merged(rep: seq<nat>, ra: nat, rb: nat): seq<nat> {
    Map(rep, (r: nat) => if r == ra then rb else r)
  }

  function Lifted(rank: seq<nat>, rep: seq<nat>, rb: nat, lift: nat): seq<nat>
    requires |rank| == |rep|
  {
    seq(|rank|, x requires 0 <= x < |rank| => if rep[x] == rb then rank[x] + lift else rank[x])
  }

  predicate RepOk(p: seq<nat>, rep: seq<nat>, x: nat) {
    && x < |p| == |rep| && p[x] < |p| && rep[x] < |p|
    && p[rep[x]] == rep[x] && rep[p[x]] == rep[x] && (p[x] == x ==> rep[x] == x)
  }

  predicate RankOk(p: seq<nat>, rank: seq<nat>, top: nat, x: nat) {
    x < |p| == |rank| && p[x] < |p| && rank[x] <= top && (p[x] != x ==> rank[x] < rank[p[x]])
  }

  /** Both roots' elements agree on the new representative. */
  lemma LinkReps(p: seq<nat>, rep: seq<nat>, rank: seq<nat>, ra: nat, rb: nat, x: nat)
    requires Forest(p, rep, rank) && ra < |p| && rb < |p| && p[ra] == ra && p[rb] == rb && ra != rb && x < |p|
    ensures RepOk(p[ra := rb], Merged(rep, ra, rb), x)
  {
    assert rep[ra] == ra && rep[rb] == rb;
    assert p[rep[x]] == rep[x] && rep[p[x]] == rep[x];
  }

  lemma LinkRanks(p: seq<nat>, rep: seq<nat>, rank: seq<nat>, top: nat, ra: nat, rb: nat, x: nat)
    requires Forest(p, rep, rank) && ra < |p| && rb < |p| && p[ra] == ra && p[rb] == rb && ra != rb && x < |p|
    requires rank[ra] <= top && rank[x] <= top
    ensures RankOk(p[ra := rb], Lifted(rank, rep, rb, top + 1), top + top + 1, x)
  {
    assert rep[ra] == ra && rep[rb] == rb && rep[p[x]] == rep[x];
  }

  lemma LinkKeeps(p: seq<nat>, rep: seq<nat>, rank: seq<nat>, top: nat, ra: nat, rb: nat, p': seq<nat>, rep': seq<nat>,
                  rank': seq<nat>)
    requires Forest(p, rep, rank) && ra < |p| && rb < |p| && p[ra] == ra && p[rb] == rb && ra != rb
    requires forall x :: 0 <= x < |rank| ==> rank[x] <= top
    requires p' == p[ra := rb] && rep' == Merged(rep, ra, rb) && rank' == Lifted(rank, rep, rb, top + 1)
    ensures Forest(p', rep', rank')
    ensures forall x :: 0 <= x < |rank'| ==> rank'[x] <= top + top + 1
  {
    forall x: nat | x < |p| ensures RepOk(p', rep', x) && RankOk(p', rank', top + top + 1, x) {
      LinkReps(p, rep, rank, ra, rb, x);
      LinkRanks(p, rep, rank, top, ra, rb, x);
    }
    NodesMakeForest(p', rep', rank', top + top + 1);
  }

  lemma NodesMakeForest(p: seq<nat>, rep: seq<nat>, rank: seq<nat>, top: nat)
    requires |p| == |rep| == |rank|
    requires forall x: nat :: x < |p| ==> RepOk(p, rep, x) && RankOk(p, rank, top, x)
    ensures Forest(p, rep, rank) && forall x :: 0 <= x < |rank| ==> rank[x] <= top
  {
    forall x: nat | x < |p|
      ensures p[x] < |p| && rep[x] < |p| && p[rep[x]] == rep[x] && rep[p[x]] == rep[x] && (p[x] == x ==> rep[x] == x)
      ensures rank[x] <= top && (p[x] != x ==> rank[x] < rank[p[x]])
    {
      assert RepOk(p, rep, x) && RankOk(p, rank, top, x);
    }
  }

  class DisjointSet {
    const parent: array<nat>
    ghost var rep: seq<nat>
    ghost var rank: seq<nat>
    ghost var top: nat

    ghost predicate Valid()
      reads this, parent
    {
      Forest(parent[..], rep, rank) && forall x :: 0 <= x < |rank| ==> rank[x] <= top
    }

    constructor (n: nat)
      ensures Valid() && fresh(parent) && rep == seq(n, i => i)
    {
      parent := new nat[n](i => i);
      rep, rank, top := seq(n, i => i), seq(n, _ => 0), 0;
      new;
      assert parent[..] == rep;
    }

    /** Path halving ends at the representative and changes nobody's. */
    method Find(x: nat) returns (r: nat)
      requires Valid() && x < parent.Length
      modifies parent
      ensures Valid() && r == rep[x] && r < parent.Length && parent[r] == r
    {
      r := x;
      while parent[r] != r
        invariant Valid() && r < parent.Length && rep[r] == rep[x]
        decreases top - rank[r]
      {
        ghost var before := parent[..];
        HalvingKeeps(before, rep, rank, r);
        parent[r] := parent[parent[r]];
        assert parent[..] == before[r := before[before[r]]];
        r := parent[r];
      }
    }

    /** Exactly the two classes are merged. */
    method Union(a: nat, b: nat)
      requires Valid() && a < parent.Length && b < parent.Length
      modifies this, parent
      ensures Valid() && rep == Merged(old(rep), old(rep)[a], old(rep)[b])
    {
      var rb := Find(b);
      var ra := Find(a);
      assert parent[..][rep[b]] == rep[b];
      Link(ra, rb);
    }

    method Link(ra: nat, rb: nat)
      requires Valid() && ra < parent.Length && rb < parent.Length && parent[ra] == ra && parent[rb] == rb
      modifies this, parent
      ensures Valid() && rep == Merged(old(rep), ra, rb)
    {
      if ra == rb {
        LinkToSelf(ra);
      } else {
        LinkRoots(ra, rb);
      }
    }

    method LinkRoots(ra: nat, rb: nat)
      requires Valid() && ra < parent.Length && rb < parent.Length && ra != rb
      requires parent[ra] == ra && parent[rb] == rb
      modifies this, parent
      ensures Valid() && rep == Merged(old(rep), ra, rb)
    {
      ghost var before, after := parent[..], parent[..][ra := rb];
      ghost var rep', rank' := Merged(rep, ra, rb), Lifted(rank, rep, rb, top + 1);
      LinkKeeps(before, rep, rank, top, ra, rb, after, rep', rank');
      parent[ra] := rb;
      rep, rank, top := rep', rank', top + top + 1;
      assert parent[..] == after;
    }

    /** A root linked to itself: nothing changes. */
    method LinkToSelf(r: nat)
      requires Valid() && r < parent.Length && parent[r] == r
      modifies parent
      ensures Valid() && rep == Merged(rep, r, r)
    {
      ghost var before := parent[..];
      parent[r] := r;
      assert parent[..] == before;
    }
  }

  /** What Merged means for classes: two elements are together afterwards
      exactly when they were before, or each was with one of the two. */
  lemma MergedClasses(rep: seq<nat>, a: nat, b: nat, x: nat, y: nat)
    requires a < |rep| && b < |rep| && x < |rep| && y < |rep|
    ensures var rep' := Merged(rep, rep[a], rep[b]);
      rep'[x] == rep'[y] <==>
        (rep[x] == rep[y] || (rep[x] == rep[a] && rep[y] == rep[b]) || (rep[x] == rep[b] && rep[y] == rep[a]))
  {
  }

  // ----- the FROM items and the WHERE conjuncts -----

  /** One FROM item: its plan and the binding ids below it. */
  datatype Part = Part(plan: Plan, ids: seq<nat>)

  /** An equality between columns of two different parts. */
  datatype Link = Link(a: nat, b: nat, pair: EquiPair)

  predicate IsColumnEquality(e: Expr) { e.Binary? && e.op.Equal? && e.left.Col? && e.right.Col? }

  /** The first part that holds the id; None is the binder's internal error. */
  function PartIndex(parts: seq<Part>, id: nat): (r: Option<nat>)
    ensures r.Some? ==> r.value < |parts| && id in parts[r.value].ids && forall j :: 0 <= j < r.value ==>
      id !in parts[j].ids
    ensures r.None? <==> forall j :: 0 <= j < |parts| ==> id !in parts[j].ids
  {
    PartFrom(parts, id, 0)
  }

  function PartFrom(parts: seq<Part>, id: nat, i: nat): (r: Option<nat>)
    requires i <= |parts| && forall j :: 0 <= j < i ==> id !in parts[j].ids
    ensures r.Some? ==> r.value < |parts| && id in parts[r.value].ids && forall j :: 0 <= j < r.value ==>
      id !in parts[j].ids
    ensures r.None? <==> forall j :: 0 <= j < |parts| ==> id !in parts[j].ids
    decreases |parts| - i
  {
    if i == |parts| then None
    else if id in parts[i].ids then Some(i)
    else PartFrom(parts, id, i + 1)
  }

  predicate Bound(parts: seq<Part>, e: Expr) {
    IsColumnEquality(e) ==> PartIndex(parts, e.left.ref.tableId).Some? && PartIndex(parts, e.right.ref.tableId).Some?
  }

  predicate Connects(parts: seq<Part>, e: Expr) {
    IsColumnEquality(e) && PartIndex(parts, e.left.ref.tableId) != PartIndex(parts, e.right.ref.tableId)
  }

  function Connecting(parts: seq<Part>): Expr -> bool { (e: Expr) => Connects(parts, e) }
  function Residual(parts: seq<Part>): Expr -> bool { (e: Expr) => !Connects(parts, e) }

  function LinkOf(parts: seq<Part>): Expr -> Link {
    (e: Expr) =>
      if Connects(parts, e) && Bound(parts, e)
      then Link(PartIndex(parts, e.left.ref.tableId).value, PartIndex(parts, e.right.ref.tableId).value,
        (e.left.ref, e.right.ref))
      else Link(0, 0, (ColumnRef(0, 0, Integer), ColumnRef(0, 0, Integer)))
  }

  /** The cross-part equalities, in WHERE order. */
  function Links(parts: seq<Part>, conjuncts: seq<Expr>): seq<Link> {
    Map(Filter(conjuncts, Connecting(parts)), LinkOf(parts))
  }

  predicate AllBound(parts: seq<Part>, conjuncts: seq<Expr>) { forall e :: e in conjuncts ==> Bound(parts, e) }

  /** What one more conjunct adds to either list. */
  lemma SplitNext(parts: seq<Part>, conjuncts: seq<Expr>, i: nat)
    requires i < |conjuncts|
    ensures AllBound(parts, conjuncts[..i + 1]) <==> AllBound(parts, conjuncts[..i]) && Bound(parts, conjuncts[i])
    ensures Filter(conjuncts[..i + 1], Residual(parts)) ==
      Filter(conjuncts[..i], Residual(parts)) + if Connects(parts, conjuncts[i]) then [] else [conjuncts[i]]
    ensures Links(parts, conjuncts[..i + 1]) ==
      Links(parts, conjuncts[..i]) + if Connects(parts, conjuncts[i]) then [LinkOf(parts)(conjuncts[i])] else []
  {
    var e := conjuncts[i];
    assert conjuncts[..i + 1] == conjuncts[..i] + [e];
    FilterSnoc(conjuncts[..i], e, Residual(parts));
    FilterSnoc(conjuncts[..i], e, Connecting(parts));
    MapSnoc(Filter(conjuncts[..i], Connecting(parts)), e, LinkOf(parts));
  }

  method SplitWhere(parts: seq<Part>, conjuncts: seq<Expr>) returns (r: Option<(seq<Expr>, seq<Link>)>)
    ensures r.Some? <==> AllBound(parts, conjuncts)
    ensures r.Some? ==> r.value == (Filter(conjuncts, Residual(parts)), Links(parts, conjuncts))
  {
    var remaining: seq<Expr>, links: seq<Link> := [], [];
    for i := 0 to |conjuncts|
      invariant AllBound(parts, conjuncts[..i])
      invariant remaining == Filter(conjuncts[..i], Residual(parts)) && links == Links(parts, conjuncts[..i])
    {
      var e := conjuncts[i];
      SplitNext(parts, conjuncts, i);
      var connects := false;
      if IsColumnEquality(e) {
        var a, b := PartIndex(parts, e.left.ref.tableId), PartIndex(parts, e.right.ref.tableId);
        if a.None? || b.None? {
          return None;
        }
        if a != b {
          links := links + [Link(a.value, b.value, (e.left.ref, e.right.ref))];
          connects := true;
        }
      }
      if !connects {
        remaining := remaining + [e];
      }
    }
    assert conjuncts[..|conjuncts|] == conjuncts;
    r := Some((remaining, links));
  }

  // ----- joining the parts -----

  /** The link joins part `i` to the parts before it. */
  predicate Reaches(l: Link, i: nat) { (l.a < i && l.b == i) || (l.b < i && l.a == i) }

  /** The first link that reaches part `i`. */
  function FirstReaching(links: seq<Link>, i: nat): (k: Option<nat>)
    ensures k.Some? ==> k.value < |links| && Reaches(links[k.value], i) && forall j :: 0 <= j < k.value ==>
      !Reaches(links[j], i)
    ensures k.None? <==> forall j :: 0 <= j < |links| ==> !Reaches(links[j], i)
  {
    if links == [] then None
    else
      var init := links[..|links| - 1];
      var before := FirstReaching(init, i);
      if before.Some? then assert links[before.value] == init[before.value]; before
      else if Reaches(links[|links| - 1], i) then Some(|links| - 1)
      else None
  }

  /** Every part after the first is tied to one before it. */
  predicate AllReachable(links: seq<Link>, n: nat) { forall i :: 1 <= i < n ==> FirstReaching(links, i).Some? }

  /** The first `n` parts, each joined on the first equality that reaches it. */
  function Joined(parts: seq<Part>, links: seq<Link>, n: nat): Plan
    requires 0 < n <= |parts| && AllReachable(links, n)
  {
    if n == 1 then parts[0].plan
    else JoinNode(Joined(parts, links, n - 1), parts[n - 1].plan, [links[FirstReaching(links, n - 1).value].pair])
  }

  predicate LinksIn(links: seq<Link>, n: nat) {
    forall k :: 0 <= k < |links| ==> links[k].a < n && links[k].b < n && links[k].a != links[k].b
  }

  /** Parts below `i` are in the class of part 0, the others alone. */
  ghost predicate Grown(rep: seq<nat>, i: nat) {
    && (forall x :: 0 <= x < |rep| && x < i ==> rep[x] == rep[0] && rep[x] < i)
    && (forall x :: i <= x < |rep| ==> rep[x] == x)
  }

  lemma GrowOne(rep: seq<nat>, i: nat)
    requires 0 < i < |rep| && Grown(rep, i)
    ensures Grown(Merged(rep, rep[i], rep[0]), i + 1)
  {
  }

  /** Find(x) == Find(combined_root). */
  method Together(groups: DisjointSet, x: nat, ghost i: nat) returns (same: bool)
    requires groups.Valid() && x < |groups.rep| && 0 < i && Grown(groups.rep, i)
    modifies groups.parent
    ensures groups.Valid() && same == (x < i)
  {
    var rx := groups.Find(x);
    var root := groups.Find(0);
    same := rx == root;
  }

  method Absorb(groups: DisjointSet, i: nat)
    requires groups.Valid() && 0 < i < |groups.rep| && Grown(groups.rep, i)
    modifies groups, groups.parent
    ensures groups.Valid() && |groups.rep| == old(|groups.rep|) && Grown(groups.rep, i + 1)
  {
    GrowOne(groups.rep, i);
    groups.Union(i, 0);
  }

  lemma FirstReachingAt(links: seq<Link>, i: nat, k: nat)
    requires k < |links| && Reaches(links[k], i) && NoneBefore(links, i, k)
    ensures FirstReaching(links, i) == Some(k)
  {
    assert Reaches(links[k], i);
  }

  method TestLink(groups: DisjointSet, l: Link, i: nat) returns (hit: bool)
    requires groups.Valid() && l.a < |groups.rep| && l.b < |groups.rep| && 0 < i && Grown(groups.rep, i)
    modifies groups.parent
    ensures groups.Valid() && hit == Reaches(l, i)
  {
    var a := Together(groups, l.a, i);
    if a && l.b == i {
      return true;
    }
    var b := Together(groups, l.b, i);
    hit := b && l.a == i;
  }

  /** The first equality between part `i` and the class of part 0. */
  method FindLink(groups: DisjointSet, links: seq<Link>, i: nat) returns (k: Option<nat>)
    requires groups.Valid() && LinksIn(links, |groups.rep|) && 0 < i < |groups.rep| && Grown(groups.rep, i)
    modifies groups.parent
    ensures groups.Valid() && k == FirstReaching(links, i)
  {
    var n := FirstHit(groups, links, i);
    if n < |links| {
      FirstReachingAt(links, i, n);
      return Some(n);
    }
    NoneReaching(links, i);
    k := None;
  }

  method FirstHit(groups: DisjointSet, links: seq<Link>, i: nat) returns (n: nat)
    requires groups.Valid() && LinksIn(links, |groups.rep|) && 0 < i && Grown(groups.rep, i)
    modifies groups.parent
    ensures groups.Valid() && n <= |links| && NoneBefore(links, i, n) && (n < |links| ==> Reaches(links[n], i))
  {
    n := 0;
    while n < |links|
      invariant groups.Valid() && n <= |links| && NoneBefore(links, i, n)
    {
      var hit := TestLink(groups, links[n], i);
      if hit {
        return;
      }
      n := n + 1;
    }
  }

  lemma NoneReaching(links: seq<Link>, i: nat)
    requires NoneBefore(links, i, |links|)
    ensures FirstReaching(links, i) == None
  {
  }

  predicate NoneBefore(links: seq<Link>, i: nat, n: nat) {
    forall j :: 0 <= j < |links| && j < n ==> !Reaches(links[j], i)
  }

  lemma LinksAreIn(parts: seq<Part>, conjuncts: seq<Expr>)
    requires AllBound(parts, conjuncts)
    ensures LinksIn(Links(parts, conjuncts), |parts|)
  {
    FilterMembers(conjuncts, Connecting(parts));
    var connecting := Filter(conjuncts, Connecting(parts));
    forall k | 0 <= k < |connecting| ensures Connects(parts, connecting[k]) && Bound(parts, connecting[k]) {
      assert connecting[k] in connecting;
    }
  }

  /** BindFromClause on bound parts. None is an exception: an unbound column, or
      a part that no equality ties to the parts before it. */
  method BindFromClause(parts: seq<Part>, conjuncts: seq<Expr>) returns (r: Option<(Plan, seq<Expr>)>)
    requires parts != []
    ensures |parts| == 1 ==> r == Some((parts[0].plan, conjuncts))
    ensures |parts| > 1 ==> (r.Some? <==> AllBound(parts, conjuncts) && AllReachable(Links(parts, conjuncts), |parts|))
    ensures |parts| > 1 && r.Some? ==>
      r.value == (Joined(parts, Links(parts, conjuncts), |parts|), Filter(conjuncts, Residual(parts)))
  {
    if |parts| == 1 {
      return Some((parts[0].plan, conjuncts));
    }
    var split :- SplitWhere(parts, conjuncts);
    var links := split.1;
    LinksAreIn(parts, conjuncts);
    var plan :- JoinParts(parts, links);
    r := Some((plan, split.0));
  }

  /** The parts before `i` are in one class, and joined. */
  ghost predicate JoinedSoFar(groups: DisjointSet, parts: seq<Part>, links: seq<Link>, i: nat, combined: Plan)
    requires 0 < i <= |parts|
    reads groups, groups.parent
  {
    && groups.Valid() && |groups.rep| == |parts| && Grown(groups.rep, i)
    && AllReachable(links, i) && combined == Joined(parts, links, i)
  }

  method JoinParts(parts: seq<Part>, links: seq<Link>) returns (r: Option<Plan>)
    requires parts != [] && LinksIn(links, |parts|)
    ensures r.Some? <==> AllReachable(links, |parts|)
    ensures r.Some? ==> r.value == Joined(parts, links, |parts|)
  {
    var groups := new DisjointSet(|parts|);
    var combined := parts[0].plan;
    for i := 1 to |parts|
      invariant fresh(groups) && fresh(groups.parent) && JoinedSoFar(groups, parts, links, i, combined)
    {
      var next := JoinPart(groups, parts, links, i, combined);
      if next.None? {
        return None;
      }
      combined := next.value;
    }
    r := Some(combined);
  }

  /** Joins part `i` to the plan of those before it. */
  method JoinPart(groups: DisjointSet, parts: seq<Part>, links: seq<Link>, i: nat, combined: Plan)
      returns (r: Option<Plan>)
    requires 0 < i < |parts| && LinksIn(links, |parts|) && JoinedSoFar(groups, parts, links, i, combined)
    modifies groups, groups.parent
    ensures r.Some? <==> FirstReaching(links, i).Some?
    ensures r.None? ==> !AllReachable(links, |parts|)
    ensures r.Some? ==> JoinedSoFar(groups, parts, links, i + 1, r.value)
  {
    var k := FindLink(groups, links, i);
    if k.None? {
      return None;
    }
    Absorb(groups, i);
    r := Some(JoinNode(combined, parts[i].plan, [links[k.value].pair]));
  }

  // ----- every conjunct once -----

  /** Which equality joins part `i + 1`. */
  function Used(links: seq<Link>, n: nat): seq<nat>
    requires 0 < n && AllReachable(links, n)
  {
    seq(n - 1, i requires 0 <= i < n - 1 => FirstReaching(links, i + 1).value)
  }

  predicate NoRepeats(s: seq<nat>) { forall i, j :: 0 <= i < j < |s| ==> s[i] != s[j] }

  function SetOf(s: seq<nat>): set<nat> { set x | x in s }

  function Below(n: nat): (s: set<nat>)
    ensures |s| == n && forall x: nat :: x in s <==> x < n
  {
    if n == 0 then {} else Below(n - 1) + {n - 1}
  }

  lemma {:induction false} NoRepeatsSize(s: seq<nat>)
    requires NoRepeats(s)
    ensures |SetOf(s)| == |s|
  {
    if s != [] {
      var init, last := s[..|s| - 1], s[|s| - 1];
      NoRepeatsSize(init);
      SplitLast(s);
      assert SetOf(s) == SetOf(init) + {last};
      assert last !in init;
    }
  }

  lemma SameSizeSubset(a: set<nat>, b: set<nat>)
    requires a <= b && |a| == |b|
    ensures a == b
  {
    assert b == a + (b - a);
  }

  /** No equality joins two parts. */
  lemma UsedOnce(links: seq<Link>, n: nat)
    requires 0 < n && AllReachable(links, n)
    ensures NoRepeats(Used(links, n)) && SetOf(Used(links, n)) <= Below(|links|)
  {
    var used := Used(links, n);
    forall i, j | 0 <= i < j < |used| ensures used[i] != used[j] {
      assert Reaches(links[used[i]], i + 1) && Reaches(links[used[j]], j + 1);
    }
  }

  /** Every cross-part equality becomes a join condition exactly when there is
      one for each part after the first; any further one is dropped. */
  lemma EveryEqualityUsedIff(links: seq<Link>, n: nat)
    requires 0 < n && AllReachable(links, n)
    ensures n - 1 <= |links|
    ensures (forall k: nat :: k < |links| ==> k in Used(links, n)) <==> |links| == n - 1
  {
    var used := Used(links, n);
    UsedOnce(links, n);
    NoRepeatsSize(used);
    SubsetSize(SetOf(used), Below(|links|));
    if |links| == n - 1 {
      SameSizeSubset(SetOf(used), Below(|links|));
      forall k: nat | k < |links| ensures k in used { assert k in Below(|links|); }
    }
    if forall k: nat :: k < |links| ==> k in used {
      assert SetOf(used) == Below(|links|);
    }
  }

  lemma SubsetSize(a: set<nat>, b: set<nat>)
    requires a <= b
    ensures |a| <= |b|
  {
    assert b == a + (b - a);
  }

  /** No conjunct is lost or made up by the split. */
  lemma {:induction false} SplitConserves(parts: seq<Part>, conjuncts: seq<Expr>)
    ensures multiset(conjuncts)
         == multiset(Filter(conjuncts, Residual(parts))) + multiset(Filter(conjuncts, Connecting(parts)))
  {
    if conjuncts != [] {
      SplitConserves(parts, conjuncts[..|conjuncts| - 1]);
      SplitLast(conjuncts);
    }
  }

  /** The smallest case of a dropped condition: two tables tied by two
      equalities are joined on the first only, and no filter keeps the second. */
  lemma SecondEqualityIsDropped(p: Plan, q: Plan, x: ColumnRef, y: ColumnRef, z: ColumnRef, w: ColumnRef)
    requires x.tableId == z.tableId == 0 && y.tableId == w.tableId == 1
    ensures var parts := [Part(p, [0]), Part(q, [1])];
      var first, second := Binary(Equal, Col(x), Col(y), IntegerT), Binary(Equal, Col(z), Col(w), IntegerT);
      && Links(parts, [first, second]) == [Link(0, 1, (x, y)), Link(0, 1, (z, w))]
      && Filter([first, second], Residual(parts)) == []
      && AllReachable(Links(parts, [first, second]), 2)
      && Joined(parts, Links(parts, [first, second]), 2) == JoinNode(p, q, [(x, y)])
  {
    var parts := [Part(p, [0]), Part(q, [1])];
    var first, second := Binary(Equal, Col(x), Col(y), IntegerT), Binary(Equal, Col(z), Col(w), IntegerT);
    assert parts[0].ids == [0] && parts[1].ids == [1];
    assert PartIndex(parts, 0) == Some(0) && PartIndex(parts, 1) == Some(1);
    FilterAll([first, second], Connecting(parts));
    FilterNone([first, second], Residual(parts));
    FirstLinkJoins(parts, [Link(0, 1, (x, y)), Link(0, 1, (z, w))]);
  }

  lemma FirstLinkJoins(parts: seq<Part>, links: seq<Link>)
    requires |parts| == 2 && links != [] && Reaches(links[0], 1)
    ensures AllReachable(links, 2) && Joined(parts, links, 2) == JoinNode(parts[0].plan, parts[1].plan, [links[0].pair])
  {
    FirstReachingAt(links, 1, 0);
    assert Joined(parts, links, 1) == parts[0].plan;
  }
}
