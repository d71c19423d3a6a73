/** Column pruning: each scan keeps exactly the ordinals something above it reads. */
module Pruning {
  import opened Seqs
  import opened Expressions
  import opened LogicalPlan

  // ----- std::sort followed by std::unique -----

  function Insert(s: seq<nat>, x: nat): seq<nat> {
    if s == [] then [x]
    else if x < s[0] then [x] + s
    else if x == s[0] then s
    else [s[0]] + Insert(s[1..], x)
  }

  function SortUnique(s: seq<nat>): seq<nat> {
    if s == [] then [] else Insert(SortUnique(s[..|s| - 1]), s[|s| - 1])
  }

  predicate Increasing(s: seq<nat>) {
    forall i, j :: 0 <= i < j < |s| ==> s[i] < s[j]
  }

  lemma {:induction false} InsertMember(s: seq<nat>, x: nat, y: nat)
    ensures y in Insert(s, x) <==> y == x || y in s
  {
    if s != [] && s[0] < x {
      InsertMember(s[1..], x, y);
      assert s == [s[0]] + s[1..];
    }
  }

  lemma {:induction false} InsertIncreasing(s: seq<nat>, x: nat)
    requires Increasing(s)
    ensures Increasing(Insert(s, x))
  {
    if s != [] && s[0] < x {
      InsertIncreasing(s[1..], x);
      var rest := Insert(s[1..], x);
      forall i | 0 <= i < |rest| ensures s[0] < rest[i] {
        InsertMember(s[1..], x, rest[i]);
        assert rest[i] in rest;
      }
    }
  }

  lemma {:induction false} SortUniqueMember(s: seq<nat>, y: nat)
    ensures y in SortUnique(s) <==> y in s
  {
    if s != [] {
      SortUniqueMember(s[..|s| - 1], y);
      InsertMember(SortUnique(s[..|s| - 1]), s[|s| - 1], y);
      SplitLast(s);
    }
  }

  /** Sorted, without duplicates, and the same set. */
  lemma {:induction false} SortUniqueIncreasing(s: seq<nat>)
    ensures Increasing(SortUnique(s))
  {
    if s != [] {
      SortUniqueIncreasing(s[..|s| - 1]);
      InsertIncreasing(SortUnique(s[..|s| - 1]), s[|s| - 1]);
    }
  }

  // ----- requirements flowing down -----

  function OfTable(id: nat): ColumnRef -> bool { (r: ColumnRef) => r.tableId == id }
  function OrdinalOf(): ColumnRef -> nat { (r: ColumnRef) => r.ordinal }
  function InIds(ids: seq<nat>): ColumnRef -> bool { (r: ColumnRef) => r.tableId in ids }
  function InIdsButNot(ids: seq<nat>, other: seq<nat>): ColumnRef -> bool {
    (r: ColumnRef) => r.tableId !in other && r.tableId in ids
  }

  function NeededOrdinals(id: nat, required: seq<ColumnRef>): seq<nat> {
    SortUnique(Map(Filter(required, OfTable(id)), OrdinalOf()))
  }

  function EquiColumns(equi: seq<EquiPair>): seq<ColumnRef> {
    if equi == [] then [] else EquiColumns(equi[..|equi| - 1]) + [equi[|equi| - 1].0, equi[|equi| - 1].1]
  }

  function ArgColumns(aggs: seq<AggCall>): seq<ColumnRef> {
    if aggs == [] then []
    else
      var before, last := ArgColumns(aggs[..|aggs| - 1]), aggs[|aggs| - 1];
      if last.arg.Some? then before + [last.arg.value] else before
  }

  function ExprColumns(exprs: seq<Expr>): seq<ColumnRef> {
    if exprs == [] then [] else ExprColumns(exprs[..|exprs| - 1]) + CollectColumnRefs(exprs[|exprs| - 1])
  }

  function Pruned(p: Plan, required: seq<ColumnRef>): Plan {
    match p
    case ScanNode(id, t, columns, _) => ScanNode(id, t, columns, NeededOrdinals(id, required))
    case FilterNode(i, e) => FilterNode(Pruned(i, required + CollectColumnRefs(e)), e)
    case JoinNode(l, r, equi) =>
      var all := required + EquiColumns(equi);
      var left, right := CollectBindingIds(l), CollectBindingIds(r);
      JoinNode(Pruned(l, Filter(all, InIds(left))), Pruned(r, Filter(all, InIdsButNot(right, left))), equi)
    case AggregateNode(i, groupBy, aggs) => AggregateNode(Pruned(i, groupBy + ArgColumns(aggs)), groupBy, aggs)
    case ProjectNode(i, exprs) => ProjectNode(Pruned(i, ExprColumns(exprs)), exprs)
  }

  // ----- the code: requirement vectors accumulated in loops -----

  method OrdinalsFor(id: nat, required: seq<ColumnRef>) returns (ordinals: seq<nat>)
    ensures ordinals == NeededOrdinals(id, required)
  {
    ordinals := [];
    for i := 0 to |required|
      invariant ordinals == Map(Filter(required[..i], OfTable(id)), OrdinalOf())
    {
      assert required[..i + 1] == required[..i] + [required[i]];
      FilterSnoc(required[..i], required[i], OfTable(id));
      if required[i].tableId == id {
        MapSnoc(Filter(required[..i], OfTable(id)), required[i], OrdinalOf());
        ordinals := ordinals + [required[i].ordinal];
      }
    }
    assert required[..|required|] == required;
    ordinals := SortUnique(ordinals);
  }

  method SplitRequired(all: seq<ColumnRef>, left: seq<nat>, right: seq<nat>)
      returns (forLeft: seq<ColumnRef>, forRight: seq<ColumnRef>)
    ensures forLeft == Filter(all, InIds(left)) && forRight == Filter(all, InIdsButNot(right, left))
  {
    forLeft, forRight := [], [];
    for i := 0 to |all|
      invariant forLeft == Filter(all[..i], InIds(left)) && forRight == Filter(all[..i], InIdsButNot(right, left))
    {
      assert all[..i + 1] == all[..i] + [all[i]];
      FilterSnoc(all[..i], all[i], InIds(left));
      FilterSnoc(all[..i], all[i], InIdsButNot(right, left));
      if all[i].tableId in left {
        forLeft := forLeft + [all[i]];
      } else if all[i].tableId in right {
        forRight := forRight + [all[i]];
      }
    }
    assert all[..|all|] == all;
  }

  method Propagate(node: Plan, requiredFromAbove: seq<ColumnRef>) returns (result: Plan)
    ensures result == Pruned(node, requiredFromAbove)
    decreases node
  {
    match node
    case ScanNode(id, t, columns, _) =>
      var ordinals := OrdinalsFor(id, requiredFromAbove);
      result := ScanNode(id, t, columns, ordinals);
    case FilterNode(i, e) =>
      var input := Propagate(i, requiredFromAbove + CollectColumnRefs(e));
      result := FilterNode(input, e);
    case JoinNode(l, r, equi) =>
      var required := requiredFromAbove;
      for k := 0 to |equi|
        invariant required == requiredFromAbove + EquiColumns(equi[..k])
      {
        assert equi[..k + 1][..k] == equi[..k];
        required := required + [equi[k].0, equi[k].1];
      }
      assert equi[..|equi|] == equi;
      var forLeft, forRight := SplitRequired(required, CollectBindingIds(l), CollectBindingIds(r));
      var left := Propagate(l, forLeft);
      var right := Propagate(r, forRight);
      result := JoinNode(left, right, equi);
    case AggregateNode(i, groupBy, aggs) =>
      var required := groupBy;
      for k := 0 to |aggs|
        invariant required == groupBy + ArgColumns(aggs[..k])
      {
        assert aggs[..k + 1][..k] == aggs[..k];
        if aggs[k].arg.Some? {
          required := required + [aggs[k].arg.value];
        }
      }
      assert aggs[..|aggs|] == aggs;
      var input := Propagate(i, required);
      result := AggregateNode(input, groupBy, aggs);
    case ProjectNode(i, exprs) =>
      var required := [];
      for k := 0 to |exprs|
        invariant required == ExprColumns(exprs[..k])
      {
        assert exprs[..k + 1][..k] == exprs[..k];
        required := required + CollectColumnRefs(exprs[k]);
      }
      assert exprs[..|exprs|] == exprs;
      var input := Propagate(i, required);
      result := ProjectNode(input, exprs);
  }

  // ----- pruning changes no logical row -----

  lemma {:induction false} PrunedKeepsIds(p: Plan, required: seq<ColumnRef>)
    ensures CollectBindingIds(Pruned(p, required)) == CollectBindingIds(p)
  {
    match p
    case ScanNode(_, _, _, _) =>
    case FilterNode(i, e) => PrunedKeepsIds(i, required + CollectColumnRefs(e));
    case JoinNode(l, r, equi) =>
      var all := required + EquiColumns(equi);
      PrunedKeepsIds(l, Filter(all, InIds(CollectBindingIds(l))));
      PrunedKeepsIds(r, Filter(all, InIdsButNot(CollectBindingIds(r), CollectBindingIds(l))));
    case AggregateNode(i, groupBy, aggs) => PrunedKeepsIds(i, groupBy + ArgColumns(aggs));
    case ProjectNode(i, exprs) => PrunedKeepsIds(i, ExprColumns(exprs));
  }

  lemma {:induction false} PrunedDenotes(w: World, p: Plan, required: seq<ColumnRef>)
    requires FromTree(p)
    ensures FromTree(Pruned(p, required)) && Relational(p) && Relational(Pruned(p, required))
    ensures Denote(w, Pruned(p, required)) == Denote(w, p)
  {
    match p
    case ScanNode(_, _, _, _) =>
    case FilterNode(i, e) => PrunedDenotes(w, i, required + CollectColumnRefs(e));
    case JoinNode(l, r, equi) =>
      var all := required + EquiColumns(equi);
      var forLeft := Filter(all, InIds(CollectBindingIds(l)));
      var forRight := Filter(all, InIdsButNot(CollectBindingIds(r), CollectBindingIds(l)));
      PrunedDenotes(w, l, forLeft);
      PrunedDenotes(w, r, forRight);
      PrunedKeepsIds(l, forLeft);
      PrunedKeepsIds(r, forRight);
  }

  lemma {:induction false} EquiColumnsMember(equi: seq<EquiPair>, pair: EquiPair)
    requires pair in equi
    ensures pair.0 in EquiColumns(equi) && pair.1 in EquiColumns(equi)
  {
    SplitLast(equi);
    if pair != equi[|equi| - 1] { EquiColumnsMember(equi[..|equi| - 1], pair); }
  }

  lemma {:induction false} ArgColumnsMember(aggs: seq<AggCall>, call: AggCall)
    requires call in aggs && call.arg.Some?
    ensures call.arg.value in ArgColumns(aggs)
  {
    SplitLast(aggs);
    if call != aggs[|aggs| - 1] { ArgColumnsMember(aggs[..|aggs| - 1], call); }
  }

  lemma {:induction false} ExprColumnsMember(exprs: seq<Expr>, e: Expr, ref: ColumnRef)
    requires e in exprs && ref in CollectColumnRefs(e)
    ensures ref in ExprColumns(exprs)
  {
    SplitLast(exprs);
    if e != exprs[|exprs| - 1] { ExprColumnsMember(exprs[..|exprs| - 1], e, ref); }
  }

  /** A scan keeps an ordinal exactly when someone above asks this table for it. */
  lemma NeededOrdinalsMember(id: nat, required: seq<ColumnRef>, o: nat)
    ensures o in NeededOrdinals(id, required) <==>
      exists ref :: ref in required && ref.tableId == id && ref.ordinal == o
  {
    var mine := Filter(required, OfTable(id));
    var ordinals := Map(mine, OrdinalOf());
    SortUniqueMember(ordinals, o);
    FilterMembers(required, OfTable(id));
    if o in ordinals {
      var i :| 0 <= i < |ordinals| && ordinals[i] == o;
      assert mine[i] in required;
    }
    if ref :| ref in required && ref.tableId == id && ref.ordinal == o {
      assert ref in mine;
      var i :| 0 <= i < |mine| && mine[i] == ref;
      assert ordinals[i] == o;
    }
  }
}
