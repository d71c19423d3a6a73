/** What the aggregate functions report, said without the functions that compute
    it, down to the cells of a group's output row. */
module AggregateMeaning {
  import opened Seqs
  import opened Types
  import opened Orders
  import opened ZoneMaps
  import opened Aggregates

  // ----- one aggregate over the cells of a group -----

  /** The cell is a value of the type. */
  predicate Of(ty: TypeId, d: Datum) { d != Null && HasType(d, ty) }
  function OfType(ty: TypeId): Datum -> bool { (d: Datum) => Of(ty, d) }
  function NotNull(): Datum -> bool { (d: Datum) => d != Null }

  function PlacesWhere(values: seq<Datum>, p: Datum -> bool): set<nat> {
    set i: nat | i < |values| && p(values[i])
  }

  function IntSum(values: seq<Datum>): int {
    if values == [] then 0 else (if values[0].IntD? then values[0].i else 0) + IntSum(values[1..])
  }

  /** The float unit's sum of the FLOAT cells, in row order. */
  function FloatRun(fpu: FloatUnit, sofar: Float64, values: seq<Datum>): Float64
    decreases |values|
  {
    if values == [] then sofar
    else FloatRun(fpu, if values[0].FloatD? then fpu.accumulate(sofar, values[0].f) else sofar, values[1..])
  }

  /** The INTEGER congruent to the count or sum, which is the very number when it fits. */
  predicate Narrows(d: Datum, x: int) { d.IntD? && (d.i - x) % TWO32 == 0 && (-TWO31 <= x < TWO31 ==> d.i == x) }

  ghost predicate IsExtremeInt(max: bool, values: seq<Datum>, d: Datum) {
    && d.IntD? && d in values
    && forall y :: y in values && y.IntD? ==> if max then y.i <= d.i else d.i <= y.i
  }

  ghost predicate IsExtremeStr(max: bool, values: seq<Datum>, d: Datum) {
    && d.StrD? && d in values
    && forall y :: y in values && y.StrD? ==> if max then !Precedes(d.s, y.s) else !Precedes(y.s, d.s)
  }

  predicate FirstFloatAt(values: seq<Datum>, i: nat) {
    i < |values| && values[i].FloatD? && forall j :: 0 <= j < i ==> !values[j].FloatD?
  }

  predicate IsNumberCell(d: Datum) { d.FloatD? && !IsNaN(d.f) }

  /** The number at `i` is extreme, and no number before it is as extreme. */
  predicate ExtremeFloatAt(max: bool, values: seq<Datum>, i: nat) {
    && i < |values| && IsNumberCell(values[i])
    && (forall y :: y in values && IsNumberCell(y) ==>
         if max then Scaled(y.f) <= Scaled(values[i].f) else Scaled(values[i].f) <= Scaled(y.f))
    && (forall j :: 0 <= j < i && IsNumberCell(values[j]) ==>
         if max then Scaled(values[j].f) < Scaled(values[i].f) else Scaled(values[i].f) < Scaled(values[j].f))
  }

  /** If the first FLOAT is a NaN, that one; else the earliest extreme number. */
  ghost predicate IsExtremeFloat(max: bool, values: seq<Datum>, d: Datum) {
    exists i: nat, k: nat :: FirstFloatAt(values, i) &&
      if IsNaN(values[i].f) then d == values[i] else ExtremeFloatAt(max, values, k) && d == values[k]
  }

  /** The type of the cells that SUM and AVG add up. */
  function Addends(ty: TypeId): TypeId { if ty == Integer then Integer else Float }

  /** `d` is what `fn` reports over the cells, for an argument of the type. */
  ghost predicate Reports(fpu: FloatUnit, fn: AggFn, ty: TypeId, values: seq<Datum>, d: Datum) {
    match fn
    case CountStar => Narrows(d, |values|)
    case Count => Narrows(d, |PlacesWhere(values, NotNull())|)
    case Sum =>
      if PlacesWhere(values, OfType(Addends(ty))) == {} then d == Null
      else if ty == Integer then Narrows(d, IntSum(values))
      else d == FloatD(fpu.narrow(FloatRun(fpu, fpu.zero, values)))
    case Avg =>
      var n := |PlacesWhere(values, OfType(Addends(ty)))|;
      if n == 0 then d == Null
      else if ty == Integer then d == FloatD(fpu.intAverage(IntSum(values), n))
      else d == FloatD(fpu.average(FloatRun(fpu, fpu.zero, values), n))
    case _ =>
      if PlacesWhere(values, OfType(ty)) == {} then d == Null
      else
        match ty
        case Integer => IsExtremeInt(fn.Max?, values, d)
        case Float => IsExtremeFloat(fn.Max?, values, d)
        case Varchar => IsExtremeStr(fn.Max?, values, d)
  }

  // ----- counting and adding -----

  lemma {:induction false} PlacesCount(values: seq<Datum>, p: Datum -> bool)
    ensures |PlacesWhere(values, p)| == |Filter(values, p)|
    ensures PlacesWhere(values, p) == {} <==> Filter(values, p) == []
  {
    if values != [] {
      var n: nat := |values| - 1;
      PlacesCount(values[..n], p);
      assert PlacesWhere(values, p) == PlacesWhere(values[..n], p) + (if p(values[n]) then {n} else {});
      assert n !in PlacesWhere(values[..n], p);
    }
  }

  lemma {:induction false} IntSumSnoc(values: seq<Datum>, d: Datum)
    ensures IntSum(values + [d]) == IntSum(values) + if d.IntD? then d.i else 0
  {
    if values != [] {
      IntSumSnoc(values[1..], d);
      assert (values + [d])[1..] == values[1..] + [d];
    }
  }

  lemma {:induction false} IntSumIsTotal(values: seq<Datum>)
    ensures IntSum(values) == Total(Ints(values))
  {
    if values != [] {
      var init, last := values[..|values| - 1], values[|values| - 1];
      SplitLast(values);
      IntSumIsTotal(init);
      IntSumSnoc(init, last);
      IntsSnoc(init, last);
      if last.IntD? { TotalSnoc(Ints(init), last.i); }
    }
  }

  lemma {:induction false} FloatRunSnoc(fpu: FloatUnit, sofar: Float64, values: seq<Datum>, d: Datum)
    ensures FloatRun(fpu, sofar, values + [d]) ==
      var t := FloatRun(fpu, sofar, values); if d.FloatD? then fpu.accumulate(t, d.f) else t
    decreases |values|
  {
    if values != [] {
      var next := if values[0].FloatD? then fpu.accumulate(sofar, values[0].f) else sofar;
      FloatRunSnoc(fpu, next, values[1..], d);
      assert (values + [d])[1..] == values[1..] + [d];
    }
  }

  lemma {:induction false} FloatRunIsTotal(fpu: FloatUnit, values: seq<Datum>)
    ensures FloatRun(fpu, fpu.zero, values) == FloatTotal(fpu, Floats(values))
  {
    if values != [] {
      var init, last := values[..|values| - 1], values[|values| - 1];
      SplitLast(values);
      FloatRunIsTotal(fpu, init);
      FloatRunSnoc(fpu, fpu.zero, init, last);
      FloatsSnoc(init, last);
      if last.FloatD? { FloatTotalSnoc(fpu, Floats(init), last.f); }
    }
  }

  lemma SameFilter(values: seq<Datum>, p: Datum -> bool, q: Datum -> bool)
    requires forall d :: p(d) == q(d)
    ensures Filter(values, p) == Filter(values, q)
  {
    FilterSame(values, p, q);
  }

  /** The values of a type, counted. */
  lemma ValuesCount(values: seq<Datum>)
    ensures |PlacesWhere(values, OfType(Integer))| == |Ints(values)|
    ensures |PlacesWhere(values, OfType(Float))| == |Floats(values)|
    ensures |PlacesWhere(values, OfType(Varchar))| == |Strs(values)|
    ensures forall ty :: PlacesWhere(values, OfType(ty)) == {} <==> |PlacesWhere(values, OfType(ty))| == 0
  {
    PlacesCount(values, OfType(Integer));
    PlacesCount(values, OfType(Float));
    PlacesCount(values, OfType(Varchar));
    SameFilter(values, OfType(Integer), IsInt());
    SameFilter(values, OfType(Float), IsFloat());
    SameFilter(values, OfType(Varchar), IsStr());
  }

  lemma CountReports(fpu: FloatUnit, ty: TypeId, values: seq<Datum>)
    ensures Reports(fpu, CountStar, ty, values, Summarize(fpu, CountStar, ty, values))
    ensures Reports(fpu, Count, ty, values, Summarize(fpu, Count, ty, values))
  {
    PlacesCount(values, NotNull());
    SameFilter(values, NotNull(), IsPresent());
    WrapNarrows(|values|);
    WrapNarrows(|PlacesWhere(values, NotNull())|);
  }

  lemma WrapNarrows(x: int)
    ensures Narrows(IntD(WrapInt32(x)), x)
  {
  }

  lemma IntSumReports(fpu: FloatUnit, fn: AggFn, values: seq<Datum>)
    requires fn.Sum? || fn.Avg?
    ensures Reports(fpu, fn, Integer, values, Summarize(fpu, fn, Integer, values))
  {
    ValuesCount(values);
    IntSumIsTotal(values);
    WrapNarrows(IntSum(values));
  }

  lemma FloatSumReports(fpu: FloatUnit, fn: AggFn, ty: TypeId, values: seq<Datum>)
    requires (fn.Sum? || fn.Avg?) && ty != Integer
    ensures Reports(fpu, fn, ty, values, Summarize(fpu, fn, ty, values))
  {
    ValuesCount(values);
    FloatRunIsTotal(fpu, values);
  }

  // ----- extremes -----

  lemma {:induction false} ValuesMember(values: seq<Datum>)
    ensures forall i :: i in Ints(values) <==> IntD(i) in values
    ensures forall f :: f in Floats(values) <==> FloatD(f) in values
    ensures forall s :: s in Strs(values) <==> StrD(s) in values
  {
    if values != [] {
      var init, last := values[..|values| - 1], values[|values| - 1];
      ValuesMember(init);
      SplitLast(values);
      IntsSnoc(init, last);
      FloatsSnoc(init, last);
      StrsSnoc(init, last);
    }
  }

  lemma IntReports(fpu: FloatUnit, fn: AggFn, values: seq<Datum>)
    requires fn.Min? || fn.Max?
    ensures Reports(fpu, fn, Integer, values, Summarize(fpu, fn, Integer, values))
  {
    ValuesCount(values);
    ValuesMember(values);
    IntExtreme(fpu, fn, values);
  }

  lemma StrReports(fpu: FloatUnit, fn: AggFn, values: seq<Datum>)
    requires fn.Min? || fn.Max?
    ensures Reports(fpu, fn, Varchar, values, Summarize(fpu, fn, Varchar, values))
  {
    ValuesCount(values);
    ValuesMember(values);
    StrExtreme(fpu, fn, values);
    if Strs(values) != [] {
      var d := Summarize(fpu, fn, Varchar, values);
      forall y | y in values && y.StrD? ensures if fn.Max? then !Precedes(d.s, y.s) else !Precedes(y.s, d.s) {
        assert y.s in Strs(values);
      }
    }
  }

  /** A better number than the best so far takes its place. */
  lemma ExtremeSnoc(max: bool, values: seq<Datum>, d: Datum, k: nat)
    requires ExtremeFloatAt(max, values, k)
    ensures var best := values[k];
      if d.FloatD? && (if max then FloatLess(best.f, d.f) else FloatLess(d.f, best.f))
      then ExtremeFloatAt(max, values + [d], |values|) else ExtremeFloatAt(max, values + [d], k)
  {
    var best, more := values[k], values + [d];
    assert best in values;
    if d.FloatD? {
      FloatOrderIsNumeric(best.f, d.f);
      FloatOrderIsNumeric(d.f, best.f);
    }
    forall j | 0 <= j < |values| && IsNumberCell(more[j]) ensures more[j] in values { }
  }

  lemma ExtremeAlone(max: bool, values: seq<Datum>, d: Datum)
    requires IsNumberCell(d) && forall y :: y in values ==> !y.FloatD?
    ensures ExtremeFloatAt(max, values + [d], |values|)
  {
    var more := values + [d];
    forall j | 0 <= j < |values| ensures !IsNumberCell(more[j]) { assert more[j] in values; }
  }

  lemma FirstSnoc(values: seq<Datum>, d: Datum, i: nat)
    requires FirstFloatAt(values, i) || (i == |values| && d.FloatD? && forall y :: y in values ==> !y.FloatD?)
    ensures FirstFloatAt(values + [d], i)
  {
    forall j | 0 <= j < i ensures !(values + [d])[j].FloatD? {
      if i == |values| { assert values[j] in values; }
    }
  }

  lemma ExtremeFloatSnoc(max: bool, values: seq<Datum>, best: Datum, d: Datum)
    requires best.FloatD? && IsExtremeFloat(max, values, best)
    ensures var better := d.FloatD? && (if max then FloatLess(best.f, d.f) else FloatLess(d.f, best.f));
      IsExtremeFloat(max, values + [d], if better then d else best)
  {
    var i: nat, k: nat :| FirstFloatAt(values, i) &&
      if IsNaN(values[i].f) then best == values[i] else ExtremeFloatAt(max, values, k) && best == values[k];
    FirstSnoc(values, d, i);
    assert (values + [d])[i] == values[i];
    if !IsNaN(values[i].f) { ExtremeSnoc(max, values, d, k); }
  }

  lemma ExtremeFloatAlone(max: bool, values: seq<Datum>, d: Datum)
    requires d.FloatD? && forall y :: y in values ==> !y.FloatD?
    ensures IsExtremeFloat(max, values + [d], d)
  {
    FirstSnoc(values, d, |values|);
    if !IsNaN(d.f) { ExtremeAlone(max, values, d); }
  }

  lemma {:induction false} BestIsExtreme(fn: AggFn, values: seq<Datum>)
    requires (fn.Min? || fn.Max?) && Floats(values) != []
    ensures IsExtremeFloat(fn.Max?, values, FloatD(Best(Floats(values), Preferred(fn, FloatOrder()))))
  {
    var init, last := values[..|values| - 1], values[|values| - 1];
    SplitLast(values);
    FloatsSnoc(init, last);
    if Floats(init) == [] {
      ValuesMember(init);
      ExtremeFloatAlone(fn.Max?, init, last);
    } else {
      BestIsExtreme(fn, init);
      ExtremeFloatSnoc(fn.Max?, init, FloatD(Best(Floats(init), Preferred(fn, FloatOrder()))), last);
      if last.FloatD? { BestGrows(fn, Floats(init), last); }
    }
  }

  lemma BestGrows(fn: AggFn, xs: seq<Float32>, d: Datum)
    requires xs != [] && d.FloatD? && (fn.Min? || fn.Max?)
    ensures var best := Best(xs, Preferred(fn, FloatOrder()));
      Best(xs + [d.f], Preferred(fn, FloatOrder())) ==
        if (if fn.Max? then FloatLess(best, d.f) else FloatLess(d.f, best)) then d.f else best
  {
    assert (xs + [d.f])[..|xs|] == xs;
  }

  lemma FloatReports(fpu: FloatUnit, fn: AggFn, values: seq<Datum>)
    requires fn.Min? || fn.Max?
    ensures Reports(fpu, fn, Float, values, Summarize(fpu, fn, Float, values))
  {
    ValuesCount(values);
    if Floats(values) != [] { BestIsExtreme(fn, values); }
  }

  /** Every aggregate reports what its name says. */
  lemma SummarizeReports(fpu: FloatUnit, fn: AggFn, ty: TypeId, values: seq<Datum>)
    ensures Reports(fpu, fn, ty, values, Summarize(fpu, fn, ty, values))
  {
    match fn
    case CountStar => CountReports(fpu, ty, values);
    case Count => CountReports(fpu, ty, values);
    case Sum => if ty == Integer { IntSumReports(fpu, fn, values); } else { FloatSumReports(fpu, fn, ty, values); }
    case Avg => if ty == Integer { IntSumReports(fpu, fn, values); } else { FloatSumReports(fpu, fn, ty, values); }
    case _ =>
      match ty
      case Integer => IntReports(fpu, fn, values);
      case Float => FloatReports(fpu, fn, values);
      case Varchar => StrReports(fpu, fn, values);
  }

  /** So does feeding the cells to the accumulator one by one. */
  lemma AccumulatorReports(fpu: FloatUnit, fn: AggFn, ty: TypeId, values: seq<Datum>)
    ensures Reports(fpu, fn, ty, values, Emit(fpu, Fold(fpu, fn, ty, values), fn))
  {
    FoldSummarizes(fpu, fn, ty, values);
    SummarizeReports(fpu, fn, ty, values);
  }

  // ----- NULLs -----

  lemma NullDropped(a: seq<Datum>, b: seq<Datum>, p: Datum -> bool)
    requires !p(Null)
    ensures Filter(a + [Null] + b, p) == Filter(a + b, p)
  {
    FilterConcat(a + [Null], b, p);
    FilterConcat(a, b, p);
    FilterSnoc(a, Null, p);
  }

  /** NULL arguments change nothing but COUNT(*), wherever they stand. */
  lemma NullsIgnored(fpu: FloatUnit, fn: AggFn, ty: TypeId, a: seq<Datum>, b: seq<Datum>)
    requires fn != CountStar
    ensures Emit(fpu, Fold(fpu, fn, ty, a + [Null] + b), fn) == Emit(fpu, Fold(fpu, fn, ty, a + b), fn)
  {
    FoldSummarizes(fpu, fn, ty, a + [Null] + b);
    FoldSummarizes(fpu, fn, ty, a + b);
    NullDropped(a, b, IsInt());
    NullDropped(a, b, IsFloat());
    NullDropped(a, b, IsStr());
    NullDropped(a, b, IsPresent());
  }

  function IsNull(): Datum -> bool { (d: Datum) => d == Null }

  lemma {:induction false} NullsAndOthers(values: seq<Datum>)
    ensures |Filter(values, IsNull())| + |Filter(values, NotNull())| == |values|
  {
    if values != [] { NullsAndOthers(values[..|values| - 1]); }
  }

  /** COUNT(column) and the NULLs of the column add up to COUNT(*). */
  lemma CountAndNulls(fpu: FloatUnit, ty: TypeId, values: seq<Datum>)
    requires |values| < TWO31
    ensures var count, all := Emit(fpu, Fold(fpu, Count, ty, values), Count),
                              Emit(fpu, Fold(fpu, CountStar, ty, values), CountStar);
      && count.IntD? && all.IntD? && all.i == |values|
      && count.i + |PlacesWhere(values, IsNull())| == all.i
  {
    AccumulatorReports(fpu, Count, ty, values);
    AccumulatorReports(fpu, CountStar, ty, values);
    PlacesCount(values, IsNull());
    PlacesCount(values, NotNull());
    NullsAndOthers(values);
  }
}
