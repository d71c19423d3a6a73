/** Aggregate functions: what each one means over the argument cells of a
    group, and the accumulators that compute it one row at a time. */
module Aggregates {
  import opened Seqs
  import opened Types
  import opened ZoneMaps
  import opened Orders

  datatype AggFn = CountStar | Count | Sum | Avg | Min | Max

  // ----- meaning -----

  function IsInt(): Datum -> bool { (d: Datum) => d.IntD? }
  function IsFloat(): Datum -> bool { (d: Datum) => d.FloatD? }
  function IsStr(): Datum -> bool { (d: Datum) => d.StrD? }
  function IsPresent(): Datum -> bool { (d: Datum) => d != Null }

  function IntOf(): Datum -> Int32 { (d: Datum) => if d.IntD? then d.i else 0 }
  function FloatOf(): Datum -> Float32 { (d: Datum) => if d.FloatD? then d.f else 0 }
  function StrOf(): Datum -> Str { (d: Datum) => if d.StrD? then d.s else [] }

  function Ints(values: seq<Datum>): seq<Int32> { Map(Filter(values, IsInt()), IntOf()) }
  function Floats(values: seq<Datum>): seq<Float32> { Map(Filter(values, IsFloat()), FloatOf()) }
  function Strs(values: seq<Datum>): seq<Str> { Map(Filter(values, IsStr()), StrOf()) }

  function Total(xs: seq<Int32>): int {
    if xs == [] then 0 else Total(xs[..|xs| - 1]) + xs[|xs| - 1]
  }

  /** Float sums depend on the order of additions; this is the row order. */
  function FloatTotal(fpu: FloatUnit, xs: seq<Float32>): Float64 {
    if xs == [] then fpu.zero else fpu.accumulate(FloatTotal(fpu, xs[..|xs| - 1]), xs[|xs| - 1])
  }

  /** The earliest element that no other element beats. */
  ghost predicate IsFirstBest<T(!new)>(xs: seq<T>, better: (T, T) -> bool, x: T) {
    exists i :: 0 <= i < |xs| && xs[i] == x && FirstBestAt(xs, better, i)
  }

  predicate FirstBestAt<T>(xs: seq<T>, better: (T, T) -> bool, i: nat)
    requires i < |xs|
  {
    && (forall j :: 0 <= j < |xs| ==> !better(xs[j], xs[i]))
    && (forall j :: 0 <= j < i ==> better(xs[i], xs[j]))
  }

  function Best<T>(xs: seq<T>, better: (T, T) -> bool): T
    requires xs != []
  {
    if |xs| == 1 then xs[0]
    else
      var sofar := Best(xs[..|xs| - 1], better);
      if better(xs[|xs| - 1], sofar) then xs[|xs| - 1] else sofar
  }

  function Flip<T>(less: (T, T) -> bool): (T, T) -> bool { (a: T, b: T) => less(b, a) }

  /** What MIN or MAX prefers. */
  function Preferred<T>(fn: AggFn, less: (T, T) -> bool): (T, T) -> bool { if fn.Max? then Flip(less) else less }

  /** For a strict weak order, MIN and MAX pick the earliest unbeaten element. */
  lemma {:induction false} BestIsFirstBest<T(!new)>(xs: seq<T>, better: (T, T) -> bool)
    requires xs != []
    requires forall x :: x in xs ==> !better(x, x)
    requires forall x, y, z :: x in xs && y in xs && z in xs && better(x, y) && better(y, z) ==> better(x, z)
    requires forall x, y, z :: x in xs && y in xs && z in xs && better(x, z) ==> better(x, y) || better(y, z)
    ensures IsFirstBest(xs, better, Best(xs, better))
  {
    var n := |xs| - 1;
    if n == 0 {
      assert FirstBestAt(xs, better, 0);
    } else {
      var init := xs[..n];
      assert forall x :: x in init ==> x in xs;
      BestIsFirstBest(init, better);
      var i :| 0 <= i < n && init[i] == Best(init, better) && FirstBestAt(init, better, i);
      if better(xs[n], init[i]) {
        forall j | 0 <= j < n ensures better(xs[n], xs[j]) && !better(xs[j], xs[n]) {
          assert init[j] == xs[j] && !better(init[j], init[i]);
          BeatsBest(xs, better, xs[n], init[i], xs[j]);
        }
        assert FirstBestAt(xs, better, n);
      } else {
        StillBest(xs, better, i);
      }
    }
  }

  /** Whoever beats the best beats everybody the best is not beaten by. */
  lemma BeatsBest<T(!new)>(xs: seq<T>, better: (T, T) -> bool, x: T, best: T, y: T)
    requires x in xs && best in xs && y in xs && better(x, best) && !better(y, best)
    requires forall x :: x in xs ==> !better(x, x)
    requires forall x, y, z :: x in xs && y in xs && z in xs && better(x, y) && better(y, z) ==> better(x, z)
    requires forall x, y, z :: x in xs && y in xs && z in xs && better(x, z) ==> better(x, y) || better(y, z)
    ensures better(x, y) && !better(y, x)
  {
  }

  lemma StillBest<T(!new)>(xs: seq<T>, better: (T, T) -> bool, i: nat)
    requires i < |xs| - 1 && FirstBestAt(xs[..|xs| - 1], better, i) && !better(xs[|xs| - 1], xs[i])
    ensures FirstBestAt(xs, better, i)
  {
    var init := xs[..|xs| - 1];
    forall j | 0 <= j < |xs| ensures !better(xs[j], xs[i]) {
      if j < |init| { assert init[j] == xs[j]; }
    }
    forall j | 0 <= j < i ensures better(xs[i], xs[j]) { assert init[j] == xs[j]; }
  }

  /** The value of an aggregate over a group's argument cells in row order.
      Counts and integer sums are narrowed to int32 when emitted. */
  function Summarize(fpu: FloatUnit, fn: AggFn, ty: TypeId, values: seq<Datum>): Datum {
    match fn
    case CountStar => IntD(WrapInt32(|values|))
    case Count => IntD(WrapInt32(|Filter(values, IsPresent())|))
    case Sum =>
      if ty == Integer then
        (if Ints(values) == [] then Null else IntD(WrapInt32(Total(Ints(values)))))
      else
        (if Floats(values) == [] then Null else FloatD(fpu.narrow(FloatTotal(fpu, Floats(values)))))
    case Avg =>
      if ty == Integer then
        (if Ints(values) == [] then Null else FloatD(fpu.intAverage(Total(Ints(values)), |Ints(values)|)))
      else
        (if Floats(values) == [] then Null
         else FloatD(fpu.average(FloatTotal(fpu, Floats(values)), |Floats(values)|)))
    case _ =>
      match ty
      case Integer =>
        if Ints(values) == [] then Null
        else IntD(Best(Ints(values), Preferred(fn, IntOrder())))
      case Float =>
        if Floats(values) == [] then Null
        else FloatD(Best(Floats(values), Preferred(fn, FloatOrder())))
      case Varchar =>
        if Strs(values) == [] then Null
        else StrD(Best(Strs(values), Preferred(fn, StrOrder())))
  }

  // ----- MIN and MAX -----

  lemma IntOrders(xs: seq<Int32>, fn: AggFn)
    requires xs != []
    ensures IsFirstBest(xs, Preferred(fn, IntOrder()), Best(xs, Preferred(fn, IntOrder())))
  {
    BestIsFirstBest(xs, Preferred(fn, IntOrder()));
  }

  /** MIN and MAX over an INTEGER column: the least or greatest value present; NULL when there is none. */
  lemma IntExtreme(fpu: FloatUnit, fn: AggFn, values: seq<Datum>)
    requires fn.Min? || fn.Max?
    ensures Summarize(fpu, fn, Integer, values) == Null <==> Ints(values) == []
    ensures Ints(values) != [] ==>
      var d := Summarize(fpu, fn, Integer, values);
      d.IntD? && d.i in Ints(values) && forall y :: y in Ints(values) ==> if fn.Max? then y <= d.i else d.i <= y
  {
    if Ints(values) != [] { IntOrders(Ints(values), fn); }
  }

  lemma StrLessWeak(x: Str, y: Str, z: Str)
    ensures !StrLess(x, x)
    ensures StrLess(x, y) && StrLess(y, z) ==> StrLess(x, z)
    ensures StrLess(x, z) ==> StrLess(x, y) || StrLess(y, z)
  {
    StrLessTotal(x, x);
    StrLessTotal(x, y);
    StrLessTotal(y, z);
    if StrLess(x, y) && StrLess(y, z) { StrLessTransitive(x, y, z); }
    if StrLess(x, z) && StrLess(y, x) { StrLessTransitive(y, x, z); }
  }

  lemma StrOrders(xs: seq<Str>, fn: AggFn)
    requires xs != []
    ensures IsFirstBest(xs, Preferred(fn, StrOrder()), Best(xs, Preferred(fn, StrOrder())))
  {
    forall x: Str, y: Str, z: Str
      ensures !StrLess(x, x)
      ensures StrLess(x, y) && StrLess(y, z) ==> StrLess(x, z)
      ensures StrLess(x, z) ==> StrLess(x, y) || StrLess(y, z)
    {
      StrLessWeak(x, y, z);
    }
    BestIsFirstBest(xs, Preferred(fn, StrOrder()));
  }

  /** Over a VARCHAR column: a string present that no other one precedes, or
      follows, in lexicographic order. */
  lemma StrExtreme(fpu: FloatUnit, fn: AggFn, values: seq<Datum>)
    requires fn.Min? || fn.Max?
    ensures Summarize(fpu, fn, Varchar, values) == Null <==> Strs(values) == []
    ensures Strs(values) != [] ==>
      var d := Summarize(fpu, fn, Varchar, values);
      && d.StrD? && d.s in Strs(values)
      && forall y :: y in Strs(values) ==> if fn.Max? then !Precedes(d.s, y) else !Precedes(y, d.s)
  {
    if Strs(values) != [] {
      StrOrders(Strs(values), fn);
      var s := Summarize(fpu, fn, Varchar, values).s;
      forall y | y in Strs(values) ensures if fn.Max? then !Precedes(s, y) else !Precedes(y, s) {
        StrLessIsLexicographic(s, y);
        StrLessIsLexicographic(y, s);
      }
    }
  }

  function IsNumber(): Float32 -> bool { (f: Float32) => !IsNaN(f) }

  /** A NaN that comes first is kept; one that comes later is passed over. */
  lemma {:induction false} BestOfFloats(xs: seq<Float32>, fn: AggFn)
    requires xs != []
    ensures IsNaN(xs[0]) ==> Best(xs, Preferred(fn, FloatOrder())) == xs[0]
    ensures !IsNaN(xs[0]) ==>
      Filter(xs, IsNumber()) != [] &&
        Best(xs, Preferred(fn, FloatOrder())) == Best(Filter(xs, IsNumber()), Preferred(fn, FloatOrder()))
    ensures IsNaN(Best(xs, Preferred(fn, FloatOrder()))) <==> IsNaN(xs[0])
  {
    var init, last := xs[..|xs| - 1], xs[|xs| - 1];
    SplitLast(xs);
    FilterSnoc(init, last, IsNumber());
    if init == [] {
      assert Filter(init, IsNumber()) == [];
      assert [] + [last] == [last];
    } else {
      BestOfFloats(init, fn);
      if IsNaN(last) || IsNaN(xs[0]) { NaNNeverBetter(fn, last, Best(init, Preferred(fn, FloatOrder()))); }
      BestSnoc(init, last, Preferred(fn, FloatOrder()));
      var kept := Filter(init, IsNumber());
      if kept != [] { BestSnoc(kept, last, Preferred(fn, FloatOrder())); }
    }
  }

  lemma BestSnoc<T>(xs: seq<T>, x: T, better: (T, T) -> bool)
    requires xs != []
    ensures Best(xs + [x], better) == if better(x, Best(xs, better)) then x else Best(xs, better)
  {
    assert (xs + [x])[..|xs|] == xs;
  }

  /** A NaN takes no place and gives none up. */
  lemma NaNNeverBetter(fn: AggFn, x: Float32, y: Float32)
    requires IsNaN(x) || IsNaN(y)
    ensures !Preferred(fn, FloatOrder())(x, y)
  {
  }

  lemma FloatOrders(xs: seq<Float32>, fn: AggFn)
    requires xs != [] && forall x :: x in xs ==> !IsNaN(x)
    ensures IsFirstBest(xs, Preferred(fn, FloatOrder()), Best(xs, Preferred(fn, FloatOrder())))
  {
    BestIsFirstBest(xs, Preferred(fn, FloatOrder()));
  }

  /** Over a FLOAT column: the first value decides. If it is a NaN, that NaN is
      the result; otherwise the earliest least or greatest of the numbers. */
  lemma FloatExtreme(fpu: FloatUnit, fn: AggFn, values: seq<Datum>)
    requires fn.Min? || fn.Max?
    ensures Summarize(fpu, fn, Float, values) == Null <==> Floats(values) == []
    ensures Floats(values) != [] ==>
      var xs, d := Floats(values), Summarize(fpu, fn, Float, values);
      && d.FloatD? && (IsNaN(d.f) <==> IsNaN(xs[0])) && (IsNaN(xs[0]) ==> d.f == xs[0])
      && (!IsNaN(xs[0]) ==> IsFirstBest(Filter(xs, IsNumber()), Preferred(fn, FloatOrder()), d.f))
  {
    if Floats(values) != [] {
      var xs := Floats(values);
      BestOfFloats(xs, fn);
      if !IsNaN(xs[0]) {
        FilterMembers(xs, IsNumber());
        FloatOrders(Filter(xs, IsNumber()), fn);
      }
    }
  }

  // ----- accumulators -----

  datatype Accumulator =
    | CountStarAcc(n: nat)
    | CountAcc(n: nat)
    | SumIntAcc(has: bool, sum: int)
    | SumFloatAcc(has: bool, total: Float64)
    | AvgIntAcc(sum: int, n: nat)
    | AvgFloatAcc(total: Float64, n: nat)
    | MinMaxIntAcc(ints: Zone<Int32>)
    | MinMaxFloatAcc(floats: Zone<Float32>)
    | MinMaxStrAcc(strs: Zone<Str>)

  function MakeAccumulator(fpu: FloatUnit, fn: AggFn, ty: TypeId): Accumulator {
    match fn
    case CountStar => CountStarAcc(0)
    case Count => CountAcc(0)
    case Sum => if ty == Integer then SumIntAcc(false, 0) else SumFloatAcc(false, fpu.zero)
    case Avg => if ty == Integer then AvgIntAcc(0, 0) else AvgFloatAcc(fpu.zero, 0)
    case _ =>
      match ty
      case Integer => MinMaxIntAcc(Zone(false, 0, 0))
      case Float => MinMaxFloatAcc(Zone(false, 0, 0))
      case Varchar => MinMaxStrAcc(Zone(false, [], []))
  }

  /** AccumulateRow: a NULL argument, or one of another column kind, changes nothing. */
  function Accumulate(fpu: FloatUnit, acc: Accumulator, d: Datum): Accumulator {
    match acc
    case CountStarAcc(n) => CountStarAcc(n + 1)
    case CountAcc(n) => if d == Null then acc else CountAcc(n + 1)
    case SumIntAcc(_, s) => if d.IntD? then SumIntAcc(true, s + d.i) else acc
    case SumFloatAcc(_, t) => if d.FloatD? then SumFloatAcc(true, fpu.accumulate(t, d.f)) else acc
    case AvgIntAcc(s, n) => if d.IntD? then AvgIntAcc(s + d.i, n + 1) else acc
    case AvgFloatAcc(t, n) => if d.FloatD? then AvgFloatAcc(fpu.accumulate(t, d.f), n + 1) else acc
    case MinMaxIntAcc(z) => if d.IntD? then MinMaxIntAcc(UpdateWith(z, d.i, IntOrder())) else acc
    case MinMaxFloatAcc(z) => if d.FloatD? then MinMaxFloatAcc(UpdateWith(z, d.f, FloatOrder())) else acc
    case MinMaxStrAcc(z) => if d.StrD? then MinMaxStrAcc(UpdateWith(z, d.s, StrOrder())) else acc
  }

  function Emit(fpu: FloatUnit, acc: Accumulator, fn: AggFn): Datum {
    match acc
    case CountStarAcc(n) => IntD(WrapInt32(n))
    case CountAcc(n) => IntD(WrapInt32(n))
    case SumIntAcc(has, s) => if has then IntD(WrapInt32(s)) else Null
    case SumFloatAcc(has, t) => if has then FloatD(fpu.narrow(t)) else Null
    case AvgIntAcc(s, n) => if n > 0 then FloatD(fpu.intAverage(s, n)) else Null
    case AvgFloatAcc(t, n) => if n > 0 then FloatD(fpu.average(t, n)) else Null
    case MinMaxIntAcc(z) => if !z.has then Null else IntD(if fn.Max? then z.max else z.min)
    case MinMaxFloatAcc(z) => if !z.has then Null else FloatD(if fn.Max? then z.max else z.min)
    case MinMaxStrAcc(z) => if !z.has then Null else StrD(if fn.Max? then z.max else z.min)
  }

  function Fold(fpu: FloatUnit, fn: AggFn, ty: TypeId, values: seq<Datum>): Accumulator {
    if values == [] then MakeAccumulator(fpu, fn, ty)
    else Accumulate(fpu, Fold(fpu, fn, ty, values[..|values| - 1]), values[|values| - 1])
  }

  // ----- the accumulators compute the meaning -----

  function ZoneOver<T>(xs: seq<T>, less: (T, T) -> bool, init: T): Zone<T> {
    if xs == [] then Zone(false, init, init) else Zone(true, Best(xs, less), Best(xs, Flip(less)))
  }

  lemma ZoneOverSnoc<T>(xs: seq<T>, x: T, less: (T, T) -> bool, init: T)
    ensures ZoneOver(xs + [x], less, init) == UpdateWith(ZoneOver(xs, less, init), x, less)
  {
    assert (xs + [x])[..|xs|] == xs;
  }

  lemma TotalSnoc(xs: seq<Int32>, x: Int32)
    ensures Total(xs + [x]) == Total(xs) + x
  {
    assert (xs + [x])[..|xs|] == xs;
  }

  lemma FloatTotalSnoc(fpu: FloatUnit, xs: seq<Float32>, x: Float32)
    ensures FloatTotal(fpu, xs + [x]) == fpu.accumulate(FloatTotal(fpu, xs), x)
  {
    assert (xs + [x])[..|xs|] == xs;
  }

  /** The accumulator's state after a list of cells, said without iterating. */
  function StateAfter(fpu: FloatUnit, fn: AggFn, ty: TypeId, values: seq<Datum>): Accumulator {
    match fn
    case CountStar => CountStarAcc(|values|)
    case Count => CountAcc(|Filter(values, IsPresent())|)
    case Sum =>
      if ty == Integer then SumIntAcc(Ints(values) != [], Total(Ints(values)))
      else SumFloatAcc(Floats(values) != [], FloatTotal(fpu, Floats(values)))
    case Avg =>
      if ty == Integer then AvgIntAcc(Total(Ints(values)), |Ints(values)|)
      else AvgFloatAcc(FloatTotal(fpu, Floats(values)), |Floats(values)|)
    case _ =>
      match ty
      case Integer => MinMaxIntAcc(ZoneOver(Ints(values), IntOrder(), 0))
      case Float => MinMaxFloatAcc(ZoneOver(Floats(values), FloatOrder(), 0))
      case Varchar => MinMaxStrAcc(ZoneOver(Strs(values), StrOrder(), []))
  }

  lemma IntsSnoc(values: seq<Datum>, d: Datum)
    ensures Ints(values + [d]) == if d.IntD? then Ints(values) + [d.i] else Ints(values)
  {
    FilterSnoc(values, d, IsInt());
    if d.IntD? { MapSnoc(Filter(values, IsInt()), d, IntOf()); }
  }

  lemma FloatsSnoc(values: seq<Datum>, d: Datum)
    ensures Floats(values + [d]) == if d.FloatD? then Floats(values) + [d.f] else Floats(values)
  {
    FilterSnoc(values, d, IsFloat());
    if d.FloatD? { MapSnoc(Filter(values, IsFloat()), d, FloatOf()); }
  }

  lemma StrsSnoc(values: seq<Datum>, d: Datum)
    ensures Strs(values + [d]) == if d.StrD? then Strs(values) + [d.s] else Strs(values)
  {
    FilterSnoc(values, d, IsStr());
    if d.StrD? { MapSnoc(Filter(values, IsStr()), d, StrOf()); }
  }

  lemma IntStateSnoc(fpu: FloatUnit, fn: AggFn, values: seq<Datum>, d: Datum)
    requires fn.Sum? || fn.Avg? || fn.Min? || fn.Max?
    ensures StateAfter(fpu, fn, Integer, values + [d]) == Accumulate(fpu, StateAfter(fpu, fn, Integer, values), d)
  {
    IntsSnoc(values, d);
    if d.IntD? {
      TotalSnoc(Ints(values), d.i);
      ZoneOverSnoc(Ints(values), d.i, IntOrder(), 0);
    }
  }

  lemma FloatStateSnoc(fpu: FloatUnit, fn: AggFn, ty: TypeId, values: seq<Datum>, d: Datum)
    requires (ty == Float && (fn.Min? || fn.Max?)) || (ty != Integer && (fn.Sum? || fn.Avg?))
    ensures StateAfter(fpu, fn, ty, values + [d]) == Accumulate(fpu, StateAfter(fpu, fn, ty, values), d)
  {
    FloatsSnoc(values, d);
    if d.FloatD? {
      FloatTotalSnoc(fpu, Floats(values), d.f);
      ZoneOverSnoc(Floats(values), d.f, FloatOrder(), 0);
    }
  }

  lemma StrStateSnoc(fpu: FloatUnit, fn: AggFn, values: seq<Datum>, d: Datum)
    requires fn.Min? || fn.Max?
    ensures StateAfter(fpu, fn, Varchar, values + [d]) == Accumulate(fpu, StateAfter(fpu, fn, Varchar, values), d)
  {
    StrsSnoc(values, d);
    if d.StrD? { ZoneOverSnoc<Str>(Strs(values), d.s, StrOrder(), []); }
  }

  lemma StateAfterSnoc(fpu: FloatUnit, fn: AggFn, ty: TypeId, values: seq<Datum>, d: Datum)
    ensures StateAfter(fpu, fn, ty, values + [d]) == Accumulate(fpu, StateAfter(fpu, fn, ty, values), d)
  {
    if fn.CountStar? {
    } else if fn.Count? {
      FilterSnoc(values, d, IsPresent());
    } else if ty == Integer {
      IntStateSnoc(fpu, fn, values, d);
    } else if ty == Float || fn.Sum? || fn.Avg? {
      FloatStateSnoc(fpu, fn, ty, values, d);
    } else {
      StrStateSnoc(fpu, fn, values, d);
    }
  }

  lemma {:induction false} FoldReaches(fpu: FloatUnit, fn: AggFn, ty: TypeId, values: seq<Datum>)
    ensures Fold(fpu, fn, ty, values) == StateAfter(fpu, fn, ty, values)
  {
    if values != [] {
      FoldReaches(fpu, fn, ty, values[..|values| - 1]);
      SplitLast(values);
      StateAfterSnoc(fpu, fn, ty, values[..|values| - 1], values[|values| - 1]);
    }
  }

  /** Accumulating a group's rows one at a time and emitting gives the aggregate's meaning. */
  lemma FoldSummarizes(fpu: FloatUnit, fn: AggFn, ty: TypeId, values: seq<Datum>)
    ensures Emit(fpu, Fold(fpu, fn, ty, values), fn) == Summarize(fpu, fn, ty, values)
  {
    FoldReaches(fpu, fn, ty, values);
  }
}
