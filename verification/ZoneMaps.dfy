/** Zone maps: per row group and column, the least and greatest non-null value
    seen, and the test that lets a scan skip a whole row group. */
module ZoneMaps {
  import opened Seqs
  import opened Types
  import opened Expressions

  /** `min`/`max` mean something only when `has`; a fresh map holds T{}. */
  datatype Zone<T> = Zone(has: bool, min: T, max: T)

  datatype ColumnZone =
    | IntZone(ints: Zone<Int32>)
    | FloatZone(floats: Zone<Float32>)
    | StrZone(strs: Zone<Str>)

  /** std::min keeps its first argument unless the second is strictly less;
      std::max keeps it unless it is strictly less than the second. */
  function UpdateWith<T>(z: Zone<T>, v: T, less: (T, T) -> bool): Zone<T> {
    if !z.has then Zone(true, v, v)
    else Zone(true, if less(v, z.min) then v else z.min, if less(z.max, v) then v else z.max)
  }

  /** One column's map as the writer updates it, value by value. */
  class ZoneMap<T> {
    const less: (T, T) -> bool
    var hasValues: bool
    var min: T
    var max: T

    ghost function State(): Zone<T>
      reads this
    {
      Zone(hasValues, min, max)
    }

    constructor (order: (T, T) -> bool, blank: T)
      ensures less == order && State() == Zone(false, blank, blank)
    {
      less, hasValues, min, max := order, false, blank, blank;
    }

    method Update(value: T)
      modifies this
      ensures State() == UpdateWith(old(State()), value, less)
    {
      if !hasValues {
        min, max, hasValues := value, value, true;
        return;
      }
      if less(value, min) {
        min := value;
      }
      if less(max, value) {
        max := value;
      }
    }
  }

  function IntOrder(): (Int32, Int32) -> bool { (a: Int32, b: Int32) => a < b }
  function FloatOrder(): (Float32, Float32) -> bool { (a: Float32, b: Float32) => FloatLess(a, b) }
  function StrOrder(): (Str, Str) -> bool { (a: Str, b: Str) => StrLess(a, b) }

  /** TruncatePrefix: at most eight bytes take part in a VARCHAR zone map. */
  function Prefix(s: Str): (p: Str)
    ensures |p| <= PREFIX_LENGTH && p <= s
    ensures |s| <= PREFIX_LENGTH ==> p == s
    ensures |s| > PREFIX_LENGTH ==> |p| == PREFIX_LENGTH
  {
    if |s| <= PREFIX_LENGTH then s else s[..PREFIX_LENGTH]
  }

  function EmptyZone(ty: TypeId): ColumnZone {
    match ty
    case Integer => IntZone(Zone(false, 0, 0))
    case Float => FloatZone(Zone(false, 0, 0))
    case Varchar => StrZone(Zone(false, [], []))
  }

  /** ZoneMap::Update on one cell of the column; NULLs are counted, not recorded. */
  function Update(z: ColumnZone, d: Datum): ColumnZone {
    match (z, d)
    case (IntZone(m), IntD(v)) => IntZone(UpdateWith(m, v, IntOrder()))
    case (FloatZone(m), FloatD(v)) => FloatZone(UpdateWith(m, v, FloatOrder()))
    case (StrZone(m), StrD(v)) => StrZone(UpdateWith(m, Prefix(v), StrOrder()))
    case _ => z
  }

  function ZoneOf(ty: TypeId, cells: seq<Datum>): ColumnZone {
    if cells == [] then EmptyZone(ty) else Update(ZoneOf(ty, cells[..|cells| - 1]), cells[|cells| - 1])
  }

  function IsNullCell(): Datum -> bool { (d: Datum) => d == Null }

  /** The Build scan of a column footer entry. */
  method Build(ty: TypeId, cells: seq<Datum>) returns (nullCount: nat, zone: ColumnZone)
    requires forall d :: d in cells ==> HasType(d, ty)
    ensures zone == ZoneOf(ty, cells)
    ensures nullCount == |Filter(cells, IsNullCell())|
  {
    nullCount, zone := 0, EmptyZone(ty);
    for i := 0 to |cells|
      invariant zone == ZoneOf(ty, cells[..i])
      invariant nullCount == |Filter(cells[..i], IsNullCell())|
    {
      assert cells[..i + 1] == cells[..i] + [cells[i]];
      FilterSnoc(cells[..i], cells[i], IsNullCell());
      assert cells[..i + 1][..i] == cells[..i];
      if cells[i] == Null {
        nullCount := nullCount + 1;
      } else {
        zone := Update(zone, cells[i]);
      }
    }
    assert cells[..|cells|] == cells;
  }

  /** What every map built by Update satisfies: an ordered pair, with equal
      ends only when they are the very same value. */
  predicate Ordered<T(==)>(z: Zone<T>, less: (T, T) -> bool) {
    z.has ==> less(z.min, z.max) || z.min == z.max
  }

  predicate WellBuilt(z: ColumnZone) {
    match z
    case IntZone(m) => Ordered(m, IntOrder()) && (!m.has ==> m == Zone(false, 0, 0))
    case FloatZone(m) => Ordered(m, FloatOrder()) && (!m.has ==> m == Zone(false, 0, 0))
    case StrZone(m) =>
      Ordered(m, StrOrder()) && (!m.has ==> m.min == [] && m.max == [])
      && |m.min| <= PREFIX_LENGTH && |m.max| <= PREFIX_LENGTH
  }

  lemma UpdateWellBuilt(z: ColumnZone, d: Datum)
    requires WellBuilt(z)
    ensures WellBuilt(Update(z, d))
  {
    match (z, d)
    case (StrZone(m), StrD(v)) =>
      var p := Prefix(v);
      StrLessTotal(m.min, m.max);
      StrLessTotal(p, m.max);
      StrLessTotal(p, m.min);
      if m.has && StrLess(p, m.min) && StrLess(m.min, m.max) { StrLessTransitive(p, m.min, m.max); }
      if m.has && StrLess(m.max, p) && StrLess(m.min, m.max) { StrLessTransitive(m.min, m.max, p); }
    case _ =>
  }

  lemma {:induction false} ZoneOfWellBuilt(ty: TypeId, cells: seq<Datum>)
    ensures WellBuilt(ZoneOf(ty, cells))
    ensures match ty
            case Integer => ZoneOf(ty, cells).IntZone?
            case Float => ZoneOf(ty, cells).FloatZone?
            case Varchar => ZoneOf(ty, cells).StrZone?
  {
    if cells != [] {
      ZoneOfWellBuilt(ty, cells[..|cells| - 1]);
      UpdateWellBuilt(ZoneOf(ty, cells[..|cells| - 1]), cells[|cells| - 1]);
    }
  }

  // ----- skipping -----

  datatype Skip = Skip(ordinal: nat, op: BinaryOp, constant: Literal)

  /** The order test behind ZoneMapRulesOutRowGroup, on the recorded ends. */
  predicate RulesOut<T>(z: Zone<T>, op: BinaryOp, c: T, less: (T, T) -> bool, same: (T, T) -> bool) {
    z.has &&
    match op
    case GreaterThan => !less(c, z.max)
    case GreaterEqual => !(less(c, z.max) || same(z.max, c))
    case LessThan => !less(z.min, c)
    case LessEqual => !(less(z.min, c) || same(z.min, c))
    case Equal => less(c, z.min) || less(z.max, c)
    case _ => false
  }

  function IntSame(): (Int32, Int32) -> bool { (a: Int32, b: Int32) => a == b }
  function FloatSame(): (Float32, Float32) -> bool { (a: Float32, b: Float32) => FloatEqual(a, b) }

  /** None is the bad_variant_access thrown when the constant's type is not the column's. */
  function ZoneMapRulesOut(z: ColumnZone, op: BinaryOp, c: Literal): Option<bool> {
    match (z, c)
    case (IntZone(m), IntL(v)) => Some(RulesOut(m, op, v, IntOrder(), IntSame()))
    case (FloatZone(m), FloatL(v)) => Some(RulesOut(m, op, v, FloatOrder(), FloatSame()))
    case _ => None
  }

  predicate HasFloat(cells: seq<Datum>) { exists d :: d in cells && d.FloatD? }

  /** The first float of the column is a NaN, which std::min and std::max keep. */
  predicate NaNFirst(cells: seq<Datum>) {
    cells != [] &&
    var init, last := cells[..|cells| - 1], cells[|cells| - 1];
    NaNFirst(init) || (!HasFloat(init) && last.FloatD? && IsNaN(last.f))
  }

  predicate Between(z: ColumnZone, d: Datum) {
    match (z, d)
    case (IntZone(m), IntD(v)) => m.has && m.min <= v <= m.max
    case (FloatZone(m), FloatD(v)) =>
      m.has && !IsNaN(m.min) && !IsNaN(m.max) && FloatKey(m.min) <= FloatKey(v) <= FloatKey(m.max)
    case _ => false
  }

  /** The ends of a float zone are NaN exactly when a NaN came first. */
  lemma {:induction false} FloatEnds(cells: seq<Datum>)
    ensures ZoneOf(Float, cells).FloatZone?
    ensures ZoneOf(Float, cells).floats.has <==> HasFloat(cells)
    ensures IsNaN(ZoneOf(Float, cells).floats.min) <==> NaNFirst(cells)
    ensures IsNaN(ZoneOf(Float, cells).floats.max) <==> NaNFirst(cells)
  {
    if cells != [] {
      var init, last := cells[..|cells| - 1], cells[|cells| - 1];
      FloatEnds(init);
      SplitLast(cells);
      assert HasFloat(cells) <==> HasFloat(init) || last.FloatD? by {
        if last.FloatD? { assert last in cells; }
        if d :| d in init && d.FloatD? { assert d in cells; }
      }
      if NaNFirst(init) { NaNFirstHasFloat(init); }
    }
  }

  lemma {:induction false} NaNFirstHasFloat(cells: seq<Datum>)
    requires NaNFirst(cells)
    ensures HasFloat(cells)
  {
    var init := cells[..|cells| - 1];
    if NaNFirst(init) {
      NaNFirstHasFloat(init);
      var d :| d in init && d.FloatD?;
      assert d in cells;
    } else {
      assert cells[|cells| - 1] in cells;
    }
  }

  /** Every recorded cell lies between the two ends; a NaN that comes later is passed over. */
  lemma {:induction false} ZoneCovers(ty: TypeId, cells: seq<Datum>, d: Datum)
    requires d in cells && d != Null && HasType(d, ty) && ty != Varchar
    requires ty == Float ==> !NaNFirst(cells) && !IsNaN(d.f)
    ensures Between(ZoneOf(ty, cells), d)
  {
    var init := cells[..|cells| - 1];
    SplitLast(cells);
    ZoneOfWellBuilt(ty, init);
    if ty == Float { FloatEnds(init); FloatEnds(cells); }
    if d in init { ZoneCovers(ty, init, d); }
  }

  /** A ruled-out row group holds no cell that satisfies the comparison. */
  lemma RuledOutMeansNoMatch(
      fpu: FloatUnit, ty: TypeId, cells: seq<Datum>, op: BinaryOp, c: Literal, aty: ExprType, d: Datum)
    requires d in cells && HasType(d, ty)
    requires ty == Float ==> !NaNFirst(cells)
    requires ZoneMapRulesOut(ZoneOf(ty, cells), op, c) == Some(true)
    ensures ApplyBinary(fpu, op, aty, d, LiteralDatum(c)) != BoolD(true)
  {
    ZoneOfWellBuilt(ty, cells);
    if d != Null && (ty == Float ==> !IsNaN(d.f)) { ZoneCovers(ty, cells, d); }
  }

  /** The zone map rules out a cell that satisfies the comparison. */
  predicate Hides(fpu: FloatUnit, cells: seq<Datum>, op: BinaryOp, c: Float32, d: Datum) {
    && ZoneMapRulesOut(ZoneOf(Float, cells), op, FloatL(c)) == Some(true)
    && ApplyBinary(fpu, op, BooleanT, d, FloatD(c)) == BoolD(true)
  }

  /** Exactly when a float zone map may be trusted: unless a NaN came first and
      a number is there to be missed. */
  lemma FloatSkipSoundIff(fpu: FloatUnit, cells: seq<Datum>)
    requires forall d :: d in cells ==> HasType(d, Float)
    ensures (forall op, c, d :: d in cells ==> !Hides(fpu, cells, op, c, d))
       <==> !NaNFirst(cells) || forall d :: d in cells && d.FloatD? ==> IsNaN(d.f)
  {
    if !NaNFirst(cells) {
      forall op, c, d | d in cells && ZoneMapRulesOut(ZoneOf(Float, cells), op, FloatL(c)) == Some(true)
        ensures !Hides(fpu, cells, op, c, d)
      {
        RuledOutMeansNoMatch(fpu, Float, cells, op, FloatL(c), BooleanT, d);
      }
    } else {
      FloatEnds(cells);
      NaNFirstHasFloat(cells);
      if d :| d in cells && d.FloatD? && !IsNaN(d.f) {
        assert Hides(fpu, cells, GreaterEqual, d.f, d);
      }
    }
  }
}
