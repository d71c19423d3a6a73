/** What a zone map says about its column, and that a scan skips exactly the row
    groups whose zone map leaves no value that could satisfy the condition. */
module ZoneMeaning {
  import opened Seqs
  import opened Types
  import opened Orders
  import opened Expressions
  import opened ZoneMaps
  import opened LogicalPlan
  import opened Physical
  import opened Translation

  // ----- the two ends -----

  /** The least and the greatest integer of the column. */
  ghost predicate IntEnds(z: Zone<Int32>, cells: seq<Datum>) {
    && (z.has <==> exists v: Int32 :: IntD(v) in cells)
    && (z.has ==> IntD(z.min) in cells && IntD(z.max) in cells && forall v: Int32 :: IntD(v) in cells ==>
      z.min <= v <= z.max)
  }

  /** The end is the prefix of one of the strings. */
  ghost predicate PrefixOfOne(p: Str, cells: seq<Datum>) { exists s: Str :: StrD(s) in cells && p == Prefix(s) }

  /** The least and the greatest prefix of the column, in lexicographic order. */
  ghost predicate StrEnds(z: Zone<Str>, cells: seq<Datum>) {
    && (z.has <==> exists s: Str :: StrD(s) in cells)
    && (z.has ==>
         && PrefixOfOne(z.min, cells) && PrefixOfOne(z.max, cells)
         && forall s: Str :: StrD(s) in cells ==> !Precedes(Prefix(s), z.min) && !Precedes(z.max, Prefix(s)))
  }

  predicate IsNumber(f: Float32) { !IsNaN(f) }

  /** With a number first: the least and the greatest number; with a NaN first: that NaN twice. */
  ghost predicate FloatEnds(z: Zone<Float32>, cells: seq<Datum>) {
    && (z.has <==> exists f: Float32 :: FloatD(f) in cells)
    && (z.has ==>
         && FloatD(z.min) in cells && FloatD(z.max) in cells && (IsNaN(z.min) <==> IsNaN(z.max))
         && (IsNaN(z.min) ==> z.min == z.max)
         && (!IsNaN(z.min) ==> forall f: Float32 :: FloatD(f) in cells && IsNumber(f) ==>
              Scaled(z.min) <= Scaled(f) <= Scaled(z.max)))
  }

  lemma InSnoc(cells: seq<Datum>, last: Datum)
    ensures forall d :: d in cells + [last] <==> d in cells || d == last
  {
  }

  lemma {:induction false} IntEndsFound(cells: seq<Datum>)
    ensures ZoneOf(Integer, cells).IntZone? && IntEnds(ZoneOf(Integer, cells).ints, cells)
  {
    if cells != [] {
      var init, last := cells[..|cells| - 1], cells[|cells| - 1];
      SplitLast(cells);
      InSnoc(init, last);
      IntEndsFound(init);
    }
  }

  lemma StrEndsSnoc(z: Zone<Str>, cells: seq<Datum>, s: Str)
    requires StrEnds(z, cells)
    ensures StrEnds(UpdateWith(z, Prefix(s), StrOrder()), cells + [StrD(s)])
  {
    var more, p, z' := cells + [StrD(s)], Prefix(s), UpdateWith(z, Prefix(s), StrOrder());
    InSnoc(cells, StrD(s));
    assert StrD(s) in more && PrefixOfOne(p, more);
    if z.has {
      assert PrefixOfOne(z.min, more) && PrefixOfOne(z.max, more);
      forall t: Str | StrD(t) in more ensures !Precedes(Prefix(t), z'.min) && !Precedes(z'.max, Prefix(t)) {
        EndsStay(z, p, Prefix(t));
      }
    } else {
      forall t: Str | StrD(t) in more ensures t == s { }
      StrLessTotal(p, p);
      StrLessIsLexicographic(p, p);
    }
  }

  /** A string between the ends stays between them, and so does the new one. */
  lemma EndsStay(z: Zone<Str>, p: Str, q: Str)
    requires z.has && (q == p || (!Precedes(q, z.min) && !Precedes(z.max, q)))
    ensures var z' := UpdateWith(z, p, StrOrder()); !Precedes(q, z'.min) && !Precedes(z'.max, q)
  {
    StrLessIsLexicographic(q, z.min);
    StrLessIsLexicographic(z.max, q);
    StrLessIsLexicographic(q, p);
    StrLessIsLexicographic(p, q);
    StrLessTotal(q, p);
    StrLessTotal(q, z.min);
    StrLessTotal(z.max, q);
    if StrLess(q, p) && StrLess(p, z.min) { StrLessTransitive(q, p, z.min); }
    if StrLess(p, q) && StrLess(z.max, p) { StrLessTransitive(z.max, p, q); }
  }

  lemma StrEndsKeep(z: Zone<Str>, cells: seq<Datum>, d: Datum)
    requires StrEnds(z, cells) && !d.StrD?
    ensures StrEnds(z, cells + [d])
  {
    InSnoc(cells, d);
    forall p: Str ensures PrefixOfOne(p, cells + [d]) <==> PrefixOfOne(p, cells) {
      if s: Str :| StrD(s) in cells && p == Prefix(s) { assert StrD(s) in cells + [d]; }
    }
  }

  lemma {:induction false} StrEndsFound(cells: seq<Datum>)
    ensures ZoneOf(Varchar, cells).StrZone? && StrEnds(ZoneOf(Varchar, cells).strs, cells)
  {
    if cells != [] {
      var init, last := cells[..|cells| - 1], cells[|cells| - 1];
      SplitLast(cells);
      StrEndsFound(init);
      if last.StrD? {
        StrEndsSnoc(ZoneOf(Varchar, init).strs, init, last.s);
      } else {
        StrEndsKeep(ZoneOf(Varchar, init).strs, init, last);
      }
    }
  }

  lemma FloatEndsSnoc(z: Zone<Float32>, cells: seq<Datum>, f: Float32)
    requires FloatEnds(z, cells)
    ensures FloatEnds(UpdateWith(z, f, FloatOrder()), cells + [FloatD(f)])
  {
    InSnoc(cells, FloatD(f));
    FloatOrderIsNumeric(f, z.min);
    FloatOrderIsNumeric(z.max, f);
  }

  lemma {:induction false} FloatEndsFound(cells: seq<Datum>)
    ensures ZoneOf(Float, cells).FloatZone? && FloatEnds(ZoneOf(Float, cells).floats, cells)
  {
    if cells != [] {
      var init, last := cells[..|cells| - 1], cells[|cells| - 1];
      SplitLast(cells);
      FloatEndsFound(init);
      if last.FloatD? { FloatEndsSnoc(ZoneOf(Float, init).floats, init, last.f); } else { InSnoc(init, last); }
    }
  }

  // ----- what is ruled out -----

  /** The comparisons that the test knows; it never rules out for `!=`. */
  predicate Tested(op: BinaryOp) { !IsArithmetic(op) && !IsLogical(op) && !op.NotEqual? }

  /** `v op c` holds as the evaluator computes it. */
  predicate Satisfies(fpu: FloatUnit, op: BinaryOp, v: Datum, c: Literal) {
    ApplyBinary(fpu, op, BooleanT, v, LiteralDatum(c)) == BoolD(true)
  }

  /** Some integer between the ends satisfies the comparison. */
  ghost predicate IntHope(fpu: FloatUnit, z: Zone<Int32>, op: BinaryOp, c: Literal) {
    exists v: Int32 :: z.min <= v <= z.max && Satisfies(fpu, op, IntD(v), c)
  }

  /** An INTEGER column is ruled out exactly when it has values and nothing
      between the ends satisfies the comparison. */
  lemma IntRuledOutIff(fpu: FloatUnit, z: Zone<Int32>, op: BinaryOp, c: Int32)
    requires z.has ==> z.min <= z.max
    ensures ZoneMapRulesOut(IntZone(z), op, IntL(c)) == Some(true) <==>
      z.has && Tested(op) && !IntHope(fpu, z, op, IntL(c))
  {
    if z.has && Tested(op) {
      var v := if op.Equal? then c else if op.LessThan? || op.LessEqual? then z.min else z.max;
      if z.min <= v <= z.max && Satisfies(fpu, op, IntD(v), IntL(c)) {
        assert IntHope(fpu, z, op, IntL(c));
      }
    }
  }

  ghost predicate FloatHope(fpu: FloatUnit, z: Zone<Float32>, op: BinaryOp, c: Literal) {
    exists v: Float32 :: IsNumber(v) && Scaled(z.min) <= Scaled(v) <= Scaled(z.max) && Satisfies(fpu, op, FloatD(v), c)
  }

  /** So is a FLOAT column whose ends are numbers; only `= NaN`, which nothing
      satisfies, rules out no row group. */
  lemma FloatRuledOutIff(fpu: FloatUnit, z: Zone<Float32>, op: BinaryOp, c: Float32)
    requires z.has ==> IsNumber(z.min) && IsNumber(z.max) && Scaled(z.min) <= Scaled(z.max)
    ensures ZoneMapRulesOut(FloatZone(z), op, FloatL(c)) == Some(true) <==>
      z.has && Tested(op) && !(op.Equal? && IsNaN(c)) && !FloatHope(fpu, z, op, FloatL(c))
  {
    forall v: Float32
      ensures FloatLess(v, c) <==> IsNumber(v) && IsNumber(c) && Scaled(v) < Scaled(c)
      ensures FloatLess(c, v) <==> IsNumber(v) && IsNumber(c) && Scaled(c) < Scaled(v)
      ensures FloatEqual(v, c) <==> IsNumber(v) && IsNumber(c) && Scaled(v) == Scaled(c)
    {
      FloatOrderIsNumeric(v, c);
      FloatOrderIsNumeric(c, v);
    }
    FloatOrderIsNumeric(z.max, c);
    if z.has && Tested(op) {
      var v := if op.Equal? then c else if op.LessThan? || op.LessEqual? then z.min else z.max;
      if IsNumber(v) && Scaled(z.min) <= Scaled(v) <= Scaled(z.max) && Satisfies(fpu, op, FloatD(v), FloatL(c)) {
        assert FloatHope(fpu, z, op, FloatL(c));
      }
    }
  }

  /** A row group is passed over for a comparison of an INTEGER column with an
      integer exactly when the column has values and none between its least and
      its greatest satisfies it. */
  lemma IntGroupSkippedIff(fpu: FloatUnit, g: StoredGroup, types: seq<TypeId>, skip: Skip, c: Int32)
    requires GroupSound(g, types) && skip.ordinal < |types| && types[skip.ordinal] == Integer &&
      skip.constant == IntL(c)
    ensures var cells := ColumnCells(g.rows, skip.ordinal);
      SkipsGroup(g, Some(skip)) == Some(true) <==>
        && Tested(skip.op) && (exists v: Int32 :: IntD(v) in cells)
        && forall lo: Int32, hi: Int32, v: Int32 ::
             IntD(lo) in cells && IntD(hi) in cells && lo <= v <= hi ==>
               !Satisfies(fpu, skip.op, IntD(v), skip.constant)
  {
    var cells := ColumnCells(g.rows, skip.ordinal);
    IntEndsFound(cells);
    var z := ZoneOf(Integer, cells).ints;
    IntRuledOutIff(fpu, z, skip.op, c);
  }

  // ----- which conditions make a scan skip -----

  /** `column op constant`, on a column of the scanned table and with a number. */
  predicate IsSkipOf(e: Expr, bindingId: nat, skip: Skip) {
    exists ty, aty :: e == Binary(skip.op, Col(ColumnRef(bindingId, skip.ordinal, ty)), Const(skip.constant), aty)
  }

  /** A filter directly over a scan makes it skip on exactly such a condition. */
  lemma SkipPlannedIff(catalog: set<nat>, scan: Plan, e: Expr, skip: Skip)
    requires scan.ScanNode? && Translate(catalog, FilterNode(scan, e)).Some?
    ensures var op := Translate(catalog, FilterNode(scan, e)).value;
      && op.FilterOp? && op.child.SeqScan? && op.child.tableId == scan.tableId
      && op.child.ordinals == scan.requiredOrdinals
      && (op.child.skip == Some(skip) <==> IsSkipOf(e, scan.bindingId, skip) && !skip.constant.StrL?)
  {
    var op := Translate(catalog, FilterNode(scan, e)).value;
    if op.child.skip == Some(skip) {
      assert e == Binary(skip.op, Col(ColumnRef(scan.bindingId, skip.ordinal, e.left.ref.ty)), Const(skip.constant),
                         e.arithmeticType);
    }
  }
}
