/** The vectorised evaluator: each node computes a whole column in one pass and
    masks the NULLs in a second, yet every row gets the row-at-a-time result. */
module Evaluator {
  import opened Seqs
  import opened Types
  import opened Expressions
  import opened Typing
  import opened LogicalPlan
  import opened Physical
  import opened Chunks

  /** A result column: raw values, also under NULLs, and a validity vector. */
  datatype Vec =
    | IntVec(ints: seq<Int32>, valid: seq<bool>)
    | FloatVec(floats: seq<Float32>, valid: seq<bool>)
    | StrVec(strs: seq<Str>, valid: seq<bool>)
    | BoolVec(values: seq<bool>, valid: seq<bool>)

  predicate Sized(v: Vec, n: nat) {
    |v.valid| == n &&
    match v
    case IntVec(xs, _) => |xs| == n
    case FloatVec(xs, _) => |xs| == n
    case StrVec(xs, _) => |xs| == n
    case BoolVec(xs, _) => |xs| == n
  }

  function KindOf(v: Vec): ExprType {
    match v
    case IntVec(_, _) => IntegerT
    case FloatVec(_, _) => FloatT
    case StrVec(_, _) => VarcharT
    case BoolVec(_, _) => BooleanT
  }

  function DatumAt(v: Vec, n: nat, i: nat): Datum
    requires Sized(v, n) && i < n
  {
    if !v.valid[i] then Null
    else
      match v
      case IntVec(xs, _) => IntD(xs[i])
      case FloatVec(xs, _) => FloatD(xs[i])
      case StrVec(xs, _) => StrD(xs[i])
      case BoolVec(xs, _) => BoolD(xs[i])
  }

  predicate Numeric(v: Vec) { v.IntVec? || v.FloatVec? }

  function AsFloat(fpu: FloatUnit, v: Vec, n: nat, i: nat): Float32
    requires Sized(v, n) && i < n && Numeric(v)
  {
    match v case IntVec(xs, _) => fpu.ofInt(xs[i]) case FloatVec(xs, _) => xs[i]
  }

  method EvaluateColumnRef(column: Column, n: nat) returns (v: Vec)
    requires ColumnValid(column, n)
    ensures Sized(v, n) && KindOf(v) == OfTypeId(column.ty)
    ensures forall i :: 0 <= i < n ==> DatumAt(v, n, i) == column.cells[i]
  {
    match column.ty
    case Integer =>
      var xs: seq<Int32>, valid: seq<bool> := [], [];
      for i := 0 to n
        invariant |xs| == |valid| == i
        invariant forall j :: 0 <= j < i ==> column.cells[j] == if valid[j] then IntD(xs[j]) else Null
      {
        if column.cells[i] == Null {
          xs, valid := xs + [0], valid + [false];
        } else {
          xs, valid := xs + [column.cells[i].i], valid + [true];
        }
      }
      v := IntVec(xs, valid);
    case Float =>
      var xs: seq<Float32>, valid: seq<bool> := [], [];
      for i := 0 to n
        invariant |xs| == |valid| == i
        invariant forall j :: 0 <= j < i ==> column.cells[j] == if valid[j] then FloatD(xs[j]) else Null
      {
        if column.cells[i] == Null {
          xs, valid := xs + [0], valid + [false];
        } else {
          xs, valid := xs + [column.cells[i].f], valid + [true];
        }
      }
      v := FloatVec(xs, valid);
    case Varchar =>
      var xs: seq<Str>, valid: seq<bool> := [], [];
      for i := 0 to n
        invariant |xs| == |valid| == i
        invariant forall j :: 0 <= j < i ==> column.cells[j] == if valid[j] then StrD(xs[j]) else Null
      {
        if column.cells[i] == Null {
          xs, valid := xs + [[]], valid + [false];
        } else {
          xs, valid := xs + [column.cells[i].s], valid + [true];
        }
      }
      v := StrVec(xs, valid);
  }

  method EvaluateConst(value: Literal, n: nat) returns (v: Vec)
    ensures Sized(v, n) && KindOf(v) == OfTypeId(LiteralType(value))
    ensures forall i :: 0 <= i < n ==> DatumAt(v, n, i) == LiteralDatum(value)
  {
    var valid := seq(n, _ => true);
    match value
    case IntL(x) => v := IntVec(seq(n, _ => x), valid);
    case FloatL(x) => v := FloatVec(seq(n, _ => x), valid);
    case StrL(x) => v := StrVec(seq(n, _ => x), valid);
  }

  /** Pass 1 computes every raw value, NULL or not; pass 2 masks NULL operands
      and zero divisors. None is the bad_variant_access of a non-integer operand. */
  method EvaluateArithmeticInt(fpu: FloatUnit, op: BinaryOp, ty: ExprType, l: Vec, r: Vec, n: nat)
      returns (v: Option<Vec>)
    requires IsArithmetic(op) && ty != FloatT && Sized(l, n) && Sized(r, n)
    ensures v.Some? <==> n == 0 || (l.IntVec? && r.IntVec?)
    ensures v.Some? ==> v.value.IntVec? && Sized(v.value, n)
    ensures v.Some? ==> forall i :: 0 <= i < n ==>
      DatumAt(v.value, n, i) == ApplyBinary(fpu, op, ty, DatumAt(l, n, i), DatumAt(r, n, i))
  {
    var xs: seq<Int32> := [];
    for i := 0 to n
      invariant |xs| == i
      invariant i > 0 ==> l.IntVec? && r.IntVec?
      invariant forall j :: 0 <= j < i ==> xs[j] == IntArithmetic(op, l.ints[j], r.ints[j])
    {
      if !l.IntVec? || !r.IntVec? {
        return None;
      }
      xs := xs + [IntArithmetic(op, l.ints[i], r.ints[i])];
    }
    var valid := seq(n, _ => true);
    for i := 0 to n
      invariant |valid| == n
      invariant forall j :: i <= j < n ==> valid[j]
      invariant forall j :: 0 <= j < i ==> valid[j] == (l.valid[j] && r.valid[j] && !(op.Divide? && r.ints[j] == 0))
    {
      if !(l.valid[i] && r.valid[i]) || (op.Divide? && r.ints[i] == 0) {
        valid := valid[i := false];
      }
    }
    v := Some(IntVec(xs, valid));
  }

  method EvaluateArithmeticFloat(fpu: FloatUnit, op: BinaryOp, l: Vec, r: Vec, n: nat) returns (v: Option<Vec>)
    requires IsArithmetic(op) && Sized(l, n) && Sized(r, n)
    ensures v.Some? <==> n == 0 || (Numeric(l) && Numeric(r))
    ensures v.Some? ==> v.value.FloatVec? && Sized(v.value, n)
    ensures v.Some? ==> forall i :: 0 <= i < n ==>
      DatumAt(v.value, n, i) == ApplyBinary(fpu, op, FloatT, DatumAt(l, n, i), DatumAt(r, n, i))
  {
    var xs: seq<Float32> := [];
    for i := 0 to n
      invariant |xs| == i
      invariant i > 0 ==> Numeric(l) && Numeric(r)
      invariant forall j :: 0 <= j < i ==>
        xs[j] == FloatArithmetic(fpu, op, AsFloat(fpu, l, n, j), AsFloat(fpu, r, n, j))
    {
      if !Numeric(l) || !Numeric(r) {
        return None;
      }
      xs := xs + [FloatArithmetic(fpu, op, AsFloat(fpu, l, n, i), AsFloat(fpu, r, n, i))];
    }
    var valid := seq(n, _ => true);
    for i := 0 to n
      invariant |valid| == n
      invariant forall j :: i <= j < n ==> valid[j]
      invariant forall j :: 0 <= j < i ==> valid[j] == (l.valid[j] && r.valid[j])
    {
      if !(l.valid[i] && r.valid[i]) {
        valid := valid[i := false];
      }
    }
    v := Some(FloatVec(xs, valid));
  }

  predicate Comparable(l: Vec, r: Vec) {
    (l.StrVec? && r.StrVec?) || (Numeric(l) && Numeric(r))
  }

  predicate CompareRow(fpu: FloatUnit, op: BinaryOp, l: Vec, r: Vec, n: nat, i: nat)
    requires Sized(l, n) && Sized(r, n) && i < n && Comparable(l, r)
  {
    if l.StrVec? then CompareStrs(op, l.strs[i], r.strs[i])
    else if l.FloatVec? || r.FloatVec? then CompareFloats(op, AsFloat(fpu, l, n, i), AsFloat(fpu, r, n, i))
    else CompareInts(op, l.ints[i], r.ints[i])
  }

  method EvaluateComparison(fpu: FloatUnit, op: BinaryOp, ty: ExprType, l: Vec, r: Vec, n: nat) returns (v: Option<Vec>)
    requires !IsArithmetic(op) && !IsLogical(op) && Sized(l, n) && Sized(r, n)
    ensures v.Some? <==> n == 0 || Comparable(l, r)
    ensures v.Some? ==> v.value.BoolVec? && Sized(v.value, n)
    ensures v.Some? ==> forall i :: 0 <= i < n ==>
      DatumAt(v.value, n, i) == ApplyBinary(fpu, op, ty, DatumAt(l, n, i), DatumAt(r, n, i))
  {
    var values: seq<bool> := [];
    for i := 0 to n
      invariant |values| == i
      invariant i > 0 ==> Comparable(l, r)
      invariant forall j :: 0 <= j < i ==> values[j] == CompareRow(fpu, op, l, r, n, j)
    {
      if !Comparable(l, r) {
        return None;
      }
      values := values + [CompareRow(fpu, op, l, r, n, i)];
    }
    var valid: seq<bool> := [];
    for i := 0 to n
      invariant |valid| == i
      invariant forall j :: 0 <= j < i ==> valid[j] == (l.valid[j] && r.valid[j])
    {
      valid := valid + [l.valid[i] && r.valid[i]];
    }
    v := Some(BoolVec(values, valid));
  }

  method EvaluateLogical(fpu: FloatUnit, op: BinaryOp, ty: ExprType, l: Vec, r: Vec, n: nat) returns (v: Vec)
    requires IsLogical(op) && l.BoolVec? && r.BoolVec? && Sized(l, n) && Sized(r, n)
    ensures v.BoolVec? && Sized(v, n)
    ensures forall i :: 0 <= i < n ==> DatumAt(v, n, i) == ApplyBinary(fpu, op, ty, DatumAt(l, n, i), DatumAt(r, n, i))
  {
    var values: seq<bool> := [];
    for i := 0 to n
      invariant |values| == i
      invariant forall j :: 0 <= j < i ==>
        values[j] == if op.And? then l.values[j] && r.values[j] else l.values[j] || r.values[j]
    {
      values := values + [if op.And? then l.values[i] && r.values[i] else l.values[i] || r.values[i]];
    }
    var valid: seq<bool> := [];
    for i := 0 to n
      invariant |valid| == i
      invariant forall j :: 0 <= j < i ==> valid[j] == (l.valid[j] && r.valid[j])
    {
      valid := valid + [l.valid[i] && r.valid[i]];
    }
    v := BoolVec(values, valid);
  }

  method EvaluateNot(x: Vec, n: nat) returns (v: Vec)
    requires x.BoolVec? && Sized(x, n)
    ensures v.BoolVec? && Sized(v, n)
    ensures forall i :: 0 <= i < n ==>
      DatumAt(v, n, i) == if DatumAt(x, n, i).BoolD? then BoolD(!DatumAt(x, n, i).b) else Null
  {
    var values: seq<bool> := [];
    for i := 0 to n
      invariant |values| == i
      invariant forall j :: 0 <= j < i ==> values[j] == !x.values[j]
    {
      values := values + [!x.values[i]];
    }
    v := BoolVec(values, x.valid);
  }

  /** The whole evaluator. On a bound expression it throws exactly when the
      chunk has rows and a boolean is compared or added; otherwise every row
      holds the row-at-a-time value. */
  method Evaluate(fpu: FloatUnit, e: Expr, chunk: Chunk) returns (v: Option<Vec>)
    requires Valid(chunk) && Fits(e, TypesOf(chunk)) && BoundType(e).Some?
    ensures v.Some? <==> NoBooleanOperands(e) || chunk.rowCount == 0
    ensures v.Some? ==> Sized(v.value, chunk.rowCount) && KindOf(v.value) == ResultType(e)
    ensures v.Some? ==> forall i :: 0 <= i < chunk.rowCount ==>
      DatumAt(v.value, chunk.rowCount, i) == Eval(fpu, e, PhysEnv(RowAt(chunk, i)))
    decreases e
  {
    var n := chunk.rowCount;
    BoundTypeIsResultType(e);
    FitsParts(e, TypesOf(chunk));
    match e
    case Col(ref) =>
      assert ref in CollectColumnRefs(e);
      var column := EvaluateColumnRef(chunk.columns[ref.ordinal], n);
      v := Some(column);
    case Const(value) =>
      var column := EvaluateConst(value, n);
      v := Some(column);
    case Binary(op, left, right, ty) =>
      BoundTypeIsResultType(left);
      BoundTypeIsResultType(right);
      var l := Evaluate(fpu, left, chunk);
      if l.None? { return None; }
      var r := Evaluate(fpu, right, chunk);
      if r.None? { return None; }
      if IsArithmetic(op) {
        if ty == FloatT {
          v := EvaluateArithmeticFloat(fpu, op, l.value, r.value, n);
        } else {
          v := EvaluateArithmeticInt(fpu, op, ty, l.value, r.value, n);
        }
      } else if IsLogical(op) {
        var b := EvaluateLogical(fpu, op, ty, l.value, r.value, n);
        v := Some(b);
      } else {
        v := EvaluateComparison(fpu, op, ty, l.value, r.value, n);
      }
    case Not(x) =>
      BoundTypeIsResultType(x);
      var operand := Evaluate(fpu, x, chunk);
      if operand.None? { return None; }
      var b := EvaluateNot(operand.value, n);
      v := Some(b);
  }

  /** An expression the binder accepts and the evaluator cannot compute: (1 = 1) = (1 = 1). */
  lemma BooleanComparisonIsAccepted()
    ensures
      var same := Binary(Equal, Const(IntL(1)), Const(IntL(1)), BooleanT);
      var e := Binary(Equal, same, same, BooleanT);
      IsPredicate(e) && !NoBooleanOperands(e)
  {
    var same := Binary(Equal, Const(IntL(1)), Const(IntL(1)), BooleanT);
    assert IsPredicate(same);
  }

  // ----- the filter operator -----

  /** FilterOperator::GetNext on one chunk: the selected rows are filtered, the rest is untouched. */
  method FilterChunk(fpu: FloatUnit, condition: Expr, chunk: Chunk) returns (out: Option<Chunk>)
    requires Valid(chunk) && Fits(condition, TypesOf(chunk)) && IsPredicate(condition)
    ensures out.Some? <==> NoBooleanOperands(condition) || chunk.rowCount == 0
    ensures out.Some? ==> Valid(out.value) && out.value.columns == chunk.columns && out.value.rowCount == chunk.rowCount
    ensures out.Some? ==> SelectedRows(out.value) == Filter(SelectedRows(chunk), PhysPassing(fpu, condition))
  {
    BoundTypeIsResultType(condition);
    var result := Evaluate(fpu, condition, chunk);
    if result.None? { return None; }
    var bools := result.value;
    var selected := chunk.selected;
    for i := 0 to chunk.rowCount
      invariant |selected| == chunk.rowCount
      invariant forall j :: i <= j < chunk.rowCount ==> selected[j] == chunk.selected[j]
      invariant forall j :: 0 <= j < i ==> selected[j] == (chunk.selected[j] && bools.values[j] && bools.valid[j])
    {
      selected := selected[i := selected[i] && bools.values[i] && bools.valid[i]];
    }
    var masked := chunk.(selected := selected);
    forall i | 0 <= i < chunk.rowCount
      ensures selected[i] == (chunk.selected[i] && PhysPassing(fpu, condition)(RowAt(chunk, i)))
    {
      assert DatumAt(bools, chunk.rowCount, i) == Eval(fpu, condition, PhysEnv(RowAt(chunk, i)));
    }
    MaskedSelection(chunk, masked, PhysPassing(fpu, condition), chunk.rowCount);
    out := Some(masked);
  }

  lemma {:induction false} MaskedSelection(chunk: Chunk, masked: Chunk, keep: Cells -> bool, n: nat)
    requires Valid(chunk) && Valid(masked) && n <= chunk.rowCount
    requires masked == chunk.(selected := masked.selected)
    requires forall i :: 0 <= i < chunk.rowCount ==> masked.selected[i] == (chunk.selected[i] && keep(RowAt(chunk, i)))
    ensures SelectedPrefix(masked, n) == Filter(SelectedPrefix(chunk, n), keep)
  {
    if n > 0 {
      MaskedSelection(chunk, masked, keep, n - 1);
      assert RowAt(masked, n - 1) == RowAt(chunk, n - 1);
      FilterSnoc(SelectedPrefix(chunk, n - 1), RowAt(chunk, n - 1), keep);
    }
  }

  // ----- the projection operator -----

  function CellsIn(v: Vec, n: nat): seq<Datum>
    requires Sized(v, n)
  {
    seq(n, i requires 0 <= i < n => DatumAt(v, n, i))
  }

  /** A result column as a chunk column; booleans have none. */
  function AsColumn(v: Vec, n: nat): Option<Column>
    requires Sized(v, n)
  {
    match v
    case IntVec(_, _) => Some(Column(Integer, CellsIn(v, n)))
    case FloatVec(_, _) => Some(Column(Float, CellsIn(v, n)))
    case StrVec(_, _) => Some(Column(Varchar, CellsIn(v, n)))
    case BoolVec(_, _) => None
  }

  function ItemType(e: Expr): TypeId {
    match ResultType(e) case FloatT => Float case VarcharT => Varchar case _ => Integer
  }

  function ItemTypes(exprs: seq<Expr>): seq<TypeId> { Map(exprs, (e: Expr) => ItemType(e)) }

  /** Column `k` holds the value of select item `k` on every row. */
  predicate ItemColumn(fpu: FloatUnit, e: Expr, chunk: Chunk, column: Column)
    requires Valid(chunk)
  {
    && column.ty == ItemType(e) && ColumnValid(column, chunk.rowCount)
    && forall i :: 0 <= i < chunk.rowCount ==> column.cells[i] == Eval(fpu, e, PhysEnv(RowAt(chunk, i)))
  }

  /** The loop over the select items; None is an exception of the evaluator. */
  method EvaluateItems(fpu: FloatUnit, exprs: seq<Expr>, chunk: Chunk) returns (batch: Option<seq<Vec>>)
    requires Valid(chunk) && forall e :: e in exprs ==> Fits(e, TypesOf(chunk)) && BoundType(e).Some?
    ensures batch.None? <==> chunk.rowCount > 0 && exists e :: e in exprs && !NoBooleanOperands(e)
    ensures batch.Some? ==> |batch.value| == |exprs|
    ensures batch.Some? ==> forall k :: 0 <= k < |exprs| ==>
      Sized(batch.value[k], chunk.rowCount) && KindOf(batch.value[k]) == ResultType(exprs[k])
    ensures batch.Some? ==> forall k, i :: 0 <= k < |exprs| && 0 <= i < chunk.rowCount ==>
      DatumAt(batch.value[k], chunk.rowCount, i) == Eval(fpu, exprs[k], PhysEnv(RowAt(chunk, i)))
  {
    var done: seq<Vec> := [];
    for k := 0 to |exprs|
      invariant |done| == k
      invariant chunk.rowCount > 0 ==> forall j :: 0 <= j < k ==> NoBooleanOperands(exprs[j])
      invariant forall j :: 0 <= j < k ==> Sized(done[j], chunk.rowCount) && KindOf(done[j]) == ResultType(exprs[j])
      invariant forall j, i :: 0 <= j < k && 0 <= i < chunk.rowCount ==>
        DatumAt(done[j], chunk.rowCount, i) == Eval(fpu, exprs[j], PhysEnv(RowAt(chunk, i)))
    {
      var v := Evaluate(fpu, exprs[k], chunk);
      if v.None? {
        assert exprs[k] in exprs && !NoBooleanOperands(exprs[k]);
        return None;
      }
      done := done + [v.value];
    }
    batch := Some(done);
  }

  lemma ColumnOfItem(fpu: FloatUnit, e: Expr, chunk: Chunk, v: Vec)
    requires Valid(chunk) && Sized(v, chunk.rowCount) && KindOf(v) == ResultType(e)
    requires forall i :: 0 <= i < chunk.rowCount ==>
      DatumAt(v, chunk.rowCount, i) == Eval(fpu, e, PhysEnv(RowAt(chunk, i)))
    ensures AsColumn(v, chunk.rowCount).None? <==> ResultType(e) == BooleanT
    ensures AsColumn(v, chunk.rowCount).Some? ==> ItemColumn(fpu, e, chunk, AsColumn(v, chunk.rowCount).value)
  {
  }

  /** ProjectionOperator::GetNext on one chunk: every select item becomes a
      column, and a boolean one throws, even on a chunk without rows. */
  method ProjectChunk(fpu: FloatUnit, exprs: seq<Expr>, chunk: Chunk) returns (out: Option<Chunk>)
    requires Valid(chunk) && forall e :: e in exprs ==> Fits(e, TypesOf(chunk)) && BoundType(e).Some?
    ensures out.None? <==> ProjectThrows(exprs, true, chunk.rowCount > 0)
    ensures out.Some? ==> Valid(out.value) && TypesOf(out.value) == ItemTypes(exprs)
    ensures out.Some? ==> out.value.rowCount == chunk.rowCount
    ensures out.Some? ==> SelectedRows(out.value) == Map(SelectedRows(chunk), PhysProjected(fpu, exprs))
  {
    var batch :- EvaluateItems(fpu, exprs, chunk);
    var columns: seq<Column> := [];
    for k := 0 to |exprs|
      invariant |columns| == k
      invariant forall j :: 0 <= j < k ==> ResultType(exprs[j]) != BooleanT
      invariant forall j :: 0 <= j < k ==> ItemColumn(fpu, exprs[j], chunk, columns[j])
    {
      ColumnOfItem(fpu, exprs[k], chunk, batch[k]);
      var column := AsColumn(batch[k], chunk.rowCount);
      if column.None? {
        assert exprs[k] in exprs;
        return None;
      }
      columns := columns + [column.value];
    }
    var projected := Chunk(chunk.rowCount, columns, chunk.selected);
    ProjectedRows(fpu, exprs, chunk, projected, chunk.rowCount);
    out := Some(projected);
  }

  lemma {:induction false} ProjectedRows(fpu: FloatUnit, exprs: seq<Expr>, chunk: Chunk, out: Chunk, n: nat)
    requires Valid(chunk) && Valid(out) && out.rowCount == chunk.rowCount && out.selected == chunk.selected
    requires |out.columns| == |exprs| && n <= chunk.rowCount
    requires forall k :: 0 <= k < |exprs| ==> ItemColumn(fpu, exprs[k], chunk, out.columns[k])
    ensures SelectedPrefix(out, n) == Map(SelectedPrefix(chunk, n), PhysProjected(fpu, exprs))
  {
    if n > 0 {
      ProjectedRows(fpu, exprs, chunk, out, n - 1);
      assert RowAt(out, n - 1) == PhysProjected(fpu, exprs)(RowAt(chunk, n - 1));
      MapSnoc(SelectedPrefix(chunk, n - 1), RowAt(chunk, n - 1), PhysProjected(fpu, exprs));
    }
  }
}
