/** Bound expressions and their row-at-a-time meaning: NULL in, NULL out, also
    for AND and OR, because the engine ANDs the validity of both operands. */
module Expressions {
  import opened Seqs
  import opened Types

  datatype ExprType = IntegerT | FloatT | VarcharT | BooleanT

  datatype BinaryOp = Add | Subtract | Multiply | Divide
                    | Equal | NotEqual | LessThan | LessEqual | GreaterThan | GreaterEqual
                    | And | Or

  datatype ColumnRef = ColumnRef(tableId: nat, ordinal: nat, ty: TypeId)

  datatype Literal = IntL(i: Int32) | FloatL(f: Float32) | StrL(s: Str)

  datatype Expr =
    | Col(ref: ColumnRef)
    | Const(value: Literal)
    | Binary(op: BinaryOp, left: Expr, right: Expr, arithmeticType: ExprType)
    | Not(operand: Expr)

  predicate IsArithmetic(op: BinaryOp) {
    op.Add? || op.Subtract? || op.Multiply? || op.Divide?
  }

  predicate IsLogical(op: BinaryOp) {
    op.And? || op.Or?
  }

  function OfTypeId(ty: TypeId): ExprType {
    match ty case Integer => IntegerT case Float => FloatT case Varchar => VarcharT
  }

  function LiteralType(v: Literal): TypeId {
    match v case IntL(_) => Integer case FloatL(_) => Float case StrL(_) => Varchar
  }

  function LiteralDatum(v: Literal): (d: Datum)
    ensures HasType(d, LiteralType(v)) && d != Null
  {
    match v case IntL(i) => IntD(i) case FloatL(f) => FloatD(f) case StrL(s) => StrD(s)
  }

  /** The static type an expression node announces. */
  function ResultType(e: Expr): ExprType {
    match e
    case Col(ref) => OfTypeId(ref.ty)
    case Const(v) => OfTypeId(LiteralType(v))
    case Binary(op, _, _, ty) => if IsArithmetic(op) then ty else BooleanT
    case Not(_) => BooleanT
  }

  function CollectColumnRefs(e: Expr): seq<ColumnRef> {
    match e
    case Col(ref) => [ref]
    case Const(_) => []
    case Binary(_, l, r, _) => CollectColumnRefs(l) + CollectColumnRefs(r)
    case Not(x) => CollectColumnRefs(x)
  }

  // ----- one row -----

  function IntArithmetic(op: BinaryOp, a: Int32, b: Int32): Int32 {
    match op
    case Add => WrapInt32(a + b)
    case Subtract => WrapInt32(a - b)
    case Multiply => WrapInt32(a * b)
    case Divide => if b == 0 then 0 else WrapInt32(TruncDiv(a, b))
    case _ => 0
  }

  function FloatArithmetic(fpu: FloatUnit, op: BinaryOp, a: Float32, b: Float32): Float32 {
    match op
    case Add => fpu.add(a, b)
    case Subtract => fpu.sub(a, b)
    case Multiply => fpu.mul(a, b)
    case Divide => fpu.div(a, b)
    case _ => 0
  }

  /** A comparison, given how `<` and `==` answer on the operands. With a NaN
      both are false in either direction, so only `!=` holds. */
  predicate Compare(op: BinaryOp, less: bool, equal: bool, greater: bool) {
    match op
    case Equal => equal
    case NotEqual => !equal
    case LessThan => less
    case LessEqual => less || equal
    case GreaterThan => greater
    case GreaterEqual => greater || equal
    case _ => false
  }

  predicate CompareInts(op: BinaryOp, a: Int32, b: Int32) {
    Compare(op, a < b, a == b, b < a)
  }

  predicate CompareFloats(op: BinaryOp, a: Float32, b: Float32) {
    Compare(op, FloatLess(a, b), FloatEqual(a, b), FloatLess(b, a))
  }

  predicate CompareStrs(op: BinaryOp, a: Str, b: Str) {
    Compare(op, StrLess(a, b), a == b, StrLess(b, a))
  }

  function ToFloat(fpu: FloatUnit, d: Datum): Option<Float32> {
    match d
    case FloatD(f) => Some(f)
    case IntD(i) => Some(fpu.ofInt(i))
    case _ => None
  }

  /** One binary operation on two results; NULL whenever an operand is NULL,
      an integer divisor is zero, or the operand kinds do not fit. */
  function ApplyBinary(fpu: FloatUnit, op: BinaryOp, ty: ExprType, l: Datum, r: Datum): Datum {
    if IsArithmetic(op) then
      if ty == FloatT then
        var a, b := ToFloat(fpu, l), ToFloat(fpu, r);
        if a.Some? && b.Some? then FloatD(FloatArithmetic(fpu, op, a.value, b.value)) else Null
      else if l.IntD? && r.IntD? && !(op.Divide? && r.i == 0) then IntD(IntArithmetic(op, l.i, r.i))
      else Null
    else if IsLogical(op) then
      if l.BoolD? && r.BoolD? then BoolD(if op.And? then l.b && r.b else l.b || r.b) else Null
    else if l.StrD? && r.StrD? then BoolD(CompareStrs(op, l.s, r.s))
    else if l.IntD? && r.IntD? then BoolD(CompareInts(op, l.i, r.i))
    else
      var a, b := ToFloat(fpu, l), ToFloat(fpu, r);
      if a.Some? && b.Some? then BoolD(CompareFloats(op, a.value, b.value)) else Null
  }

  type Env = ColumnRef -> Datum

  function Eval(fpu: FloatUnit, e: Expr, env: Env): Datum {
    match e
    case Col(ref) => env(ref)
    case Const(v) => LiteralDatum(v)
    case Binary(op, l, r, ty) => ApplyBinary(fpu, op, ty, Eval(fpu, l, env), Eval(fpu, r, env))
    case Not(x) => (match Eval(fpu, x, env) case BoolD(b) => BoolD(!b) case _ => Null)
  }

  /** A filter keeps a row only when the predicate is valid and true. */
  predicate Passes(fpu: FloatUnit, e: Expr, env: Env) {
    Eval(fpu, e, env) == BoolD(true)
  }

  /** Evaluation reads nothing but the referenced columns. */
  lemma {:induction false} EvalDependsOnRefs(fpu: FloatUnit, e: Expr, f: Env, g: Env)
    requires forall ref :: ref in CollectColumnRefs(e) ==> f(ref) == g(ref)
    ensures Eval(fpu, e, f) == Eval(fpu, e, g)
  {
    match e
    case Col(ref) => assert ref in CollectColumnRefs(e);
    case Const(_) =>
    case Binary(_, l, r, _) =>
      EvalDependsOnRefs(fpu, l, f, g);
      EvalDependsOnRefs(fpu, r, f, g);
    case Not(x) => EvalDependsOnRefs(fpu, x, f, g);
  }

  function Magnitude(a: int): nat { if a < 0 then -a else a }

  lemma DivBounds(x: nat, y: nat)
    requires y > 0
    ensures 0 <= x - y * (x / y) < y
    ensures x / y <= x && (y == 1 ==> x / y == x) && (y > 1 ==> 2 * (x / y) <= x)
  {
    var q := x / y;
    assert x == y * q + x % y;
    if y > 1 { MulAtLeast(q, y); }
  }

  lemma MulAtLeast(q: nat, y: nat)
    requires y > 1
    ensures 2 * q <= y * q
  {
  }

  lemma SignedProduct(b: int, q: int)
    ensures b >= 0 ==> b * q == Magnitude(b) * q && b * -q == -(Magnitude(b) * q)
    ensures b < 0 ==> b * q == -(Magnitude(b) * q) && b * -q == Magnitude(b) * q
  {
  }

  /** C++ division: the remainder is smaller than the divisor and has the dividend's sign. */
  lemma TruncDivExact(a: int, b: int)
    requires b != 0
    ensures var r := a - b * TruncDiv(a, b);
      Magnitude(r) < Magnitude(b) && (a >= 0 ==> r >= 0) && (a <= 0 ==> r <= 0)
  {
    var x, y := Magnitude(a), Magnitude(b);
    DivBounds(x, y);
    var q: int := x / y;
    SignedProduct(b, q);
    var t, p := TruncDiv(a, b), y * q;
    assert t == if (a < 0) == (b < 0) then q else -q;
    assert b * t == if a < 0 then -p else p;
    assert 0 <= x - p < y;
  }

  lemma QuotientBounds(a: Int32, b: Int32)
    requires b != 0
    ensures -TWO31 <= TruncDiv(a, b) <= TWO31
    ensures TruncDiv(a, b) == TWO31 <==> a == -TWO31 && b == -1
  {
    DivBounds(Magnitude(a), Magnitude(b));
  }

  /** No integer overflow: the wrapped result is the exact one. A quotient
      overflows for the least integer divided by -1 only. */
  lemma IntArithmeticExact(op: BinaryOp, a: Int32, b: Int32)
    ensures op.Add? && -TWO31 <= a + b < TWO31 ==> IntArithmetic(op, a, b) == a + b
    ensures op.Subtract? && -TWO31 <= a - b < TWO31 ==> IntArithmetic(op, a, b) == a - b
    ensures op.Multiply? && -TWO31 <= a * b < TWO31 ==> IntArithmetic(op, a, b) == a * b
    ensures op.Divide? && b != 0 ==>
      (IntArithmetic(op, a, b) == TruncDiv(a, b) <==> !(a == -TWO31 && b == -1))
  {
    if op.Divide? && b != 0 { QuotientBounds(a, b); }
  }

  // ----- conjunctions -----

  /** FlattenConjuncts / ExtractConjuncts: the leaves of the AND spine, left to right. */
  function Conjuncts(e: Expr): (cs: seq<Expr>)
    ensures cs != []
  {
    if e.Binary? && e.op.And? then Conjuncts(e.left) + Conjuncts(e.right) else [e]
  }

  /** RebuildConjunction: a left-deep AND of the list. */
  function Conjoin(cs: seq<Expr>): Expr
    requires cs != []
  {
    if |cs| == 1 then cs[0]
    else Binary(And, Conjoin(cs[..|cs| - 1]), cs[|cs| - 1], IntegerT)
  }

  method RebuildConjunction(conjuncts: seq<Expr>) returns (result: Expr)
    requires conjuncts != []
    ensures result == Conjoin(conjuncts)
  {
    result := conjuncts[0];
    assert conjuncts[..1] == [conjuncts[0]];
    for i := 1 to |conjuncts|
      invariant result == Conjoin(conjuncts[..i])
    {
      assert conjuncts[..i + 1][..i] == conjuncts[..i];
      result := Binary(And, result, conjuncts[i], IntegerT);
    }
    assert conjuncts[..|conjuncts|] == conjuncts;
  }

  predicate PassesAll(fpu: FloatUnit, cs: seq<Expr>, env: Env) {
    forall c :: c in cs ==> Passes(fpu, c, env)
  }

  /** Null propagation makes AND exactly the conjunction of passing. */
  lemma PassesAnd(fpu: FloatUnit, l: Expr, r: Expr, ty: ExprType, env: Env)
    ensures Passes(fpu, Binary(And, l, r, ty), env) <==> Passes(fpu, l, env) && Passes(fpu, r, env)
  {
  }

  lemma {:induction false} PassesConjuncts(fpu: FloatUnit, e: Expr, env: Env)
    ensures Passes(fpu, e, env) <==> PassesAll(fpu, Conjuncts(e), env)
  {
    if e.Binary? && e.op.And? {
      PassesConjuncts(fpu, e.left, env);
      PassesConjuncts(fpu, e.right, env);
      PassesAnd(fpu, e.left, e.right, e.arithmeticType, env);
    }
  }

  lemma {:induction false} PassesConjoin(fpu: FloatUnit, cs: seq<Expr>, env: Env)
    requires cs != []
    ensures Passes(fpu, Conjoin(cs), env) <==> PassesAll(fpu, cs, env)
  {
    if |cs| > 1 {
      PassesConjoin(fpu, cs[..|cs| - 1], env);
      PassesAnd(fpu, Conjoin(cs[..|cs| - 1]), cs[|cs| - 1], IntegerT, env);
      SplitLast(cs);
    }
  }

  /** No element of a conjunct list is itself an AND. */
  lemma {:induction false} ConjunctsAreLeaves(e: Expr)
    ensures forall c :: c in Conjuncts(e) ==> !(c.Binary? && c.op.And?) && Conjuncts(c) == [c]
  {
    if e.Binary? && e.op.And? {
      ConjunctsAreLeaves(e.left);
      ConjunctsAreLeaves(e.right);
    }
  }

  function AllConjuncts(cs: seq<Expr>): seq<Expr> {
    Flatten(Map(cs, c => Conjuncts(c)))
  }

  /** Rebuilding loses nothing: the leaves of the AND are the leaves of its parts. */
  lemma {:induction false} ConjunctsOfConjoin(cs: seq<Expr>)
    requires cs != []
    ensures Conjuncts(Conjoin(cs)) == AllConjuncts(cs)
  {
    if |cs| == 1 {
      assert Map(cs, c => Conjuncts(c)) == [] + [Conjuncts(cs[0])];
      FlattenSnoc([], Conjuncts(cs[0]));
      assert Flatten<Expr>([]) + Conjuncts(cs[0]) == Conjuncts(cs[0]);
    } else {
      var init, last := cs[..|cs| - 1], cs[|cs| - 1];
      ConjunctsOfConjoin(init);
      assert Map(cs, c => Conjuncts(c)) == Map(init, c => Conjuncts(c)) + [Conjuncts(last)];
      FlattenSnoc(Map(init, c => Conjuncts(c)), Conjuncts(last));
    }
  }

  lemma {:induction false} AllConjunctsOfLeaves(cs: seq<Expr>)
    requires forall c :: c in cs ==> Conjuncts(c) == [c]
    ensures AllConjuncts(cs) == cs
  {
    if cs != [] {
      var init, last := cs[..|cs| - 1], cs[|cs| - 1];
      assert forall c :: c in init ==> c in cs;
      AllConjunctsOfLeaves(init);
      assert Map(cs, c => Conjuncts(c)) == Map(init, c => Conjuncts(c)) + [Conjuncts(last)];
      FlattenSnoc(Map(init, c => Conjuncts(c)), Conjuncts(last));
    }
  }
}
