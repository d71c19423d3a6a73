/** What the operators of an expression mean on one row, said without the
    functions that apply them. */
module Operators {
  import opened Seqs
  import opened Types
  import opened Expressions
  import opened Typing
  import opened Orders

  /** A leaf is the cell it names or the constant it holds. */
  lemma LeavesMean(fpu: FloatUnit, ref: ColumnRef, i: Int32, f: Float32, s: Str, env: Env)
    ensures Eval(fpu, Col(ref), env) == env(ref)
    ensures Eval(fpu, Const(IntL(i)), env) == IntD(i) && Eval(fpu, Const(FloatL(f)), env) == FloatD(f)
    ensures Eval(fpu, Const(StrL(s)), env) == StrD(s)
  {
  }

  // ----- AND, OR, NOT -----

  predicate IsLogic(e: Expr) { e.Not? || (e.Binary? && IsLogical(e.op)) }

  /** The operands below the ANDs, ORs and NOTs of a condition. */
  function Leaves(e: Expr): seq<Expr> {
    match e
    case Binary(And, l, r, _) => Leaves(l) + Leaves(r)
    case Binary(Or, l, r, _) => Leaves(l) + Leaves(r)
    case Not(x) => Leaves(x)
    case _ => [e]
  }

  /** Propositional truth, given which leaves are true. */
  predicate Holds(e: Expr, truth: Expr -> bool) {
    match e
    case Binary(And, l, r, _) => Holds(l, truth) && Holds(r, truth)
    case Binary(Or, l, r, _) => Holds(l, truth) || Holds(r, truth)
    case Not(x) => !Holds(x, truth)
    case _ => truth(e)
  }

  function Passing(fpu: FloatUnit, env: Env): Expr -> bool { (e: Expr) => Passes(fpu, e, env) }

  ghost predicate AllBoolean(fpu: FloatUnit, es: seq<Expr>, env: Env) {
    forall e :: e in es ==> Eval(fpu, e, env).BoolD?
  }

  /** A condition has a truth value exactly when all its leaves have one, also
      where two-valued logic would not look at them; then it is the
      propositional one. */
  lemma {:induction false} LogicMeans(fpu: FloatUnit, e: Expr, env: Env)
    requires IsLogic(e)
    ensures Eval(fpu, e, env) == Null <==> !AllBoolean(fpu, Leaves(e), env)
    ensures AllBoolean(fpu, Leaves(e), env) ==> Eval(fpu, e, env) == BoolD(Holds(e, Passing(fpu, env)))
  {
    match e
    case Binary(_, l, r, _) => OperandMeans(fpu, l, env); OperandMeans(fpu, r, env);
    case Not(x) => OperandMeans(fpu, x, env);
  }

  lemma {:induction false} OperandMeans(fpu: FloatUnit, e: Expr, env: Env)
    ensures Eval(fpu, e, env).BoolD? <==> AllBoolean(fpu, Leaves(e), env)
    ensures AllBoolean(fpu, Leaves(e), env) ==> Eval(fpu, e, env) == BoolD(Holds(e, Passing(fpu, env)))
  {
    if IsLogic(e) {
      match e
      case Binary(_, l, r, _) => OperandMeans(fpu, l, env); OperandMeans(fpu, r, env);
      case Not(x) => OperandMeans(fpu, x, env);
    } else {
      assert Leaves(e) == [e];
    }
  }

  /** OR passes when one side does and the other has a truth value. */
  lemma PassesOr(fpu: FloatUnit, l: Expr, r: Expr, ty: ExprType, env: Env)
    ensures Passes(fpu, Binary(Or, l, r, ty), env) <==>
      || (Passes(fpu, l, env) && Eval(fpu, r, env).BoolD?)
      || (Passes(fpu, r, env) && Eval(fpu, l, env).BoolD?)
  {
  }

  lemma DeMorgan(fpu: FloatUnit, l: Expr, r: Expr, ty: ExprType, env: Env)
    ensures Eval(fpu, Not(Binary(And, l, r, ty)), env) == Eval(fpu, Binary(Or, Not(l), Not(r), ty), env)
    ensures Eval(fpu, Not(Binary(Or, l, r, ty)), env) == Eval(fpu, Binary(And, Not(l), Not(r), ty), env)
  {
  }

  // ----- comparisons -----

  predicate IsComparison(op: BinaryOp) { !IsArithmetic(op) && !IsLogical(op) }

  predicate IsNumber(d: Datum) { d.IntD? || d.FloatD? }

  /** The pattern a number is compared by when the other side is a FLOAT. */
  function AsFloat(fpu: FloatUnit, d: Datum): Float32
    requires IsNumber(d)
  {
    if d.IntD? then fpu.ofInt(d.i) else d.f
  }

  /** A comparison is NULL exactly when it has not two strings or two numbers to compare. */
  lemma ComparisonNullIff(fpu: FloatUnit, op: BinaryOp, l: Expr, r: Expr, ty: ExprType, env: Env)
    requires IsComparison(op)
    ensures var x, y, d := Eval(fpu, l, env), Eval(fpu, r, env), Eval(fpu, Binary(op, l, r, ty), env);
      && (d == Null <==> !(x.StrD? && y.StrD?) && !(IsNumber(x) && IsNumber(y)))
      && (d != Null ==> d.BoolD?)
  {
  }

  lemma IntegersCompare(fpu: FloatUnit, op: BinaryOp, l: Expr, r: Expr, ty: ExprType, env: Env)
    requires Eval(fpu, l, env).IntD? && Eval(fpu, r, env).IntD?
    ensures var a, b, passes := Eval(fpu, l, env).i, Eval(fpu, r, env).i, Passes(fpu, Binary(op, l, r, ty), env);
      && (op.Equal? ==> (passes <==> a == b)) && (op.NotEqual? ==> (passes <==> a != b))
      && (op.LessThan? ==> (passes <==> a < b)) && (op.LessEqual? ==> (passes <==> a <= b))
      && (op.GreaterThan? ==> (passes <==> a > b)) && (op.GreaterEqual? ==> (passes <==> a >= b))
  {
  }

  /** Strings compare lexicographically. */
  lemma StringsCompare(fpu: FloatUnit, op: BinaryOp, l: Expr, r: Expr, ty: ExprType, env: Env)
    requires Eval(fpu, l, env).StrD? && Eval(fpu, r, env).StrD?
    ensures var a, b, passes := Eval(fpu, l, env).s, Eval(fpu, r, env).s, Passes(fpu, Binary(op, l, r, ty), env);
      && (op.Equal? ==> (passes <==> a == b)) && (op.NotEqual? ==> (passes <==> a != b))
      && (op.LessThan? ==> (passes <==> Precedes(a, b)))
      && (op.LessEqual? ==> (passes <==> Precedes(a, b) || a == b))
      && (op.GreaterThan? ==> (passes <==> Precedes(b, a)))
      && (op.GreaterEqual? ==> (passes <==> Precedes(b, a) || a == b))
  {
    StrLessIsLexicographic(Eval(fpu, l, env).s, Eval(fpu, r, env).s);
    StrLessIsLexicographic(Eval(fpu, r, env).s, Eval(fpu, l, env).s);
  }

  /** With a FLOAT on either side numbers compare by value; of a NaN only `!=` holds. */
  lemma FloatsCompare(fpu: FloatUnit, op: BinaryOp, l: Expr, r: Expr, ty: ExprType, env: Env)
    requires IsNumber(Eval(fpu, l, env)) && IsNumber(Eval(fpu, r, env))
    requires Eval(fpu, l, env).FloatD? || Eval(fpu, r, env).FloatD?
    ensures var a, b := AsFloat(fpu, Eval(fpu, l, env)), AsFloat(fpu, Eval(fpu, r, env));
      var passes, numbers := Passes(fpu, Binary(op, l, r, ty), env), !IsNaN(a) && !IsNaN(b);
      && (op.Equal? ==> (passes <==> numbers && Scaled(a) == Scaled(b)))
      && (op.NotEqual? ==> (passes <==> !numbers || Scaled(a) != Scaled(b)))
      && (op.LessThan? ==> (passes <==> numbers && Scaled(a) < Scaled(b)))
      && (op.LessEqual? ==> (passes <==> numbers && Scaled(a) <= Scaled(b)))
      && (op.GreaterThan? ==> (passes <==> numbers && Scaled(a) > Scaled(b)))
      && (op.GreaterEqual? ==> (passes <==> numbers && Scaled(a) >= Scaled(b)))
  {
    var a, b := AsFloat(fpu, Eval(fpu, l, env)), AsFloat(fpu, Eval(fpu, r, env));
    FloatOrderIsNumeric(a, b);
    FloatOrderIsNumeric(b, a);
  }

  // ----- arithmetic -----

  /** Integer arithmetic is NULL exactly when an operand is no integer or the
      divisor is zero. */
  lemma IntegerNullIff(fpu: FloatUnit, op: BinaryOp, l: Expr, r: Expr, ty: ExprType, env: Env)
    requires IsArithmetic(op) && ty != FloatT
    ensures var x, y, d := Eval(fpu, l, env), Eval(fpu, r, env), Eval(fpu, Binary(op, l, r, ty), env);
      && (d == Null <==> !(x.IntD? && y.IntD?) || (op.Divide? && y.i == 0))
      && (d != Null ==> d.IntD?)
  {
  }

  predicate InInt32(x: int) { -TWO31 <= x < TWO31 }

  /** The quotient truncates toward zero: its remainder is smaller than the
      divisor and has the sign of the dividend. */
  predicate IsQuotient(q: int, a: int, b: int) {
    Magnitude(a - b * q) < Magnitude(b) && (a >= 0 ==> a - b * q >= 0) && (a <= 0 ==> a - b * q <= 0)
  }

  /** In the range of INTEGER the result is the exact one. */
  lemma IntegersCombine(fpu: FloatUnit, op: BinaryOp, l: Expr, r: Expr, ty: ExprType, env: Env)
    requires IsArithmetic(op) && ty != FloatT && Eval(fpu, Binary(op, l, r, ty), env) != Null
    ensures Eval(fpu, l, env).IntD? && Eval(fpu, r, env).IntD? && Eval(fpu, Binary(op, l, r, ty), env).IntD?
    ensures var a, b := Eval(fpu, l, env).i, Eval(fpu, r, env).i;
      var c := Eval(fpu, Binary(op, l, r, ty), env).i;
      && (op.Add? && InInt32(a + b) ==> c == a + b)
      && (op.Subtract? && InInt32(a - b) ==> c == a - b)
      && (op.Multiply? && InInt32(a * b) ==> c == a * b)
      && (op.Divide? && !(a == -TWO31 && b == -1) ==> IsQuotient(c, a, b))
  {
    var a, b := Eval(fpu, l, env).i, Eval(fpu, r, env).i;
    IntArithmeticExact(op, a, b);
    if op.Divide? { TruncDivExact(a, b); }
  }

  /** Float arithmetic is NULL exactly when an operand is no number; otherwise it
      is the operation of the float unit that the operator names. */
  lemma FloatsCombine(fpu: FloatUnit, op: BinaryOp, l: Expr, r: Expr, env: Env)
    requires IsArithmetic(op)
    ensures var x, y, d := Eval(fpu, l, env), Eval(fpu, r, env), Eval(fpu, Binary(op, l, r, FloatT), env);
      && (d == Null <==> !(IsNumber(x) && IsNumber(y)))
      && (d != Null ==>
          var a, b := AsFloat(fpu, x), AsFloat(fpu, y);
          && (op.Add? ==> d == FloatD(fpu.add(a, b))) && (op.Subtract? ==> d == FloatD(fpu.sub(a, b)))
          && (op.Multiply? ==> d == FloatD(fpu.mul(a, b))) && (op.Divide? ==> d == FloatD(fpu.div(a, b))))
  {
  }

  // ----- types -----

  predicate OperandsFit(op: BinaryOp, l: ExprType, r: ExprType) {
    && (IsLogical(op) ==> l == BooleanT && r == BooleanT)
    && (IsComparison(op) ==> (l == VarcharT <==> r == VarcharT))
    && (IsArithmetic(op) ==> l != VarcharT && r != VarcharT)
  }

  /** Which operations the binder accepts, and with what type: text only among
      text, truth values for AND and OR, and FLOAT as soon as one side is. */
  lemma AcceptedIff(op: BinaryOp, l: Expr, r: Expr, ty: ExprType)
    ensures var e, lt, rt := Binary(op, l, r, ty), BoundType(l), BoundType(r);
      && (BoundType(e).Some? <==>
          && lt.Some? && rt.Some? && OperandsFit(op, lt.value, rt.value)
          && (IsArithmetic(op) ==> ty == if FloatT in [lt.value, rt.value] then FloatT else IntegerT))
      && (BoundType(e).Some? ==> BoundType(e).value == if IsArithmetic(op) then ty else BooleanT)
  {
  }

  /** NOT takes a truth value only. */
  lemma NotAcceptedIff(x: Expr)
    ensures BoundType(Not(x)).Some? <==> BoundType(x) == Some(BooleanT)
    ensures BoundType(Not(x)).Some? ==> BoundType(Not(x)).value == BooleanT
  {
  }

  predicate HasKind(d: Datum, t: ExprType) {
    match d
    case Null => true
    case IntD(_) => t == IntegerT
    case FloatD(_) => t == FloatT
    case StrD(_) => t == VarcharT
    case BoolD(_) => t == BooleanT
  }

  /** An accepted expression over typed columns gives NULL or a value of its type. */
  lemma {:induction false} AcceptedIsTyped(fpu: FloatUnit, e: Expr, env: Env)
    requires BoundType(e).Some? && forall ref :: ref in CollectColumnRefs(e) ==> HasType(env(ref), ref.ty)
    ensures HasKind(Eval(fpu, e, env), BoundType(e).value)
  {
    match e
    case Col(ref) => assert ref in CollectColumnRefs(e);
    case Const(_) =>
    case Binary(op, l, r, ty) =>
      AcceptedIff(op, l, r, ty);
      AcceptedIsTyped(fpu, l, env);
      AcceptedIsTyped(fpu, r, env);
    case Not(x) => AcceptedIsTyped(fpu, x, env);
  }

  // ----- the columns an expression reads -----

  /** The reference stands at a leaf of the expression. */
  predicate Mentions(e: Expr, ref: ColumnRef) {
    match e
    case Col(own) => own == ref
    case Const(_) => false
    case Binary(_, l, r, _) => Mentions(l, ref) || Mentions(r, ref)
    case Not(x) => Mentions(x, ref)
  }

  lemma {:induction false} CollectedIffMentioned(e: Expr, ref: ColumnRef)
    ensures ref in CollectColumnRefs(e) <==> Mentions(e, ref)
  {
    match e
    case Binary(_, l, r, _) => CollectedIffMentioned(l, ref); CollectedIffMentioned(r, ref);
    case Not(x) => CollectedIffMentioned(x, ref);
    case _ =>
  }
}
