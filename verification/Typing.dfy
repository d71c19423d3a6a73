/** The binder's type rules. An expression that passes them can still make the
    evaluator throw: a boolean may be compared, added or projected. */
module Typing {
  import opened Seqs
  import opened Types
  import opened Expressions

  /** ResultTypeForBinaryOp; None is a type error. */
  function ResultTypeForBinaryOp(op: BinaryOp, l: ExprType, r: ExprType): Option<ExprType> {
    if IsLogical(op) then
      (if l == BooleanT && r == BooleanT then Some(BooleanT) else None)
    else if (l == VarcharT) != (r == VarcharT) then None
    else if !IsArithmetic(op) then Some(BooleanT)
    else if l == VarcharT then None
    else if l == FloatT || r == FloatT then Some(FloatT)
    else Some(IntegerT)
  }

  /** The type the binder gives an expression over resolved columns. */
  function BoundType(e: Expr): Option<ExprType> {
    match e
    case Col(ref) => Some(OfTypeId(ref.ty))
    case Const(v) => Some(OfTypeId(LiteralType(v)))
    case Binary(op, l, r, ty) =>
      var lt :- BoundType(l);
      var rt :- BoundType(r);
      var t :- ResultTypeForBinaryOp(op, lt, rt);
      if IsArithmetic(op) && ty != t then None else Some(t)
    case Not(x) =>
      var t :- BoundType(x);
      if t == BooleanT then Some(BooleanT) else None
  }

  lemma {:induction false} BoundTypeIsResultType(e: Expr)
    ensures BoundType(e).Some? ==> BoundType(e).value == ResultType(e)
  {
    match e
    case Binary(_, l, r, _) => BoundTypeIsResultType(l); BoundTypeIsResultType(r);
    case Not(x) => BoundTypeIsResultType(x);
    case _ =>
  }

  /** Every column read is there and has the type the reference announces. */
  predicate Fits(e: Expr, types: seq<TypeId>) {
    forall ref :: ref in CollectColumnRefs(e) ==> ref.ordinal < |types| && types[ref.ordinal] == ref.ty
  }

  lemma FitsParts(e: Expr, types: seq<TypeId>)
    requires Fits(e, types)
    ensures e.Binary? ==> Fits(e.left, types) && Fits(e.right, types)
    ensures e.Not? ==> Fits(e.operand, types)
  {
    if e.Binary? {
      forall ref | ref in CollectColumnRefs(e.left) || ref in CollectColumnRefs(e.right)
        ensures ref in CollectColumnRefs(e)
      {
      }
    }
  }

  /** No comparison or arithmetic has a boolean operand. The binder accepts
      such an operand; the evaluator has no case for it. */
  predicate NoBooleanOperands(e: Expr) {
    match e
    case Binary(op, l, r, _) =>
      && NoBooleanOperands(l) && NoBooleanOperands(r)
      && (IsLogical(op) || (ResultType(l) != BooleanT && ResultType(r) != BooleanT))
    case Not(x) => NoBooleanOperands(x)
    case _ => true
  }

  /** What the binder lets through as a WHERE or HAVING condition. */
  predicate IsPredicate(e: Expr) { BoundType(e) == Some(BooleanT) }

  /** A conjunction is a predicate, and free of boolean operands, as its parts are. */
  lemma {:induction false} ConjunctsTyped(e: Expr)
    requires IsPredicate(e)
    ensures forall c :: c in Conjuncts(e) ==> IsPredicate(c)
    ensures NoBooleanOperands(e) <==> forall c :: c in Conjuncts(e) ==> NoBooleanOperands(c)
  {
    if e.Binary? && e.op.And? {
      ConjunctsTyped(e.left);
      ConjunctsTyped(e.right);
    }
  }

  lemma {:induction false} ConjoinTyped(cs: seq<Expr>)
    requires cs != [] && forall c :: c in cs ==> IsPredicate(c)
    ensures IsPredicate(Conjoin(cs))
    ensures NoBooleanOperands(Conjoin(cs)) <==> forall c :: c in cs ==> NoBooleanOperands(c)
  {
    if |cs| == 1 {
      assert forall c :: c in cs <==> c == cs[0];
    } else {
      var init, last := cs[..|cs| - 1], cs[|cs| - 1];
      SplitLast(cs);
      ConjoinTyped(init);
      assert last in cs;
    }
  }
}
