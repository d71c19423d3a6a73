/** Machine-level values: bytes, 32-bit integers, IEEE single-precision bit
    patterns and byte strings, with the orders C++ gives them. */
module Types {

  const TWO31: int := 0x8000_0000
  const TWO32: int := 0x1_0000_0000
  const TWO64: int := 0x1_0000_0000_0000_0000

  const PAGE_SIZE: nat := 4096
  const VECTOR_SIZE: nat := 1024
  const ROW_GROUP_SIZE: nat := 10240
  const PREFIX_LENGTH: nat := 8

  type Byte = b: int | 0 <= b < 256
  type U32 = u: int | 0 <= u < TWO32
  type U64 = u: int | 0 <= u < TWO64
  type Int32 = i: int | -TWO31 <= i < TWO31

  /** A float is its bit pattern, so key equality is bit equality. */
  type Float32 = bits: int | 0 <= bits < TWO32

  /** The double in which float sums accumulate. */
  type Float64 = bits: int | 0 <= bits < TWO64

  /** A VARCHAR column keeps its offsets in int32, which bounds every string. */
  type Str = s: seq<Byte> | |s| < TWO31 witness []

  datatype TypeId = Integer | Float | Varchar

  /** A cell or an evaluation result; NULL carries no value. */
  datatype Datum =
    | Null
    | IntD(i: Int32)
    | FloatD(f: Float32)
    | StrD(s: Str)
    | BoolD(b: bool)

  /** The cells a column of the given type may hold. */
  predicate HasType(d: Datum, ty: TypeId) {
    match d
    case Null => true
    case IntD(_) => ty == Integer
    case FloatD(_) => ty == Float
    case StrD(_) => ty == Varchar
    case BoolD(_) => false
  }

  function WrapInt32(x: int): (r: Int32)
    ensures (r - x) % TWO32 == 0
    ensures -TWO31 <= x < TWO31 ==> r == x
  {
    var m := x % TWO32;
    if m < TWO31 then m else m - TWO32
  }

  /** C++ integer division truncates toward zero. */
  function TruncDiv(a: int, b: int): (q: int)
    requires b != 0
  {
    var m := (if a < 0 then -a else a) / (if b < 0 then -b else b);
    if (a < 0) == (b < 0) then m else -m
  }

  predicate IsNaN(f: Float32) {
    f % TWO31 > 0x7F80_0000
  }

  /** Sign-magnitude reading of the pattern; both zeros map to 0. */
  function FloatKey(f: Float32): int {
    if f < TWO31 then f else TWO31 - f
  }

  predicate FloatLess(a: Float32, b: Float32) {
    !IsNaN(a) && !IsNaN(b) && FloatKey(a) < FloatKey(b)
  }

  /** C++ `==` on floats: +0 equals -0 and a NaN equals nothing. */
  predicate FloatEqual(a: Float32, b: Float32) {
    !IsNaN(a) && !IsNaN(b) && FloatKey(a) == FloatKey(b)
  }

  /** Byte-wise lexicographic order, as std::string_view compares. */
  predicate StrLess(a: seq<Byte>, b: seq<Byte>)
    decreases |a|
  {
    if b == [] then false
    else if a == [] then true
    else if a[0] != b[0] then a[0] < b[0]
    else StrLess(a[1..], b[1..])
  }

  /** Exactly one of the three orders holds. */
  lemma {:induction false} StrLessTotal(a: seq<Byte>, b: seq<Byte>)
    ensures !(StrLess(a, b) && StrLess(b, a))
    ensures StrLess(a, b) || StrLess(b, a) <==> a != b
    decreases |a|
  {
    if a != [] && b != [] && a[0] == b[0] {
      StrLessTotal(a[1..], b[1..]);
      assert a == [a[0]] + a[1..] && b == [b[0]] + b[1..];
    }
  }

  lemma {:induction false} StrLessTransitive(a: seq<Byte>, b: seq<Byte>, c: seq<Byte>)
    requires StrLess(a, b) && StrLess(b, c)
    ensures StrLess(a, c)
    decreases |a|
  {
    if a != [] && a[0] == b[0] && b[0] == c[0] {
      StrLessTransitive(a[1..], b[1..], c[1..]);
    }
  }

  /** The floating-point unit. Rounding is not modelled: every law below holds
      for whatever these operations compute. */
  datatype FloatUnit = FloatUnit(
    add: (Float32, Float32) -> Float32,
    sub: (Float32, Float32) -> Float32,
    mul: (Float32, Float32) -> Float32,
    div: (Float32, Float32) -> Float32,
    ofInt: Int32 -> Float32,
    zero: Float64,
    accumulate: (Float64, Float32) -> Float64,
    narrow: Float64 -> Float32,
    average: (Float64, nat) -> Float32,
    intAverage: (int, nat) -> Float32)
}
