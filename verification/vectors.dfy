/** Three-dimensional vectors over the reals: componentwise arithmetic, the
    cross product, comparisons by magnitude and item access by coordinate
    name. Magnitudes are compared through their squares. */
module Vectors {
  import opened Wrappers

  datatype Vector = Vector(x: real, y: real, z: real)

  const Zero: Vector := Vector(0.0, 0.0, 0.0)

  function Dot(a: Vector, b: Vector): real {
    a.x * b.x + a.y * b.y + a.z * b.z
  }

  /** `__add__`: taking `b` away again gives `a` back. */
  function Add(a: Vector, b: Vector): (r: Vector)
    ensures r.x - b.x == a.x && r.y - b.y == a.y && r.z - b.z == a.z
  {
    Vector(a.x + b.x, a.y + b.y, a.z + b.z)
  }

  /** `__sub__`: adding `b` back gives `a`. */
  function Sub(a: Vector, b: Vector): (r: Vector)
    ensures r.x + b.x == a.x && r.y + b.y == a.y && r.z + b.z == a.z
  {
    Vector(a.x - b.x, a.y - b.y, a.z - b.z)
  }

  /** `v * k` and, through `__rmul__`, `k * v`: the factor 1 leaves the
      vector as it is and the factor 0 sends it to the zero vector. */
  function Scale(v: Vector, k: real): (r: Vector)
    ensures k == 1.0 ==> r == v
    ensures k == 0.0 ==> r == Zero
  {
    Vector(v.x * k, v.y * k, v.z * k)
  }

  /** Scaling by a non-zero factor is undone by scaling by its inverse. */
  lemma ScaleInverse(v: Vector, k: real)
    requires k != 0.0
    ensures Scale(Scale(v, k), 1.0 / k) == v
  {
    ScaleCoordinate(v.x, 0.0, k, 1.0 / k);
    ScaleCoordinate(v.y, 0.0, k, 1.0 / k);
    ScaleCoordinate(v.z, 0.0, k, 1.0 / k);
    assert k * (1.0 / k) == 1.0;
  }

  /** `a * b` for two vectors: the cross product, orthogonal to both
      factors. */
  function Cross(a: Vector, b: Vector): (r: Vector)
    ensures Dot(a, r) == 0.0 && Dot(b, r) == 0.0
  {
    assert a.x * (a.y * b.z - a.z * b.y) == a.x * a.y * b.z - a.x * a.z * b.y;
    assert a.y * (a.z * b.x - a.x * b.z) == a.y * a.z * b.x - a.y * a.x * b.z;
    assert a.z * (a.x * b.y - a.y * b.x) == a.z * a.x * b.y - a.z * a.y * b.x;
    assert b.x * (a.y * b.z - a.z * b.y) == b.x * a.y * b.z - b.x * a.z * b.y;
    assert b.y * (a.z * b.x - a.x * b.z) == b.y * a.z * b.x - b.y * a.x * b.z;
    assert b.z * (a.x * b.y - a.y * b.x) == b.z * a.x * b.y - b.z * a.y * b.x;
    Vector(a.y * b.z - a.z * b.y, a.z * b.x - a.x * b.z, a.x * b.y - a.y * b.x)
  }

  /** Subtraction undoes addition, and addition is commutative. */
  lemma AddSubInverse(a: Vector, b: Vector)
    ensures Sub(Add(a, b), b) == a
    ensures Add(a, b) == Add(b, a)
    ensures Add(Sub(a, b), b) == a
  {
  }

  /** Scaling distributes over addition and composes by multiplying the
      factors. */
  lemma ScaleLaws(a: Vector, b: Vector, k: real, m: real)
    ensures Scale(Add(a, b), k) == Add(Scale(a, k), Scale(b, k))
    ensures Scale(Scale(a, k), m) == Scale(a, k * m)
    ensures Scale(a, 1.0) == a && Scale(a, 0.0) == Zero
  {
    ScaleCoordinate(a.x, b.x, k, m);
    ScaleCoordinate(a.y, b.y, k, m);
    ScaleCoordinate(a.z, b.z, k, m);
    var l := Scale(Add(a, b), k);
    var r := Add(Scale(a, k), Scale(b, k));
    assert l.x == r.x && l.y == r.y && l.z == r.z;
    var l' := Scale(Scale(a, k), m);
    var r' := Scale(a, k * m);
    assert l'.x == r'.x && l'.y == r'.y && l'.z == r'.z;
  }

  /** One coordinate of the scaling laws. */
  lemma ScaleCoordinate(p: real, q: real, k: real, m: real)
    ensures (p + q) * k == p * k + q * k
    ensures (p * k) * m == p * (k * m)
  {
  }

  /** The cross product is anti-commutative, vanishes on a vector with
      itself, and is orthogonal to both factors. */
  lemma CrossLaws(a: Vector, b: Vector)
    ensures Cross(a, b) == Scale(Cross(b, a), -1.0)
    ensures Cross(a, a) == Zero
  {
  }

  /** `__eq__`: all three coordinates agree, which is equality of the
      vectors as values. */
  function Equal(a: Vector, b: Vector): (r: bool)
    ensures r <==> a == b
  {
    a.x == b.x && a.y == b.y && a.z == b.z
  }

  /** `__ne__`: some coordinate differs. */
  function NotEqual(a: Vector, b: Vector): (r: bool)
    ensures r <==> a.x != b.x || a.y != b.y || a.z != b.z
  {
    !Equal(a, b)
  }

  /** Coordinate equality is value equality. */
  lemma EqualIsIdentity(a: Vector, b: Vector)
    ensures Equal(a, b) <==> a == b
    ensures NotEqual(a, b) <==> a != b
  {
  }

  /** The square of the magnitude. */
  function SqMagnitude(v: Vector): (r: real)
    ensures r >= 0.0
  {
    v.x * v.x + v.y * v.y + v.z * v.z
  }

  /** `__lt__`, on squared magnitudes: strict, so never between equal
      vectors. */
  function Less(a: Vector, b: Vector): (r: bool)
    ensures r ==> a != b
  {
    SqMagnitude(a) < SqMagnitude(b)
  }

  /** `__gt__`: `a > b` is `b < a`. */
  function Greater(a: Vector, b: Vector): (r: bool)
    ensures r <==> Less(b, a)
  {
    SqMagnitude(a) > SqMagnitude(b)
  }

  /** Comparing squares of non-negative magnitudes orders them as the
      magnitudes themselves: for any square roots `ma` and `mb`, `a < b`
      holds iff `ma < mb`. */
  lemma SquaresOrderMagnitudes(a: Vector, b: Vector, ma: real, mb: real)
    requires ma >= 0.0 && mb >= 0.0
    requires ma * ma == SqMagnitude(a) && mb * mb == SqMagnitude(b)
    ensures Less(a, b) <==> ma < mb
    ensures Greater(a, b) <==> ma > mb
  {
    if ma < mb {
      SquareStrict(ma, mb);
    } else if ma > mb {
      SquareStrict(mb, ma);
    }
  }

  lemma SquareStrict(p: real, q: real)
    requires 0.0 <= p < q
    ensures p * p < q * q
  {
    assert p * (q - p) >= 0.0;
    assert q * (q - p) > 0.0;
  }

  /** `__le__` is "less or equal as vectors", not "magnitude at most": it
      never holds together with `a > b`. */
  function LessEq(a: Vector, b: Vector): (r: bool)
    ensures r ==> !Greater(a, b)
  {
    Less(a, b) || Equal(a, b)
  }

  /** `__ge__`: `a >= b` is `b <= a`. */
  function GreaterEq(a: Vector, b: Vector): (r: bool)
    ensures r <==> LessEq(b, a)
  {
    Greater(a, b) || Equal(a, b)
  }

  /** Distinct vectors of the same magnitude are neither `<=` nor `>=` each
      other. */
  lemma EqualMagnitudeIncomparable(a: Vector, b: Vector)
    requires a != b && SqMagnitude(a) == SqMagnitude(b)
    ensures !LessEq(a, b) && !GreaterEq(a, b)
  {
  }

  /** For example the two unit vectors along x and y. */
  lemma UnitVectorsIncomparable()
    ensures !LessEq(Vector(1.0, 0.0, 0.0), Vector(0.0, 1.0, 0.0))
    ensures !GreaterEq(Vector(1.0, 0.0, 0.0), Vector(0.0, 1.0, 0.0))
  {
  }

  /** The comparison the docstrings of `__le__` describe: the magnitude is
      at most the other's, which is exactly "not greater". */
  function AtMost(a: Vector, b: Vector): (r: bool)
    ensures r <==> !Greater(a, b)
  {
    SqMagnitude(a) <= SqMagnitude(b)
  }

  /** The comparison the docstrings of `__ge__` describe: `b` is at most
      `a`. */
  function AtLeast(a: Vector, b: Vector): (r: bool)
    ensures r <==> AtMost(b, a)
  {
    SqMagnitude(a) >= SqMagnitude(b)
  }

  /** The magnitude comparisons order the magnitudes themselves and are
      total: of any two vectors one is at most the other. */
  lemma AtMostOrdersMagnitudes(a: Vector, b: Vector, ma: real, mb: real)
    requires ma >= 0.0 && mb >= 0.0
    requires ma * ma == SqMagnitude(a) && mb * mb == SqMagnitude(b)
    ensures AtMost(a, b) <==> ma <= mb
    ensures AtLeast(a, b) <==> ma >= mb
    ensures AtMost(a, b) || AtLeast(a, b)
  {
    SquaresOrderMagnitudes(a, b, ma, mb);
  }

  /** `<=` as written implies the magnitude comparison, and the two differ
      exactly on distinct vectors of the same magnitude. */
  lemma LessEqAgreesWithAtMost(a: Vector, b: Vector)
    ensures LessEq(a, b) ==> AtMost(a, b)
    ensures LessEq(a, b) == AtMost(a, b) <==> a == b || SqMagnitude(a) != SqMagnitude(b)
    ensures GreaterEq(a, b) == AtLeast(a, b) <==> a == b || SqMagnitude(a) != SqMagnitude(b)
  {
  }

  /** `__getitem__` for the coordinate names; any other key is missing. */
  function Get(v: Vector, key: string): (r: Option<real>)
    ensures r.Some? <==> key == "x" || key == "y" || key == "z"
    ensures key == "x" ==> r == Some(v.x)
    ensures key == "y" ==> r == Some(v.y)
    ensures key == "z" ==> r == Some(v.z)
  {
    if key == "x" then Some(v.x)
    else if key == "y" then Some(v.y)
    else if key == "z" then Some(v.z)
    else None
  }

  /** `__setitem__`: sets the named coordinate; any other key is ignored. */
  function Set(v: Vector, key: string, value: real): (r: Vector)
    ensures Get(v, key).None? ==> r == v
  {
    if key == "x" then v.(x := value)
    else if key == "y" then v.(y := value)
    else if key == "z" then v.(z := value)
    else v
  }

  /** Reading back a coordinate just set gives the value; every other
      coordinate keeps its value. */
  lemma SetThenGet(v: Vector, key: string, other: string, value: real)
    requires Get(v, key).Some? && other != key
    ensures Get(Set(v, key, value), key) == Some(value)
    ensures Get(Set(v, key, value), other) == Get(v, other)
  {
  }
}
