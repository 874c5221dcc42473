// The rectangle and vector algebra of modules/geometry.py, over exact reals.
// Vectors and rectangles are mutable objects in the source: the values they
// hold are the datatypes `Vec` and `Rect`, the objects whose fields the
// in-place operations overwrite are the classes `Vector` and `Rectangle`.
// Magnitudes, angles and random vectors (square roots and trigonometry)
// are not part of this model.

module Geometry {
  import opened Wrappers

  datatype GeometryError =
    | EmptyInput      // min() or max() over no arguments: ValueError
    | VectorCast      // an operand that is neither a vector nor an accepted scalar
    | DivisionByZero  // ZeroDivisionError

  // ---------------------------------------------------------------- vectors

  datatype Vec = Vec(x: real, y: real)

  /** The right-hand operand of a vector operator: something with two
    * coordinates (a vector or a pair), or a plain number. */
  datatype Operand = Pair(px: real, py: real) | Scalar(s: real)

  /** The arithmetic operators the source overloads componentwise. */
  datatype ArithOp = Plus | Minus | Times | Divide

  /** `scalar_ok`: multiplication and division accept a number; addition and
    * subtraction accept only zero, so that `sum()` can start from 0. */
  predicate ScalarOk(op: ArithOp) {
    op == Times || op == Divide
  }

  function Apply(op: ArithOp, a: real, b: real): (r: Result<real, GeometryError>)
    ensures r.Err? <==> op == Divide && b == 0.0
  {
    match op
    case Plus => Ok(a + b)
    case Minus => Ok(a - b)
    case Times => Ok(a * b)
    case Divide => if b == 0.0 then Err(DivisionByZero) else Ok(a / b)
  }

  function ApplyBoth(op: ArithOp, a: real, b: real, c: real, d: real): (r: Result<Vec, GeometryError>)
    ensures r.Ok? <==> Apply(op, a, b).Ok? && Apply(op, c, d).Ok?
    ensures r.Ok? ==> r.value == Vec(Apply(op, a, b).value, Apply(op, c, d).value)
  {
    var rx := Apply(op, a, b);
    var ry := Apply(op, c, d);
    if rx.Err? then Err(rx.error)
    else if ry.Err? then Err(ry.error)
    else Ok(Vec(rx.value, ry.value))
  }

  /** `_overload_left_side`: `v op other`. */
  function LeftSide(op: ArithOp, v: Vec, other: Operand): (r: Result<Vec, GeometryError>)
    ensures other.Scalar? && other.s != 0.0 && !ScalarOk(op) ==> r == Err(VectorCast)
    ensures other.Pair? && op != Divide ==> r.Ok?
  {
    match other
    case Pair(ox, oy) => ApplyBoth(op, v.x, ox, v.y, oy)
    case Scalar(s) =>
      if s == 0.0 || ScalarOk(op) then ApplyBoth(op, v.x, s, v.y, s) else Err(VectorCast)
  }

  /** `_overload_right_side`: `other op v`, with the operands swapped. */
  function RightSide(op: ArithOp, v: Vec, other: Operand): (r: Result<Vec, GeometryError>)
    ensures other.Scalar? && other.s != 0.0 && !ScalarOk(op) ==> r == Err(VectorCast)
    ensures other.Pair? && op != Divide ==> r.Ok?
  {
    match other
    case Pair(ox, oy) => ApplyBoth(op, ox, v.x, oy, v.y)
    case Scalar(s) =>
      if s == 0.0 || ScalarOk(op) then ApplyBoth(op, s, v.x, s, v.y) else Err(VectorCast)
  }

  function AsOperand(v: Vec): Operand {
    Pair(v.x, v.y)
  }

  /** Vector sums commute, and subtracting undoes adding. */
  lemma AddSubtract(v: Vec, w: Vec)
    ensures LeftSide(Plus, v, AsOperand(w)) == RightSide(Plus, v, AsOperand(w))
    ensures LeftSide(Minus, LeftSide(Plus, v, AsOperand(w)).value, AsOperand(w)) == Ok(v)
  {
  }

  /** `0 + v` and `v + 0` are `v`, which is what `sum()` relies on; any other
    * number is refused. */
  lemma ZeroIsNeutral(v: Vec, s: real)
    ensures RightSide(Plus, v, Scalar(0.0)) == Ok(v) && LeftSide(Plus, v, Scalar(0.0)) == Ok(v)
    ensures s != 0.0 ==> RightSide(Plus, v, Scalar(s)).Err? && LeftSide(Minus, v, Scalar(s)).Err?
  {
  }

  /** Scaling by a number commutes, and dividing by it undoes it. */
  lemma ScaleUnscale(v: Vec, s: real)
    ensures LeftSide(Times, v, Scalar(s)) == RightSide(Times, v, Scalar(s))
    ensures s != 0.0 ==> LeftSide(Divide, LeftSide(Times, v, Scalar(s)).value, Scalar(s)) == Ok(v)
    ensures s == 0.0 ==> LeftSide(Divide, v, Scalar(s)) == Err(DivisionByZero)
  {
    if s != 0.0 {
      var w := Scaled(v, s);
      Unscaled(w, s, v);
    }
  }

  lemma Scaled(v: Vec, s: real) returns (w: Vec)
    ensures w == Vec(v.x * s, v.y * s) && LeftSide(Times, v, Scalar(s)) == Ok(w)
  {
    w := Vec(v.x * s, v.y * s);
    var r := ApplyBoth(Times, v.x, s, v.y, s);
    assert r.Ok? && r.value.x == w.x && r.value.y == w.y;
    assert r.value == w;
  }

  lemma Unscaled(w: Vec, s: real, v: Vec)
    requires s != 0.0 && w == Vec(v.x * s, v.y * s)
    ensures LeftSide(Divide, w, Scalar(s)) == Ok(v)
  {
    Cancel(v.x, s);
    Cancel(v.y, s);
    var r := ApplyBoth(Divide, w.x, s, w.y, s);
    assert r.Ok? && r.value.x == v.x && r.value.y == v.y;
    assert r.value == v;
  }

  lemma Cancel(a: real, s: real)
    requires s != 0.0
    ensures (a * s) / s == a
  {
    var q := (a * s) / s;
    assert q * s == a * s;
    assert (q - a) * s == 0.0;
  }

  function Neg(v: Vec): (r: Vec)
    ensures LeftSide(Plus, v, AsOperand(r)) == Ok(Vec(0.0, 0.0))
  {
    Vec(-v.x, -v.y)
  }

  /** `dot_product`: symmetric, and never negative for a vector with
    * itself. */
  function Dot(v: Vec, w: Vec): (r: real)
    ensures r == w.x * v.x + w.y * v.y
    ensures v == w ==> r >= 0.0
  {
    v.x * w.x + v.y * w.y
  }

  /** `perp_product`: it changes sign when the operands swap, and is zero
    * for a vector with itself. */
  function Perp(v: Vec, w: Vec): (r: real)
    ensures r == -(w.x * v.y - w.y * v.x)
    ensures v == w ==> r == 0.0
  {
    v.x * w.y - v.y * w.x
  }

  /** `get_orthogonal`: a quarter turn, orthogonal to `v` and of the same
    * squared length. */
  function Orthogonal(v: Vec): (r: Vec)
    ensures Dot(v, r) == 0.0 && Dot(r, r) == Dot(v, v)
    ensures Perp(v, r) == Dot(v, v)
  {
    Vec(-v.y, v.x)
  }

  /** The perp product is antisymmetric and vanishes on a vector and itself. */
  lemma PerpAntisymmetric(v: Vec, w: Vec)
    ensures Perp(v, w) == -Perp(w, v) && Perp(v, v) == 0.0
  {
  }

  function Abs(a: real): (r: real)
    ensures r >= 0.0 && (r == a || r == -a)
  {
    if a < 0.0 then -a else a
  }

  /** `get_manhattan`: `sum(abs(other - self))`. */
  function Manhattan(v: Vec, w: Vec): (d: real)
    ensures d >= 0.0
    ensures d == 0.0 <==> v == w
  {
    Abs(w.x - v.x) + Abs(w.y - v.y)
  }

  lemma ManhattanSymmetric(v: Vec, w: Vec)
    ensures Manhattan(v, w) == Manhattan(w, v)
  {
  }

  /** `get_projection`: the part of `v` along `axis`, an error for the null
    * axis. */
  function Projection(v: Vec, axis: Vec): (r: Result<Vec, GeometryError>)
    ensures r.Err? <==> Dot(axis, axis) == 0.0
    ensures r.Ok? ==> Perp(axis, r.value) == 0.0
  {
    var aa := Dot(axis, axis);
    if aa == 0.0 then Err(DivisionByZero)
    else
      var scale := Dot(axis, v) / aa;
      assert Perp(axis, Vec(axis.x * scale, axis.y * scale)) == scale * (axis.x * axis.y - axis.y * axis.x);
      Ok(Vec(axis.x * scale, axis.y * scale))
  }

  /** `get_components`: the normal part and the tangent part add back up to
    * `v`, and the normal part is orthogonal to the axis. */
  lemma Components(v: Vec, axis: Vec)
    requires Dot(axis, axis) != 0.0
    ensures var t := Projection(v, axis).value;
            var n := Vec(v.x - t.x, v.y - t.y);
            && LeftSide(Plus, n, AsOperand(t)) == Ok(v)
            && Dot(n, axis) == 0.0
  {
    var aa := Dot(axis, axis);
    var s := Dot(axis, v) / aa;
    var t := Projection(v, axis).value;
    assert t == Vec(axis.x * s, axis.y * s);
    calc {
      Dot(Vec(v.x - t.x, v.y - t.y), axis);
      Dot(axis, v) - s * aa;
      { assert s * aa == Dot(axis, v); }
      0.0;
    }
  }

  /** `interpolate`'s target: move `v` towards `target` by `extent`. */
  function Interpolated(v: Vec, target: Vec, extent: real): (r: Vec)
    ensures extent == 0.0 ==> r == v
    ensures extent == 1.0 ==> r == target
  {
    Vec(v.x + extent * (target.x - v.x), v.y + extent * (target.y - v.y))
  }

  /** `__eq__` as written: `_overload_left_side(operator.eq)` builds a vector
    * of two booleans, and that vector is true (`__nonzero__`) when either
    * of them is. */
  predicate EqualsAsWritten(v: Vec, w: Vec)
    ensures v == w ==> EqualsAsWritten(v, w)
    ensures EqualsAsWritten(v, w) && v != w ==> v.x == w.x || v.y == w.y
  {
    v.x == w.x || v.y == w.y
  }

  /** The comparison `__eq__` evidently meant: both coordinates agree. */
  predicate Equals(v: Vec, w: Vec) {
    v.x == w.x && v.y == w.y
  }

  /** Two different vectors that `==` calls equal. */
  lemma EqualsAsWrittenConfuses()
    ensures EqualsAsWritten(Vec(0.0, 1.0), Vec(0.0, 2.0)) && Vec(0.0, 1.0) != Vec(0.0, 2.0)
  {
  }

  lemma EqualsIsIdentity(v: Vec, w: Vec)
    ensures Equals(v, w) <==> v == w
    ensures Equals(v, w) ==> EqualsAsWritten(v, w)
  {
  }

  /** A vector object, whose coordinates the in-place operators overwrite. */
  class Vector {
    var x: real
    var y: real

    constructor(x: real, y: real)
      ensures Value() == Vec(x, y)
    {
      this.x := x;
      this.y := y;
    }

    function Value(): Vec
      reads this
    {
      Vec(x, y)
    }

    /** `assign`. */
    method Assign(other: Vec)
      modifies this
      ensures Value() == other
    {
      x, y := other.x, other.y;
    }

    /** `__iadd__`, `__isub__`, `__imul__`, `__itruediv__`
      * (`_overload_in_place`): the coordinates become `v op other`; on an
      * error nothing is written. */
    method Combine(op: ArithOp, other: Operand) returns (r: Outcome<GeometryError>)
      modifies this
      ensures var expected := LeftSide(op, old(Value()), other);
              && (r.Pass? <==> expected.Ok?)
              && (r.Pass? ==> Value() == expected.value)
              && (r.Fail? ==> Value() == old(Value()) && r.error == expected.error)
    {
      var result := LeftSide(op, Value(), other);
      if result.Err? {
        return Fail(result.error);
      }
      x, y := result.value.x, result.value.y;
      r := Pass;
    }

    /** `interpolate`: `self += extent * (target - self)`. */
    method Interpolate(target: Vec, extent: real)
      modifies this
      ensures Value() == Interpolated(old(Value()), target, extent)
    {
      var step := Vec(extent * (target.x - x), extent * (target.y - y));
      x, y := x + step.x, y + step.y;
    }

    /** `project`: replace the vector by its projection onto `axis`. */
    method Project(axis: Vec) returns (r: Outcome<GeometryError>)
      modifies this
      ensures r.Pass? <==> Dot(axis, axis) != 0.0
      ensures r.Pass? ==> Value() == Projection(old(Value()), axis).value && Perp(axis, Value()) == 0.0
      ensures r.Fail? ==> Value() == old(Value())
    {
      var p := Projection(Value(), axis);
      if p.Err? {
        return Fail(p.error);
      }
      Assign(p.value);
      r := Pass;
    }
  }

  // ------------------------------------------------------------- rectangles

  /** Where on an axis a point of a rectangle sits: its low edge (left or
    * top), its middle, or its high edge (right or bottom). */
  datatype Anchor = Low | Middle | High

  /** The four numbers a rectangle stores.  Right, bottom and the centers
    * are derived from them. */
  datatype Rect = Rect(left: real, top: real, width: real, height: real) {
    function Right(): real { left + width }
    function Bottom(): real { top + height }
    function CenterX(): real { left + width / 2.0 }
    function CenterY(): real { top + height / 2.0 }

    /** `left`, `center_x` or `right`. */
    function X(a: Anchor): real {
      match a
      case Low => left
      case Middle => CenterX()
      case High => Right()
    }

    /** `top`, `center_y` or `bottom`. */
    function Y(a: Anchor): real {
      match a
      case Low => top
      case Middle => CenterY()
      case High => Bottom()
    }

    /** `top_left`, `center`, `bottom_right` and the six other points. */
    function At(h: Anchor, v: Anchor): Vec {
      Vec(X(h), Y(v))
    }

    /** `inside`: this rectangle lies within `other`, which then contains
      * it. */
    predicate Inside(other: Rect)
      ensures Inside(other) <==> other.Contains(this)
    {
      left >= other.left && Right() <= other.Right() && top >= other.top && Bottom() <= other.Bottom()
    }

    /** `contains`: `other` lies within this rectangle, and so, when its
      * size is not negative, touches it. */
    predicate Contains(other: Rect)
      ensures Contains(other) && other.width >= 0.0 && other.height >= 0.0 ==> Touching(other)
    {
      left <= other.left && Right() >= other.Right() && top <= other.top && Bottom() >= other.Bottom()
    }

    /** `touching`: the four early returns, edges included; the two
      * rectangles touch exactly when their closed extents overlap on both
      * axes. */
    predicate Touching(other: Rect)
      ensures Touching(other) <==> other.top <= Bottom() && top <= other.Bottom() &&
                                   other.left <= Right() && left <= other.Right()
    {
      if top > other.Bottom() then false
      else if Bottom() < other.top then false
      else if left > other.Right() then false
      else if Right() < other.left then false
      else true
    }

    /** `outside`: the rectangles do not touch, in either order. */
    predicate Outside(other: Rect)
      ensures Outside(other) <==> !other.Touching(this)
    {
      !Touching(other)
    }

    /** `get_grown` (and `grow` on a copy): every side pushed out by
      * `padding`. */
    function Grown(padding: real): (r: Rect)
      ensures r.CenterX() == CenterX() && r.CenterY() == CenterY()
      ensures r.Right() == Right() + padding && r.Bottom() == Bottom() + padding
    {
      Rect(left - padding, top - padding, width + 2.0 * padding, height + 2.0 * padding)
    }

    /** `get_shrunk`: `grow(-padding)`, which growing by `padding` undoes. */
    function Shrunk(padding: real): (r: Rect)
      ensures r.Grown(padding) == this
    {
      Grown(-padding)
    }

    /** `rect + vector` (and `displace` on a copy). */
    function Displaced(v: Vec): (r: Rect)
      ensures r.width == width && r.height == height
      ensures r.At(Low, Low) == Vec(left + v.x, top + v.y)
    {
      Rect(left + v.x, top + v.y, width, height)
    }
  }

  /** `a.contains(b)` exactly when `b.inside(a)`. */
  lemma ContainsIsInsideSwapped(a: Rect, b: Rect)
    ensures a.Contains(b) <==> b.Inside(a)
  {
  }

  /** `touching` is symmetric, so `outside` is too. */
  lemma TouchingSymmetric(a: Rect, b: Rect)
    ensures a.Touching(b) <==> b.Touching(a)
    ensures a.Outside(b) <==> b.Outside(a)
  {
  }

  /** `touching` holds exactly when the closed extents overlap on both axes. */
  lemma TouchingIsOverlap(a: Rect, b: Rect)
    ensures a.Touching(b) <==>
      a.top <= b.Bottom() && b.top <= a.Bottom() && a.left <= b.Right() && b.left <= a.Right()
  {
  }

  /** A rectangle of non-negative size touches every rectangle it contains,
    * and `inside` and `contains` are both reflexive. */
  lemma ContainsTouches(a: Rect, b: Rect)
    requires b.width >= 0.0 && b.height >= 0.0
    ensures a.Contains(b) ==> a.Touching(b)
    ensures a.Contains(a) && a.Inside(a)
  {
  }

  /** `shrink(p)` undoes `grow(p)`, and the other way round. */
  lemma GrowThenShrink(r: Rect, padding: real)
    ensures r.Grown(padding).Shrunk(padding) == r
    ensures r.Shrunk(padding).Grown(padding) == r
  {
  }

  /** A non-negative padding grows a rectangle into one containing it. */
  lemma GrownContains(r: Rect, padding: real)
    requires padding >= 0.0
    ensures r.Grown(padding).Contains(r) && r.Shrunk(padding).Inside(r)
  {
  }

  /** Displacing by `v` and then by `-v` gives the rectangle back, and
    * displacing two rectangles together keeps which contains which. */
  lemma DisplaceRoundTrip(a: Rect, b: Rect, v: Vec)
    ensures a.Displaced(v).Displaced(Neg(v)) == a
    ensures a.Displaced(v).Contains(b.Displaced(v)) <==> a.Contains(b)
  {
  }

  /** `from_sides`. */
  function FromSides(left: real, top: real, right: real, bottom: real): (r: Rect)
    ensures r.At(Low, Low) == Vec(left, top) && r.At(High, High) == Vec(right, bottom)
  {
    Rect(left, top, right - left, bottom - top)
  }

  /** `from_sides` and the side getters are inverse. */
  lemma SidesRoundTrip(r: Rect)
    ensures FromSides(r.left, r.top, r.Right(), r.Bottom()) == r
  {
  }

  function Min(a: real, b: real): real { if a <= b then a else b }
  function Max(a: real, b: real): real { if a >= b then a else b }

  /** `from_corners`: the two points may be any two opposite corners. */
  function FromCorners(first: Vec, second: Vec): (r: Rect)
    ensures r.width >= 0.0 && r.height >= 0.0
    ensures r.left == Min(first.x, second.x) && r.Right() == Max(first.x, second.x)
    ensures r.top == Min(first.y, second.y) && r.Bottom() == Max(first.y, second.y)
  {
    FromSides(Min(first.x, second.x), Min(first.y, second.y), Max(first.x, second.x), Max(first.y, second.y))
  }

  /** The order of the corners does not matter, and a normalised rectangle
    * is rebuilt from its top-left and bottom-right corners. */
  lemma CornersRoundTrip(first: Vec, second: Vec, r: Rect)
    requires r.width >= 0.0 && r.height >= 0.0
    ensures FromCorners(first, second) == FromCorners(second, first)
    ensures FromCorners(r.At(Low, Low), r.At(High, High)) == r
    ensures FromCorners(r.At(High, High), r.At(Low, Low)) == r
  {
  }

  /** `from_size`, `from_square` and `from_vector`. */
  function FromSize(width: real, height: real): (r: Rect)
    ensures r.At(Low, Low) == Vec(0.0, 0.0) && r.At(High, High) == Vec(width, height)
  {
    Rect(0.0, 0.0, width, height)
  }

  function FromVector(p: Vec): (r: Rect)
    ensures r.width == 0.0 && r.height == 0.0
    ensures forall h, v :: r.At(h, v) == p
  {
    Rect(p.x, p.y, 0.0, 0.0)
  }

  /** `from_width` and `from_height`, with the ratio given; the default
    * ratio is the golden ratio, an irrational number. */
  function FromWidth(width: real, ratio: real): (r: Rect)
    ensures r.At(Low, Low) == Vec(0.0, 0.0) && r.width == width && r.height == ratio * width
  {
    FromSize(width, ratio * width)
  }

  function FromHeight(height: real, ratio: real): (r: Rect)
    ensures r.At(Low, Low) == Vec(0.0, 0.0) && r.height == height && r.width == ratio * height
  {
    FromSize(ratio * height, height)
  }

  /** `from_center`: the given point becomes the center. */
  function FromCenter(p: Vec, width: real, height: real): (r: Rect)
    ensures r.At(Middle, Middle) == p && r.width == width && r.height == height
  {
    Rect(p.x - width / 2.0, p.y - height / 2.0, width, height)
  }

  /** `min(...)` over a non-empty argument list. */
  function Least(xs: seq<real>): (m: real)
    requires |xs| > 0
    ensures m in xs
    ensures forall i :: 0 <= i < |xs| ==> m <= xs[i]
  {
    if |xs| == 1 then xs[0] else Min(xs[0], Least(xs[1..]))
  }

  /** `max(...)` over a non-empty argument list. */
  function Greatest(xs: seq<real>): (m: real)
    requires |xs| > 0
    ensures m in xs
    ensures forall i :: 0 <= i < |xs| ==> m >= xs[i]
  {
    if |xs| == 1 then xs[0] else Max(xs[0], Greatest(xs[1..]))
  }

  function Lefts(rs: seq<Rect>): (s: seq<real>)
    ensures |s| == |rs| && forall i :: 0 <= i < |rs| ==> s[i] == rs[i].left
  {
    seq(|rs|, i requires 0 <= i < |rs| => rs[i].left)
  }

  function Tops(rs: seq<Rect>): (s: seq<real>)
    ensures |s| == |rs| && forall i :: 0 <= i < |rs| ==> s[i] == rs[i].top
  {
    seq(|rs|, i requires 0 <= i < |rs| => rs[i].top)
  }

  function Rights(rs: seq<Rect>): (s: seq<real>)
    ensures |s| == |rs| && forall i :: 0 <= i < |rs| ==> s[i] == rs[i].Right()
  {
    seq(|rs|, i requires 0 <= i < |rs| => rs[i].Right())
  }

  function Bottoms(rs: seq<Rect>): (s: seq<real>)
    ensures |s| == |rs| && forall i :: 0 <= i < |rs| ==> s[i] == rs[i].Bottom()
  {
    seq(|rs|, i requires 0 <= i < |rs| => rs[i].Bottom())
  }

  /** `from_union`: the smallest rectangle containing every input; no
    * inputs is a ValueError from `min`. */
  function FromUnion(rs: seq<Rect>): (r: Result<Rect, GeometryError>)
    ensures r.Err? <==> rs == []
    ensures r.Ok? ==> forall i :: 0 <= i < |rs| ==> r.value.Contains(rs[i])
  {
    if rs == [] then Err(EmptyInput)
    else Ok(FromSides(Least(Lefts(rs)), Least(Tops(rs)), Greatest(Rights(rs)), Greatest(Bottoms(rs))))
  }

  /** Every rectangle that contains all the inputs contains their union. */
  lemma UnionIsSmallest(rs: seq<Rect>, c: Rect)
    requires rs != []
    requires forall i :: 0 <= i < |rs| ==> c.Contains(rs[i])
    ensures c.Contains(FromUnion(rs).value)
  {
    var u := FromUnion(rs).value;
    var i :| 0 <= i < |rs| && Lefts(rs)[i] == u.left;
    var j :| 0 <= j < |rs| && Tops(rs)[j] == u.top;
    var k :| 0 <= k < |rs| && Rights(rs)[k] == u.Right();
    var l :| 0 <= l < |rs| && Bottoms(rs)[l] == u.Bottom();
    assert c.Contains(rs[i]) && c.Contains(rs[j]) && c.Contains(rs[k]) && c.Contains(rs[l]);
  }

  /** `from_intersection`: the largest rectangle inside every input.  When
    * the inputs do not overlap, its width or height is negative, and it is
    * still inside every input in the sense of `inside`. */
  function FromIntersection(rs: seq<Rect>): (r: Result<Rect, GeometryError>)
    ensures r.Err? <==> rs == []
    ensures r.Ok? ==> forall i :: 0 <= i < |rs| ==> r.value.Inside(rs[i])
  {
    if rs == [] then Err(EmptyInput)
    else Ok(FromSides(Greatest(Lefts(rs)), Greatest(Tops(rs)), Least(Rights(rs)), Least(Bottoms(rs))))
  }

  /** Every rectangle inside all the inputs is inside their intersection. */
  lemma IntersectionIsLargest(rs: seq<Rect>, c: Rect)
    requires rs != []
    requires forall i :: 0 <= i < |rs| ==> c.Inside(rs[i])
    ensures c.Inside(FromIntersection(rs).value)
  {
    var u := FromIntersection(rs).value;
    var i :| 0 <= i < |rs| && Lefts(rs)[i] == u.left;
    var j :| 0 <= j < |rs| && Tops(rs)[j] == u.top;
    var k :| 0 <= k < |rs| && Rights(rs)[k] == u.Right();
    var l :| 0 <= l < |rs| && Bottoms(rs)[l] == u.Bottom();
    assert c.Inside(rs[i]) && c.Inside(rs[j]) && c.Inside(rs[k]) && c.Inside(rs[l]);
  }

  /** `from_points`: the smallest rectangle holding every point. */
  function FromPoints(ps: seq<Vec>): (r: Result<Rect, GeometryError>)
    ensures r.Err? <==> ps == []
    ensures r.Ok? ==> forall i :: 0 <= i < |ps| ==> r.value.Contains(FromVector(ps[i]))
  {
    var rs := seq(|ps|, i requires 0 <= i < |ps| => FromVector(ps[i]));
    assert forall i :: 0 <= i < |ps| ==> rs[i] == FromVector(ps[i]);
    FromUnion(rs)
  }

  /** `clamp`: `max(min(x, high), low)`.  When `low > high` the result is
    * `low`. */
  function Clamp(x: real, low: real, high: real): (r: real)
    ensures low <= high ==> low <= r <= high
    ensures low <= x <= high ==> r == x
    ensures low <= high && x < low ==> r == low
    ensures low <= high && x > high ==> r == high
    ensures low > high ==> r == low
  {
    Max(Min(x, high), low)
  }

  /** A rectangle object, whose four stored numbers `grow`, `displace` and
    * the setters overwrite. */
  class Rectangle {
    var left: real
    var top: real
    var width: real
    var height: real

    constructor(left: real, top: real, width: real, height: real)
      ensures Box() == Rect(left, top, width, height)
    {
      this.left := left;
      this.top := top;
      this.width := width;
      this.height := height;
    }

    function Box(): Rect
      reads this
    {
      Rect(left, top, width, height)
    }

    /** `grow`. */
    method Grow(padding: real)
      modifies this
      ensures Box() == old(Box()).Grown(padding)
    {
      top := top - padding;
      left := left - padding;
      width := width + 2.0 * padding;
      height := height + 2.0 * padding;
    }

    /** `shrink`: `grow(-padding)`. */
    method Shrink(padding: real)
      modifies this
      ensures Box() == old(Box()).Shrunk(padding)
    {
      Grow(-padding);
    }

    /** `displace` (and `+=`, `-=` with the negated vector). */
    method Displace(v: Vec)
      modifies this
      ensures Box() == old(Box()).Displaced(v)
    {
      top := top + v.y;
      left := left + v.x;
    }

    /** `set_left`, `set_center_x` and `set_right`: move horizontally so that
      * the anchored point is at `x`, keeping the size. */
    method SetX(a: Anchor, x: real)
      modifies this
      ensures Box().X(a) == x
      ensures top == old(top) && width == old(width) && height == old(height)
    {
      match a
      case Low => left := x;
      case Middle => left := x - width / 2.0;
      case High => left := x - width;
    }

    /** `set_top`, `set_center_y` and `set_bottom`. */
    method SetY(a: Anchor, y: real)
      modifies this
      ensures Box().Y(a) == y
      ensures left == old(left) && width == old(width) && height == old(height)
    {
      match a
      case Low => top := y;
      case Middle => top := y - height / 2.0;
      case High => top := y - height;
    }

    /** `set_width`, `set_height` and `set_size`: the top-left corner stays. */
    method SetSize(w: real, h: real)
      modifies this
      ensures Box() == Rect(old(left), old(top), w, h)
    {
      width := w;
      height := h;
    }

    /** `set_top_left`, `set_center`, `set_bottom_right` and the six other
      * point setters: the vertical setter first, then the horizontal one. */
    method SetAt(h: Anchor, v: Anchor, p: Vec)
      modifies this
      ensures Box().At(h, v) == p
      ensures width == old(width) && height == old(height)
    {
      SetY(v, p.y);
      SetX(h, p.x);
    }

    /** `align_left`, `align_center_x` and `align_right`. */
    method AlignX(a: Anchor, target: Rect)
      modifies this
      ensures Box().X(a) == target.X(a)
      ensures top == old(top) && width == old(width) && height == old(height)
    {
      SetX(a, target.X(a));
    }

    /** `align_top`, `align_center_y` and `align_bottom`. */
    method AlignY(a: Anchor, target: Rect)
      modifies this
      ensures Box().Y(a) == target.Y(a)
      ensures left == old(left) && width == old(width) && height == old(height)
    {
      SetY(a, target.Y(a));
    }
  }
}
