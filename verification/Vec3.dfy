/** `kf::vec3<int>`: integer space vectors. */
module Vec3 {
  import opened CInt
  import opened Wrappers

  datatype Vec3 = Vec3(x: int, y: int, z: int)
  {
    function Add(other: Vec3): Vec3 { Vec3(x + other.x, y + other.y, z + other.z) }

    function Sub(other: Vec3): Vec3 { Vec3(x - other.x, y - other.y, z - other.z) }

    function Scale(scalar: int): Vec3 { Vec3(x * scalar, y * scalar, z * scalar) }

    /** `operator/`: componentwise truncating division. */
    function Div(scalar: int): Vec3
      requires scalar != 0
    {
      Vec3(CInt.Div(x, scalar), CInt.Div(y, scalar), CInt.Div(z, scalar))
    }

    /**
     * `divChecked`: no vector for a zero divisor, the quotient otherwise.
     * `vec3` repeats `vec2`'s definition, so this repeats `Vec2.DivChecked`.
     */
    function DivChecked(scalar: int): (r: Option<Vec3>)
      ensures r.None? <==> scalar == 0
      ensures r.Some? ==> r.value == Div(scalar)
    {
      if scalar == 0 then None else Some(Div(scalar))
    }

    function Dot(other: Vec3): int { x * other.x + y * other.y + z * other.z }

    function Cross(other: Vec3): Vec3
    {
      Vec3(y * other.z - z * other.y,
           z * other.x - x * other.z,
           x * other.y - y * other.x)
    }

    predicate IsZero() { x == 0 && y == 0 && z == 0 }
  }

  /** `operator+=`: updates the components one after the other. */
  method AddAssign(v: Vec3, other: Vec3) returns (r: Vec3)
    ensures r == v.Add(other)
    ensures r.Sub(other) == v
  {
    r := v;
    r := r.(x := r.x + other.x);
    r := r.(y := r.y + other.y);
    r := r.(z := r.z + other.z);
  }

  /** `operator-=`: updates the components one after the other. */
  method SubAssign(v: Vec3, other: Vec3) returns (r: Vec3)
    ensures r == v.Sub(other)
    ensures r.Add(other) == v
  {
    r := v;
    r := r.(x := r.x - other.x);
    r := r.(y := r.y - other.y);
    r := r.(z := r.z - other.z);
  }

  /** Subtraction undoes addition; both are componentwise. */
  lemma AddSubInverse(a: Vec3, b: Vec3)
    ensures a.Add(b).Sub(b) == a
    ensures a.Sub(b).Add(b) == a
    ensures a.Add(b) == b.Add(a)
  {
  }

  /** Division by a nonzero scalar undoes scaling by it. */
  lemma ScaleThenDivide(a: Vec3, s: int)
    requires s != 0
    ensures a.Scale(s).DivChecked(s) == Some(a)
  {
    ExactDivision(a.x, s);
    ExactDivision(a.y, s);
    ExactDivision(a.z, s);
  }

  /** The dot product is symmetric, and a vector's square is never negative. */
  lemma DotProperties(a: Vec3, b: Vec3)
    ensures a.Dot(b) == b.Dot(a)
    ensures a.Dot(a) >= 0
    ensures a.Dot(a) == 0 <==> a.IsZero()
  {
    Square(a.x);
    Square(a.y);
    Square(a.z);
  }

  /** The cross product is anti-commutative. */
  lemma CrossAntiCommutative(a: Vec3, b: Vec3)
    ensures a.Cross(b) == Vec3(0, 0, 0).Sub(b.Cross(a))
  {
  }

  /** A vector crossed with itself is zero. */
  lemma CrossSelfZero(a: Vec3)
    ensures a.Cross(a).IsZero()
  {
  }

  /** The cross product is orthogonal to both of its factors. */
  lemma CrossOrthogonal(a: Vec3, b: Vec3)
    ensures a.Dot(a.Cross(b)) == 0
    ensures b.Dot(a.Cross(b)) == 0
  {
    var c := a.Cross(b);
    calc {
      a.Dot(c);
      a.x * (a.y * b.z - a.z * b.y) + a.y * (a.z * b.x - a.x * b.z) + a.z * (a.x * b.y - a.y * b.x);
      { Distribute(a, b); }
      0;
    }
    calc {
      b.Dot(c);
      b.x * (a.y * b.z - a.z * b.y) + b.y * (a.z * b.x - a.x * b.z) + b.z * (a.x * b.y - a.y * b.x);
      { Distribute(b, a); }
      0;
    }
  }

  /** The triple-product expansion on which orthogonality rests. */
  lemma Distribute(a: Vec3, b: Vec3)
    ensures a.x * (a.y * b.z - a.z * b.y) + a.y * (a.z * b.x - a.x * b.z) + a.z * (a.x * b.y - a.y * b.x) == 0
    ensures a.x * (b.y * a.z - b.z * a.y) + a.y * (b.z * a.x - b.x * a.z) + a.z * (b.x * a.y - b.y * a.x) == 0
  {
    assert a.x * (a.y * b.z - a.z * b.y) == a.x * a.y * b.z - a.x * a.z * b.y;
    assert a.y * (a.z * b.x - a.x * b.z) == a.y * a.z * b.x - a.x * a.y * b.z;
    assert a.z * (a.x * b.y - a.y * b.x) == a.x * a.z * b.y - a.y * a.z * b.x;
    assert a.x * (b.y * a.z - b.z * a.y) == a.x * a.z * b.y - a.x * a.y * b.z;
    assert a.y * (b.z * a.x - b.x * a.z) == a.x * a.y * b.z - a.y * a.z * b.x;
    assert a.z * (b.x * a.y - b.y * a.x) == a.y * a.z * b.x - a.x * a.z * b.y;
  }
}
