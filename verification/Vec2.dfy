/** `kf::vec2<int>`: integer plane vectors. */
module Vec2 {
  import opened CInt
  import opened Wrappers

  datatype Vec2 = Vec2(x: int, y: int)
  {
    function Add(other: Vec2): Vec2 { Vec2(x + other.x, y + other.y) }

    function Sub(other: Vec2): Vec2 { Vec2(x - other.x, y - other.y) }

    function Scale(scalar: int): Vec2 { Vec2(x * scalar, y * scalar) }

    /** `operator/`: componentwise truncating division. */
    function Div(scalar: int): Vec2
      requires scalar != 0
    {
      Vec2(CInt.Div(x, scalar), CInt.Div(y, scalar))
    }

    /** `divChecked`: no vector for a zero divisor, the quotient otherwise. */
    function DivChecked(scalar: int): (r: Option<Vec2>)
      ensures r.None? <==> scalar == 0
      ensures r.Some? ==> r.value == Div(scalar)
    {
      if scalar == 0 then None else Some(Div(scalar))
    }

    function Dot(other: Vec2): int { x * other.x + y * other.y }

    predicate IsZero() { x == 0 && y == 0 }
  }

  /** `operator+=`: updates the components one after the other. */
  method AddAssign(v: Vec2, other: Vec2) returns (r: Vec2)
    ensures r == v.Add(other)
    ensures r.Sub(other) == v
  {
    r := v;
    r := r.(x := r.x + other.x);
    r := r.(y := r.y + other.y);
  }

  /** `operator-=`: updates the components one after the other. */
  method SubAssign(v: Vec2, other: Vec2) returns (r: Vec2)
    ensures r == v.Sub(other)
    ensures r.Add(other) == v
  {
    r := v;
    r := r.(x := r.x - other.x);
    r := r.(y := r.y - other.y);
  }

  /** Subtraction undoes addition; both are componentwise. */
  lemma AddSubInverse(a: Vec2, b: Vec2)
    ensures a.Add(b).Sub(b) == a
    ensures a.Sub(b).Add(b) == a
    ensures a.Add(b) == b.Add(a)
  {
  }

  /** Scaling by zero gives the zero vector; by one, the vector itself. */
  lemma ScaleUnits(a: Vec2)
    ensures a.Scale(0).IsZero()
    ensures a.Scale(1) == a
  {
  }

  /** Division by a nonzero scalar undoes scaling by it. */
  lemma ScaleThenDivide(a: Vec2, s: int)
    requires s != 0
    ensures a.Scale(s).DivChecked(s) == Some(a)
  {
    ExactDivision(a.x, s);
    ExactDivision(a.y, s);
  }

  /** The dot product is symmetric, and a vector's square is never negative. */
  lemma DotProperties(a: Vec2, b: Vec2)
    ensures a.Dot(b) == b.Dot(a)
    ensures a.Dot(a) >= 0
    ensures a.Dot(a) == 0 <==> a.IsZero()
  {
    Square(a.x);
    Square(a.y);
  }
}
