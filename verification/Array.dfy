/**
 * `kf::Array<T, N>`: a fixed array of `N > 0` elements. Its comparison
 * operators are read-only loops, modelled as recursive functions over the
 * elements; `fill` is an in-place loop over the array.
 */
module Array {

  /** `size()` and `max_size()`: always `N`; and `empty()` is false, since `N > 0`. */
  function Size<T>(a: seq<T>): (n: nat)
    requires |a| > 0
    ensures n == |a| && n > 0
  {
    |a|
  }

  function Front<T>(a: seq<T>): T
    requires |a| > 0
  {
    a[0]
  }

  function Back<T>(a: seq<T>): T
    requires |a| > 0
  {
    a[|a| - 1]
  }

  /** `operator==`: the loop stops at the first pair that is not equal. */
  function Equal<T(==)>(a: seq<T>, b: seq<T>): bool
    requires |a| == |b|
  {
    if a == [] then true
    else if a[0] == b[0] then Equal(a[1..], b[1..])
    else false
  }

  function NotEqual<T(==)>(a: seq<T>, b: seq<T>): bool
    requires |a| == |b|
  {
    !Equal(a, b)
  }

  /**
   * `operator<`: at each index, `a[i] < b[i]` decides true and `b[i] < a[i]`
   * decides false; arrays that tie everywhere are not less. `lt` is the
   * element type's `operator<`.
   */
  function Less<T>(lt: (T, T) -> bool, a: seq<T>, b: seq<T>): bool
    requires |a| == |b|
  {
    if a == [] then false
    else if lt(a[0], b[0]) then true
    else if lt(b[0], a[0]) then false
    else Less(lt, a[1..], b[1..])
  }

  function LessEqual<T>(lt: (T, T) -> bool, a: seq<T>, b: seq<T>): bool
    requires |a| == |b|
  {
    !Less(lt, b, a)
  }

  function Greater<T>(lt: (T, T) -> bool, a: seq<T>, b: seq<T>): bool
    requires |a| == |b|
  {
    Less(lt, b, a)
  }

  function GreaterEqual<T>(lt: (T, T) -> bool, a: seq<T>, b: seq<T>): bool
    requires |a| == |b|
  {
    !Less(lt, a, b)
  }

  /** Two elements tie when neither is less than the other. */
  predicate Tie<T>(lt: (T, T) -> bool, x: T, y: T)
  {
    !lt(x, y) && !lt(y, x)
  }

  /** The element order is irreflexive on the elements of `a`. */
  predicate IrreflexiveOn<T>(lt: (T, T) -> bool, a: seq<T>)
  {
    forall i :: 0 <= i < |a| ==> !lt(a[i], a[i])
  }

  /** `fill`: every element becomes `v`. */
  method Fill<T>(a: array<T>, v: T)
    modifies a
    ensures forall i :: 0 <= i < a.Length ==> a[i] == v
  {
    var i := 0;
    while i < a.Length
      invariant 0 <= i <= a.Length
      invariant forall j :: 0 <= j < i ==> a[j] == v
    {
      a[i] := v;
      i := i + 1;
    }
  }

  /** `==` holds exactly when all elements are pairwise equal. */
  lemma {:induction false} EqualIffPairwise<T>(a: seq<T>, b: seq<T>)
    requires |a| == |b|
    ensures Equal(a, b) <==> forall i :: 0 <= i < |a| ==> a[i] == b[i]
    ensures Equal(a, b) <==> a == b
  {
    if a != [] {
      EqualIffPairwise(a[1..], b[1..]);
      if a[0] == b[0] && a[1..] == b[1..] {
        assert a == [a[0]] + a[1..] && b == [b[0]] + b[1..];
      }
      if forall i :: 0 <= i < |a| ==> a[i] == b[i] {
        assert forall i :: 0 <= i < |a| - 1 ==> a[1..][i] == b[1..][i];
      }
    }
  }

  /** `<` is decided at the first index whose elements do not tie: earlier ties change nothing. */
  lemma {:induction false} LessDecidedAtFirstDifference<T>(lt: (T, T) -> bool, a: seq<T>, b: seq<T>, k: nat)
    requires |a| == |b| && k < |a|
    requires forall i :: 0 <= i < k ==> Tie(lt, a[i], b[i])
    requires !Tie(lt, a[k], b[k])
    ensures Less(lt, a, b) == lt(a[k], b[k])
  {
    if k > 0 {
      LessDecidedAtFirstDifference(lt, a[1..], b[1..], k - 1);
    }
  }

  /** Arrays whose elements tie everywhere are not less than each other. */
  lemma {:induction false} LessAllTies<T>(lt: (T, T) -> bool, a: seq<T>, b: seq<T>)
    requires |a| == |b|
    requires forall i :: 0 <= i < |a| ==> Tie(lt, a[i], b[i])
    ensures !Less(lt, a, b) && !Less(lt, b, a)
  {
    if a != [] {
      LessAllTies(lt, a[1..], b[1..]);
    }
  }

  /** With an irreflexive element order, `<` on arrays is irreflexive. */
  lemma {:induction false} LessIrreflexive<T>(lt: (T, T) -> bool, a: seq<T>)
    requires IrreflexiveOn(lt, a)
    ensures !Less(lt, a, a)
  {
    if a != [] {
      assert forall i :: 0 <= i < |a| - 1 ==> a[1..][i] == a[i + 1];
      LessIrreflexive(lt, a[1..]);
    }
  }

  /** The element order is asymmetric on the pairs of `a` and `b`: no pair is less in both directions. */
  predicate AsymmetricOn<T>(lt: (T, T) -> bool, a: seq<T>, b: seq<T>)
    requires |a| == |b|
  {
    forall i :: 0 <= i < |a| ==> !(lt(a[i], b[i]) && lt(b[i], a[i]))
  }

  /**
   * With an asymmetric element order, `<` on arrays is asymmetric, so an array
   * that is `<` another is also `<=` it and neither `>` nor `>=` it.
   */
  lemma {:induction false} LessAsymmetric<T>(lt: (T, T) -> bool, a: seq<T>, b: seq<T>)
    requires |a| == |b| && AsymmetricOn(lt, a, b)
    ensures Less(lt, a, b) ==> !Less(lt, b, a)
    ensures Less(lt, a, b) ==> LessEqual(lt, a, b) && !Greater(lt, a, b) && !GreaterEqual(lt, a, b)
  {
    if a != [] && !lt(a[0], b[0]) && !lt(b[0], a[0]) {
      assert forall i :: 0 <= i < |a| - 1 ==> a[1..][i] == a[i + 1] && b[1..][i] == b[i + 1];
      LessAsymmetric(lt, a[1..], b[1..]);
    }
  }

  /** Any two arrays are ordered one way or the other by `<`, unless their elements tie everywhere. */
  lemma {:induction false} LessTrichotomy<T>(lt: (T, T) -> bool, a: seq<T>, b: seq<T>)
    requires |a| == |b|
    ensures Less(lt, a, b) || Less(lt, b, a) || forall i :: 0 <= i < |a| ==> Tie(lt, a[i], b[i])
  {
    if a != [] && Tie(lt, a[0], b[0]) {
      LessTrichotomy(lt, a[1..], b[1..]);
      if !Less(lt, a, b) && !Less(lt, b, a) {
        assert forall i :: 1 <= i < |a| ==> a[i] == a[1..][i - 1] && b[i] == b[1..][i - 1];
      }
    }
  }

  /** With an irreflexive element order, equal arrays are neither less nor greater, and are `<=`. */
  lemma {:induction false} EqualNotLess<T>(lt: (T, T) -> bool, a: seq<T>, b: seq<T>)
    requires |a| == |b| && IrreflexiveOn(lt, a) && Equal(a, b)
    ensures !Less(lt, a, b) && !Greater(lt, a, b) && LessEqual(lt, a, b) && GreaterEqual(lt, a, b)
  {
    EqualIffPairwise(a, b);
    LessIrreflexive(lt, a);
  }
}
