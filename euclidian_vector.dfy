/**
 * EuclidianVector: an immutable point of n-dimensional space. Entries are
 * real numbers (no IEEE rounding, infinities or NaN). The binary operations
 * check that both operands have the same number of dimensions and report a
 * DimensionMismatch otherwise.
 */
module EuclidianVectors {
  import opened Wrappers
  import opened Exceptions

  type Vector = seq<real>

  /** getDimensions */
  function Dimensions(v: Vector): nat {
    |v|
  }

  /** throwIfUnequalDimensions: fails exactly when the dimensions differ. */
  function CheckDimensions(a: Vector, b: Vector): (o: Outcome<Exception>)
    ensures o.Fail? <==> |a| != |b|
    ensures o.Fail? ==> o.error == DimensionMismatch
  {
    if Dimensions(a) != Dimensions(b) then Fail(DimensionMismatch) else Pass
  }

  /** The entrywise sum, computed once the dimensions are known to agree. */
  function Sum(a: Vector, b: Vector): (r: Vector)
    requires |a| == |b|
    ensures |r| == |a|
  {
    seq(|a|, i requires 0 <= i < |a| => a[i] + b[i])
  }

  /** The entrywise difference, computed once the dimensions are known to agree. */
  function Difference(a: Vector, b: Vector): (r: Vector)
    requires |a| == |b|
    ensures |r| == |a|
  {
    seq(|a|, i requires 0 <= i < |a| => a[i] - b[i])
  }

  /** add(a, b). */
  function Add(a: Vector, b: Vector): (r: Result<Vector, Exception>)
    ensures r.Failure? <==> |a| != |b|
    ensures r.Failure? ==> r.error == DimensionMismatch
    ensures r.Success? ==> |r.value| == |a| && forall i :: 0 <= i < |a| ==> r.value[i] == a[i] + b[i]
  {
    match CheckDimensions(a, b)
    case Fail(e) => Failure(e)
    case Pass => Success(Sum(a, b))
  }

  /** subtract(a, b): b taken away from a. */
  function Subtract(a: Vector, b: Vector): (r: Result<Vector, Exception>)
    ensures r.Failure? <==> |a| != |b|
    ensures r.Failure? ==> r.error == DimensionMismatch
    ensures r.Success? ==> |r.value| == |a| && forall i :: 0 <= i < |a| ==> r.value[i] == a[i] - b[i]
  {
    match CheckDimensions(a, b)
    case Fail(e) => Failure(e)
    case Pass => Success(Difference(a, b))
  }

  /** multiply(a, scalar): never fails. */
  function Multiply(a: Vector, scalar: real): (r: Vector)
    ensures |r| == |a|
    ensures forall i :: 0 <= i < |a| ==> r[i] == a[i] * scalar
  {
    seq(|a|, i requires 0 <= i < |a| => a[i] * scalar)
  }

  /** divide(a, divisor): never fails; division by zero is outside the real-number model. */
  function Divide(a: Vector, divisor: real): (r: Vector)
    requires divisor != 0.0
    ensures |r| == |a|
    ensures forall i :: 0 <= i < |a| ==> r[i] == a[i] / divisor
  {
    seq(|a|, i requires 0 <= i < |a| => a[i] / divisor)
  }

  /** origin(n): the zero vector with n dimensions. */
  function Origin(n: nat): (r: Vector)
    ensures |r| == n
    ensures forall i :: 0 <= i < n ==> r[i] == 0.0
  {
    seq(n, i => 0.0)
  }

  /** The weighted mean of x (mass xm) and y (mass ym). */
  function WeightedMean(x: real, xm: real, y: real, ym: real): real
    requires xm + ym != 0.0
  {
    (x * xm + y * ym) / (xm + ym)
  }

  /** centerOfGravity(a, aMass, b, bMass). */
  function CenterOfGravity(a: Vector, aMass: real, b: Vector, bMass: real): (r: Result<Vector, Exception>)
    requires |a| == |b| ==> aMass + bMass != 0.0
    ensures r.Failure? <==> |a| != |b|
    ensures r.Failure? ==> r.error == DimensionMismatch
    ensures r.Success? ==> |r.value| == |a|
    ensures r.Success? ==> forall i :: 0 <= i < |a| ==> r.value[i] == WeightedMean(a[i], aMass, b[i], bMass)
  {
    match CheckDimensions(a, b)
    case Fail(e) => Failure(e)
    case Pass => Success(seq(|a|, i requires 0 <= i < |a| => WeightedMean(a[i], aMass, b[i], bMass)))
  }

  /** centerOfGravity(point1, point2): both masses 1, which is the midpoint (a + b) / 2. */
  function Midpoint(a: Vector, b: Vector): (r: Result<Vector, Exception>)
    ensures r.Failure? <==> |a| != |b|
    ensures r.Success? ==> r.value == Divide(Add(a, b).value, 2.0)
  {
    if |a| == |b| then EqualMassesGiveMidpoint(a, b, 1.0); CenterOfGravity(a, 1.0, b, 1.0)
    else CenterOfGravity(a, 1.0, b, 1.0)
  }

  /** equals: same dimensions and the same entries. */
  function Equals(a: Vector, b: Vector): (r: bool)
    ensures r <==> |a| == |b| && forall i :: 0 <= i < |a| ==> a[i] == b[i]
  {
    if |a| != |b| then false
    else
      assert a == b <==> forall i :: 0 <= i < |a| ==> a[i] == b[i];
      a == b
  }

  lemma AddCommutative(a: Vector, b: Vector)
    ensures Add(a, b) == Add(b, a)
  {
    if |a| == |b| {
      assert Sum(a, b) == Sum(b, a);
    }
  }

  lemma SubtractAntisymmetric(a: Vector, b: Vector)
    requires |a| == |b|
    ensures forall i :: 0 <= i < |a| ==> Subtract(a, b).value[i] == -Subtract(b, a).value[i]
  {
  }

  /** Subtracting what was added gives the original vector back. */
  lemma AddSubtractRoundTrip(a: Vector, b: Vector)
    requires |a| == |b|
    ensures Subtract(Add(a, b).value, b) == Success(a)
  {
    assert Difference(Sum(a, b), b) == a;
  }

  lemma AddOrigin(v: Vector)
    ensures Add(v, Origin(|v|)) == Success(v)
  {
    assert Sum(v, Origin(|v|)) == v;
  }

  /** Dividing by the factor just multiplied in gives the original vector back. */
  lemma MultiplyDivideRoundTrip(a: Vector, k: real)
    requires k != 0.0
    ensures Divide(Multiply(a, k), k) == a
  {
    forall i | 0 <= i < |a| ensures Divide(Multiply(a, k), k)[i] == a[i] {
      assert a[i] * k / k == a[i];
    }
  }

  /** With equal masses the centre of gravity is the midpoint (a + b) / 2. */
  lemma EqualMassesGiveMidpoint(a: Vector, b: Vector, m: real)
    requires |a| == |b| && m != 0.0
    ensures CenterOfGravity(a, m, b, m) == Success(Divide(Add(a, b).value, 2.0))
  {
    var c := CenterOfGravity(a, m, b, m).value;
    var h := Divide(Add(a, b).value, 2.0);
    forall i | 0 <= i < |a| ensures c[i] == h[i] {
      assert (a[i] * m + b[i] * m) == (a[i] + b[i]) * m;
      assert (a[i] + b[i]) * m / (m + m) == (a[i] + b[i]) / 2.0;
    }
    assert c == h;
  }

  lemma WeightedMeanBetween(x: real, xm: real, y: real, ym: real)
    requires xm > 0.0 && ym > 0.0
    ensures x <= y ==> x <= WeightedMean(x, xm, y, ym) <= y
    ensures y <= x ==> y <= WeightedMean(x, xm, y, ym) <= x
  {
    var w := WeightedMean(x, xm, y, ym);
    assert w * (xm + ym) == x * xm + y * ym;
    assert (w - x) * (xm + ym) == (y - x) * ym;
    assert (y - w) * (xm + ym) == (y - x) * xm;
    if x <= y {
      NonNegativeProduct(y - x, ym);
      NonNegativeProduct(y - x, xm);
      NonNegativeFactor(w - x, xm + ym);
      NonNegativeFactor(y - w, xm + ym);
    }
    if y <= x {
      NonNegativeProduct(x - y, ym);
      NonNegativeProduct(x - y, xm);
      assert (x - w) * (xm + ym) == (x - y) * ym;
      assert (w - y) * (xm + ym) == (x - y) * xm;
      NonNegativeFactor(x - w, xm + ym);
      NonNegativeFactor(w - y, xm + ym);
    }
  }

  lemma NonNegativeProduct(p: real, q: real)
    requires p >= 0.0 && q >= 0.0
    ensures p * q >= 0.0
  {
  }

  lemma NonNegativeFactor(p: real, q: real)
    requires p * q >= 0.0 && q > 0.0
    ensures p >= 0.0
  {
  }

  /** With positive masses every coordinate lies between the operands' coordinates. */
  lemma CenterOfGravityBetween(a: Vector, aMass: real, b: Vector, bMass: real)
    requires |a| == |b| && aMass > 0.0 && bMass > 0.0
    ensures forall i :: 0 <= i < |a| ==>
      var c := CenterOfGravity(a, aMass, b, bMass).value[i];
      (a[i] <= b[i] ==> a[i] <= c <= b[i]) && (b[i] <= a[i] ==> b[i] <= c <= a[i])
  {
    forall i | 0 <= i < |a| {
      WeightedMeanBetween(a[i], aMass, b[i], bMass);
    }
  }

  /** Swapping the (point, mass) pairs gives the same centre of gravity. */
  lemma CenterOfGravitySymmetric(a: Vector, aMass: real, b: Vector, bMass: real)
    requires aMass + bMass != 0.0
    ensures CenterOfGravity(a, aMass, b, bMass) == CenterOfGravity(b, bMass, a, aMass)
  {
    if |a| == |b| {
      var l := CenterOfGravity(a, aMass, b, bMass).value;
      var r := CenterOfGravity(b, bMass, a, aMass).value;
      forall i | 0 <= i < |a| ensures l[i] == r[i] {
        assert a[i] * aMass + b[i] * bMass == b[i] * bMass + a[i] * aMass;
        assert aMass + bMass == bMass + aMass;
      }
      assert l == r;
    }
  }

  /** Vectors of different dimensions are never equal. */
  lemma UnequalDimensionsNeverEqual(a: Vector, b: Vector)
    requires |a| != |b|
    ensures !Equals(a, b) && !Equals(b, a)
  {
  }

  /** equals is an equivalence: reflexive and symmetric. */
  lemma EqualsReflexiveSymmetric(a: Vector, b: Vector)
    ensures Equals(a, a)
    ensures Equals(a, b) == Equals(b, a)
  {
  }
}
