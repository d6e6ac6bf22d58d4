/**
 * The value-level meaning of a fixed-dimension vector: its components as a
 * sequence of reals (an exact stand-in for 32-bit floats), and every
 * operation of Vector<Dimension> stated as a function of those components.
 *
 * Only properties that also hold exactly for finite IEEE-754 values whose
 * intermediate products and sums do not overflow are stated: they rest on
 * exact IEEE-754 facts such as commutativity of + and *, exact negation,
 * x - x == 0, x + 0 == x, x - 0 == x, x * 1 == x, x / 1 == x, x * 0 == 0,
 * 0 / s == 0 for s != 0, x * x >= 0, and a rounded sum of non-negative terms
 * staying non-negative. Nothing relies on associativity or distributivity. Once a
 * float product overflows to infinity (inf - inf is NaN) they no longer hold.
 */
module VectorMath {

  /** The one runtime error of the component: an index outside [0, Dimension). */
  datatype Error = OutOfRange

  datatype Result<T> = Ok(value: T) | Err(error: Error)

  // ---------------------------------------------------------------------------
  // Construction and indexed access
  // ---------------------------------------------------------------------------

  /** Zero(n): the vector of n components, every one 0. */
  function Zero(n: nat): (z: seq<real>)
    ensures |z| == n
    ensures forall i :: 0 <= i < n ==> z[i] == 0.0
  {
    seq(n, _ => 0.0)
  }

  /** Bounds-checked read of slot i. */
  function At(v: seq<real>, i: nat): (r: Result<real>)
    ensures r.Ok? <==> i < |v|
    ensures r.Ok? ==> r.value == v[i]
    ensures r.Err? ==> r.error == OutOfRange
  {
    if i < |v| then Ok(v[i]) else Err(OutOfRange)
  }

  /** Bounds-checked write of x into slot i: the new components, or the error. */
  function Update(v: seq<real>, i: nat, x: real): (r: Result<seq<real>>)
    ensures r.Ok? <==> i < |v|
    ensures r.Ok? ==> |r.value| == |v| && r.value[i] == x
    ensures r.Ok? ==> forall j :: 0 <= j < |v| && j != i ==> r.value[j] == v[j]
    ensures r.Err? ==> r.error == OutOfRange
  {
    if i < |v| then Ok(v[i := x]) else Err(OutOfRange)
  }

  /** A write fails exactly when the matching read fails. */
  lemma UpdateFailsIffAtFails(v: seq<real>, i: nat, x: real)
    ensures Update(v, i, x).Err? <==> At(v, i).Err?
    ensures Update(v, i, x).Err? ==> Update(v, i, x).error == OutOfRange
  {
  }

  /**
   * A successful write keeps the dimension, is seen by a read of the same slot,
   * and leaves every other slot as it was.
   */
  lemma UpdateThenAt(v: seq<real>, i: nat, x: real, j: nat)
    requires Update(v, i, x).Ok?
    ensures |Update(v, i, x).value| == |v|
    ensures At(Update(v, i, x).value, j) == if j == i then Ok(x) else At(v, j)
  {
  }

  // ---------------------------------------------------------------------------
  // Element-wise operations
  // ---------------------------------------------------------------------------

  /** The operations passed to Operate / OperateScalar. */
  datatype Op = Plus | Minus | Multiplies | Divides

  /** Real division needs a non-zero divisor; the other operations take anything. */
  predicate Admissible(op: Op, y: real)
  {
    op.Divides? ==> y != 0.0
  }

  function Apply(op: Op, x: real, y: real): (r: real)
    requires Admissible(op, y)
    ensures op.Plus? ==> r == x + y
    ensures op.Minus? ==> r == x - y
    ensures op.Multiplies? ==> r == x * y
    ensures op.Divides? ==> r == x / y
  {
    match op
    case Plus => x + y
    case Minus => x - y
    case Multiplies => x * y
    case Divides => x / y
  }

  /** Slot i of the result combines slot i of a with slot i of b. */
  function Operate(a: seq<real>, b: seq<real>, op: Op): (r: seq<real>)
    requires |a| == |b|
    requires forall i :: 0 <= i < |b| ==> Admissible(op, b[i])
    ensures |r| == |a|
    ensures forall i :: 0 <= i < |a| ==> r[i] == Apply(op, a[i], b[i])
  {
    seq(|a|, i requires 0 <= i < |a| => Apply(op, a[i], b[i]))
  }

  /** Slot i of the result combines slot i of a with the scalar s. */
  function OperateScalar(a: seq<real>, s: real, op: Op): (r: seq<real>)
    requires Admissible(op, s)
    ensures |r| == |a|
    ensures forall i :: 0 <= i < |a| ==> r[i] == Apply(op, a[i], s)
  {
    seq(|a|, i requires 0 <= i < |a| => Apply(op, a[i], s))
  }

  function Add(a: seq<real>, b: seq<real>): (r: seq<real>)
    requires |a| == |b|
    ensures |r| == |a|
    ensures forall i :: 0 <= i < |a| ==> r[i] == a[i] + b[i]
  {
    Operate(a, b, Plus)
  }

  function Sub(a: seq<real>, b: seq<real>): (r: seq<real>)
    requires |a| == |b|
    ensures |r| == |a|
    ensures forall i :: 0 <= i < |a| ==> r[i] == a[i] - b[i]
  {
    Operate(a, b, Minus)
  }

  function Scale(v: seq<real>, s: real): (r: seq<real>)
    ensures |r| == |v|
    ensures forall i :: 0 <= i < |v| ==> r[i] == v[i] * s
  {
    OperateScalar(v, s, Multiplies)
  }

  function Divide(v: seq<real>, s: real): (r: seq<real>)
    requires s != 0.0
    ensures |r| == |v|
    ensures forall i :: 0 <= i < |v| ==> r[i] == v[i] / s
  {
    OperateScalar(v, s, Divides)
  }

  lemma AddCommutes(a: seq<real>, b: seq<real>)
    requires |a| == |b|
    ensures Add(a, b) == Add(b, a)
  {
  }

  lemma AddZeroIsIdentity(a: seq<real>)
    ensures Add(a, Zero(|a|)) == a
  {
  }

  /** Subtraction is addition of the operand scaled by -1. */
  lemma SubIsAddNegated(a: seq<real>, b: seq<real>)
    requires |a| == |b|
    ensures Sub(a, b) == Add(a, Scale(b, -1.0))
  {
  }

  /** Swapping the operands of a subtraction negates every component. */
  lemma SubAntisymmetric(a: seq<real>, b: seq<real>)
    requires |a| == |b|
    ensures Sub(a, b) == Scale(Sub(b, a), -1.0)
  {
  }

  lemma SubSelfIsZero(a: seq<real>)
    ensures Sub(a, a) == Zero(|a|)
  {
  }

  lemma ScaleByOneIsIdentity(v: seq<real>)
    ensures Scale(v, 1.0) == v
  {
  }

  lemma DivideByOneIsIdentity(v: seq<real>)
    ensures Divide(v, 1.0) == v
  {
  }

  /** Scaling or dividing the zero vector leaves it zero. */
  lemma ZeroStaysZero(n: nat, s: real)
    ensures Scale(Zero(n), s) == Zero(n)
    ensures s != 0.0 ==> Divide(Zero(n), s) == Zero(n)
  {
  }

  // ---------------------------------------------------------------------------
  // Accumulations: squared magnitude and dot product
  // ---------------------------------------------------------------------------

  /**
   * Sum of the squares of the components, accumulated from slot 0 upwards
   * (the last slot is the last term added).
   */
  function SqrMagnitude(v: seq<real>): (m: real)
    ensures 0.0 <= m
    decreases |v|
  {
    if |v| == 0 then 0.0
    else
      var last := v[|v| - 1];
      SqrMagnitude(v[..|v| - 1]) + last * last
  }

  /**
   * Sum of the products of matching components, accumulated from slot 0
   * upwards. The dot product of a vector with itself runs the same
   * accumulation as SqrMagnitude.
   */
  function Dot(a: seq<real>, b: seq<real>): (r: real)
    requires |a| == |b|
    ensures a == b ==> r == SqrMagnitude(a)
    decreases |a|
  {
    if |a| == 0 then 0.0
    else Dot(a[..|a| - 1], b[..|b| - 1]) + a[|a| - 1] * b[|b| - 1]
  }

  lemma {:induction false} DotCommutes(a: seq<real>, b: seq<real>)
    requires |a| == |b|
    ensures Dot(a, b) == Dot(b, a)
    decreases |a|
  {
    if |a| > 0 {
      DotCommutes(a[..|a| - 1], b[..|b| - 1]);
    }
  }

  lemma {:induction false} DotWithZero(v: seq<real>)
    ensures Dot(v, Zero(|v|)) == 0.0
    decreases |v|
  {
    if |v| > 0 {
      assert Zero(|v|)[..|v| - 1] == Zero(|v| - 1);
      DotWithZero(v[..|v| - 1]);
    }
  }

  lemma {:induction false} SqrMagnitudeOfZero(n: nat)
    ensures SqrMagnitude(Zero(n)) == 0.0
    decreases n
  {
    if n > 0 {
      assert Zero(n)[..n - 1] == Zero(n - 1);
      SqrMagnitudeOfZero(n - 1);
    }
  }

  /** Flipping the sign of every component leaves the squared magnitude unchanged. */
  lemma {:induction false} SqrMagnitudeOfNegated(v: seq<real>)
    ensures SqrMagnitude(Scale(v, -1.0)) == SqrMagnitude(v)
    decreases |v|
  {
    if |v| > 0 {
      assert Scale(v, -1.0)[..|v| - 1] == Scale(v[..|v| - 1], -1.0);
      SqrMagnitudeOfNegated(v[..|v| - 1]);
    }
  }

  // ---------------------------------------------------------------------------
  // Distance and normalisation
  // ---------------------------------------------------------------------------

  /** Squared distance: squared magnitude of the difference a - b. */
  function SqrDistance(a: seq<real>, b: seq<real>): (d: real)
    requires |a| == |b|
    ensures 0.0 <= d
  {
    SqrMagnitude(Sub(a, b))
  }

  lemma SqrDistanceSymmetric(a: seq<real>, b: seq<real>)
    requires |a| == |b|
    ensures SqrDistance(a, b) == SqrDistance(b, a)
  {
    SubAntisymmetric(a, b);
    SqrMagnitudeOfNegated(Sub(b, a));
  }

  lemma SqrDistanceToSelf(a: seq<real>)
    ensures SqrDistance(a, a) == 0.0
  {
    SubSelfIsZero(a);
    SqrMagnitudeOfZero(|a|);
  }

  lemma SqrDistanceToZero(a: seq<real>)
    ensures SqrDistance(a, Zero(|a|)) == SqrMagnitude(a)
  {
    assert Sub(a, Zero(|a|)) == a;
  }

  /**
   * What Normalized relies on about the magnitude it computes: it is not
   * negative, and it is exactly zero when and only when the squared magnitude
   * is. (A square root, real or IEEE-754, has both properties.)
   */
  predicate IsMagnitudeOf(magnitude: real, v: seq<real>)
  {
    0.0 <= magnitude && (magnitude == 0.0 <==> SqrMagnitude(v) == 0.0)
  }

  /**
   * Normalized, given the magnitude of v: the zero vector when the magnitude is
   * exactly zero, otherwise v scaled by the inverse of the magnitude.
   */
  function Normalized(v: seq<real>, magnitude: real): (r: seq<real>)
    requires IsMagnitudeOf(magnitude, v)
    ensures |r| == |v|
    ensures SqrMagnitude(v) == 0.0 ==> r == Zero(|v|)
    ensures SqrMagnitude(v) != 0.0 ==> r == Scale(v, 1.0 / magnitude)
  {
    if magnitude == 0.0 then Zero(|v|)
    else
      var inverse := 1.0 / magnitude;
      Scale(v, inverse)
  }

  /** Normalising the zero vector gives the zero vector back, with no division. */
  lemma NormalizedZero(n: nat)
    ensures IsMagnitudeOf(0.0, Zero(n))
    ensures Normalized(Zero(n), 0.0) == Zero(n)
  {
    SqrMagnitudeOfZero(n);
  }

  // ---------------------------------------------------------------------------
  // Three-dimensional cross product
  // ---------------------------------------------------------------------------

  /** Slot i of the cross product: a[i+1] * b[i+2] - a[i+2] * b[i+1], indices taken modulo 3. */
  function CrossSlot(a: seq<real>, b: seq<real>, i: nat): (r: real)
    requires |a| == 3 && |b| == 3 && i < 3
  {
    a[(i + 1) % 3] * b[(i + 2) % 3] - a[(i + 2) % 3] * b[(i + 1) % 3]
  }

  /** The slots computed by the modular formula form the textbook cross product. */
  function Cross(a: seq<real>, b: seq<real>): (c: seq<real>)
    requires |a| == 3 && |b| == 3
    ensures c == [a[1] * b[2] - a[2] * b[1], a[2] * b[0] - a[0] * b[2], a[0] * b[1] - a[1] * b[0]]
  {
    assert CrossSlot(a, b, 0) == a[1] * b[2] - a[2] * b[1];
    assert CrossSlot(a, b, 1) == a[2] * b[0] - a[0] * b[2];
    assert CrossSlot(a, b, 2) == a[0] * b[1] - a[1] * b[0];
    seq(3, i requires 0 <= i < 3 => CrossSlot(a, b, i))
  }

  lemma CrossAntiCommutes(a: seq<real>, b: seq<real>)
    requires |a| == 3 && |b| == 3
    ensures Cross(a, b) == Scale(Cross(b, a), -1.0)
  {
  }

  lemma CrossSelfIsZero(a: seq<real>)
    requires |a| == 3
    ensures Cross(a, a) == Zero(3)
  {
  }

  lemma CrossWithZero(a: seq<real>)
    requires |a| == 3
    ensures Cross(a, Zero(3)) == Zero(3)
    ensures Cross(Zero(3), a) == Zero(3)
  {
  }
}
