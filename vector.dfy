/**
 * Vector<Dimension> as an object: a fixed dimension and a component array
 * that bounds-checked indexed access may write in place. Every operation
 * that loops over the components in the C++ class of Vector.h is a method
 * with the same loop, proved against the value-level functions of VectorMath.
 *
 * Vector2 and Vector3 are the same class at dimension 2 and 3: named
 * constructors, and X/Y/Z accessors that read slots 0/1/2 of the same array.
 */
module Vectors {
  import VectorMath

  class Vector {
    /** The template parameter Dimension. */
    const dim: nat
    /** The component storage, std::array<float, Dimension>. */
    const parameters: array<real>

    /** Dimension is positive and the storage holds exactly Dimension slots. */
    ghost predicate Valid()
    {
      0 < dim && parameters.Length == dim
    }

    /** The components in index order. */
    function Elements(): seq<real>
      reads parameters
    {
      parameters[..]
    }

    /** The variadic constructor: exactly Dimension values, stored in argument order. */
    constructor (n: nat, args: seq<real>)
      requires 0 < n && |args| == n
      ensures Valid() && dim == n && fresh(parameters)
      ensures Elements() == args
    {
      dim := n;
      parameters := new real[n](i requires 0 <= i < n => args[i]);
    }

    /** The protected constructor: every slot zero-initialised. */
    constructor Zeroed(n: nat)
      requires 0 < n
      ensures Valid() && dim == n && fresh(parameters)
      ensures Elements() == VectorMath.Zero(n)
    {
      dim := n;
      parameters := new real[n](_ => 0.0);
    }

    /** Vector2(x, y). */
    constructor Vector2(x: real, y: real)
      ensures Valid() && dim == 2 && fresh(parameters)
      ensures Elements() == [x, y]
      ensures X() == x && Y() == y
    {
      dim := 2;
      parameters := new real[2][x, y];
    }

    /** Vector3(x, y, z). */
    constructor Vector3(x: real, y: real, z: real)
      ensures Valid() && dim == 3 && fresh(parameters)
      ensures Elements() == [x, y, z]
      ensures X() == x && Y() == y && Z() == z
    {
      dim := 3;
      parameters := new real[3][x, y, z];
    }

    /** Zero(): a new vector of this dimension with every component 0. */
    static method Zero(n: nat) returns (z: Vector)
      requires 0 < n
      ensures fresh(z) && fresh(z.parameters) && z.Valid() && z.dim == n
      ensures z.Elements() == VectorMath.Zero(n)
    {
      z := new Vector.Zeroed(n);
    }

    // -------------------------------------------------------------------------
    // Indexed and named access
    // -------------------------------------------------------------------------

    /** The const operator[]: slot i, or OutOfRange when i >= Dimension. */
    method Get(i: nat) returns (r: VectorMath.Result<real>)
      requires Valid()
      ensures r == VectorMath.At(Elements(), i)
      ensures r.Ok? <==> i < dim
    {
      if i < dim {
        r := VectorMath.Ok(parameters[i]);
      } else {
        r := VectorMath.Err(VectorMath.OutOfRange);
      }
    }

    /**
     * An assignment through the mutable operator[]: x lands in slot i and no
     * other slot changes; when i >= Dimension nothing changes and the access
     * fails with OutOfRange.
     */
    method Set(i: nat, x: real) returns (r: VectorMath.Result<()>)
      requires Valid()
      modifies parameters
      ensures r.Ok? <==> i < dim
      ensures r.Ok? ==> VectorMath.Update(old(Elements()), i, x) == VectorMath.Ok(Elements())
      ensures r.Err? ==> r.error == VectorMath.OutOfRange && Elements() == old(Elements())
    {
      if i < dim {
        parameters[i] := x;
        r := VectorMath.Ok(());
      } else {
        r := VectorMath.Err(VectorMath.OutOfRange);
      }
    }

    /** Vector2::X and Vector3::X: the value indexed access reads at slot 0. */
    function X(): (x: real)
      requires Valid() && (dim == 2 || dim == 3)
      reads parameters
      ensures VectorMath.At(Elements(), 0) == VectorMath.Ok(x)
    {
      parameters[0]
    }

    /** Vector2::Y and Vector3::Y: the value indexed access reads at slot 1. */
    function Y(): (y: real)
      requires Valid() && (dim == 2 || dim == 3)
      reads parameters
      ensures VectorMath.At(Elements(), 1) == VectorMath.Ok(y)
    {
      parameters[1]
    }

    /** Vector3::Z: the value indexed access reads at slot 2. */
    function Z(): (z: real)
      requires Valid() && dim == 3
      reads parameters
      ensures VectorMath.At(Elements(), 2) == VectorMath.Ok(z)
    {
      parameters[2]
    }

    /**
     * X and slot 0 are one memory location: writing slot 0 through indexed
     * access is seen by X, and Y (and Z) keep their values.
     */
    method SetSlotZeroSeenByX(x: real)
      requires Valid() && (dim == 2 || dim == 3)
      modifies parameters
      ensures X() == x && Y() == old(Y())
      ensures dim == 3 ==> Z() == old(Z())
    {
      var r := Set(0, x);
      assert r.Ok?;
    }

    // -------------------------------------------------------------------------
    // Element-wise operations
    // -------------------------------------------------------------------------

    /** Operate: a new vector whose slot i is op(this[i], other[i]). */
    method Operate(other: Vector, op: VectorMath.Op) returns (result: Vector)
      requires Valid() && other.Valid() && other.dim == dim
      requires forall i :: 0 <= i < other.parameters.Length ==> VectorMath.Admissible(op, other.parameters[i])
      ensures fresh(result) && fresh(result.parameters) && result.Valid() && result.dim == dim
      ensures result.Elements() == VectorMath.Operate(Elements(), other.Elements(), op)
    {
      result := new Vector.Zeroed(dim);
      for i := 0 to dim
        invariant forall k :: 0 <= k < i ==> result.parameters[k] == VectorMath.Apply(op, parameters[k], other.parameters[k])
      {
        result.parameters[i] := VectorMath.Apply(op, parameters[i], other.parameters[i]);
      }
    }

    /** OperateScalar: a new vector whose slot i is op(this[i], scalar). */
    method OperateScalar(scalar: real, op: VectorMath.Op) returns (result: Vector)
      requires Valid() && VectorMath.Admissible(op, scalar)
      ensures fresh(result) && fresh(result.parameters) && result.Valid() && result.dim == dim
      ensures result.Elements() == VectorMath.OperateScalar(Elements(), scalar, op)
    {
      result := new Vector.Zeroed(dim);
      for i := 0 to dim
        invariant forall k :: 0 <= k < i ==> result.parameters[k] == VectorMath.Apply(op, parameters[k], scalar)
      {
        result.parameters[i] := VectorMath.Apply(op, parameters[i], scalar);
      }
    }

    /** operator+: element-wise sum; both operands are left unchanged. */
    method Add(other: Vector) returns (r: Vector)
      requires Valid() && other.Valid() && other.dim == dim
      ensures fresh(r) && fresh(r.parameters) && r.Valid() && r.dim == dim
      ensures r.Elements() == VectorMath.Add(Elements(), other.Elements())
    {
      r := Operate(other, VectorMath.Plus);
    }

    /** operator-: element-wise difference; both operands are left unchanged. */
    method Sub(other: Vector) returns (r: Vector)
      requires Valid() && other.Valid() && other.dim == dim
      ensures fresh(r) && fresh(r.parameters) && r.Valid() && r.dim == dim
      ensures r.Elements() == VectorMath.Sub(Elements(), other.Elements())
    {
      r := Operate(other, VectorMath.Minus);
    }

    /** operator*: every component times the scalar. */
    method Scale(scalar: real) returns (r: Vector)
      requires Valid()
      ensures fresh(r) && fresh(r.parameters) && r.Valid() && r.dim == dim
      ensures r.Elements() == VectorMath.Scale(Elements(), scalar)
    {
      r := OperateScalar(scalar, VectorMath.Multiplies);
    }

    /** operator/: every component divided by the scalar. */
    method Divide(scalar: real) returns (r: Vector)
      requires Valid() && scalar != 0.0
      ensures fresh(r) && fresh(r.parameters) && r.Valid() && r.dim == dim
      ensures r.Elements() == VectorMath.Divide(Elements(), scalar)
    {
      r := OperateScalar(scalar, VectorMath.Divides);
    }

    // -------------------------------------------------------------------------
    // Accumulations
    // -------------------------------------------------------------------------

    /** SqrMagnitude: the sum of squares, accumulated slot by slot; never negative. */
    method SqrMagnitude() returns (mag: real)
      requires Valid()
      ensures mag == VectorMath.SqrMagnitude(Elements())
      ensures 0.0 <= mag
    {
      mag := 0.0;
      for i := 0 to dim
        invariant mag == VectorMath.SqrMagnitude(parameters[..i])
      {
        assert parameters[..i + 1][..i] == parameters[..i];
        mag := mag + parameters[i] * parameters[i];
      }
      assert parameters[..dim] == parameters[..];
    }

    /** Dot: the sum of products of matching slots, accumulated slot by slot. */
    method Dot(other: Vector) returns (product: real)
      requires Valid() && other.Valid() && other.dim == dim
      ensures product == VectorMath.Dot(Elements(), other.Elements())
    {
      product := 0.0;
      for i := 0 to dim
        invariant product == VectorMath.Dot(parameters[..i], other.parameters[..i])
      {
        assert parameters[..i + 1][..i] == parameters[..i];
        assert other.parameters[..i + 1][..i] == other.parameters[..i];
        product := product + parameters[i] * other.parameters[i];
      }
      assert parameters[..dim] == parameters[..];
      assert other.parameters[..dim] == other.parameters[..];
    }

    /** SqrDistance: the squared magnitude of this - other; symmetric, zero to itself. */
    method SqrDistance(other: Vector) returns (d: real)
      requires Valid() && other.Valid() && other.dim == dim
      ensures d == VectorMath.SqrDistance(Elements(), other.Elements())
      ensures d == VectorMath.SqrDistance(other.Elements(), Elements())
      ensures 0.0 <= d
    {
      var difference := Sub(other);
      d := difference.SqrMagnitude();
      VectorMath.SqrDistanceSymmetric(Elements(), other.Elements());
    }

    /**
     * Normalized, given the magnitude the C++ class computes with sqrt: the zero
     * vector when that magnitude is exactly 0, otherwise this times 1 / magnitude.
     */
    method Normalized(magnitude: real) returns (r: Vector)
      requires Valid() && VectorMath.IsMagnitudeOf(magnitude, Elements())
      ensures fresh(r) && fresh(r.parameters) && r.Valid() && r.dim == dim
      ensures r.Elements() == VectorMath.Normalized(Elements(), magnitude)
    {
      if magnitude == 0.0 {
        r := Zero(dim);
        return;
      }
      var inverse := 1.0 / magnitude;
      r := Scale(inverse);
    }

    // -------------------------------------------------------------------------
    // Vector3::Cross
    // -------------------------------------------------------------------------

    /** Cross: slot i of the result is this[i+1] * other[i+2] - this[i+2] * other[i+1], modulo 3. */
    method Cross(other: Vector) returns (result: Vector)
      requires Valid() && other.Valid() && dim == 3 && other.dim == 3
      ensures fresh(result) && fresh(result.parameters) && result.Valid() && result.dim == 3
      ensures result.Elements() == VectorMath.Cross(Elements(), other.Elements())
    {
      result := new Vector.Zeroed(3);
      for i := 0 to 3
        invariant forall k :: 0 <= k < i ==> result.parameters[k] == VectorMath.CrossSlot(Elements(), other.Elements(), k)
      {
        result.parameters[i] :=
          (parameters[(i + 1) % 3] * other.parameters[(i + 2) % 3]) - (parameters[(i + 2) % 3] * other.parameters[(i + 1) % 3]);
      }
    }
  }
}
