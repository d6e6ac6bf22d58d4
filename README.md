# MultiDimensionalVector in Dafny

A model of `Vector<Dimension>` from `Vector.h`: a fixed-dimension tuple of
floating-point components with bounds-checked indexed access, element-wise
`+`, `-`, `*` and `/`, the accumulating `SqrMagnitude` and `Dot`, `SqrDistance`,
the zero-magnitude guard of `Normalized`, and the thin `Vector2` / `Vector3`
specialisations with their named `X`/`Y`/`Z` components and `Vector3::Cross`.

Two modules:

- `VectorMath` (`vector_math.dfy`) gives the value-level meaning: the
  components as a `seq<real>`, each operation as a function of them
  (`Operate`, `OperateScalar`, `Add`, `Sub`, `Scale`, `Divide`, `SqrMagnitude`,
  `Dot`, `SqrDistance`, `Normalized`, `Cross`, bounds-checked `At`/`Update`),
  and the lemmas relating them.
- `Vectors` (`vector.dfy`) is the object: class `Vector` with its dimension and
  a component `array<real>`. The loops of `SqrMagnitude`, `Dot`, `Operate`,
  `OperateScalar` and `Cross` are `for` loops with invariants, and every method
  is proved against the matching `VectorMath` function. The element-wise
  methods have no `modifies` clause, so both operands are unchanged by
  construction; only `Set` (the write through the mutable `operator[]`),
  and `SetSlotZeroSeenByX` through it, change a vector.

Components are `real`, an exact stand-in for `float`. Every stated property
also holds exactly for finite IEEE-754 values for which no intermediate
product or sum overflows: it rests on exact IEEE-754 facts such as
commutativity of `+` and `*`, exact negation, `x - x == 0`, `x + 0 == x`,
`x - 0 == x`, `x * 1 == x`, `x / 1 == x`, `x * 0 == 0`, `0 / s == 0` for
`s != 0`, `x * x >= 0`, and a rounded sum of non-negative terms staying
non-negative.
Once a product overflows to infinity the float results differ (see the
overflow line under "## Left out"). The template parameter `Dimension` is the runtime constant
`dim`; operations on two vectors require equal `dim`, which C++ enforces by
type. The two `static_assert`s of the variadic constructor become its
preconditions `0 < n` and `|args| == n`. Index `unsigned int` is `nat`.
`Vector2` and `Vector3` are the class at dimension 2 and 3, built by the
named constructors `Vector2`/`Vector3`; `X`, `Y`, `Z` are accessors on slots
0, 1, 2 of the same storage.

## Model

| member | source | states |
|---|---|---|
| `Vectors.Vector.constructor` | Vector.h:9-14 | given a positive dimension and exactly that many arguments, the vector holds them in argument order |
| `Vectors.Vector.Zeroed` | Vector.h:100 | the protected constructor gives a vector of the requested dimension whose every component is 0 |
| `Vectors.Vector.Zero` | Vector.h:81 | `Zero()` gives a fresh vector of the dimension whose every component is 0 |
| `VectorMath.Zero` | Vector.h:100 | the zero vector has exactly `n` components, all 0 |
| `Vectors.Vector.Get` | Vector.h:17 | reading slot `i` succeeds exactly when `i < Dimension` and returns that slot; otherwise it fails with `OutOfRange` |
| `Vectors.Vector.Set` | Vector.h:16 | writing through the mutable reference succeeds exactly when `i < Dimension`, and then only slot `i` changes, to `x`; otherwise it fails with `OutOfRange` and nothing changes |
| `VectorMath.At` | Vector.h:17 | `parameters.at(i)`: slot `i` when `i` is below the dimension, otherwise `OutOfRange` |
| `VectorMath.Update` | Vector.h:16 | writing through `at(i)`: when `i` is below the dimension the same length with slot `i` equal to `x` and every other slot kept, otherwise `OutOfRange` |
| `VectorMath.UpdateThenAt` | Vector.h:16-17 | after a successful write of `x` at `i`, the dimension is the same, a read of `i` gives `x`, and a read of any other slot gives what it gave before |
| `VectorMath.UpdateFailsIffAtFails` | Vector.h:16-17 | a write fails exactly when a read of the same index fails, and then with `OutOfRange` |
| `Vectors.Vector.Vector2` | Vector.h:129 | `Vector2(x, y)` has dimension 2, components `[x, y]`, and `X`/`Y` read `x`/`y` |
| `Vectors.Vector.Vector3` | Vector.h:139 | `Vector3(x, y, z)` has dimension 3, components `[x, y, z]`, and `X`/`Y`/`Z` read `x`/`y`/`z` |
| `Vectors.Vector.X` | Vector.h:132 | `X` is the value indexed access returns for slot 0 |
| `Vectors.Vector.Y` | Vector.h:133 | `Y` is the value indexed access returns for slot 1 |
| `Vectors.Vector.Z` | Vector.h:144 | `Z` is the value indexed access returns for slot 2 |
| `Vectors.Vector.SetSlotZeroSeenByX` | Vector.h:142-144 | `X` and slot 0 are the same storage: a write to slot 0 is seen by `X` and leaves `Y` and `Z` as they were |
| `Vectors.Vector.Operate` | Vector.h:103-112 | fills a fresh vector of the same dimension so that slot `i` is `op(this[i], other[i])` for every `i` |
| `Vectors.Vector.OperateScalar` | Vector.h:114-123 | fills a fresh vector of the same dimension so that slot `i` is `op(this[i], scalar)` for every `i` |
| `VectorMath.Apply` | Vector.h:18-21 | the functors `std::plus`, `std::minus`, `std::multiplies`, `std::divides`: `x + y`, `x - y`, `x * y`, and for a non-zero `y`, `x / y` |
| `VectorMath.Operate` | Vector.h:103-112 | a vector of the operands' dimension whose slot `i` is `op(a[i], b[i])` |
| `VectorMath.OperateScalar` | Vector.h:114-123 | a vector of the operand's dimension whose slot `i` is `op(a[i], s)` |
| `VectorMath.Add` | Vector.h:18 | the sum has the operands' dimension and slot `i` is `a[i] + b[i]` |
| `VectorMath.Sub` | Vector.h:19 | the difference has the operands' dimension and slot `i` is `a[i] - b[i]` |
| `VectorMath.Scale` | Vector.h:21 | the product has the vector's dimension and slot `i` is `v[i] * s` |
| `VectorMath.Divide` | Vector.h:20 | the quotient has the vector's dimension and slot `i` is `v[i] / s` |
| `Vectors.Vector.Add` | Vector.h:18 | `a + b` is a new vector equal to `VectorMath.Add` of the operands' components |
| `Vectors.Vector.Sub` | Vector.h:19 | `a - b` is a new vector equal to `VectorMath.Sub` of the operands' components |
| `Vectors.Vector.Scale` | Vector.h:21 | `v * s` is a new vector equal to `VectorMath.Scale` of the components |
| `Vectors.Vector.Divide` | Vector.h:20 | `v / s` is a new vector equal to `VectorMath.Divide` of the components |
| `VectorMath.AddCommutes` | Vector.h:18 | `a + b == b + a` |
| `VectorMath.AddZeroIsIdentity` | Vector.h:18 | adding the zero vector changes nothing |
| `VectorMath.SubIsAddNegated` | Vector.h:19 | `a - b == a + b * -1` |
| `VectorMath.SubAntisymmetric` | Vector.h:19 | `a - b == (b - a) * -1` |
| `VectorMath.SubSelfIsZero` | Vector.h:19 | `a - a` is the zero vector |
| `VectorMath.ScaleByOneIsIdentity` | Vector.h:21 | `v * 1 == v` |
| `VectorMath.DivideByOneIsIdentity` | Vector.h:20 | `v / 1 == v` |
| `VectorMath.ZeroStaysZero` | Vector.h:20-21 | the zero vector times any scalar, or divided by any non-zero scalar, is the zero vector |
| `VectorMath.SqrMagnitude` | Vector.h:23-31 | the sum of squares accumulated from slot 0 upwards is never negative |
| `Vectors.Vector.SqrMagnitude` | Vector.h:23-31 | the accumulation loop computes `VectorMath.SqrMagnitude` of the components, which is never negative |
| `Vectors.Vector.Dot` | Vector.h:49-57 | the accumulation loop computes `VectorMath.Dot` of the two component sequences |
| `VectorMath.Dot` | Vector.h:49-57 | the sum of `a[i] * b[i]`, accumulated from slot 0 upwards; for `a == b` it equals `SqrMagnitude(a)`, the loop of Vector.h:23-31 |
| `VectorMath.DotCommutes` | Vector.h:49-57 | `Dot(a, b) == Dot(b, a)` |
| `VectorMath.DotWithZero` | Vector.h:49-57 | the dot product with the zero vector is 0 |
| `VectorMath.SqrMagnitudeOfZero` | Vector.h:23-31 | the zero vector has squared magnitude 0 |
| `VectorMath.SqrMagnitudeOfNegated` | Vector.h:23-31 | negating every component leaves the squared magnitude unchanged |
| `Vectors.Vector.SqrDistance` | Vector.h:71-74 | computing the squared magnitude of `this - other` gives the squared distance in both argument orders, and it is never negative |
| `VectorMath.SqrDistance` | Vector.h:71-74 | the squared magnitude of `a - b`; never negative |
| `VectorMath.SqrDistanceSymmetric` | Vector.h:71-74 | `SqrDistance(a, b) == SqrDistance(b, a)` |
| `VectorMath.SqrDistanceToSelf` | Vector.h:71-74 | `SqrDistance(a, a) == 0` |
| `VectorMath.SqrDistanceToZero` | Vector.h:71-74 | the squared distance to the zero vector is the squared magnitude |
| `VectorMath.Normalized` | Vector.h:38-47 | when the squared magnitude is 0 the result is the zero vector; otherwise it is the vector scaled by `1 / magnitude`; the dimension is kept |
| `Vectors.Vector.Normalized` | Vector.h:38-47 | the method returns a fresh vector equal to `VectorMath.Normalized`, taking the `Zero()` branch exactly when the magnitude is 0 |
| `VectorMath.NormalizedZero` | Vector.h:38-44 | the zero vector has magnitude 0 and normalises to the zero vector |
| `Vectors.Vector.Cross` | Vector.h:146-155 | the loop fills a fresh 3-vector equal to `VectorMath.Cross` of the operands, slot `i` being `a[(i+1)%3]*b[(i+2)%3] - a[(i+2)%3]*b[(i+1)%3]` |
| `VectorMath.Cross` | Vector.h:151-152 | built from the helper `VectorMath.CrossSlot`: slot `i` is `a[(i+1)%3]*b[(i+2)%3] - a[(i+2)%3]*b[(i+1)%3]`, which equals the textbook `(a1 b2 - a2 b1, a2 b0 - a0 b2, a0 b1 - a1 b0)` |
| `VectorMath.CrossAntiCommutes` | Vector.h:146-155 | `Cross(a, b) == Cross(b, a) * -1` |
| `VectorMath.CrossSelfIsZero` | Vector.h:146-155 | `Cross(a, a)` is the zero vector |
| `VectorMath.CrossWithZero` | Vector.h:146-155 | the cross product with the zero vector, on either side, is the zero vector |

## Left out

- `Print` (Vector.h:83-95): console output, a debugging aid.
- `Magnitude`, `Distance` and `UnNormalDot` (Vector.h:33-36, 66-69, 76-79): they are built on `sqrt`, which Dafny's reals do not provide.
- `VectorMath.Normalized`: the magnitude is a parameter instead of `sqrt(SqrMagnitude())`; the model only assumes it is non-negative and zero exactly when the squared magnitude is zero, so it does not claim that a normalised vector has length 1.
- `Vectors.Vector.Normalized`: takes the magnitude as a parameter, for the same reason.
- `Vectors.Vector.Divide`: requires a non-zero scalar; division by zero (infinity or NaN in IEEE-754) is not modelled.
- `VectorMath.Divide`: requires a non-zero scalar, as above.
- `VectorMath.Apply`: requires a non-zero divisor for `Divides` (the predicate `Admissible`), as above.
- `VectorMath.Operate`: requires `Admissible` for every divisor slot, as above.
- `VectorMath.OperateScalar`: requires `Admissible` for the scalar, as above.
- `Vectors.Vector.Operate`: requires `Admissible` for every slot of `other`, as above.
- `Vectors.Vector.OperateScalar`: requires `Admissible` for the scalar, as above.
- IEEE-754 rounding, NaN and infinity: components are exact reals, so no property depending on rounding (associativity, `(v * s) / s == v`, unit length after normalising) is stated.
- Contraction and excess precision: reading the properties as float facts assumes that every float operation is rounded on its own, in `float` precision. C++ allows `a*b - c*d` (Vector.h:151-152) to be contracted into a fused multiply-add, and allows evaluation with excess precision. Under contraction, float `Cross(a, a)` is the rounding error of a product, not 0, so `VectorMath.CrossSelfIsZero` and `VectorMath.CrossAntiCommutes` would not carry over.
- Float overflow: the reals never overflow, so the lemmas about `Cross`, `Dot`, `SqrMagnitude` and `SqrDistance` hold for floats only while no intermediate product or sum overflows. For example, with `a = (1e20, 1e20, 1e20)` each float product in `Cross(a, a)` (Vector.h:151-152) is `+inf` and `inf - inf` is NaN, so the float result is `(NaN, NaN, NaN)`, not the zero vector that `VectorMath.CrossSelfIsZero` states.
- The `std::function` wrapper of `Operate`/`OperateScalar` (Vector.h:103, 114): the four operations passed to them are the datatype `VectorMath.Op`.
- The move-adopting constructors `Vector2(Vector<2>&&)` and `Vector3(Vector<3>&&)` (Vector.h:130, 140): ownership transfer with no change to the components.
- The C++ reference members `X`, `Y`, `Z`: in the model they are accessors on the vector's own storage. In C++ the implicitly generated copy and move constructors bind a copy's references to the source object's storage, and copy assignment is deleted; these lifetime effects are not modelled.
- Subclassing: `Vector2` and `Vector3` are the one class `Vector` at dimension 2 and 3, so `Cross` requires dimension 3 instead of being available only on `Vector3`.
