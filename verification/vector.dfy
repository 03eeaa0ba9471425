/** Two-dimensional vectors over the reals, and the transcendental functions
    the simulation uses. `sqrt`, `cos`, `sin` and `atan2` are not given a
    definition: they are fields of a `MathLib` value that every caller passes
    in, so no property proved here depends on what they compute. */
module Vec {

  datatype Vector = Vector(x: real, y: real)

  /** The uninterpreted floating-point library (`Math.sqrt`, `Math.cos`,
      `Math.sin`, `Math.atan2`, and `Math.PI` as the value it rounds to). */
  datatype MathLib = MathLib(
    sqrt: real -> real,
    cos: real -> real,
    sin: real -> real,
    atan2: (real, real) -> real,
    pi: real)

  const Zero := Vector(0.0, 0.0)

  function Add(a: Vector, b: Vector): Vector {
    Vector(a.x + b.x, a.y + b.y)
  }

  function Sub(a: Vector, b: Vector): Vector {
    Vector(a.x - b.x, a.y - b.y)
  }

  function Scale(a: Vector, k: real): Vector {
    Vector(a.x * k, a.y * k)
  }

  function Dot(a: Vector, b: Vector): real {
    a.x * b.x + a.y * b.y
  }

  /** `Vector.distance(a, b)`: the square root of the squared Euclidean distance. */
  function Distance(m: MathLib, a: Vector, b: Vector): real {
    m.sqrt((b.x - a.x) * (b.x - a.x) + (b.y - a.y) * (b.y - a.y))
  }

  /** `mag`: the length of the vector. */
  function Mag(m: MathLib, a: Vector): real {
    m.sqrt(a.x * a.x + a.y * a.y)
  }

  /** `normalize()`: divides by the length unless the length is zero. */
  function Normalize(m: MathLib, a: Vector): Vector {
    var l := Mag(m, a);
    if l != 0.0 then Vector(a.x / l, a.y / l) else a
  }

  /** `addAngle(angle)`: multiplies the components by `cos` and `sin` of the angle. */
  function AddAngle(m: MathLib, a: Vector, angle: real): Vector {
    Vector(a.x * m.cos(angle), a.y * m.sin(angle))
  }

  /** `angle()`: the direction of the vector, `atan2(y, x)`. */
  function Angle(m: MathLib, a: Vector): real {
    m.atan2(a.y, a.x)
  }
}
