/** The few parts of Unity's vector and matrix types that the pipeline uses, over the reals. */
module Linear {

  datatype Vec2 = Vec2(x: real, y: real)

  datatype Vec3 = Vec3(x: real, y: real, z: real) {
    function Plus(o: Vec3): Vec3 { Vec3(x + o.x, y + o.y, z + o.z) }
    function Minus(o: Vec3): Vec3 { Vec3(x - o.x, y - o.y, z - o.z) }
    function Scale(k: real): Vec3 { Vec3(k * x, k * y, k * z) }
    function Div(k: real): Vec3 requires k != 0.0 { Vec3(x / k, y / k, z / k) }
  }

  datatype Vec4 = Vec4(x: real, y: real, z: real, w: real) {
    /** Unity's `(Vector3)v`: the homogeneous component is dropped. */
    function XYZ(): Vec3 { Vec3(x, y, z) }
  }

  const Zero3 := Vec3(0.0, 0.0, 0.0)

  /** Unity's `Matrix4x4`; `mRC` is the entry in row R and column C. */
  datatype Matrix4x4 = Matrix4x4(
    m00: real, m01: real, m02: real, m03: real,
    m10: real, m11: real, m12: real, m13: real,
    m20: real, m21: real, m22: real, m23: real,
    m30: real, m31: real, m32: real, m33: real)

  /** `new Matrix4x4()`: the C# struct default, every entry zero. */
  const ZeroMatrix := Matrix4x4(0.0, 0.0, 0.0, 0.0, 0.0, 0.0, 0.0, 0.0,
                                0.0, 0.0, 0.0, 0.0, 0.0, 0.0, 0.0, 0.0)

  const Identity := Matrix4x4(1.0, 0.0, 0.0, 0.0, 0.0, 1.0, 0.0, 0.0,
                              0.0, 0.0, 1.0, 0.0, 0.0, 0.0, 0.0, 1.0)

  /** `m * v` for a column vector `v`. */
  function Apply(m: Matrix4x4, v: Vec4): Vec4 {
    Vec4(m.m00 * v.x + m.m01 * v.y + m.m02 * v.z + m.m03 * v.w,
         m.m10 * v.x + m.m11 * v.y + m.m12 * v.z + m.m13 * v.w,
         m.m20 * v.x + m.m21 * v.y + m.m22 * v.z + m.m23 * v.w,
         m.m30 * v.x + m.m31 * v.y + m.m32 * v.z + m.m33 * v.w)
  }
}
