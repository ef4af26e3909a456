/**
 * The glm value types the mesh loader and the voxel grid use (vec2, vec3,
 * ivec3), with single-precision floats modelled as reals.
 */
module Vectors {

  datatype Option<T> = None | Some(value: T)

  /** glm::vec2, used for texture coordinates (s, t). */
  datatype Vec2 = Vec2(s: real, t: real)

  /** glm::vec3. */
  datatype Vec3 = Vec3(x: real, y: real, z: real)

  /** glm::ivec3, a grid cell coordinate. */
  datatype IVec3 = IVec3(x: int, y: int, z: int)

  datatype Axis = X | Y | Z

  function Get(v: Vec3, axis: Axis): real
  {
    match axis
    case X => v.x
    case Y => v.y
    case Z => v.z
  }

  function Sub(a: Vec3, b: Vec3): Vec3
  {
    Vec3(a.x - b.x, a.y - b.y, a.z - b.z)
  }

  /** glm::dot. */
  function Dot(a: Vec3, b: Vec3): real
  {
    a.x * b.x + a.y * b.y + a.z * b.z
  }

  /** glm::cross. */
  function Cross(a: Vec3, b: Vec3): Vec3
  {
    Vec3(a.y * b.z - a.z * b.y, a.z * b.x - a.x * b.z, a.x * b.y - a.y * b.x)
  }

  /** The vector with its component on `axis` negated. */
  function NegateAxis(v: Vec3, axis: Axis): (r: Vec3)
    ensures Get(r, axis) == -Get(v, axis)
    ensures forall other :: other != axis ==> Get(r, other) == Get(v, other)
  {
    match axis
    case X => v.(x := -v.x)
    case Y => v.(y := -v.y)
    case Z => v.(z := -v.z)
  }
}
