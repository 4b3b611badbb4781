/** The glm vector and matrix types the plotting core computes with, over exact reals. */
module Vectors {

  datatype Vec2 = Vec2(x: real, y: real)
  datatype Vec3 = Vec3(x: real, y: real, z: real)
  datatype Vec4 = Vec4(x: real, y: real, z: real, w: real)

  /** A glm::mat4 given by its four columns. Instances use it as a packed record. */
  datatype Mat4 = Mat4(c0: Vec4, c1: Vec4, c2: Vec4, c3: Vec4)

  /** glm::vec3(v): every component set to v. */
  function Splat(v: real): Vec3 {
    Vec3(v, v, v)
  }

  /** A default-constructed glm::vec3 inside a resized vector. */
  const Zero3: Vec3 := Splat(0.0)

  /** glm::vec4(v, w). */
  function Extend(v: Vec3, w: real): Vec4 {
    Vec4(v.x, v.y, v.z, w)
  }

  /** glm::vec4(0, 0, 0, 1): the reserved column of every instance. */
  const Reserved: Vec4 := Vec4(0.0, 0.0, 0.0, 1.0)

  /** glm::min and glm::max on one component: (y < x) ? y : x and (x < y) ? y : x. */
  function MinR(a: real, b: real): real {
    if b < a then b else a
  }

  function MaxR(a: real, b: real): real {
    if a < b then b else a
  }

  function Min3(a: Vec3, b: Vec3): Vec3 {
    Vec3(MinR(a.x, b.x), MinR(a.y, b.y), MinR(a.z, b.z))
  }

  function Max3(a: Vec3, b: Vec3): Vec3 {
    Vec3(MaxR(a.x, b.x), MaxR(a.y, b.y), MaxR(a.z, b.z))
  }

  /** Componentwise a <= b. */
  predicate LessEq(a: Vec3, b: Vec3) {
    a.x <= b.x && a.y <= b.y && a.z <= b.z
  }

  /** Squared Euclidean distance; glm::distance(a, b) <= e iff this is <= e * e for e >= 0. */
  function SqDist(a: Vec3, b: Vec3): real {
    (a.x - b.x) * (a.x - b.x) + (a.y - b.y) * (a.y - b.y) + (a.z - b.z) * (a.z - b.z)
  }

  /** The points (px[i], py[i], pz[i]) of the first |px| rows. */
  function Zip3(px: seq<real>, py: seq<real>, pz: seq<real>): (r: seq<Vec3>)
    requires |py| >= |px| && |pz| >= |px|
    ensures |r| == |px| && forall i :: 0 <= i < |px| ==> r[i] == Vec3(px[i], py[i], pz[i])
  {
    seq(|px|, i requires 0 <= i < |px| => Vec3(px[i], py[i], pz[i]))
  }
}
