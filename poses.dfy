/** Camera poses as the recorder captures them: a world-space translation and a rotation. */
module Poses {

  /** A three-component vector of reals, standing for `Gf.Vec3d`. */
  datatype Vec3 = Vec3(x: real, y: real, z: real)

  /** A quaternion stored real part first and imaginary vector second, standing for `Gf.Quatd`. */
  datatype Quat = Quat(re: real, im: Vec3)

  /** One sample of the recording log: the `"pos"` and `"rot"` entries of a recorded frame. */
  datatype Pose = Pose(pos: Vec3, rot: Quat)

  /** Componentwise linear blend `(1 - t) * a + t * b`, the position interpolation of playback. */
  function Lerp(t: real, a: Vec3, b: Vec3): (r: Vec3)
    ensures t == 0.0 ==> r == a
    ensures t == 1.0 ==> r == b
    ensures a == b ==> r == a
  {
    Vec3((1.0 - t) * a.x + t * b.x, (1.0 - t) * a.y + t * b.y, (1.0 - t) * a.z + t * b.z)
  }
}
