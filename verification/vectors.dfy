/**
 * Fixed-length vectors shared by every component of the simulator. The
 * source keeps positions, velocities and accelerations in std::vector<float>
 * or std::vector<double> of size 3, and block keys in std::vector<int> of
 * size 3; both are modelled as length-3 sequences. Single and double
 * precision are both modelled as `real`.
 */
module Vectors {

  /** Three real components: a position, velocity or acceleration. */
  type Vec3 = s: seq<real> | |s| == 3 witness [0.0, 0.0, 0.0]

  /** Three integer components: the index of a grid block. */
  type Index3 = s: seq<int> | |s| == 3 witness [0, 0, 0]
}
