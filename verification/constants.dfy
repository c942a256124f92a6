/**
 * The simulation constants the modelled core reads: the domain box and the
 * external acceleration every particle starts with, plus the radius
 * multiplier that fixes the smoothing length for a given particles-per-meter.
 */
module Constants {
  import opened Vectors

  /** Smoothing length is RadiusMultiplier / ppm. */
  const RadiusMultiplier: real := 1.695

  /** Gravity, the initial acceleration of every particle. */
  const ExternalAcceleration: Vec3 := [0.0, -9.8, 0.0]

  /** Upper corner of the simulation box. */
  const BoxUpperBound: Vec3 := [0.065, 0.1, 0.065]

  /** Lower corner of the simulation box. */
  const BoxLowerBound: Vec3 := [-0.065, -0.08, -0.065]

  /** Width of the box along one axis. */
  function Extent(axis: nat): (w: real)
    requires axis < 3
    ensures w > 0.0
  {
    BoxUpperBound[axis] - BoxLowerBound[axis]
  }
}
