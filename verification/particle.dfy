/**
 * One fluid particle (sim/particle.cpp): an immutable record whose setters
 * return an updated copy. The identity `id` is fixed at construction and has
 * no setter; the `accelerated` flag can only be raised.
 */
module Particles {
  import opened Vectors
  import Constants

  datatype Particle = Particle(
    id: int,
    position: Vec3,
    hv: Vec3,
    velocity: Vec3,
    density: real,
    acceleration: Vec3,
    accelerated: bool)

  /** The constructor: the given identity and kinematic state, zero density,
      gravity as acceleration and the flag lowered. */
  function NewParticle(id: int, position: Vec3, hv: Vec3, velocity: Vec3): (p: Particle)
    ensures p.id == id && p.position == position && p.hv == hv && p.velocity == velocity
    ensures p.density == 0.0
    ensures p.acceleration == [0.0, -9.8, 0.0]
    ensures !p.accelerated
  {
    Particle(id, position, hv, velocity, 0.0, Constants.ExternalAcceleration, false)
  }

  // Getters. The component getters read the vectors by axis.

  function GetId(p: Particle): int { p.id }
  function GetPosition(p: Particle): Vec3 { p.position }
  function GetPx(p: Particle): real { p.position[0] }
  function GetPy(p: Particle): real { p.position[1] }
  function GetPz(p: Particle): real { p.position[2] }
  function GetHv(p: Particle): Vec3 { p.hv }
  function GetHvx(p: Particle): real { p.hv[0] }
  function GetHvy(p: Particle): real { p.hv[1] }
  function GetHvz(p: Particle): real { p.hv[2] }
  function GetVelocity(p: Particle): Vec3 { p.velocity }
  function GetDensity(p: Particle): real { p.density }
  function GetAcceleration(p: Particle): Vec3 { p.acceleration }
  function GetAx(p: Particle): real { p.acceleration[0] }
  function GetAy(p: Particle): real { p.acceleration[1] }
  function GetAz(p: Particle): real { p.acceleration[2] }
  function HasAccelerated(p: Particle): bool { p.accelerated }

  // Setters. Each replaces exactly one field.

  function SetPosition(p: Particle, v: Vec3): (r: Particle)
    ensures GetPosition(r) == v
    ensures r.id == p.id && r.hv == p.hv && r.velocity == p.velocity
    ensures r.density == p.density && r.acceleration == p.acceleration
    ensures r.accelerated == p.accelerated
  {
    p.(position := v)
  }

  function SetHv(p: Particle, v: Vec3): (r: Particle)
    ensures GetHv(r) == v
    ensures r.id == p.id && r.position == p.position && r.velocity == p.velocity
    ensures r.density == p.density && r.acceleration == p.acceleration
    ensures r.accelerated == p.accelerated
  {
    p.(hv := v)
  }

  function SetVelocity(p: Particle, v: Vec3): (r: Particle)
    ensures GetVelocity(r) == v
    ensures r.id == p.id && r.position == p.position && r.hv == p.hv
    ensures r.density == p.density && r.acceleration == p.acceleration
    ensures r.accelerated == p.accelerated
  {
    p.(velocity := v)
  }

  function SetDensity(p: Particle, d: real): (r: Particle)
    ensures GetDensity(r) == d
    ensures r.id == p.id && r.position == p.position && r.hv == p.hv
    ensures r.velocity == p.velocity && r.acceleration == p.acceleration
    ensures r.accelerated == p.accelerated
  {
    p.(density := d)
  }

  function SetAcceleration(p: Particle, a: Vec3): (r: Particle)
    ensures GetAcceleration(r) == a
    ensures r.id == p.id && r.position == p.position && r.hv == p.hv
    ensures r.velocity == p.velocity && r.density == p.density
    ensures r.accelerated == p.accelerated
  {
    p.(acceleration := a)
  }

  /** Raises the accelerated flag; nothing else changes. */
  function UpdateAccBool(p: Particle): (r: Particle)
    ensures HasAccelerated(r)
    ensures r.id == p.id && r.position == p.position && r.hv == p.hv
    ensures r.velocity == p.velocity && r.density == p.density
    ensures r.acceleration == p.acceleration
  {
    p.(accelerated := true)
  }

  /** Every mutation the class offers. */
  datatype Update =
    | SetPositionTo(v: Vec3)
    | SetHvTo(v: Vec3)
    | SetVelocityTo(v: Vec3)
    | SetDensityTo(d: real)
    | SetAccelerationTo(a: Vec3)
    | MarkAccelerated

  function Apply(p: Particle, u: Update): Particle
  {
    match u
    case SetPositionTo(v) => SetPosition(p, v)
    case SetHvTo(v) => SetHv(p, v)
    case SetVelocityTo(v) => SetVelocity(p, v)
    case SetDensityTo(d) => SetDensity(p, d)
    case SetAccelerationTo(a) => SetAcceleration(p, a)
    case MarkAccelerated => UpdateAccBool(p)
  }

  /** Applies a sequence of mutations, first to last. */
  function ApplyAll(p: Particle, us: seq<Update>): Particle
    decreases |us|
  {
    if us == [] then p else ApplyAll(Apply(p, us[0]), us[1..])
  }

  /** No sequence of mutations changes the identity (there is no id setter),
      and none lowers a raised accelerated flag. */
  lemma {:induction false} IdentityAndFlagSurviveUpdates(p: Particle, us: seq<Update>)
    ensures ApplyAll(p, us).id == p.id
    ensures HasAccelerated(p) ==> HasAccelerated(ApplyAll(p, us))
    decreases |us|
  {
    if us != [] {
      IdentityAndFlagSurviveUpdates(Apply(p, us[0]), us[1..]);
    }
  }

  /** Raising the flag twice is the same as raising it once. */
  lemma UpdateAccBoolIdempotent(p: Particle)
    ensures UpdateAccBool(UpdateAccBool(p)) == UpdateAccBool(p)
  {
  }

  /** A setter followed by the matching getter returns what was set; the
      component getters read axes 0, 1 and 2. */
  lemma GettersReadBackSetters(p: Particle, v: Vec3, d: real)
    ensures GetPx(SetPosition(p, v)) == v[0] && GetPy(SetPosition(p, v)) == v[1]
    ensures GetPz(SetPosition(p, v)) == v[2]
    ensures GetHvx(SetHv(p, v)) == v[0] && GetHvy(SetHv(p, v)) == v[1]
    ensures GetHvz(SetHv(p, v)) == v[2]
    ensures GetVelocity(SetVelocity(p, v)) == v
    ensures GetDensity(SetDensity(p, d)) == d
    ensures GetAx(SetAcceleration(p, v)) == v[0] && GetAy(SetAcceleration(p, v)) == v[1]
    ensures GetAz(SetAcceleration(p, v)) == v[2]
    ensures GetId(SetPosition(p, v)) == GetId(p)
  {
  }
}
