/** Environmental hazards (src/Entities/Environment.ts): force-integrated
    entities whose damage is always 0, and the meteor with randomised size
    and horizontal drift. */
module Environment {
  import opened Numeric
  import opened Entities

  /** The configuration of a hazard (`EnvironmentEntityProps`). */
  datatype EnvironmentProps = EnvironmentProps(base: EntityProps, damage: real)

  datatype Hazard = Hazard(body: Entity, damage: real)

  /** The `EnvironmentEntity` constructor: the physical fields come from the
      configuration, but the configured damage is never read, so the damage
      stays at its initial 0. */
  function NewEnvironmentEntity(p: EnvironmentProps): (h: Hazard)
    ensures h.body.motion == Force && PropsOf(h.body) == p.base
    ensures h.damage == 0.0
  {
    Hazard(NewEntity(p.base), 0.0)
  }

  /** A meteor extent from its sample: `r * 100`, raised to 50 when smaller. */
  function MeteorExtent(r: real): (v: real)
    requires Sample(r)
    ensures 50.0 <= v < 100.0
    ensures r * 100.0 >= 50.0 ==> v == r * 100.0
    ensures r * 100.0 < 50.0 ==> v == 50.0
  {
    var v := r * 100.0;
    if v < 50.0 then 50.0 else v
  }

  /** The meteor's drift from its sample: left when `r * 5 > 2`, else right. */
  function MeteorDrift(r: real): (dx: real)
    ensures dx == -100.0 || dx == 100.0
    ensures dx == -100.0 <==> r * 5.0 > 2.0
  {
    if r * 5.0 > 2.0 then -100.0 else 100.0
  }

  /** The `Meteor` constructor with its three `Math.random` samples in call
      order (length, width, drift).  Both extents lie in [50, 100), the drift
      is ±100, the damage stays 0 (its own assignment copies itself), and
      every other field is the configured one. */
  function NewMeteor(p: EnvironmentProps, rLength: real, rWidth: real, rDrift: real): (m: Hazard)
    requires Sample(rLength) && Sample(rWidth) && Sample(rDrift)
    ensures 50.0 <= m.body.length < 100.0 && 50.0 <= m.body.width < 100.0
    ensures m.body.dx == -100.0 || m.body.dx == 100.0
    ensures m.body.length == MeteorExtent(rLength) && m.body.width == MeteorExtent(rWidth)
    ensures m.body.dx == MeteorDrift(rDrift)
    ensures m.damage == 0.0
    ensures m.body == NewEntity(p.base).(length := m.body.length, width := m.body.width, dx := m.body.dx)
  {
    var h := NewEnvironmentEntity(p);
    var length := MeteorExtent(rLength);
    var width := MeteorExtent(rWidth);
    h.(body := h.body.(length := length, width := width, dx := MeteorDrift(rDrift)), damage := h.damage)
  }

  /** The inherited per-tick step; the damage never changes. */
  function Update(h: Hazard, t: real): (r: Hazard)
    ensures r.damage == h.damage
    ensures r.body == UpdatePhysicalData(h.body, t)
  {
    h.(body := UpdatePhysicalData(h.body, t))
  }

  /** The cull predicate for hazards. */
  predicate Alive(h: Hazard)
  {
    h.body.health > 0.0
  }
}
