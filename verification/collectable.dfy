/** A pickup (src/Entities/Collectable.ts): a force-integrated entity with a
    constant point value.  It has no movement or update of its own, so it
    follows the base entity's force commands and integrator. */
module Collectables {
  import opened Entities

  /** The configuration of a collectable (`CollectableProps`). */
  datatype CollectableProps = CollectableProps(base: EntityProps, value: real)

  datatype Collectable = Collectable(body: Entity, value: real)

  /** The `Collectable` constructor: every physical field from the
      configuration, force semantics, and the configured value. */
  function NewCollectable(p: CollectableProps): (c: Collectable)
    ensures c.body.motion == Force
    ensures PropsOf(c.body) == p.base
    ensures c.value == p.value
  {
    Collectable(NewEntity(p.base), p.value)
  }

  /** The inherited per-tick step; the value never changes. */
  function Update(c: Collectable, t: real): (r: Collectable)
    ensures r.value == c.value
    ensures r.body == UpdatePhysicalData(c.body, t)
  {
    c.(body := UpdatePhysicalData(c.body, t))
  }

  /** A command reaches the inherited force semantics; the value never changes. */
  function Steer(c: Collectable, cmd: Command): (r: Collectable)
    requires c.body.mass != 0.0
    ensures r.value == c.value
    ensures r.body == ForceMove(c.body, cmd)
  {
    c.(body := ForceMove(c.body, cmd))
  }

  /** The cull predicate for collectables. */
  predicate Alive(c: Collectable)
  {
    c.body.health > 0.0
  }
}
