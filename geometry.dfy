/**
 * The two pieces of engine arithmetic the combat code relies on: Bevy's
 * axis-aligned bounding-box test `collide` and `f32::clamp`. Coordinates are
 * exact reals here; f32 rounding is not modelled.
 */
module Geometry {

  datatype Vec2 = Vec2(x: real, y: real)

  /** An entity's translation (its centre) and scale (its full width and height). */
  datatype Transform = Transform(pos: Vec2, scale: Vec2)

  /**
   * Bevy's `collide`: the boxes centred at `a.pos` and `b.pos` with sizes
   * `a.scale` and `b.scale` overlap strictly on both axes.
   */
  predicate Collide(a: Transform, b: Transform)
  {
    var aMin := Vec2(a.pos.x - a.scale.x / 2.0, a.pos.y - a.scale.y / 2.0);
    var aMax := Vec2(a.pos.x + a.scale.x / 2.0, a.pos.y + a.scale.y / 2.0);
    var bMin := Vec2(b.pos.x - b.scale.x / 2.0, b.pos.y - b.scale.y / 2.0);
    var bMax := Vec2(b.pos.x + b.scale.x / 2.0, b.pos.y + b.scale.y / 2.0);
    aMin.x < bMax.x && aMax.x > bMin.x && aMin.y < bMax.y && aMax.y > bMin.y
  }

  /** The box test only depends on the distance of the centres, so the order of its arguments does not matter. */
  lemma CollideSymmetric(a: Transform, b: Transform)
    ensures Collide(a, b) <==> Collide(b, a)
  {
  }

  /** `f32::clamp(v, lo, hi)`. */
  function Clamp(v: real, lo: real, hi: real): (r: real)
    requires lo <= hi
    ensures lo <= r <= hi
    ensures lo <= v <= hi ==> r == v
    ensures v < lo ==> r == lo
    ensures hi < v ==> r == hi
  {
    if v < lo then lo else if hi < v then hi else v
  }
}
