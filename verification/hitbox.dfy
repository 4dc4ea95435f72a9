/**
 * public/components/hitbox-component.js: the `hitbox-component` (box sizes
 * taken from the entity's geometry and an axis-aligned overlap test against
 * another entity) and the `hitbox` component (a child box entity placed at
 * an offset, and a page-wide registry of hitbox components).
 */
module Hitbox {
  import opened Common

  datatype Dims = Dims(width: real, height: real, depth: real)

  const UnitBox := Dims(1.0, 1.0, 1.0)

  predicate Positive(d: Dims)
  {
    d.width > 0.0 && d.height > 0.0 && d.depth > 0.0
  }

  // ---------------------------------------------------------------------
  // hitbox-component: sizes and overlap

  /** `value || 1` for a geometry dimension: undefined and 0 are falsy and give 1. */
  function OrOne(v: Option<real>): (r: real)
    ensures r != 0.0
    ensures r == 1.0 <==> v.None? || v.value == 0.0 || v.value == 1.0
    ensures r != 1.0 ==> v == Some(r)
  {
    if v.None? || v.value == 0.0 then 1.0 else v.value
  }

  /** The entity's `geometry` attribute, with each dimension possibly undefined. */
  datatype Geometry = Geometry(width: Option<real>, height: Option<real>, depth: Option<real>)

  /** `el.hitbox` after `init`: a unit box, overridden by the geometry's non-zero sizes. */
  function InitialHitbox(geometry: Option<Geometry>): (d: Dims)
    ensures d.width != 0.0 && d.height != 0.0 && d.depth != 0.0
    ensures geometry.None? ==> d == UnitBox
    ensures geometry.Some? ==> d == Dims(OrOne(geometry.value.width), OrOne(geometry.value.height), OrOne(geometry.value.depth))
  {
    match geometry
    case None => UnitBox
    case Some(g) => Dims(OrOne(g.width), OrOne(g.height), OrOne(g.depth))
  }

  /** Another entity as `collidesWith` sees it: its world position if it has an `object3D`, and its `hitbox` if set. */
  datatype Body = Body(position: Option<Vec3>, hitbox: Option<Dims>)

  /** `el.hitbox || { width: 1, height: 1, depth: 1 }` */
  function BoxOrUnit(h: Option<Dims>): Dims
  {
    if h.Some? then h.value else UnitBox
  }

  /** Centres closer than half the summed sizes on every axis (strictly). */
  predicate Overlap(p: Vec3, a: Dims, q: Vec3, b: Dims)
  {
    && Abs(p.x - q.x) < (a.width + b.width) / 2.0
    && Abs(p.y - q.y) < (a.height + b.height) / 2.0
    && Abs(p.z - q.z) < (a.depth + b.depth) / 2.0
  }

  /** `el.collidesWith(other)` for an entity at `position` whose hitbox is `hitbox`. */
  function CollidesWith(position: Vec3, hitbox: Option<Dims>, other: Option<Body>): (r: bool)
    ensures other.None? || other.value.position.None? ==> !r
  {
    match other
    case None => false
    case Some(o) =>
      match o.position
      case None => false
      case Some(q) => Overlap(position, BoxOrUnit(hitbox), q, BoxOrUnit(o.hitbox))
  }

  /** The test does not depend on which of the two entities asks. */
  lemma CollidesWithSymmetric(p: Vec3, a: Option<Dims>, q: Vec3, b: Option<Dims>)
    ensures CollidesWith(p, a, Some(Body(Some(q), b))) == CollidesWith(q, b, Some(Body(Some(p), a)))
  {
  }

  /** An entity without a hitbox behaves exactly as one with a 1 x 1 x 1 box. */
  lemma MissingHitboxIsUnitBox(p: Vec3, a: Option<Dims>, q: Vec3)
    ensures CollidesWith(p, a, Some(Body(Some(q), None))) == CollidesWith(p, a, Some(Body(Some(q), Some(UnitBox))))
    ensures CollidesWith(p, None, Some(Body(Some(q), a))) == CollidesWith(p, Some(UnitBox), Some(Body(Some(q), a)))
  {
  }

  /** Boxes that only touch on a face (centres exactly half the summed width apart) do not collide. */
  lemma TouchingDoesNotCollide(p: Vec3, a: Dims, q: Vec3, b: Dims)
    requires Abs(p.x - q.x) == (a.width + b.width) / 2.0
          || Abs(p.y - q.y) == (a.height + b.height) / 2.0
          || Abs(p.z - q.z) == (a.depth + b.depth) / 2.0
    ensures !CollidesWith(p, Some(a), Some(Body(Some(q), Some(b))))
  {
  }

  // The overlap test against its geometric meaning: two open boxes share a point.

  /** Along one axis, `v` lies strictly inside the box of size `size` centred on `c`. */
  predicate Inside(v: real, c: real, size: real)
  {
    c - size / 2.0 < v < c + size / 2.0
  }

  predicate InBox(v: Vec3, c: Vec3, d: Dims)
  {
    Inside(v.x, c.x, d.width) && Inside(v.y, c.y, d.height) && Inside(v.z, c.z, d.depth)
  }

  /** Along one axis: the centre test holds exactly when the open intervals meet, and then at `m`. */
  lemma AxisMeet(c1: real, s1: real, c2: real, s2: real) returns (m: real)
    requires s1 > 0.0 && s2 > 0.0
    ensures Abs(c1 - c2) < (s1 + s2) / 2.0 ==> Inside(m, c1, s1) && Inside(m, c2, s2)
    ensures forall v :: Inside(v, c1, s1) && Inside(v, c2, s2) ==> Abs(c1 - c2) < (s1 + s2) / 2.0
  {
    var lo := Max(c1 - s1 / 2.0, c2 - s2 / 2.0);
    var hi := if c1 + s1 / 2.0 < c2 + s2 / 2.0 then c1 + s1 / 2.0 else c2 + s2 / 2.0;
    m := (lo + hi) / 2.0;
  }

  /** For boxes of positive size, `collidesWith` holds exactly when the two open boxes share a point. */
  lemma OverlapIffSharedPoint(p: Vec3, a: Dims, q: Vec3, b: Dims)
    requires Positive(a) && Positive(b)
    ensures Overlap(p, a, q, b) <==> exists v :: InBox(v, p, a) && InBox(v, q, b)
  {
    var mx := AxisMeet(p.x, a.width, q.x, b.width);
    var my := AxisMeet(p.y, a.height, q.y, b.height);
    var mz := AxisMeet(p.z, a.depth, q.z, b.depth);
    if Overlap(p, a, q, b) {
      var v := Vec3(mx, my, mz);
      assert InBox(v, p, a) && InBox(v, q, b);
    }
    if exists v :: InBox(v, p, a) && InBox(v, q, b) {
      var v :| InBox(v, p, a) && InBox(v, q, b);
      assert Inside(v.x, p.x, a.width) && Inside(v.x, q.x, b.width);
      assert Inside(v.y, p.y, a.height) && Inside(v.y, q.y, b.height);
      assert Inside(v.z, p.z, a.depth) && Inside(v.z, q.z, b.depth);
    }
  }

  // ---------------------------------------------------------------------
  // hitbox: the child box entity and the registry

  /** Position of the child box: the offset, raised by half the height. */
  function HitboxPosition(offset: Vec3, height: real): (p: Vec3)
    ensures p.y - height / 2.0 == offset.y
    ensures p.x == offset.x && p.z == offset.z
  {
    Vec3(offset.x, offset.y + height / 2.0, offset.z)
  }

  /** The lowest face of the child box rests on the offset and its top at offset + height. */
  lemma HitboxSpansFromOffset(offset: Vec3, height: real, v: Vec3)
    requires height >= 0.0
    ensures var c := HitboxPosition(offset, height);
      Inside(v.y, c.y, height) <==> offset.y < v.y < offset.y + height
  {
  }

  /** `window.HITBOX_REGISTRY`: absent until the first hitbox is initialised. */
  class Registry {
    var defined: bool
    var entries: seq<EntityId>

    ghost predicate Valid()
      reads this
    {
      !defined ==> entries == []
    }

    constructor ()
      ensures Valid() && !defined
    {
      defined := false;
      entries := [];
    }

    /** `init`: create the list if needed, then push the component. */
    method Register(h: EntityId)
      requires Valid()
      modifies this
      ensures Valid() && defined
      ensures entries == old(entries) + [h]
      ensures multiset(entries)[h] == multiset(old(entries))[h] + 1
    {
      if !defined {
        defined := true;
        entries := [];
      }
      entries := entries + [h];
    }

    /** `remove`: drop the first occurrence of the component, if the list exists. */
    method Unregister(h: EntityId)
      requires Valid()
      modifies this
      ensures Valid() && defined == old(defined)
      ensures entries == RemoveFirst(old(entries), h)
    {
      if defined {
        entries := RemoveFirst(entries, h);
      }
    }
  }

  /** The `hitbox` component's schema. */
  datatype HitboxData = HitboxData(width: real, height: real, depth: real, offset: Vec3, debug: bool)

  const DefaultHitboxData := HitboxData(1.0, 1.0, 1.0, Vec3(0.0, 0.0, 0.0), false)

  /** One `hitbox` component: its child box entity and the box mesh inside it. */
  class HitboxComponent {
    const id: EntityId
    var data: HitboxData
    var isEnemy: bool
    var boxPosition: Vec3
    var boxSize: Dims
    /** The `data-hitbox-type` attribute written on the mesh when it was created. */
    var meshMarkedEnemy: bool
    var meshVisible: bool

    /**
     * `init`: `createHitbox` runs before `isEnemy` is assigned, so the mesh is
     * always created as a non-enemy ("object") hitbox; then the component is
     * registered.
     */
    constructor (id: EntityId, data: HitboxData, hasEnemyComponent: bool, registry: Registry)
      requires registry.Valid()
      modifies registry
      ensures this.id == id && this.data == data && isEnemy == hasEnemyComponent
      ensures boxPosition == HitboxPosition(data.offset, data.height)
      ensures boxSize == Dims(data.width, data.height, data.depth)
      ensures !meshMarkedEnemy && meshVisible
      ensures registry.Valid() && registry.defined
      ensures registry.entries == old(registry.entries) + [id]
    {
      this.id := id;
      this.data := data;
      meshMarkedEnemy := false;
      boxPosition := HitboxPosition(data.offset, data.height);
      boxSize := Dims(data.width, data.height, data.depth);
      meshVisible := true;
      isEnemy := hasEnemyComponent;
      new;
      registry.Register(id);
    }

    /** `update`: the box takes the new sizes and moves to the new offset. */
    method Update(newData: HitboxData)
      modifies this
      ensures data == newData
      ensures boxPosition == HitboxPosition(newData.offset, newData.height)
      ensures boxSize == Dims(newData.width, newData.height, newData.depth)
      ensures isEnemy == old(isEnemy) && meshMarkedEnemy == old(meshMarkedEnemy) && meshVisible == old(meshVisible)
    {
      data := newData;
      boxSize := Dims(newData.width, newData.height, newData.depth);
      boxPosition := HitboxPosition(newData.offset, newData.height);
    }

    /** `tick`: the mesh of a dead enemy is hidden; nothing else changes. */
    method Tick(enemyComponent: Option<bool>)
      modifies this`meshVisible
      ensures meshVisible == (old(meshVisible) && !(isEnemy && enemyComponent == Some(true)))
    {
      if isEnemy && enemyComponent.Some? && enemyComponent.value {
        meshVisible := false;
      }
    }

    /** `remove`: the component leaves the registry. */
    method Remove(registry: Registry)
      requires registry.Valid()
      modifies registry
      ensures registry.Valid() && registry.defined == old(registry.defined)
      ensures registry.entries == RemoveFirst(old(registry.entries), id)
    {
      registry.Unregister(id);
    }
  }
}
