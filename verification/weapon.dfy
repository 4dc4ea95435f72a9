/**
 * public/components/weapon-component.js: the guards and ammunition of
 * `fire`, the mouse handlers and automatic fire in `tick`, and hit
 * resolution: a direct ray, then five offset rays, each resolved through
 * the nearest A-Frame entity on the hit object's parent chain. The camera's
 * aim and the random spread are parameters, and a raycast is a function
 * from a direction to the intersections it yields, nearest first.
 */
module Weapon {
  import opened Common

  /** An A-Frame entity as `processHit` inspects it. */
  datatype Element = Element(id: EntityId, hasEnemyComponent: bool, hasPlayerComponent: bool)

  /** A THREE.Object3D: its `el` back-reference, if it is an entity's root object. */
  datatype Node = Node(el: Option<Element>)

  /** A ray intersection: the hit object followed by its parents, outermost last. */
  datatype Intersection = Intersection(chain: seq<Node>, distance: real)

  /** The nearest node on the chain, the hit object included, that carries an entity. */
  function Ancestor(chain: seq<Node>): (found: Option<Element>)
    ensures found.None? <==> forall i :: 0 <= i < |chain| ==> chain[i].el.None?
    ensures found.Some? ==> exists i :: 0 <= i < |chain| && chain[i].el == found
                                        && forall j :: 0 <= j < i ==> chain[j].el.None?
    decreases |chain|
  {
    if chain == [] then None
    else if chain[0].el.Some? then chain[0].el
    else
      var r := Ancestor(chain[1..]);
      if r.Some? then
        var k :| 0 <= k < |chain[1..]| && chain[1..][k].el == r
                 && forall j :: 0 <= j < k ==> chain[1..][j].el.None?;
        assert chain[k + 1].el == r;
        assert forall j :: 0 <= j < k + 1 ==> chain[j].el.None? by {
          forall j | 0 <= j < k + 1 ensures chain[j].el.None? {
            if j > 0 {
              assert chain[j] == chain[1..][j - 1];
            }
          }
        }
        r
      else
        assert forall i :: 1 <= i < |chain| ==> chain[i] == chain[1..][i - 1];
        r
  }

  /** `findAncestorWithEl(object)`: walks `parent` links from the object until one has `el`. */
  method FindAncestorWithEl(chain: seq<Node>) returns (found: Option<Element>)
    ensures found == Ancestor(chain)
  {
    var i := 0;
    while i < |chain|
      invariant 0 <= i <= |chain|
      invariant Ancestor(chain) == Ancestor(chain[i..])
    {
      if chain[i].el.Some? {
        return chain[i].el;
      }
      assert chain[i..][1..] == chain[i + 1..];
      i := i + 1;
    }
    return None;
  }

  /** A `takeDamage(amount)` call on an enemy's component. */
  datatype Damage = Damage(enemy: EntityId, amount: real)

  /** What `processHit` does with an entity: whether it reports a hit and which enemy it damages, by how much. */
  datatype HitResult = HitResult(hit: bool, damaged: Option<Damage>)

  /**
   * `processHit(hitEl, distance)` of a weapon whose `data.damage` is
   * `damage`: false for null; any entity is a hit (enemy, player without
   * friendly fire, or scenery), and only an enemy takes damage, the weapon's.
   */
  function ProcessHit(hitEl: Option<Element>, damage: real): (r: HitResult)
    ensures r.hit <==> hitEl.Some?
    ensures r.damaged.Some? <==> hitEl.Some? && hitEl.value.hasEnemyComponent
    ensures r.damaged.Some? ==> r.damaged.value == Damage(hitEl.value.id, damage)
  {
    match hitEl
    case None => HitResult(false, None)
    case Some(e) =>
      if e.hasEnemyComponent then HitResult(true, Some(Damage(e.id, damage)))
      else HitResult(true, None)
  }

  /** The entity one ray resolves to: the ancestor of its nearest intersection. */
  function RayHit(direction: Vec3, cast: Vec3 -> seq<Intersection>): Option<Element>
  {
    var xs := cast(direction);
    if |xs| > 0 then Ancestor(xs[0].chain) else None
  }

  /** The entity of the first ray, in order, that resolves to one. */
  function FirstHit(rays: seq<Vec3>, cast: Vec3 -> seq<Intersection>): Option<Element>
    decreases |rays|
  {
    if rays == [] then None
    else if RayHit(rays[0], cast).Some? then RayHit(rays[0], cast)
    else FirstHit(rays[1..], cast)
  }

  /** `FirstHit` finds nothing exactly when no ray resolves, and otherwise the earliest ray that does. */
  lemma {:induction false} FirstHitIsEarliest(rays: seq<Vec3>, cast: Vec3 -> seq<Intersection>)
    ensures FirstHit(rays, cast).None? <==> forall i :: 0 <= i < |rays| ==> RayHit(rays[i], cast).None?
    ensures FirstHit(rays, cast).Some? ==>
      exists i :: 0 <= i < |rays| && RayHit(rays[i], cast) == FirstHit(rays, cast)
                  && forall j :: 0 <= j < i ==> RayHit(rays[j], cast).None?
    decreases |rays|
  {
    if rays != [] && RayHit(rays[0], cast).None? {
      FirstHitIsEarliest(rays[1..], cast);
      assert forall i :: 1 <= i < |rays| ==> rays[i] == rays[1..][i - 1];
      var r := FirstHit(rays[1..], cast);
      if r.Some? {
        var k :| 0 <= k < |rays[1..]| && RayHit(rays[1..][k], cast) == r
                 && forall j :: 0 <= j < k ==> RayHit(rays[1..][j], cast).None?;
        assert RayHit(rays[k + 1], cast) == r;
      }
    }
  }

  /** The search over a split sequence: the first part's hit if it has one, else the rest's. */
  lemma {:induction false} FirstHitAppend(a: seq<Vec3>, b: seq<Vec3>, cast: Vec3 -> seq<Intersection>)
    ensures FirstHit(a + b, cast) == if FirstHit(a, cast).Some? then FirstHit(a, cast) else FirstHit(b, cast)
    decreases |a|
  {
    if a != [] {
      assert (a + b)[0] == a[0];
      assert (a + b)[1..] == a[1..] + b;
      FirstHitAppend(a[1..], b, cast);
    } else {
      assert a + b == b;
    }
  }

  /** Offset rays matter only when the direct ray finds nothing. */
  lemma DirectRayFirst(direct: Vec3, offsets: seq<Vec3>, cast: Vec3 -> seq<Intersection>)
    ensures RayHit(direct, cast).Some? ==> FirstHit([direct] + offsets, cast) == RayHit(direct, cast)
    ensures RayHit(direct, cast).None? ==> FirstHit([direct] + offsets, cast) == FirstHit(offsets, cast)
  {
    assert ([direct] + offsets)[0] == direct;
    assert ([direct] + offsets)[1..] == offsets;
  }

  /** How far `fire` gets. */
  datatype FireOutcome =
    | Blocked               // `canFire` is false, or no started game
    | OutOfAmmo             // `currentAmmo <= 0`
    | NoCamera              // ammunition spent, but no camera to aim with
    | Fired(hit: Option<Element>)  // the rays were cast; `hit` is what `processHit` received

  /** The guards of `fire` before any ammunition is used. */
  datatype Gate = GateBlocked | GateEmpty | GateOpen

  function FireGate(canFire: bool, manager: Manager, ammo: int): (g: Gate)
    ensures g == GateOpen <==> canFire && GameRunning(manager) && ammo > 0
    ensures g == GateEmpty <==> canFire && GameRunning(manager) && ammo <= 0
  {
    if !canFire || !GameRunning(manager) then GateBlocked
    else if ammo <= 0 then GateEmpty
    else GateOpen
  }

  /** Ammunition left after `attempts` calls of `fire` that pass the other guards. */
  function AmmoAfter(ammo: int, infiniteAmmo: bool, attempts: nat): int
    decreases attempts
  {
    if attempts == 0 || ammo <= 0 then ammo
    else AmmoAfter(if infiniteAmmo then ammo else ammo - 1, infiniteAmmo, attempts - 1)
  }

  /** Shots those calls fire. */
  function ShotsFired(ammo: int, infiniteAmmo: bool, attempts: nat): nat
    decreases attempts
  {
    if attempts == 0 || ammo <= 0 then 0
    else 1 + ShotsFired(if infiniteAmmo then ammo else ammo - 1, infiniteAmmo, attempts - 1)
  }

  /**
   * With finite ammunition each shot costs one round, the count never goes
   * below 0, and no more shots are fired than there were rounds.
   */
  lemma {:induction false} FiniteAmmo(ammo: int, attempts: nat)
    requires ammo >= 0
    ensures AmmoAfter(ammo, false, attempts) == if attempts <= ammo then ammo - attempts else 0
    ensures ShotsFired(ammo, false, attempts) == if attempts <= ammo then attempts else ammo
    decreases attempts
  {
    if attempts > 0 && ammo > 0 {
      FiniteAmmo(ammo - 1, attempts - 1);
    }
  }

  /** The defaults (`ammo: -1` meant as "infinite", with `infiniteAmmo: true`) never fire a shot. */
  lemma DefaultsNeverFire(attempts: nat)
    ensures ShotsFired(-1, true, attempts) == 0
    ensures AmmoAfter(-1, true, attempts) == -1
  {
  }

  /** With infinite ammunition and a positive count, every attempt fires and the count stays. */
  lemma {:induction false} InfiniteAmmo(ammo: int, attempts: nat)
    requires ammo > 0
    ensures ShotsFired(ammo, true, attempts) == attempts
    ensures AmmoAfter(ammo, true, attempts) == ammo
    decreases attempts
  {
    if attempts > 0 {
      InfiniteAmmo(ammo, attempts - 1);
    }
  }

  /** A mouse or touch event: `button` is undefined on touch events. */
  datatype PointerEvent = PointerEvent(button: Option<int>, kind: string)

  predicate IsPress(e: PointerEvent)
  {
    e.button == Some(0) || e.kind == "touchstart"
  }

  predicate IsRelease(e: PointerEvent)
  {
    e.button == Some(0) || e.kind == "touchend"
  }

  /**
   * The world around one `fire` call: the game manager, whether a camera
   * exists, the randomised aim, the randomised direction of each offset
   * ray, and the raycast.
   */
  datatype Shot = Shot(manager: Manager, hasCamera: bool, aim: Vec3,
                       jitter: nat -> Vec3, cast: Vec3 -> seq<Intersection>)

  class WeaponComponent {
    const damage: real
    const automatic: bool
    const infiniteAmmo: bool
    var isFiring: bool
    var currentAmmo: int
    var canFire: bool
    /** `raycaster.ray.direction` */
    var rayDirection: Vec3
    /** The five offset directions, refilled on every shot. */
    const offsetRays: array<Vec3>

    ghost predicate Valid()
      reads this
    {
      offsetRays.Length == 5
    }

    /** `init` */
    constructor (damage: real, automatic: bool, ammo: int, infiniteAmmo: bool)
      ensures Valid() && fresh(offsetRays)
      ensures this.damage == damage && this.automatic == automatic && this.infiniteAmmo == infiniteAmmo
      ensures !isFiring && currentAmmo == ammo && canFire
    {
      this.damage := damage;
      this.automatic := automatic;
      this.infiniteAmmo := infiniteAmmo;
      isFiring := false;
      currentAmmo := ammo;
      canFire := true;
      rayDirection := Vec3(0.0, 0.0, 0.0);
      offsetRays := new Vec3[5](_ => Vec3(0.0, 0.0, 0.0));
    }

    /**
     * `checkForHits`: the direct ray, then (only without a hit) the offset
     * rays in order until one is processed as a hit; the ray direction is
     * restored afterwards. `processHit` is called at most once, on `hitEl`,
     * so the damage dealt is `ProcessHit(hitEl, damage).damaged`.
     */
    method CheckForHits(cast: Vec3 -> seq<Intersection>) returns (hitEl: Option<Element>)
      requires Valid()
      modifies this`rayDirection
      ensures rayDirection == old(rayDirection)
      ensures hitEl == FirstHit([rayDirection] + offsetRays[..], cast)
    {
      var hit := false;
      hitEl := None;
      var intersects := cast(rayDirection);
      if |intersects| > 0 {
        var hitObject := FindAncestorWithEl(intersects[0].chain);
        if hitObject.Some? {
          hit := ProcessHit(hitObject, damage).hit;
          hitEl := hitObject;
        }
      }
      DirectRayFirst(rayDirection, offsetRays[..], cast);
      if !hit {
        var originalDirection := rayDirection;
        var i := 0;
        while i < offsetRays.Length
          invariant 0 <= i <= offsetRays.Length
          invariant !hit && hitEl.None?
          invariant FirstHit(offsetRays[..], cast) == FirstHit(offsetRays[i..], cast)
        {
          rayDirection := offsetRays[i];
          intersects := cast(rayDirection);
          assert offsetRays[i..][0] == offsetRays[i] && offsetRays[i..][1..] == offsetRays[i + 1..];
          if |intersects| > 0 {
            var hitObject := FindAncestorWithEl(intersects[0].chain);
            if hitObject.Some? {
              hit := ProcessHit(hitObject, damage).hit;
              hitEl := hitObject;
              break;
            }
          }
          i := i + 1;
        }
        rayDirection := originalDirection;
      }
    }

    /**
     * What one `fire` call does, from the state before it to the state after:
     * the gate decides the outcome, only an open gate spends a round (unless
     * ammunition is infinite), and only a shot that is cast re-aims the ray
     * and refills the offset rays; every other call leaves the aim alone.
     */
    twostate predicate FireEffect(shot: Shot, outcome: FireOutcome)
      reads this, offsetRays
    {
      && (FireGate(canFire, shot.manager, old(currentAmmo)) == GateBlocked ==> outcome == Blocked)
      && (FireGate(canFire, shot.manager, old(currentAmmo)) == GateEmpty ==> outcome == OutOfAmmo)
      && (FireGate(canFire, shot.manager, old(currentAmmo)) == GateOpen ==>
            (outcome == NoCamera <==> !shot.hasCamera) && (outcome.Fired? <==> shot.hasCamera))
      && currentAmmo == (if FireGate(canFire, shot.manager, old(currentAmmo)) == GateOpen && !infiniteAmmo
                         then old(currentAmmo) - 1 else old(currentAmmo))
      && (currentAmmo < old(currentAmmo) ==> currentAmmo >= 0)
      && (outcome.Fired? ==> rayDirection == shot.aim)
      && (outcome.Fired? ==> forall i :: 0 <= i < offsetRays.Length ==> offsetRays[i] == shot.jitter(i))
      && (outcome.Fired? ==> outcome.hit == FirstHit([shot.aim] + offsetRays[..], shot.cast))
      && (!outcome.Fired? ==> rayDirection == old(rayDirection) && offsetRays[..] == old(offsetRays[..]))
    }

    /** `fire`: the three guards, the ammunition, the camera, then the rays. */
    method Fire(shot: Shot) returns (outcome: FireOutcome)
      requires Valid()
      modifies this`currentAmmo, this`rayDirection, offsetRays
      ensures Valid()
      ensures FireEffect(shot, outcome)
    {
      if !canFire {
        return Blocked;
      }
      if shot.manager.NoManager? || !shot.manager.gameStarted {
        return Blocked;
      }
      if currentAmmo <= 0 {
        return OutOfAmmo;
      }
      if !infiniteAmmo {
        currentAmmo := currentAmmo - 1;
      }
      if !shot.hasCamera {
        return NoCamera;
      }
      rayDirection := shot.aim;
      var i := 0;
      while i < offsetRays.Length
        invariant 0 <= i <= offsetRays.Length
        invariant forall j :: 0 <= j < i ==> offsetRays[j] == shot.jitter(j)
        invariant rayDirection == shot.aim
        invariant currentAmmo == if infiniteAmmo then old(currentAmmo) else old(currentAmmo) - 1
      {
        offsetRays[i] := shot.jitter(i);
        i := i + 1;
      }
      var hitEl := CheckForHits(shot.cast);
      return Fired(hitEl);
    }

    /** `onMouseDown`: a left press or a touch starts firing; a non-automatic weapon fires once. */
    method OnMouseDown(e: PointerEvent, shot: Shot) returns (outcome: Option<FireOutcome>)
      requires Valid()
      modifies this`isFiring, this`currentAmmo, this`rayDirection, offsetRays
      ensures Valid()
      ensures isFiring == (IsPress(e) || old(isFiring))
      ensures outcome.Some? <==> IsPress(e) && !automatic
      ensures outcome.Some? ==> FireEffect(shot, outcome.value)
      ensures outcome.None? ==> currentAmmo == old(currentAmmo) && rayDirection == old(rayDirection)
                                && offsetRays[..] == old(offsetRays[..])
    {
      outcome := None;
      if e.button == Some(0) || e.kind == "touchstart" {
        isFiring := true;
        if !automatic {
          var o := Fire(shot);
          outcome := Some(o);
        }
      }
    }

    /** `onMouseUp`: a left release or a touch end stops firing. */
    method OnMouseUp(e: PointerEvent)
      modifies this`isFiring
      ensures isFiring == (!IsRelease(e) && old(isFiring))
    {
      if e.button == Some(0) || e.kind == "touchend" {
        isFiring := false;
      }
    }

    /** `tick`: an automatic weapon fires on every frame while the trigger is held. */
    method Tick(shot: Shot) returns (outcome: Option<FireOutcome>)
      requires Valid()
      modifies this`currentAmmo, this`rayDirection, offsetRays
      ensures Valid()
      ensures outcome.Some? <==> isFiring && automatic
      ensures outcome.Some? ==> FireEffect(shot, outcome.value)
      ensures outcome.None? ==> currentAmmo == old(currentAmmo) && rayDirection == old(rayDirection)
                                && offsetRays[..] == old(offsetRays[..])
    {
      outcome := None;
      if isFiring && automatic {
        var o := Fire(shot);
        outcome := Some(o);
      }
    }
  }
}
