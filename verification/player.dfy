/**
 * public/components/player-component.js registers `player-component` twice,
 * each registration guarded by "not registered yet", so only the first body
 * (lines 5-294) is live. Both are modelled: `PlayerV1` (a `keys` record of
 * six movement flags, clamped damage, `dead`) and `PlayerV2` (lines 298-522:
 * a `keysPressed` dictionary by key code, `isAlive`). Movement, mouse look,
 * the hover motion and the DOM overlays are not modelled.
 */
module Player {
  import opened Common

  // ---------------------------------------------------------------------
  // Key state of the first registration

  datatype Flag = Forward | Backward | Left | Right | Up | Down

  /** The `keys` object. */
  datatype Keys = Keys(forward: bool, backward: bool, left: bool, right: bool, up: bool, down: bool)

  const NoKeys := Keys(false, false, false, false, false, false)

  /** The `switch (event.code)` of both key handlers: WASD for the plane, Q up, E down. */
  function KeyFlag(code: string): (f: Option<Flag>)
    ensures f == Some(Forward) <==> code == "KeyW"
    ensures f == Some(Backward) <==> code == "KeyS"
    ensures f == Some(Left) <==> code == "KeyA"
    ensures f == Some(Right) <==> code == "KeyD"
    ensures f == Some(Up) <==> code == "KeyQ"
    ensures f == Some(Down) <==> code == "KeyE"
  {
    if code == "KeyW" then Some(Forward)
    else if code == "KeyS" then Some(Backward)
    else if code == "KeyA" then Some(Left)
    else if code == "KeyD" then Some(Right)
    else if code == "KeyQ" then Some(Up)
    else if code == "KeyE" then Some(Down)
    else None
  }

  function Get(k: Keys, f: Flag): bool
  {
    match f
    case Forward => k.forward
    case Backward => k.backward
    case Left => k.left
    case Right => k.right
    case Up => k.up
    case Down => k.down
  }

  /** `keys` with flag `f` set to `v` and every other flag as it was. */
  function SetFlag(k: Keys, f: Flag, v: bool): (r: Keys)
    ensures Get(r, f) == v
    ensures forall g :: g != f ==> Get(r, g) == Get(k, g)
  {
    match f
    case Forward => k.(forward := v)
    case Backward => k.(backward := v)
    case Left => k.(left := v)
    case Right => k.(right := v)
    case Up => k.(up := v)
    case Down => k.(down := v)
  }

  /** The effect of a handled key event: the code's flag becomes `v`; other codes change nothing. */
  function KeyEvent(k: Keys, code: string, v: bool): Keys
  {
    match KeyFlag(code)
    case None => k
    case Some(f) => SetFlag(k, f, v)
  }

  /** A key event touches at most the flag its code maps to. */
  lemma KeyEventTouchesOneFlag(k: Keys, code: string, v: bool)
    ensures KeyFlag(code).None? ==> KeyEvent(k, code, v) == k
    ensures KeyFlag(code).Some? ==> Get(KeyEvent(k, code, v), KeyFlag(code).value) == v
    ensures forall g :: KeyFlag(code) != Some(g) ==> Get(KeyEvent(k, code, v), g) == Get(k, g)
  {
  }

  /** Pressing and releasing a key leaves its flag clear and every other flag as before the press. */
  lemma PressThenRelease(k: Keys, code: string)
    ensures forall g :: Get(KeyEvent(KeyEvent(k, code, true), code, false), g)
                     == (if KeyFlag(code) == Some(g) then false else Get(k, g))
  {
    match KeyFlag(code)
    case None =>
    case Some(f) =>
      var pressed := SetFlag(k, f, true);
      assert KeyEvent(k, code, true) == pressed;
      assert KeyEvent(pressed, code, false) == SetFlag(pressed, f, false);
  }

  /** Two different codes never drive the same flag. */
  lemma KeyFlagInjective(c1: string, c2: string)
    requires KeyFlag(c1).Some? && c1 != c2
    ensures KeyFlag(c1) != KeyFlag(c2)
  {
  }

  /** `onKeyDown` returns early when a game manager exists and the game has not started. */
  predicate KeyDownIgnored(manager: Manager)
  {
    !manager.NoManager? && !manager.gameStarted
  }

  // ---------------------------------------------------------------------
  // Health bar of both registrations

  /** Colour of the player's health bar for a percentage. */
  function PlayerHealthColor(percent: real): (c: BarColor)
    ensures c == Green <==> percent > 60.0
    ensures c == Yellow <==> 30.0 < percent <= 60.0
    ensures c == Red <==> percent <= 30.0
  {
    if percent > 60.0 then Green else if percent > 30.0 then Yellow else Red
  }

  /** `currentHealth / health * 100` (with the schema's full health, positive). */
  function HealthPercent(current: real, full: real): (p: real)
    requires full > 0.0
    ensures 0.0 <= current <= full ==> 0.0 <= p <= 100.0
    ensures current == full ==> p == 100.0
  {
    current / full * 100.0
  }

  /** Losing health never brightens the bar. */
  lemma PlayerHealthColorMonotone(h1: real, h2: real, full: real)
    requires full > 0.0 && h1 <= h2
    ensures ColorRank(PlayerHealthColor(HealthPercent(h1, full))) <= ColorRank(PlayerHealthColor(HealthPercent(h2, full)))
  {
    assert h1 / full <= h2 / full by {
      assert (h2 - h1) / full >= 0.0;
      assert h2 / full - h1 / full == (h2 - h1) / full;
    }
  }

  /** A player at full health sees green, one at 0 sees red. */
  lemma PlayerHealthColorEnds(full: real)
    requires full > 0.0
    ensures PlayerHealthColor(HealthPercent(full, full)) == Green
    ensures PlayerHealthColor(HealthPercent(0.0, full)) == Red
  {
  }

  // ---------------------------------------------------------------------
  // First registration

  class PlayerV1 {
    /** `data.health`: the full health. */
    const fullHealth: real
    var currentHealth: real
    var dead: bool
    var keys: Keys

    /** `init` */
    constructor (fullHealth: real)
      ensures this.fullHealth == fullHealth && currentHealth == fullHealth
      ensures !dead && keys == NoKeys
    {
      this.fullHealth := fullHealth;
      currentHealth := fullHealth;
      dead := false;
      keys := NoKeys;
    }

    /** `onKeyDown(event)` under the game manager the player found at `init`. */
    method OnKeyDown(code: string, manager: Manager)
      modifies this`keys
      ensures keys == if KeyDownIgnored(manager) then old(keys) else KeyEvent(old(keys), code, true)
    {
      if !manager.NoManager? && !manager.gameStarted {
        return;
      }
      var f := KeyFlag(code);
      if f.Some? {
        keys := SetFlag(keys, f.value, true);
      }
    }

    /** `onKeyUp(event)`: no guard. */
    method OnKeyUp(code: string)
      modifies this`keys
      ensures keys == KeyEvent(old(keys), code, false)
    {
      var f := KeyFlag(code);
      if f.Some? {
        keys := SetFlag(keys, f.value, false);
      }
    }

    /**
     * `die`: marks the player dead, then calls `playerDied()` on the game
     * manager, which neither registration defines; `threw` says the
     * resulting TypeError escapes (before the game-over message).
     */
    method Die(manager: Manager) returns (threw: bool)
      modifies this`dead
      ensures dead
      ensures threw == !manager.NoManager?
    {
      dead := true;
      threw := !manager.NoManager?;
    }

    /** `takeDamage(amount)`: nothing once dead; health clamped at 0; death exactly at 0. */
    method TakeDamage(amount: real, manager: Manager) returns (threw: bool)
      modifies this`currentHealth, this`dead
      ensures old(dead) ==> currentHealth == old(currentHealth) && dead && !threw
      ensures !old(dead) ==> currentHealth == Damaged(old(currentHealth), amount)
      ensures !old(dead) ==> (dead <==> currentHealth == 0.0)
      ensures threw <==> !old(dead) && currentHealth == 0.0 && !manager.NoManager?
    {
      threw := false;
      if dead {
        return;
      }
      currentHealth := Damaged(currentHealth, amount);
      if currentHealth <= 0.0 {
        threw := Die(manager);
      }
    }
  }

  // ---------------------------------------------------------------------
  // Second registration

  /** `keysPressed[code]` read as a condition: an absent code is undefined, hence false. */
  function Pressed(keysPressed: map<string, bool>, code: string): bool
  {
    code in keysPressed && keysPressed[code]
  }

  /** After a key-down and a key-up of one code, that code reads released and every other code as before. */
  lemma DictPressThenRelease(keysPressed: map<string, bool>, code: string, other: string)
    ensures !Pressed(keysPressed[code := true][code := false], code)
    ensures other != code ==> Pressed(keysPressed[code := true][code := false], other) == Pressed(keysPressed, other)
  {
  }

  /** Health after a hit in the second registration: subtract, then reset to 0 at or below 0. */
  function V2Damaged(health: real, amount: real): real
  {
    var h := health - amount;
    if h <= 0.0 then 0.0 else h
  }

  /** Both registrations leave the same health after a hit, though one clamps first and the other resets afterwards. */
  lemma BothRegistrationsClampAlike(health: real, amount: real)
    ensures V2Damaged(health, amount) == Damaged(health, amount)
  {
  }

  class PlayerV2 {
    const maxHealth: real
    var currentHealth: real
    var isAlive: bool
    var keysPressed: map<string, bool>

    /** `init` */
    constructor (health: real, maxHealth: real)
      ensures this.maxHealth == maxHealth && currentHealth == health
      ensures isAlive && keysPressed == map[]
    {
      this.maxHealth := maxHealth;
      currentHealth := health;
      isAlive := true;
      keysPressed := map[];
    }

    /** `handleKeyDown(event)`: any code, not just the six movement keys. */
    method HandleKeyDown(code: string)
      modifies this`keysPressed
      ensures keysPressed == old(keysPressed)[code := true]
    {
      keysPressed := keysPressed[code := true];
    }

    method HandleKeyUp(code: string)
      modifies this`keysPressed
      ensures keysPressed == old(keysPressed)[code := false]
    {
      keysPressed := keysPressed[code := false];
    }

    /** `die` */
    method Die()
      modifies this`isAlive
      ensures !isAlive
    {
      isAlive := false;
    }

    /** `takeDamage(amount)`: nothing unless alive; at or below 0 health is set to 0 and the player dies. */
    method TakeDamage(amount: real)
      modifies this`currentHealth, this`isAlive
      ensures !old(isAlive) ==> currentHealth == old(currentHealth) && !isAlive
      ensures old(isAlive) ==> currentHealth == V2Damaged(old(currentHealth), amount)
      ensures old(isAlive) ==> (isAlive <==> old(currentHealth) - amount > 0.0)
      ensures currentHealth >= 0.0 || currentHealth == old(currentHealth)
    {
      if !isAlive {
        return;
      }
      currentHealth := currentHealth - amount;
      if currentHealth <= 0.0 {
        currentHealth := 0.0;
        Die();
      }
    }
  }
}
