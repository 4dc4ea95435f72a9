/**
 * Values shared by the game components: optional values, 3D vectors, the
 * view other components take of the scene's game manager, and the
 * `indexOf` + `splice(index, 1)` idiom the components use to drop one
 * entry from a list.
 */
module Common {

  /** An A-Frame entity (a DOM element) or component instance, by identity. */
  type EntityId = nat

  datatype Option<T> = None | Some(value: T)

  datatype Vec3 = Vec3(x: real, y: real, z: real)

  function Abs(r: real): (a: real)
    ensures a >= 0.0
    ensures a == r || a == -r
  {
    if r < 0.0 then -r else r
  }

  function Max(a: real, b: real): (m: real)
    ensures m >= a && m >= b
    ensures m == a || m == b
  {
    if a < b then b else a
  }

  /** Squared Euclidean distance; `distanceTo(p) > d` is `DistSq > d*d` for d >= 0. */
  function DistSq(a: Vec3, b: Vec3): real
  {
    (a.x - b.x) * (a.x - b.x) + (a.y - b.y) * (a.y - b.y) + (a.z - b.z) * (a.z - b.z)
  }

  /** `Math.max(0, health - amount)`: health after a hit, never below 0. */
  function Damaged(health: real, amount: real): (h: real)
    ensures h >= 0.0
    ensures h == 0.0 <==> health - amount <= 0.0
    ensures h > 0.0 ==> h == health - amount
  {
    Max(0.0, health - amount)
  }

  /** The three colours of the enemy and player health bars. */
  datatype BarColor = Red | Yellow | Green

  function ColorRank(c: BarColor): nat
  {
    match c
    case Red => 0
    case Yellow => 1
    case Green => 2
  }

  /**
   * What `document.querySelector('[game-manager]').components['game-manager']`
   * yields: no manager, or the component built by the first or by the second
   * registration in game-manager.js (only the second one has `registerEnemy`,
   * `entityManager` and `enemyKilled`).
   */
  datatype Manager = NoManager | ManagerV1(gameStarted: bool) | ManagerV2(gameStarted: bool)

  predicate GameRunning(m: Manager)
  {
    !m.NoManager? && m.gameStarted
  }

  /** `Array.prototype.indexOf`: the first index holding `x`, or -1. */
  function IndexOf<T(==)>(s: seq<T>, x: T): (i: int)
    ensures -1 <= i < |s|
    ensures i == -1 <==> x !in s
    ensures 0 <= i ==> s[i] == x && x !in s[..i]
  {
    if |s| == 0 then -1
    else if s[0] == x then 0
    else
      var j := IndexOf(s[1..], x);
      if j == -1 then -1
      else
        assert s[..j + 1] == [s[0]] + s[1..][..j];
        j + 1
  }

  /**
   * `const i = s.indexOf(x); if (i !== -1) s.splice(i, 1);`
   * At most one occurrence (the first) goes, and the rest keep their order.
   */
  function RemoveFirst<T(==)>(s: seq<T>, x: T): (r: seq<T>)
    ensures x !in s ==> r == s
    ensures x in s ==> |r| == |s| - 1
    ensures multiset(r) == multiset(s) - multiset{x}
    ensures x in s ==> r[..IndexOf(s, x)] == s[..IndexOf(s, x)]
    ensures x in s ==> r[IndexOf(s, x)..] == s[IndexOf(s, x) + 1..]
  {
    var i := IndexOf(s, x);
    if i == -1 then
      assert multiset(s)[x] == 0;
      s
    else
      assert s == s[..i] + [s[i]] + s[i + 1..];
      s[..i] + s[i + 1..]
  }

  /**
   * Appending an entry and then removing it leaves the same entries: exactly
   * the old list when it did not hold the entry, and otherwise the same
   * multiset, since the earliest occurrence is the one that goes.
   */
  lemma AppendThenRemove<T>(s: seq<T>, x: T)
    ensures multiset(RemoveFirst(s + [x], x)) == multiset(s)
    ensures x !in s ==> RemoveFirst(s + [x], x) == s
  {
    assert x in s + [x];
    if x !in s {
      assert IndexOf(s + [x], x) == |s|;
      assert (s + [x])[..|s|] == s;
    }
  }
}
