/**
 * public/components/enhanced-position-debug.js: the trajectory history (a
 * FIFO of player positions capped at 50 points), its visibility toggle, and
 * the time throttle on `tick`. The text read-outs, the boundary helpers and
 * the distance raycasts only draw on screen and are not modelled.
 */
module PositionDebug {
  import opened Common

  /** `maxHistoryPoints` */
  const MaxHistoryPoints: nat := 50

  /** Squared form of the 0.2 movement threshold (`distanceTo(lastPos) > 0.2`). */
  const MinStepSq: real := 0.04

  /** `push`, then one `shift` when the buffer has grown past its capacity. */
  function PushCapped(history: seq<Vec3>, p: Vec3): (r: seq<Vec3>)
    ensures |history| <= MaxHistoryPoints ==> |r| <= MaxHistoryPoints
    ensures r != [] && r[|r| - 1] == p
    ensures |history| < MaxHistoryPoints ==> r == history + [p]
    ensures |history| == MaxHistoryPoints ==> r == history[1..] + [p]
  {
    var pushed := history + [p];
    if |pushed| > MaxHistoryPoints then pushed[1..] else pushed
  }

  /**
   * The history after one `updateTrajectory` on a visible line: the current
   * position is compared with the last stored point, or with a copy of
   * itself when nothing is stored yet.
   */
  function Record(history: seq<Vec3>, p: Vec3): seq<Vec3>
  {
    var last := if |history| > 0 then history[|history| - 1] else p;
    if DistSq(p, last) > MinStepSq then PushCapped(history, p) else history
  }

  /** The history after a run of `updateTrajectory` calls at the given positions. */
  function Replay(history: seq<Vec3>, positions: seq<Vec3>): seq<Vec3>
    decreases |positions|
  {
    if positions == [] then history else Replay(Record(history, positions[0]), positions[1..])
  }

  /** `distanceTo(q) > 0.2` and the squared comparison agree. */
  lemma SquaredThreshold(d: real)
    requires d >= 0.0
    ensures d > 0.2 <==> d * d > MinStepSq
  {
    if d > 0.2 {
      assert d * d > 0.2 * d;
    } else {
      assert d * d <= 0.2 * d;
    }
  }

  /** A point is stored only when it is more than 0.2 away from the last one, and then at the end. */
  lemma RecordAppendsFarPoints(history: seq<Vec3>, p: Vec3)
    requires history != []
    ensures Record(history, p) != history ==> DistSq(p, history[|history| - 1]) > MinStepSq
    ensures DistSq(p, history[|history| - 1]) > MinStepSq ==>
      Record(history, p)[|Record(history, p)| - 1] == p
      && (Record(history, p) == history + [p] || Record(history, p) == history[1..] + [p])
  {
  }

  /** The cap is never exceeded, however many updates run. */
  lemma {:induction false} ReplayBounded(history: seq<Vec3>, positions: seq<Vec3>)
    requires |history| <= MaxHistoryPoints
    ensures |Replay(history, positions)| <= MaxHistoryPoints
    decreases |positions|
  {
    if positions != [] {
      ReplayBounded(Record(history, positions[0]), positions[1..]);
    }
  }

  /** An empty history stays empty: the first point is compared with itself and never stored. */
  lemma {:induction false} EmptyHistoryNeverGrows(positions: seq<Vec3>)
    ensures Replay([], positions) == []
    decreases |positions|
  {
    if positions != [] {
      assert Record([], positions[0]) == [];
      EmptyHistoryNeverGrows(positions[1..]);
    }
  }

  class PositionDebugComponent {
    const refreshRate: real
    const showTrajectory: bool
    var lastUpdate: real
    var playerHistory: seq<Vec3>
    /** `trajectoryLine` exists (created by `setupTrajectory` when `showTrajectory`). */
    var hasLine: bool
    /** `trajectoryVisible`; left undefined (falsy) when no line was set up. */
    var trajectoryVisible: bool

    ghost predicate Valid()
      reads this
    {
      |playerHistory| <= MaxHistoryPoints
    }

    /** `init` */
    constructor (refreshRate: real, showTrajectory: bool)
      ensures Valid()
      ensures this.refreshRate == refreshRate && this.showTrajectory == showTrajectory
      ensures lastUpdate == 0.0 && playerHistory == []
      ensures hasLine == showTrajectory && trajectoryVisible == showTrajectory
    {
      this.refreshRate := refreshRate;
      this.showTrajectory := showTrajectory;
      lastUpdate := 0.0;
      playerHistory := [];
      hasLine := showTrajectory;
      trajectoryVisible := showTrajectory;
    }

    /** `updateTrajectory` with the player at `playerPos`; nothing happens without a visible line. */
    method UpdateTrajectory(playerPos: Vec3)
      requires Valid()
      modifies this`playerHistory
      ensures Valid()
      ensures playerHistory == if hasLine && trajectoryVisible then Record(old(playerHistory), playerPos)
                               else old(playerHistory)
    {
      if !hasLine || !trajectoryVisible {
        return;
      }
      var lastPos := if |playerHistory| > 0 then playerHistory[|playerHistory| - 1] else playerPos;
      if DistSq(playerPos, lastPos) > MinStepSq {
        playerHistory := playerHistory + [playerPos];
        if |playerHistory| > MaxHistoryPoints {
          playerHistory := playerHistory[1..];
        }
      }
    }

    /** `toggleTrajectory`: flips visibility when there is a line. */
    method ToggleTrajectory()
      modifies this`trajectoryVisible
      ensures trajectoryVisible == if hasLine then !old(trajectoryVisible) else old(trajectoryVisible)
    {
      if hasLine {
        trajectoryVisible := !trajectoryVisible;
      }
    }

    /**
     * `tick(time)`: returns early unless `refreshRate` seconds have passed
     * since the last update; then records the time and, when the player,
     * the camera and the scene are there, updates the trajectory.
     */
    method Tick(time: real, hasPlayer: bool, hasCamera: bool, sceneLoaded: bool, playerPos: Vec3)
      returns (refreshed: bool)
      requires Valid()
      modifies this`lastUpdate, this`playerHistory
      ensures Valid()
      ensures refreshed == (time - old(lastUpdate) >= refreshRate * 1000.0)
      ensures lastUpdate == if refreshed then time else old(lastUpdate)
      ensures playerHistory ==
        if refreshed && hasPlayer && hasCamera && sceneLoaded && showTrajectory && hasLine && trajectoryVisible
        then Record(old(playerHistory), playerPos)
        else old(playerHistory)
    {
      if time - lastUpdate < refreshRate * 1000.0 {
        return false;
      }
      lastUpdate := time;
      refreshed := true;
      if !hasPlayer || !hasCamera {
        return;
      }
      if !sceneLoaded {
        return;
      }
      if showTrajectory {
        UpdateTrajectory(playerPos);
      }
    }
  }
}
