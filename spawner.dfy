/// Procedural placement of the next platform to the right of the last one,
/// with a horizontal gap bounded by the reach of a single jump and a height
/// kept within a band around the previous platform.
module Spawner {
  import opened Geometry
  import opened Entities

  const MinGap: real := 120.0
  const GapCap: real := 220.0
  const MaxStepY: real := 80.0
  const MinPlatformY: real := 150.0
  const MaxPlatformY: real := 400.0

  /**
   * The random numbers one spawn consumes. A draw from a range is modelled
   * by a fraction in [0, 1] that places the value between the two bounds;
   * the kind is Small exactly when its roll is 0.
   */
  datatype Draw = Draw(gapFrac: real, kindRoll: int, yFrac: real)

  predicate ValidDraw(d: Draw) {
    0.0 <= d.gapFrac <= 1.0 && 0.0 <= d.yFrac <= 1.0
  }

  /** A value drawn from the range between lo and hi. */
  function GenRange(lo: real, hi: real, frac: real): (v: real)
    requires 0.0 <= frac <= 1.0
    ensures Between(lo, hi, v)
  {
    ScaleWithin(hi - lo, frac);
    lo + (hi - lo) * frac
  }

  /** Scaling by a fraction in [0, 1] stays between 0 and the scaled value. */
  lemma ScaleWithin(a: real, f: real)
    requires 0.0 <= f <= 1.0
    ensures Between(0.0, a, a * f)
  {
    if a >= 0.0 {
      assert 0.0 <= a * f;
      assert a * f <= a * 1.0;
    } else {
      assert (-a) * f >= 0.0;
      assert (-a) * f <= -a;
    }
  }

  /** Horizontal reach of a full jump arc, with a 10% safety margin. */
  function MaxJumpDistance(jumpForce: real, gravity: real, moveSpeed: real): real
    requires gravity != 0.0
  {
    var tUp := -jumpForce / gravity;
    var tTotal := tUp * 2.0;
    moveSpeed * tTotal * 0.9
  }

  function MaxGap(jumpForce: real, gravity: real, moveSpeed: real): real
    requires gravity != 0.0
  {
    Min(MaxJumpDistance(jumpForce, gravity, moveSpeed), GapCap)
  }

  function MinY(last: Platform): real {
    Max(last.pos.y - MaxStepY, MinPlatformY)
  }

  function MaxY(last: Platform): real {
    Min(last.pos.y + MaxStepY, MaxPlatformY)
  }

  function KindOfRoll(roll: int): PlatformKind {
    if roll == 0 then Small else Big
  }

  /** The platform placed after `last`. */
  function SpawnPlatform(last: Platform, jumpForce: real, gravity: real, moveSpeed: real, d: Draw): (r: Platform)
    requires gravity != 0.0
    requires ValidDraw(d)
    ensures WellFormed(r) && r.kind == KindOfRoll(d.kindRoll)
    ensures Between(MinGap, MaxGap(jumpForce, gravity, moveSpeed), r.pos.x - RightEdge(last))
    ensures Between(MinY(last), MaxY(last), r.pos.y)
  {
    var gap := GenRange(MinGap, MaxGap(jumpForce, gravity, moveSpeed), d.gapFrac);
    var kind := KindOfRoll(d.kindRoll);
    var width := KindWidth(kind);
    var y := GenRange(MinY(last), MaxY(last), d.yFrac);
    Platform(Vec2(last.pos.x + last.size.x + gap, y), Vec2(width, PlatformHeight), kind)
  }

  /** The spawner as the game calls it, with the game's physics settings. */
  function SpawnNext(last: Platform, d: Draw): Platform
    requires ValidDraw(d)
  {
    SpawnPlatform(last, JumpForce, Gravity, MoveSpeed, d)
  }

  /**
   * With the game's physics the reach is 4 * (2 * 12 / 0.5) * 0.9 = 172.8,
   * under the cap of 220, so the gap range [120, 172.8] is not empty.
   */
  lemma GameGapRange()
    ensures MaxJumpDistance(JumpForce, Gravity, MoveSpeed) == 172.8
    ensures MaxGap(JumpForce, Gravity, MoveSpeed) == 172.8
    ensures MinGap < MaxGap(JumpForce, Gravity, MoveSpeed)
  {
  }

  predicate InBand(p: Platform) {
    MinPlatformY <= p.pos.y <= MaxPlatformY
  }

  /**
   * The spawned platform starts between 120 and 172.8 to the right of the
   * last one's right edge, so the right edge of the level advances by at
   * least 120 + 128.
   */
  lemma SpawnGap(last: Platform, d: Draw)
    requires ValidDraw(d)
    ensures var r := SpawnNext(last, d);
      MinGap <= r.pos.x - RightEdge(last) <= 172.8 &&
      RightEdge(r) >= RightEdge(last) + MinGap + KindWidth(Small)
  {
    GameGapRange();
  }

  /**
   * From a platform inside the playable band the height band is not empty,
   * and the spawned platform is inside the playable band too, at most 80
   * above or below the last one.
   */
  lemma SpawnHeightBand(last: Platform, d: Draw)
    requires ValidDraw(d) && InBand(last)
    ensures MinPlatformY <= MinY(last) < MaxY(last) <= MaxPlatformY
    ensures var r := SpawnNext(last, d);
      MinY(last) <= r.pos.y <= MaxY(last) &&
      InBand(r) &&
      last.pos.y - MaxStepY <= r.pos.y <= last.pos.y + MaxStepY
  {
  }
}
