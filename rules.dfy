/// The rules of one frame as pure functions: input and jump control, the
/// level invariant, spawning up to the camera window, pruning, and the
/// state reached by a tick of play or by a whole frame.
module Rules {
  import opened Geometry
  import opened Entities
  import opened Retention
  import opened Spawner
  import opened Collision
  import opened Pickup

  /** Keys as read at the start of a frame: held down, or pressed during this frame. */
  datatype Keys = Keys(aDown: bool, leftDown: bool, dDown: bool, rightDown: bool,
                       spacePressed: bool, rPressed: bool)

  /** Horizontal velocity set directly from the held keys; left wins over right. */
  function HorizontalVelocity(keys: Keys): real {
    if keys.aDown || keys.leftDown then -MoveSpeed
    else if keys.dDown || keys.rightDown then MoveSpeed
    else 0.0
  }

  /** The grace timer after its per-frame update: refilled on the ground, run down by the frame time (unclamped) in the air. */
  function CoyoteAfter(onGround: bool, timer: real, dt: real): real {
    if onGround then CoyoteTimeMax else timer - dt
  }

  predicate JumpSucceeds(keys: Keys, onGround: bool, timer: real, dt: real) {
    keys.spacePressed && CoyoteAfter(onGround, timer, dt) > 0.0
  }

  /**
   * On the ground a press always jumps; in the air it jumps only while the
   * grace time left exceeds the frame time.
   */
  lemma CoyoteGrace(keys: Keys, onGround: bool, timer: real, dt: real)
    ensures onGround ==> (JumpSucceeds(keys, onGround, timer, dt) <==> keys.spacePressed)
    ensures !onGround ==> (JumpSucceeds(keys, onGround, timer, dt) <==> keys.spacePressed && timer > dt)
  {
  }

  /**
   * A jump leaves the player airborne with the timer at 0. While airborne
   * the timer only runs down, so it stays at or below 0 and no press can
   * jump again before landing, however many frames pass.
   */
  lemma NoSecondJump(keys: Keys, timer: real, dt: real)
    requires timer <= 0.0 && dt >= 0.0
    ensures !JumpSucceeds(keys, false, timer, dt)
    ensures CoyoteAfter(false, timer, dt) <= 0.0
  {
  }

  /**
   * The player after the controls and physics of one tick: vx from the keys,
   * the jump (if it succeeds) replacing vy, gravity added to vy, and the
   * position advanced by the new velocity. A jump leaves the player airborne.
   */
  function Controlled(p: Player, timer: real, keys: Keys, dt: real): Player {
    var jumped := JumpSucceeds(keys, p.onGround, timer, dt);
    var vel := Vec2(HorizontalVelocity(keys), (if jumped then JumpForce else p.vel.y) + Gravity);
    Player(p.pos.Plus(vel), vel, p.onGround && !jumped)
  }

  /** The grace timer after the controls of one tick: zeroed by a jump, otherwise refilled or run down. */
  function TimerAfterControls(onGround: bool, timer: real, keys: Keys, dt: real): real {
    if JumpSucceeds(keys, onGround, timer, dt) then 0.0 else CoyoteAfter(onGround, timer, dt)
  }

  predicate StrictlyLeftOf(a: Platform, b: Platform) {
    RightEdge(a) < b.pos.x
  }

  /**
   * The level is never empty, every platform is sized by its kind and lies
   * in the playable height band, and platforms are ordered left to right
   * without overlapping.
   */
  predicate LevelInvariant(ps: seq<Platform>) {
    |ps| > 0 &&
    (forall i :: 0 <= i < |ps| ==> WellFormed(ps[i]) && InBand(ps[i])) &&
    Pairwise(ps, StrictlyLeftOf)
  }

  lemma SeedLevelValid()
    ensures LevelInvariant(SeedPlatforms)
  {
    var ps := SeedPlatforms;
    forall i, j | 0 <= i < j < |ps| ensures StrictlyLeftOf(ps[i], ps[j]) {
      assert RightEdge(ps[0]) == 256.0 && RightEdge(ps[1]) == 428.0;
    }
  }

  /** Appending the spawner's next platform keeps the level invariant. */
  lemma SpawnKeepsLevel(ps: seq<Platform>, d: Draw)
    requires LevelInvariant(ps) && ValidDraw(d)
    ensures LevelInvariant(ps + [SpawnNext(Last(ps), d)])
  {
    var q := SpawnNext(Last(ps), d);
    var ps' := ps + [q];
    SpawnGap(Last(ps), d);
    SpawnHeightBand(Last(ps), d);
    forall i, j | 0 <= i < j < |ps'| ensures StrictlyLeftOf(ps'[i], ps'[j]) {
      if j == |ps| {
        if i < |ps| - 1 {
          assert StrictlyLeftOf(ps[i], ps[|ps| - 1]);
          assert WellFormed(ps[|ps| - 1]);
        }
      } else {
        assert StrictlyLeftOf(ps[i], ps[j]);
      }
    }
  }

  /**
   * Each spawn brings the level's right edge at least 248 closer to a target
   * it has not reached: the loop that spawns up to the target terminates.
   */
  lemma SpawnApproaches(last: Platform, d: Draw, target: real)
    requires ValidDraw(d) && RightEdge(last) < target
    ensures 0 <= (target - RightEdge(last)).Floor
    ensures (target - RightEdge(SpawnNext(last, d))).Floor <= (target - RightEdge(last)).Floor - 248
  {
    SpawnGap(last, d);
  }

  /** Pruning distance behind the left edge of the camera window. */
  const PruneMargin: real := 100.0

  /** The platforms that pruning keeps: the right edge is not yet 100 behind the camera. */
  function PlatformFilter(cameraX: real): Platform -> bool {
    (p: Platform) => RightEdge(p) > cameraX - PruneMargin
  }

  /** The coins that pruning keeps: not yet 100 behind the camera, and not collected. */
  function CoinFilter(cameraX: real): Coin -> bool {
    (c: Coin) => c.pos.x + CoinSize > cameraX - PruneMargin && !c.collected
  }

  /**
   * After spawning has reached the right edge of a window of positive width,
   * pruning keeps the rightmost platform, so the level invariant (and with
   * it a non-empty platform list) survives the pruning.
   */
  lemma PruneKeepsLevel(ps: seq<Platform>, cameraX: real, screenW: real)
    requires LevelInvariant(ps)
    requires screenW > 0.0 && RightEdge(Last(ps)) >= cameraX + screenW
    ensures var r := Retain(ps, PlatformFilter(cameraX));
      LevelInvariant(r) && Last(r) == Last(ps)
  {
    var keep := PlatformFilter(cameraX);
    assert keep(Last(ps));
    RetainKeepsLast(ps, keep);
    RetainPairwise(ps, keep, StrictlyLeftOf);
    var r := Retain(ps, keep);
    forall i | 0 <= i < |r| ensures WellFormed(r[i]) && InBand(r[i]) {
      assert r[i] in ps;
    }
  }

  /**
   * The platforms spawned after ps until the rightmost one reaches target,
   * the first with draw k of rng and each next one with the next draw.
   * Together with ps they reach the target.
   */
  function SpawnedAfter(ps: seq<Platform>, target: real, rng: nat -> Draw, k: nat): (r: seq<Platform>)
    requires |ps| > 0
    requires forall i :: ValidDraw(rng(i))
    ensures RightEdge(Last(ps + r)) >= target
    decreases if RightEdge(Last(ps)) < target then (target - RightEdge(Last(ps))).Floor + 1 else 0
  {
    if RightEdge(Last(ps)) >= target then []
    else
      var q := SpawnNext(Last(ps), rng(k));
      SpawnApproaches(Last(ps), rng(k), target);
      var rest := SpawnedAfter(ps + [q], target, rng, k + 1);
      assert ps + ([q] + rest) == (ps + [q]) + rest;
      [q] + rest
  }

  /** One spawn, seen from the level: the platforms spawned after ps start with the next one. */
  lemma SpawnedAfterStep(ps: seq<Platform>, target: real, rng: nat -> Draw, k: nat)
    requires |ps| > 0 && RightEdge(Last(ps)) < target
    requires forall i :: ValidDraw(rng(i))
    ensures var q := SpawnNext(Last(ps), rng(k));
      ps + SpawnedAfter(ps, target, rng, k) == (ps + [q]) + SpawnedAfter(ps + [q], target, rng, k + 1)
  {
    var q := SpawnNext(Last(ps), rng(k));
    var rest := SpawnedAfter(ps + [q], target, rng, k + 1);
    assert ps + ([q] + rest) == (ps + [q]) + rest;
  }

  /** Spawning up to any target keeps the level invariant. */
  lemma {:induction false} SpawnedLevelKeepsLevel(ps: seq<Platform>, target: real, rng: nat -> Draw, k: nat)
    requires LevelInvariant(ps)
    requires forall i :: ValidDraw(rng(i))
    ensures LevelInvariant(ps + SpawnedAfter(ps, target, rng, k))
    decreases if RightEdge(Last(ps)) < target then (target - RightEdge(Last(ps))).Floor + 1 else 0
  {
    if RightEdge(Last(ps)) < target {
      var q := SpawnNext(Last(ps), rng(k));
      SpawnApproaches(Last(ps), rng(k), target);
      SpawnKeepsLevel(ps, rng(k));
      SpawnedLevelKeepsLevel(ps + [q], target, rng, k + 1);
      var rest := SpawnedAfter(ps + [q], target, rng, k + 1);
      assert ps + ([q] + rest) == (ps + [q]) + rest;
    } else {
      assert ps + [] == ps;
    }
  }

  /**
   * Counting from ps[base], all[i] is the platform the spawner placed after
   * all[i - 1], with the draw of rng numbered k + (i - base).
   */
  predicate SpawnLinked(all: seq<Platform>, base: int, k: int, rng: nat -> Draw, i: int) {
    0 < base <= i < |all| && 0 <= k &&
    ValidDraw(rng(k + (i - base))) &&
    all[i] == SpawnNext(all[i - 1], rng(k + (i - base)))
  }

  /**
   * The spawned platforms form a chain: each is the spawner's next platform
   * after its predecessor, with the next draw.
   */
  lemma {:induction false} SpawnedAfterChain(ps: seq<Platform>, target: real, rng: nat -> Draw, k: nat)
    requires |ps| > 0
    requires forall i :: ValidDraw(rng(i))
    ensures var all := ps + SpawnedAfter(ps, target, rng, k);
      forall i :: |ps| <= i < |all| ==> SpawnLinked(all, |ps|, k, rng, i)
    decreases if RightEdge(Last(ps)) < target then (target - RightEdge(Last(ps))).Floor + 1 else 0
  {
    var all := ps + SpawnedAfter(ps, target, rng, k);
    if RightEdge(Last(ps)) < target {
      var q := SpawnNext(Last(ps), rng(k));
      SpawnApproaches(Last(ps), rng(k), target);
      SpawnedAfterStep(ps, target, rng, k);
      SpawnedAfterChain(ps + [q], target, rng, k + 1);
      var next := (ps + [q]) + SpawnedAfter(ps + [q], target, rng, k + 1);
      assert all == next;
      forall i | |ps| <= i < |all| ensures SpawnLinked(all, |ps|, k, rng, i) {
        if i == |ps| {
          assert all[i] == q && all[i - 1] == Last(ps);
        } else {
          assert SpawnLinked(next, |ps + [q]|, k + 1, rng, i);
        }
      }
    } else {
      assert all == ps;
    }
  }

  /**
   * Spawning stops at the first platform that reaches the target: the last
   * platform of ps and every spawned platform but the last are short of it.
   */
  lemma {:induction false} SpawnedAfterStops(ps: seq<Platform>, target: real, rng: nat -> Draw, k: nat)
    requires |ps| > 0
    requires forall i :: ValidDraw(rng(i))
    ensures var all := ps + SpawnedAfter(ps, target, rng, k);
      forall i :: |ps| - 1 <= i < |all| - 1 ==> RightEdge(all[i]) < target
    decreases if RightEdge(Last(ps)) < target then (target - RightEdge(Last(ps))).Floor + 1 else 0
  {
    var all := ps + SpawnedAfter(ps, target, rng, k);
    if RightEdge(Last(ps)) < target {
      var q := SpawnNext(Last(ps), rng(k));
      SpawnApproaches(Last(ps), rng(k), target);
      SpawnedAfterStep(ps, target, rng, k);
      SpawnedAfterStops(ps + [q], target, rng, k + 1);
      forall i | |ps| - 1 <= i < |all| - 1 ensures RightEdge(all[i]) < target {
        if i == |ps| - 1 {
          assert all[i] == Last(ps);
        }
      }
    } else {
      assert all == ps;
    }
  }

  /** The coins that accompany freshly spawned platforms, one above each. */
  function CoinsFor(ps: seq<Platform>): (r: seq<Coin>)
    ensures |r| == |ps|
    ensures forall i :: 0 <= i < |r| ==> r[i] == CoinAbove(ps[i])
  {
    seq(|ps|, i requires 0 <= i < |ps| => CoinAbove(ps[i]))
  }

  /** Spawning one more platform adds its coin at the end. */
  lemma CoinsForAppend(ps: seq<Platform>, q: Platform)
    ensures CoinsFor(ps + [q]) == CoinsFor(ps) + [CoinAbove(q)]
  {
    assert forall i :: 0 <= i < |ps| ==> (ps + [q])[i] == ps[i];
  }

  /**
   * Where the spawning loop stands after adding `added` to `p0`: the coins
   * so far are one above each added platform, and what is still to come
   * completes the same level that spawning from `p0` would reach.
   */
  ghost predicate SpawnInProgress(p0: seq<Platform>, c0: seq<Coin>, added: seq<Platform>, cs: seq<Coin>,
                                  target: real, rng: nat -> Draw)
    requires |p0| > 0
    requires forall i :: ValidDraw(rng(i))
  {
    cs == c0 + CoinsFor(added) &&
    (p0 + added) + SpawnedAfter(p0 + added, target, rng, |added|) == p0 + SpawnedAfter(p0, target, rng, 0)
  }

  /** One more platform (the next draw) and its coin keep the loop on track. */
  lemma SpawnOneMore(p0: seq<Platform>, c0: seq<Coin>, added: seq<Platform>, cs: seq<Coin>,
                     target: real, rng: nat -> Draw)
    requires |p0| > 0
    requires forall i :: ValidDraw(rng(i))
    requires SpawnInProgress(p0, c0, added, cs, target, rng)
    requires RightEdge(Last(p0 + added)) < target
    ensures var top := SpawnNext(Last(p0 + added), rng(|added|));
      SpawnInProgress(p0, c0, added + [top], cs + [CoinAbove(top)], target, rng)
  {
    var top := SpawnNext(Last(p0 + added), rng(|added|));
    SpawnedAfterStep(p0 + added, target, rng, |added|);
    CoinsForAppend(added, top);
    assert (p0 + added) + [top] == p0 + (added + [top]);
  }

  /** Once the target is reached the loop has spawned exactly SpawnedAfter's platforms. */
  lemma SpawnDone(p0: seq<Platform>, c0: seq<Coin>, added: seq<Platform>, cs: seq<Coin>,
                  target: real, rng: nat -> Draw)
    requires |p0| > 0
    requires forall i :: ValidDraw(rng(i))
    requires SpawnInProgress(p0, c0, added, cs, target, rng)
    requires RightEdge(Last(p0 + added)) >= target
    ensures added == SpawnedAfter(p0, target, rng, 0)
    ensures cs == c0 + CoinsFor(SpawnedAfter(p0, target, rng, 0))
  {
    assert (p0 + added) + [] == p0 + added;
    assert added == (p0 + added)[|p0|..];
  }

  /** Everything the frame loop carries from one frame to the next. */
  datatype WorldState = WorldState(player: Player, coyoteTimer: real, platforms: seq<Platform>,
                                   coins: seq<Coin>, score: nat, highscore: nat, state: GameState)

  /**
   * What every frame preserves: the level invariant, a grace timer never
   * above its maximum, and on the game-over screen a high score at least
   * the final score.
   */
  predicate Invariant(w: WorldState) {
    LevelInvariant(w.platforms) &&
    w.coyoteTimer <= CoyoteTimeMax &&
    (w.state == GameOver ==> w.score <= w.highscore)
  }

  /** Controls and physics: the player and the grace timer after input, the jump and gravity. */
  function Controls(w: WorldState, keys: Keys, dt: real): WorldState {
    w.(player := Controlled(w.player, w.coyoteTimer, keys, dt),
       coyoteTimer := TimerAfterControls(w.player.onGround, w.coyoteTimer, keys, dt))
  }

  /** Collision: on_ground cleared, then resolution against every platform in order. */
  function Collide(w: WorldState): WorldState {
    w.(player := ResolveAll(w.player.(onGround := false), w.platforms))
  }

  /** Spawning up to target: the new platforms, each with its coin appended. */
  function Spawn(w: WorldState, target: real, rng: nat -> Draw): WorldState
    requires |w.platforms| > 0
    requires forall i :: ValidDraw(rng(i))
  {
    var added := SpawnedAfter(w.platforms, target, rng, 0);
    w.(platforms := w.platforms + added, coins := w.coins + CoinsFor(added))
  }

  /** Pruning behind the camera's left edge. */
  function PruneBehind(w: WorldState, cameraX: real): WorldState {
    w.(platforms := Retain(w.platforms, PlatformFilter(cameraX)),
       coins := Retain(w.coins, CoinFilter(cameraX)))
  }

  /** Coin pickup: the coins after one pass, and the points it scores. */
  function Collect(w: WorldState): WorldState {
    w.(coins := PickUpAll(w.player, w.coins), score := w.score + Gained(w.player, w.coins))
  }

  /** The fall check: below the screen the game ends and the high score is recorded. */
  function FallCheck(w: WorldState, screenH: real): WorldState {
    if w.player.pos.y > screenH then
      w.(state := GameOver, highscore := if w.score > w.highscore then w.score else w.highscore)
    else w
  }

  /** Where the camera window's left edge sits: a third of the window left of the player. */
  function CameraX(p: Player, screenW: real): real {
    p.pos.x - screenW / 3.0
  }

  /**
   * Spawning up to the right edge of the camera window and pruning behind
   * it keeps the level invariant, and the level still reaches that edge.
   */
  lemma ScrollKeepsLevel(ps: seq<Platform>, cameraX: real, screenW: real, rng: nat -> Draw)
    requires LevelInvariant(ps)
    requires screenW > 0.0
    requires forall i :: ValidDraw(rng(i))
    ensures var r := Retain(ps + SpawnedAfter(ps, cameraX + screenW, rng, 0), PlatformFilter(cameraX));
      LevelInvariant(r) && RightEdge(Last(r)) >= cameraX + screenW
  {
    SpawnedLevelKeepsLevel(ps, cameraX + screenW, rng, 0);
    PruneKeepsLevel(ps + SpawnedAfter(ps, cameraX + screenW, rng, 0), cameraX, screenW);
  }

  /**
   * The rest of a tick once the player has moved: spawning up to the right
   * edge of the camera window, pruning behind it, coin pickup, and the fall
   * check. The player and the timer are left alone, the score never drops,
   * and a fall ends the game and records the high score. From a state in
   * play it keeps the invariant, and the level still reaches the right edge
   * of the camera window.
   */
  function AfterMove(w: WorldState, screenW: real, screenH: real, rng: nat -> Draw): (r: WorldState)
    requires |w.platforms| > 0
    requires forall i :: ValidDraw(rng(i))
    ensures r.player == w.player && r.coyoteTimer == w.coyoteTimer
    ensures r.score >= w.score
    ensures r.state == (if r.player.pos.y > screenH then GameOver else w.state)
    ensures r.highscore == (if r.player.pos.y > screenH && r.score > w.highscore then r.score else w.highscore)
    ensures Invariant(w) && w.state == Playing && screenW > 0.0 ==>
      Invariant(r) && RightEdge(Last(r.platforms)) >= CameraX(r.player, screenW) + screenW
  {
    var cameraX := CameraX(w.player, screenW);
    var r := FallCheck(Collect(PruneBehind(Spawn(w, cameraX + screenW, rng), cameraX)), screenH);
    if LevelInvariant(w.platforms) && screenW > 0.0 then
      ScrollKeepsLevel(w.platforms, cameraX, screenW, rng);
      r
    else
      r
  }

  /**
   * The state after one tick of play: controls and physics, collision, then
   * the rest. vx is the one the keys ask for; the score never drops; from a
   * state in play the game ends exactly on a fall, recording the high score,
   * and with a non-negative frame time and a window of positive width the
   * invariant is kept and the level reaches the camera window's right edge.
   */
  function TickResult(w: WorldState, keys: Keys, dt: real, screenW: real, screenH: real,
                      rng: nat -> Draw): (r: WorldState)
    requires |w.platforms| > 0
    requires forall i :: ValidDraw(rng(i))
    ensures r.player.vel.x == HorizontalVelocity(keys)
    ensures r.score >= w.score
    ensures w.state == Playing ==> r.state == (if r.player.pos.y > screenH then GameOver else Playing)
    ensures r.highscore == (if r.player.pos.y > screenH && r.score > w.highscore then r.score else w.highscore)
    ensures Invariant(w) && w.state == Playing && dt >= 0.0 && screenW > 0.0 ==>
      Invariant(r) && RightEdge(Last(r.platforms)) >= CameraX(r.player, screenW) + screenW
  {
    ResolveAllKeepsX(Controls(w, keys, dt).player.(onGround := false), w.platforms);
    AfterMove(Collide(Controls(w, keys, dt)), screenW, screenH, rng)
  }

  /**
   * Running the stages one after another, with the camera placed from the
   * player after collision, ends in TickResult.
   */
  lemma TickComposes(w0: WorldState, w1: WorldState, moved: WorldState, spawned: WorldState,
                     pruned: WorldState, collected: WorldState, r: WorldState,
                     keys: Keys, dt: real, cameraX: real, screenW: real, screenH: real, rng: nat -> Draw)
    requires |w0.platforms| > 0
    requires forall i :: ValidDraw(rng(i))
    requires w1 == Controls(w0, keys, dt)
    requires moved == Collide(w1)
    requires cameraX == CameraX(moved.player, screenW)
    requires spawned == Spawn(moved, cameraX + screenW, rng)
    requires pruned == PruneBehind(spawned, cameraX)
    requires collected == Collect(pruned)
    requires r == FallCheck(collected, screenH)
    ensures r == TickResult(w0, keys, dt, screenW, screenH, rng)
  {
  }

  /** The state after restarting from the game-over screen: the start-up state in play, with the high score kept. */
  function Restarted(highscore: nat): WorldState {
    WorldState(StartPlayer, 0.0, SeedPlatforms, SeedCoins, 0, highscore, Playing)
  }

  /** The title screen after a frame: play starts on Space. */
  function TitleResult(w: WorldState, spacePressed: bool): WorldState {
    if spacePressed then w.(state := Playing) else w
  }

  /** The game-over screen after a frame: R restarts. */
  function GameOverResult(w: WorldState, rPressed: bool): WorldState {
    if rPressed then Restarted(w.highscore) else w
  }

  /** The state after one frame, dispatched on the game state. */
  function FrameResult(w: WorldState, keys: Keys, dt: real, screenW: real, screenH: real,
                       rng: nat -> Draw): WorldState
    requires |w.platforms| > 0
    requires forall i :: ValidDraw(rng(i))
  {
    match w.state
    case TitleScreen => TitleResult(w, keys.spacePressed)
    case Playing => TickResult(w, keys, dt, screenW, screenH, rng)
    case GameOver => GameOverResult(w, keys.rPressed)
  }

  /**
   * Every frame keeps the invariant and never lowers the high score. The
   * title screen never leads straight to game over, and leaves for play
   * exactly on Space; game over leaves only for play, exactly on R, with
   * score 0; and the score drops only on that restart.
   */
  lemma FrameTransitions(w: WorldState, keys: Keys, dt: real, screenW: real, screenH: real,
                         rng: nat -> Draw)
    requires Invariant(w)
    requires dt >= 0.0 && screenW > 0.0
    requires forall i :: ValidDraw(rng(i))
    ensures var r := FrameResult(w, keys, dt, screenW, screenH, rng);
      Invariant(r) &&
      r.highscore >= w.highscore &&
      (w.state == TitleScreen ==> r.state != GameOver && (r.state == Playing <==> keys.spacePressed)) &&
      (w.state == GameOver ==> r.state != TitleScreen && (r.state == Playing <==> keys.rPressed)) &&
      (w.state == GameOver && r.state == Playing ==> r.score == 0 && r.highscore == w.highscore) &&
      (r.score < w.score ==> w.state == GameOver && r.state == Playing)
  {
    match w.state
    case TitleScreen =>
    case Playing =>
    case GameOver =>
      if keys.rPressed {
        SeedLevelValid();
      }
  }
}
