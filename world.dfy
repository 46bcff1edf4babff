/// The simulation state the frame loop owns, updated in place one frame at
/// a time: the title screen, a tick of play, or the game-over screen.
module Game {
  import opened Geometry
  import opened Entities
  import opened Retention
  import opened Spawner
  import opened Collision
  import opened Pickup
  import opened Rules

  class World {
    var player: Player
    var coyoteTimer: real
    var platforms: seq<Platform>
    var coins: seq<Coin>
    var score: nat
    var highscore: nat
    var state: GameState

    /** The fields as one value, for stating each method against the frame rules. */
    ghost function Current(): WorldState
      reads this
    {
      WorldState(player, coyoteTimer, platforms, coins, score, highscore, state)
    }

    ghost predicate Valid()
      reads this
    {
      Invariant(Current())
    }

    /** The state at start-up: the title screen over the seed level. */
    constructor ()
      ensures Valid()
      ensures player == StartPlayer && coyoteTimer == 0.0
      ensures platforms == SeedPlatforms && coins == SeedCoins
      ensures score == 0 && highscore == 0 && state == TitleScreen
    {
      player := StartPlayer;
      coyoteTimer := 0.0;
      platforms := SeedPlatforms;
      coins := SeedCoins;
      score := 0;
      highscore := 0;
      state := TitleScreen;
      new;
      SeedLevelValid();
    }

    /** One pass of the frame loop, dispatched on the game state. */
    method Frame(keys: Keys, dt: real, screenW: real, screenH: real, rng: nat -> Draw)
      requires Valid()
      requires dt >= 0.0 && screenW > 0.0
      requires forall i :: ValidDraw(rng(i))
      modifies this
      ensures Current() == FrameResult(old(Current()), keys, dt, screenW, screenH, rng)
      ensures Valid()
      ensures highscore >= old(highscore)
      ensures old(state) == TitleScreen ==>
        state == (if keys.spacePressed then Playing else TitleScreen) &&
        player == old(player) && coyoteTimer == old(coyoteTimer) &&
        platforms == old(platforms) && coins == old(coins) &&
        score == old(score) && highscore == old(highscore)
      ensures old(state) == Playing ==>
        state == (if player.pos.y > screenH then GameOver else Playing) &&
        score >= old(score) &&
        highscore == (if state == GameOver && score > old(highscore) then score else old(highscore))
      ensures old(state) == GameOver ==>
        state == (if keys.rPressed then Playing else GameOver) &&
        highscore == old(highscore) &&
        (!keys.rPressed ==> unchanged(this))
    {
      match state
      case TitleScreen =>
        TitleFrame(keys.spacePressed);
      case Playing =>
        Tick(keys, dt, screenW, screenH, rng);
      case GameOver =>
        GameOverFrame(keys.rPressed);
    }

    /** The title screen waits for Space and then starts play. */
    method TitleFrame(spacePressed: bool)
      requires Valid() && state == TitleScreen
      modifies this
      ensures Current() == TitleResult(old(Current()), spacePressed)
      ensures Valid()
      ensures state == (if spacePressed then Playing else TitleScreen)
      ensures player == old(player) && coyoteTimer == old(coyoteTimer)
      ensures platforms == old(platforms) && coins == old(coins)
      ensures score == old(score) && highscore == old(highscore)
    {
      if spacePressed {
        state := Playing;
      }
    }

    /** One tick of play. */
    method Tick(keys: Keys, dt: real, screenW: real, screenH: real, rng: nat -> Draw)
      requires Valid() && state == Playing
      requires dt >= 0.0 && screenW > 0.0
      requires forall i :: ValidDraw(rng(i))
      modifies this
      ensures Current() == TickResult(old(Current()), keys, dt, screenW, screenH, rng)
      ensures Valid()
      ensures player.vel.x == HorizontalVelocity(keys)
      ensures state == (if player.pos.y > screenH then GameOver else Playing)
      ensures score >= old(score)
      ensures highscore == (if state == GameOver && score > old(highscore) then score else old(highscore))
    {
      ghost var w0 := Current();
      ApplyControls(keys, dt);
      ghost var w1 := Current();
      assert w1 == Controls(w0, keys, dt);
      ResolveCollisions();
      ghost var moved := Current();
      assert moved == Collide(w1);

      var cameraX := CameraX(player, screenW);
      assert cameraX == CameraX(moved.player, screenW);
      SpawnPlatforms(cameraX + screenW, rng);
      ghost var spawned := Current();
      assert spawned == Spawn(moved, cameraX + screenW, rng);
      Prune(cameraX);
      ghost var pruned := Current();
      assert pruned == PruneBehind(spawned, cameraX);

      CollectCoins();
      ghost var collected := Current();
      assert collected == Collect(pruned);
      CheckFall(screenH);
      TickComposes(w0, w1, moved, spawned, pruned, collected, Current(),
                   keys, dt, cameraX, screenW, screenH, rng);
    }

    /** Horizontal input, the coyote-time jump buffer and gravity integration. */
    method ApplyControls(keys: Keys, dt: real)
      modifies this
      ensures Current() == Controls(old(Current()), keys, dt)
      ensures player.vel.x == HorizontalVelocity(keys)
      ensures JumpSucceeds(keys, old(player.onGround), old(coyoteTimer), dt) ==>
        player.vel.y == JumpForce + Gravity && !player.onGround && coyoteTimer == 0.0
      ensures !JumpSucceeds(keys, old(player.onGround), old(coyoteTimer), dt) ==>
        player.vel.y == old(player.vel.y) + Gravity && player.onGround == old(player.onGround) &&
        coyoteTimer == CoyoteAfter(old(player.onGround), old(coyoteTimer), dt)
      ensures player.pos == old(player.pos).Plus(player.vel)
      ensures platforms == old(platforms) && coins == old(coins)
      ensures score == old(score) && highscore == old(highscore) && state == old(state)
    {
      // input
      if keys.aDown || keys.leftDown {
        player := player.(vel := player.vel.(x := -MoveSpeed));
      } else if keys.dDown || keys.rightDown {
        player := player.(vel := player.vel.(x := MoveSpeed));
      } else {
        player := player.(vel := player.vel.(x := 0.0));
      }

      // coyote time
      if player.onGround {
        coyoteTimer := CoyoteTimeMax;
      } else {
        coyoteTimer := coyoteTimer - dt;
      }

      if keys.spacePressed && coyoteTimer > 0.0 {
        player := player.(vel := player.vel.(y := JumpForce));
        player := player.(onGround := false);
        coyoteTimer := 0.0;
      }

      // physics
      player := player.(vel := player.vel.(y := player.vel.y + Gravity));
      player := player.(pos := player.pos.Plus(player.vel));
    }

    /** Clears on_ground, then resolves the player against every platform in order. */
    method ResolveCollisions()
      modifies this
      ensures Current() == Collide(old(Current()))
      ensures player == ResolveAll(old(player).(onGround := false), platforms)
      ensures coyoteTimer == old(coyoteTimer) && platforms == old(platforms) && coins == old(coins)
      ensures score == old(score) && highscore == old(highscore) && state == old(state)
    {
      var p := player.(onGround := false);
      ghost var start := p;
      for i := 0 to |platforms|
        invariant p == ResolveAll(start, platforms[..i])
      {
        var plat := platforms[i];
        if Overlaps(PlayerRect(p), PlatformRect(plat)) {
          if p.vel.y > 0.0 && p.pos.y + PlayerSize - p.vel.y <= plat.pos.y {
            p := p.(pos := p.pos.(y := plat.pos.y - PlayerSize));
            p := p.(vel := p.vel.(y := 0.0));
            p := p.(onGround := true);
          } else if p.vel.y < 0.0 && p.pos.y >= plat.pos.y + plat.size.y {
            p := p.(pos := p.pos.(y := plat.pos.y + plat.size.y));
            p := p.(vel := p.vel.(y := 0.0));
          }
        }
        assert platforms[..i + 1][..i] == platforms[..i];
      }
      assert platforms[..|platforms|] == platforms;
      player := p;
    }

    /**
     * Appends spawned platforms, each with its coin, until the rightmost
     * platform reaches the right edge of the camera window (`target`).
     * The i-th platform spawned uses the i-th draw of `rng`.
     */
    method SpawnPlatforms(target: real, rng: nat -> Draw)
      requires |platforms| > 0
      requires forall i :: ValidDraw(rng(i))
      modifies this
      ensures Current() == Spawn(old(Current()), target, rng)
    {
      platforms, coins := SpawnUntil(platforms, coins, target, rng);
    }

    /** Drops the platforms and coins behind the camera window, and the collected coins. */
    method Prune(cameraX: real)
      modifies this
      ensures Current() == PruneBehind(old(Current()), cameraX)
      ensures platforms == Retain(old(platforms), PlatformFilter(cameraX))
      ensures coins == Retain(old(coins), CoinFilter(cameraX))
      ensures player == old(player) && coyoteTimer == old(coyoteTimer)
      ensures score == old(score) && highscore == old(highscore) && state == old(state)
    {
      platforms := Retain(platforms, PlatformFilter(cameraX));
      coins := Retain(coins, CoinFilter(cameraX));
    }

    /** Collects every uncollected coin the player touches, one point each. */
    method CollectCoins()
      modifies this
      ensures Current() == Collect(old(Current()))
      ensures coins == PickUpAll(player, old(coins))
      ensures score == old(score) + Gained(player, old(coins))
      ensures player == old(player) && coyoteTimer == old(coyoteTimer) && platforms == old(platforms)
      ensures highscore == old(highscore) && state == old(state)
    {
      var cs := coins;
      var s := score;
      for i := 0 to |cs|
        invariant |cs| == |coins|
        invariant forall k :: 0 <= k < i ==> cs[k] == PickUp(player, coins[k])
        invariant forall k :: i <= k < |cs| ==> cs[k] == coins[k]
        invariant s == score + Gained(player, coins[..i])
      {
        if !cs[i].collected {
          if Overlaps(PlayerRect(player), CoinRect(cs[i])) {
            cs := cs[i := cs[i].(collected := true)];
            s := s + 1;
          }
        }
        assert coins[..i + 1][..i] == coins[..i];
      }
      assert coins[..|coins|] == coins;
      coins, score := cs, s;
    }

    /** Falling below the screen ends the game and records the high score. */
    method CheckFall(screenH: real)
      requires state == Playing
      modifies this
      ensures Current() == FallCheck(old(Current()), screenH)
      ensures state == (if player.pos.y > screenH then GameOver else Playing)
      ensures highscore == (if state == GameOver && score > old(highscore) then score else old(highscore))
      ensures player == old(player) && coyoteTimer == old(coyoteTimer)
      ensures platforms == old(platforms) && coins == old(coins) && score == old(score)
    {
      if player.pos.y > screenH {
        state := GameOver;
        if score > highscore {
          highscore := score;
        }
      }
    }

    /** The game-over screen waits for R and then resets to the seed level, keeping the high score. */
    method GameOverFrame(rPressed: bool)
      requires Valid() && state == GameOver
      modifies this
      ensures Current() == GameOverResult(old(Current()), rPressed)
      ensures Valid()
      ensures !rPressed ==> unchanged(this)
      ensures rPressed ==>
        player == StartPlayer && coyoteTimer == 0.0 &&
        platforms == SeedPlatforms && coins == SeedCoins &&
        score == 0 && highscore == old(highscore) && state == Playing
    {
      if rPressed {
        player := player.(pos := Vec2(50.0, 300.0));
        player := player.(vel := Vec2(0.0, 0.0));
        player := player.(onGround := false);
        coyoteTimer := 0.0;
        platforms := [];
        platforms := platforms + [Platform(Vec2(0.0, 400.0), Vec2(256.0, 32.0), Big)];
        platforms := platforms + [Platform(Vec2(300.0, 300.0), Vec2(128.0, 32.0), Small)];
        platforms := platforms + [Platform(Vec2(500.0, 200.0), Vec2(128.0, 32.0), Small)];
        coins := [];
        coins := coins + [Coin(Vec2(340.0, 284.0), false)];
        coins := coins + [Coin(Vec2(540.0, 184.0), false)];
        score := 0;
        state := Playing;
        SeedLevelValid();
      }
    }
  }

  /**
   * The spawning loop on the level's two lists: appends a platform drawn
   * from `rng` and the coin above it while the rightmost platform's right
   * edge is left of `target`.
   */
  method SpawnUntil(p0: seq<Platform>, c0: seq<Coin>, target: real, rng: nat -> Draw)
    returns (ps: seq<Platform>, cs: seq<Coin>)
    requires |p0| > 0
    requires forall i :: ValidDraw(rng(i))
    ensures ps == p0 + SpawnedAfter(p0, target, rng, 0)
    ensures cs == c0 + CoinsFor(SpawnedAfter(p0, target, rng, 0))
  {
    ps, cs := p0, c0;
    ghost var added: seq<Platform> := [];
    var n := 0;
    while RightEdge(Last(ps)) < target
      invariant ps == p0 + added && n == |added|
      invariant SpawnInProgress(p0, c0, added, cs, target, rng)
      decreases (target - RightEdge(Last(ps))).Floor
    {
      var last := Last(ps);
      var d := rng(n);
      SpawnApproaches(last, d, target);
      SpawnOneMore(p0, c0, added, cs, target, rng);
      ps := ps + [SpawnNext(last, d)];

      // the coin above the new platform
      var top := Last(ps);
      var coinX := top.pos.x + top.size.x / 2.0 - 8.0;
      var coinY := top.pos.y - 16.0;
      cs := cs + [Coin(Vec2(coinX, coinY), false)];
      added := added + [top];
      n := n + 1;
    }
    SpawnDone(p0, c0, added, cs, target, rng);
  }
}
