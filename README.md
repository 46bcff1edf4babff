# Jerry's Quest — simulation core in Dafny

This project models the simulation core of *Jerry's Quest*, a side-scrolling
platformer written in Rust on top of macroquad (`src/main.rs`). The frame loop
in that file mixes the simulation with drawing and input calls. Pulled out of
the loop, the simulation is a sequential state machine over rectangles:

- **Player physics and jump control.** Keys set the horizontal velocity
  directly. A coyote-time grace timer lets a jump succeed shortly after
  leaving the ground. Gravity is integrated once per tick, without scaling by
  the frame time.
- **Collision resolution.** The player is resolved against each platform in
  order, one side at a time. It lands on top when falling onto a platform.
  When rising it is stopped only at exact contact with a platform's bottom
  edge, so in practice platforms are one-way from below.
- **Procedural spawner.** The next platform goes to the right of the last one.
  The gap is bounded by the reach of one jump. The height stays within ±80 of
  the last platform and inside the band [150, 400].
- **World window.** A camera follows the player. Spawning appends a platform
  and its coin until the level reaches the right edge of the window. Pruning
  drops what has scrolled 100 units behind the left edge, and drops collected
  coins.
- **Coin pickup and scoring.**
- **Game flow.** The title screen goes to play on Space. Play goes to game over
  on a fall, and the high score is updated then. Game over goes back to play on
  R, with a full reset to the seed level.

Modules, one per component (all files are verified together):

| file | module | contents |
|---|---|---|
| geometry.dfy | `Geometry` | `Vec2`, `Rect`, the inclusive-edge `Overlaps` test, `Min`/`Max`, `Between` |
| entities.dfy | `Entities` | `Player`, `Platform`, `PlatformKind`, `Coin`, `GameState`, physics constants, seed level |
| retention.dfy | `Retention` | `Retain`, an order-preserving filter that models a vector's in-place `retain`, with its lemmas |
| spawner.dfy | `Spawner` | `SpawnPlatform` and the gap and height facts |
| collision.dfy | `Collision` | per-platform resolution `ResolveOne`, the in-order pass `ResolveAll`, and its lemmas |
| pickup.dfy | `Pickup` | the pickup pass `PickUpAll`, the points it scores `Gained`, and its lemmas |
| rules.dfy | `Rules` | the rules of a frame as pure functions on a `WorldState` value: controls, the level invariant, spawning up to the window (`SpawnedAfter`), pruning, each stage of a tick, `TickResult` and `FrameResult`, and their lemmas |
| world.dfy | `Game` | the `World` class: the state the frame loop owns, updated in place one stage at a time, and the spawn loop `SpawnUntil` |

`World` is a class because the source updates this state in place. Its fields
are the player, the coyote timer, the platform and coin vectors (as `seq`s the
methods reassign), the score, the high score and the game state.
`Current()` reads them as one `Rules.WorldState` value. Each method is proved
to leave `Current()` equal to a pure function of the state it started from:

| method | new state |
|---|---|
| `Frame` | `FrameResult` |
| `TitleFrame` | `TitleResult` |
| `Tick` | `TickResult` |
| `ApplyControls` | `Controls` |
| `ResolveCollisions` | `Collide` |
| `SpawnPlatforms` | `Spawn` |
| `Prune` | `PruneBehind` |
| `CollectCoins` | `Collect` |
| `CheckFall` | `FallCheck` |
| `GameOverFrame` | `GameOverResult` |

`Frame`, `TitleFrame`, `Tick` and `GameOverFrame` also keep `Valid()`, that
is `Rules.Invariant` of the current state:

- the platform list is never empty;
- every platform's size matches its kind, and its top lies in [150, 400];
- platforms are ordered left to right without overlapping;
- the coyote timer never exceeds 0.15;
- on the game-over screen, score ≤ high score.

The stages of a tick (`ApplyControls` to `CheckFall`) do not keep `Valid()`
one by one. Pruning keeps the level invariant, and a non-empty list, only
after spawning has reached the window's right edge. So the invariant is proved
for the tick as a whole, through `Rules.AfterMove` and `Rules.TickResult`.

The loops of the source are `while`/`for` loops here, each proved against a
pure function:

- the collision loop against `ResolveAll`;
- the spawn loop (`Game.SpawnUntil`) against `SpawnedAfter` and `CoinsFor`;
- the coin loop against `PickUpAll` and `Gained`.

Modelling choices:

- `f32` coordinates are `real`, and the `u32` score and high score are `nat`.
- The frame time `dt`, the key states (`Keys`), the screen width and height,
  and the random draws are parameters.
- A draw from a range is modelled as a fraction `r ∈ [0, 1]` giving
  `lo + (hi − lo)·r` (`Spawner.GenRange`). The drawn value therefore lies
  between the two bounds, whichever is larger.
- The spawn loop reads its draws from a stream `rng: nat -> Draw`: the i-th
  platform spawned in a tick uses `rng(i)`.
- macroquad's rectangle test is not part of this model. `Geometry.Overlaps`
  stands in for it with INCLUSIVE edges: rectangles that only touch along an
  edge or at a corner overlap.

Some properties hold in the code but are easy to misread:

- The coyote timer is bounded above by 0.15 but not below. In the air it keeps
  decreasing by `dt` each frame and goes negative.
- Edges overlap inclusively. A player who has just landed has its bottom edge
  exactly on the platform's top, so it still overlaps that platform after
  resolution. The model claims no "no overlap after resolution" invariant.
- Platforms are one-way from below. With inclusive overlap, the head-bump
  test (top edge at or below the platform's bottom) holds only when the top
  edge is exactly on the bottom edge. The snap then does not move the player;
  it only zeroes vy (`Collision.BumpOnlyAtContact`). A rising player whose top
  is already inside a platform is left alone and passes up through it
  (`Collision.RisingIntoPassesThrough`).
- At most one platform changes the player per tick: the first one, in list
  order, that fires for the player as it entered the pass
  (`Collision.ResolveAllCases`). Either branch zeroes the vertical velocity,
  and with zero vertical velocity no later platform fires.

## Model

| member | source | states |
|---|---|---|
| `Entities.CoinAbove` | src/main.rs:189-193 | the coin spawned with a platform is uncollected, centred horizontally on it, and rests on its top edge |
| `Retention.Retain` | src/main.rs:198-199 | `retain` keeps a subsequence of its input: at most as many elements, each from the input and passing the test |
| `Retention.RetainKeepsPassing` | src/main.rs:198-199 | every input element that passes the test is kept |
| `Retention.RetainAppend` | src/main.rs:198-199 | retaining distributes over concatenation, so relative order is preserved |
| `Retention.RetainIdempotent` | src/main.rs:198-199 | pruning a second time with the same camera position removes nothing |
| `Retention.RetainAllKept` | src/main.rs:198-199 | retaining removes nothing exactly when every element passes the test |
| `Retention.RetainKeepsLast` | src/main.rs:198 | when the last element passes, it is still the last element afterwards |
| `Retention.RetainPairwise` | src/main.rs:198 | any relation between earlier and later elements (such as left-to-right order) survives retaining |
| `Spawner.GenRange` | src/main.rs:310 | a value drawn from a range lies between its two bounds |
| `Spawner.SpawnPlatform` | src/main.rs:303-320 | the new platform's size matches its kind (128 or 256 by 32), and its kind is Small exactly when the roll is 0; its gap from the last platform's right edge lies between 120 and min(max_jump_distance, 220), whichever is larger (in [120, 172.8] with the game's constants, `Spawner.SpawnGap`); its y lies between max(last.y − 80, 150) and min(last.y + 80, 400) |
| `Spawner.GameGapRange` | src/main.rs:304-309 | with gravity 0.5, jump force −12 and speed 4, the jump reach is 172.8, under the 220 cap, so the gap range [120, 172.8] is non-empty |
| `Spawner.SpawnGap` | src/main.rs:308-319 | with the game's physics, a spawned platform starts 120 to 172.8 past the last one's right edge, so the level's right edge advances by at least 248 |
| `Spawner.SpawnHeightBand` | src/main.rs:315-317 | from a platform in [150, 400] the height band is non-empty and inside [150, 400]; the spawned platform lies in it, within 80 of the last one |
| `Collision.ResolveOneCases` | src/main.rs:168-177 | a platform that neither lands nor bumps the player leaves it unchanged; one that does zeroes its vertical velocity; horizontal position and velocity never change |
| `Collision.SettledIsFixed` | src/main.rs:169-176 | a player with zero vertical velocity is unchanged by the whole pass |
| `Collision.ResolveAllKeepsX` | src/main.rs:163-178 | the pass never changes the player's horizontal position or velocity |
| `Collision.ResolveAllCases` | src/main.rs:163-178 | the pass resolves against at most one platform: the first that fires for the entering player; if none fires, the player is unchanged |
| `Collision.LandingSnapsToTop` | src/main.rs:169-172 | if the first platform to fire is a landing, the player ends with its bottom on the platform's top, zero vertical velocity and on the ground, with x unchanged |
| `Collision.BumpSnapsToBottom` | src/main.rs:173-176 | if the first platform to fire is a head-bump, the player ends with its top on the platform's bottom and zero vertical velocity, with on_ground unchanged |
| `Collision.BumpOnlyAtContact` | src/main.rs:168-176 | a head-bump happens only when the player's top edge is exactly on the platform's bottom edge, and the snap leaves the position unchanged, only zeroing vy |
| `Collision.RisingIntoPassesThrough` | src/main.rs:168-177 | a rising player whose top edge is strictly inside a platform is neither landed nor bumped, and passes through unchanged |
| `Collision.OnGroundIffLanded` | src/main.rs:163-178 | with on_ground cleared first, the player ends on the ground exactly when the first platform to fire is a landing |
| `Pickup.PickUpAll` | src/main.rs:202-211 | after pickup no coin has moved, and a coin is collected exactly when it was collected before or it touches the player |
| `Pickup.GainedCountsFlips` | src/main.rs:202-211 | the score rises by exactly the number of coins this pass flips from uncollected to collected |
| `Pickup.GainedZeroIff` | src/main.rs:202-211 | a pass scores nothing exactly when every coin is already collected or does not touch the player |
| `Pickup.PickUpOnce` | src/main.rs:202-211 | a second pass at the same position changes no coin and scores nothing, so each coin scores at most once |
| `Rules.CoyoteGrace` | src/main.rs:146-156 | on the ground a jump press always succeeds; in the air it succeeds exactly when the grace time left exceeds the frame time |
| `Rules.NoSecondJump` | src/main.rs:146-156 | airborne with the timer at or below 0 (as a jump leaves it), no press can jump, and the timer stays at or below 0 for the next frame, so no second jump comes before landing |
| `Rules.SeedLevelValid` | src/main.rs:83-87 | the seed platforms satisfy the level invariant: non-empty, sized by kind, inside [150, 400], ordered left to right without overlap |
| `Rules.SpawnKeepsLevel` | src/main.rs:184-188 | appending the spawner's next platform keeps the level invariant |
| `Rules.SpawnApproaches` | src/main.rs:184-186 | each spawn brings the level's right edge at least 248 closer to an unreached target, so the spawn loop terminates |
| `Rules.PruneKeepsLevel` | src/main.rs:184-198 | after spawning has reached the window's right edge (window width > 0), pruning keeps the rightmost platform, so the list stays non-empty and the level invariant holds |
| `Rules.SpawnedAfter` | src/main.rs:184-195 | the platforms spawned until the rightmost reaches the target bring the level's right edge to the target |
| `Rules.SpawnedAfterStep` | src/main.rs:184-188 | one spawn: while the level is short of the target, what remains to spawn starts with the spawner's next platform, using the next draw |
| `Rules.SpawnedLevelKeepsLevel` | src/main.rs:184-195 | spawning up to any target keeps the level invariant |
| `Rules.SpawnedAfterChain` | src/main.rs:184-188 | each spawned platform is the spawner's next after its predecessor, the i-th spawned using draw i |
| `Rules.SpawnedAfterStops` | src/main.rs:184-185 | spawning stops at the first platform reaching the target: the last old platform and every spawned one but the last are short of it |
| `Rules.CoinsFor` | src/main.rs:189-193 | one coin per spawned platform, the i-th above the i-th platform |
| `Rules.ScrollKeepsLevel` | src/main.rs:181-198 | spawning up to the right edge of a window of positive width and pruning behind it keeps the level invariant, and the level still reaches that edge |
| `Rules.AfterMove` | src/main.rs:181-217 | after the move: the player and timer are untouched, the score never drops, the game ends exactly on a fall with high score = max(high score, score), and from a valid state in play the invariant is kept with the level reaching the window's right edge |
| `Rules.TickResult` | src/main.rs:135-217 | one tick of play: vx is the one the keys ask for, the score never drops, from play the game ends exactly on a fall, recording the high score, and the invariant is kept |
| `Rules.FrameTransitions` | src/main.rs:112-296 | every frame keeps the invariant and never lowers the high score; the title screen leaves only for play, exactly on Space; game over leaves only for play, exactly on R, with score 0 and the high score kept; the score drops only on that restart |
| `Game.World.constructor` | src/main.rs:66-97 | start-up state: the player at (50, 300) at rest and airborne, timer 0, the seed level, score and high score 0, title screen |
| `Game.World.Frame` | src/main.rs:112-296 | the new state is `FrameResult` of the old: Title → Playing only on Space, changing nothing else; Playing → GameOver exactly when the player is below the screen, with high score = max(high score, score); GameOver → Playing only on R, with the full reset, and nothing changes without R; `Valid()` is kept and the high score never decreases |
| `Game.World.TitleFrame` | src/main.rs:130-132 | the new state is `TitleResult`: Playing exactly when Space is pressed, nothing else changed; `Valid()` is kept |
| `Game.World.Tick` | src/main.rs:135-217 | the new state is `TickResult` of the old: vx from the keys, the score never lowered, the game ending exactly on a fall with the high score recorded; `Valid()` is kept |
| `Game.World.ApplyControls` | src/main.rs:136-160 | the new state is `Controls`: vx comes from the keys (left wins over right); a press jumps exactly when the refilled or run-down timer is positive, which sets vy to the jump force plus gravity, clears on_ground and zeroes the timer; otherwise vy gains gravity; the position advances by the velocity |
| `Game.World.ResolveCollisions` | src/main.rs:162-178 | the new state is `Collide`: the player becomes `ResolveAll` of the player with on_ground cleared, against the platforms in order; nothing else changes |
| `Game.World.SpawnPlatforms` | src/main.rs:183-195 | the new state is `Spawn`: the platforms gain `SpawnedAfter` and the coins gain one coin above each new platform, nothing else changes |
| `Game.SpawnUntil` | src/main.rs:184-195 | the spawn loop returns the old platforms followed by `SpawnedAfter`, and the old coins followed by `CoinsFor` of those platforms |
| `Game.World.Prune` | src/main.rs:197-199 | the new state is `PruneBehind`: platforms with right edge > camera − 100 are kept; coins are kept when x + 16 > camera − 100 and not collected |
| `Game.World.CollectCoins` | src/main.rs:201-211 | the new state is `Collect`: the coins become `PickUpAll` of the old coins, and the score rises by `Gained`, the number of coins flipped |
| `Game.World.CheckFall` | src/main.rs:213-217 | the new state is `FallCheck`: GameOver exactly when the player's y exceeds the screen height, and then high score = max(high score, score) |
| `Game.World.GameOverFrame` | src/main.rs:279-294 | the new state is `GameOverResult`: on R, everything is reset whatever its prior value: player at (50, 300) at rest and airborne, timer 0, the seed platforms and coins, score 0, state Playing, high score unchanged; without R nothing changes; `Valid()` is kept |

## Left out

- Texture loading, filter modes, and all drawing of text, textures and backgrounds: rendering only, with no simulation logic.
- Clouds (their drift, wrap-around and random respawn): cosmetic, with no effect on play.
- Keyboard polling, the frame clock, the screen size and the frame wait: their values are parameters of `Game.World.Frame`.
- The random number generator itself: draws are inputs (`Spawner.Draw`, the `rng` stream), modelled as fractions in [0, 1] between a range's bounds.
- Floating-point rounding: coordinates are exact reals.
- `u32` overflow of score and high score: they are unbounded naturals. Overflow would need 2^32 coins.
- macroquad's rectangle test: replaced by `Geometry.Overlaps` with inclusive edges.
- Game.World.Frame: assumes a positive screen width and a non-negative frame time, as the window and clock supply. With a non-positive width the source could prune every platform, and its spawn loop would then stop on the empty list. That path is not modelled, because `Valid()` keeps the list non-empty.
- Spawner.SpawnPlatform: requires a non-zero gravity. The source divides by gravity, and an `f32` infinity has no counterpart among reals. The game passes 0.5.
- Game.World.SpawnPlatforms: requires a non-empty platform list, and so does `Game.SpawnUntil`. On an empty list the source's `while let` loop spawns nothing. That path is not modelled, because within a tick the list is the one `Valid()` keeps non-empty.
- The end-to-end scenario of resting on the first seed platform after 50 ticks from the start position is not proved. The per-tick facts it rests on are proved: `Game.World.ApplyControls` and `Collision.LandingSnapsToTop`.
