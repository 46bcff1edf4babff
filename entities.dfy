/// The entities of the simulation and the fixed tuning constants.
module Entities {
  import opened Geometry

  // Physics settings (per tick, not scaled by the frame time)
  const Gravity: real := 0.5
  const JumpForce: real := -12.0
  const MoveSpeed: real := 4.0

  /** Length of the grace period after leaving the ground, in seconds. */
  const CoyoteTimeMax: real := 0.15

  /** The player's and the coins' hit boxes are squares of these sides. */
  const PlayerSize: real := 32.0
  const CoinSize: real := 16.0

  const PlatformHeight: real := 32.0

  datatype Player = Player(pos: Vec2, vel: Vec2, onGround: bool)

  datatype PlatformKind = Small | Big

  datatype Platform = Platform(pos: Vec2, size: Vec2, kind: PlatformKind)

  datatype Coin = Coin(pos: Vec2, collected: bool)

  datatype GameState = TitleScreen | Playing | GameOver

  function KindWidth(kind: PlatformKind): real {
    match kind
    case Small => 128.0
    case Big => 256.0
  }

  /** A platform's size follows from its kind. */
  predicate WellFormed(p: Platform) {
    p.size == Vec2(KindWidth(p.kind), PlatformHeight)
  }

  function RightEdge(p: Platform): real {
    p.pos.x + p.size.x
  }

  function PlayerRect(p: Player): Rect {
    Rect(p.pos.x, p.pos.y, PlayerSize, PlayerSize)
  }

  function PlatformRect(p: Platform): Rect {
    Rect(p.pos.x, p.pos.y, p.size.x, p.size.y)
  }

  function CoinRect(c: Coin): Rect {
    Rect(c.pos.x, c.pos.y, CoinSize, CoinSize)
  }

  /** The coin that accompanies a freshly spawned platform. */
  function CoinAbove(p: Platform): (c: Coin)
    ensures !c.collected
    ensures c.pos.x + CoinSize / 2.0 == p.pos.x + p.size.x / 2.0  // centred horizontally
    ensures c.pos.y + CoinSize == p.pos.y                       // resting on the top edge
  {
    Coin(Vec2(p.pos.x + p.size.x / 2.0 - 8.0, p.pos.y - 16.0), false)
  }

  const StartPos: Vec2 := Vec2(50.0, 300.0)

  /** The player as placed at start-up and on restart. */
  const StartPlayer: Player := Player(StartPos, Vec2(0.0, 0.0), false)

  /** The hand-made opening of the level. */
  const SeedPlatforms: seq<Platform> := [
    Platform(Vec2(0.0, 400.0), Vec2(256.0, 32.0), Big),
    Platform(Vec2(300.0, 300.0), Vec2(128.0, 32.0), Small),
    Platform(Vec2(500.0, 200.0), Vec2(128.0, 32.0), Small)
  ]

  const SeedCoins: seq<Coin> := [
    Coin(Vec2(340.0, 284.0), false),
    Coin(Vec2(540.0, 184.0), false)
  ]
}
