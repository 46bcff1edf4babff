/// One-sided vertical collision resolution of the player against the
/// platforms: land on top when falling onto a platform; when rising, stop
/// only at exact contact with its bottom edge, so a player already inside a
/// platform passes up through it. Platforms are visited in sequence order,
/// once each.
module Collision {
  import opened Geometry
  import opened Entities

  /** Falling onto the platform from above: the player's bottom edge was at or above its top before this tick's move. */
  predicate Lands(p: Player, plat: Platform) {
    Overlaps(PlayerRect(p), PlatformRect(plat)) &&
    p.vel.y > 0.0 && p.pos.y + PlayerSize - p.vel.y <= plat.pos.y
  }

  /**
   * Rising against the platform from below: the player's top edge is at or
   * below its bottom. With inclusive overlap this means exactly touching it.
   */
  predicate Bumps(p: Player, plat: Platform) {
    Overlaps(PlayerRect(p), PlatformRect(plat)) &&
    p.vel.y < 0.0 && p.pos.y >= plat.pos.y + plat.size.y
  }

  /** The platform changes the player. */
  predicate Fires(p: Player, plat: Platform) {
    Lands(p, plat) || Bumps(p, plat)
  }

  /** Resolution of the player against one platform. */
  function ResolveOne(p: Player, plat: Platform): Player {
    if Overlaps(PlayerRect(p), PlatformRect(plat)) then
      if p.vel.y > 0.0 && p.pos.y + PlayerSize - p.vel.y <= plat.pos.y then
        Player(Vec2(p.pos.x, plat.pos.y - PlayerSize), Vec2(p.vel.x, 0.0), true)
      else if p.vel.y < 0.0 && p.pos.y >= plat.pos.y + plat.size.y then
        Player(Vec2(p.pos.x, plat.pos.y + plat.size.y), Vec2(p.vel.x, 0.0), p.onGround)
      else p
    else p
  }

  /** Resolution against every platform in order, each seeing the player as the earlier ones left it. */
  function ResolveAll(p: Player, plats: seq<Platform>): Player
    decreases |plats|
  {
    if plats == [] then p
    else ResolveOne(ResolveAll(p, plats[..|plats| - 1]), plats[|plats| - 1])
  }

  /** k is the first platform, in sequence order, that fires for p. */
  predicate FirstFires(p: Player, plats: seq<Platform>, k: int) {
    0 <= k < |plats| && Fires(p, plats[k]) &&
    forall j :: 0 <= j < k ==> !Fires(p, plats[j])
  }

  /** One platform either changes the player (and stops it vertically) or leaves it alone. */
  lemma ResolveOneCases(p: Player, plat: Platform)
    ensures !Fires(p, plat) ==> ResolveOne(p, plat) == p
    ensures Fires(p, plat) ==> ResolveOne(p, plat).vel.y == 0.0
    ensures ResolveOne(p, plat).pos.x == p.pos.x && ResolveOne(p, plat).vel.x == p.vel.x
  {
  }

  /** A player without vertical velocity is left alone by every platform. */
  lemma {:induction false} SettledIsFixed(p: Player, plats: seq<Platform>)
    requires p.vel.y == 0.0
    ensures ResolveAll(p, plats) == p
  {
    if plats != [] {
      SettledIsFixed(p, plats[..|plats| - 1]);
    }
  }

  /** The pass moves the player only vertically: horizontal position and velocity come through unchanged. */
  lemma {:induction false} ResolveAllKeepsX(p: Player, plats: seq<Platform>)
    ensures ResolveAll(p, plats).pos.x == p.pos.x && ResolveAll(p, plats).vel.x == p.vel.x
  {
    if plats != [] {
      ResolveAllKeepsX(p, plats[..|plats| - 1]);
      ResolveOneCases(ResolveAll(p, plats[..|plats| - 1]), plats[|plats| - 1]);
    }
  }

  /**
   * The whole pass resolves the player against at most one platform: the
   * first one that fires, judged on the player as it entered the pass. When
   * none fires the player is unchanged.
   */
  lemma {:induction false} ResolveAllCases(p: Player, plats: seq<Platform>)
    ensures (exists k :: FirstFires(p, plats, k) && ResolveAll(p, plats) == ResolveOne(p, plats[k])) ||
            ((forall j :: 0 <= j < |plats| ==> !Fires(p, plats[j])) && ResolveAll(p, plats) == p)
  {
    if plats != [] {
      var n := |plats| - 1;
      var front := plats[..n];
      assert ResolveAll(p, plats) == ResolveOne(ResolveAll(p, front), plats[n]);
      ResolveAllCases(p, front);
      if k :| FirstFires(p, front, k) && ResolveAll(p, front) == ResolveOne(p, front[k]) {
        FiredStaysFired(p, plats, k);
      } else {
        assert ResolveAll(p, front) == p;
        if Fires(p, plats[n]) {
          assert FirstFires(p, plats, n) && ResolveAll(p, plats) == ResolveOne(p, plats[n]);
        } else {
          ResolveOneCases(p, plats[n]);
        }
      }
    }
  }

  /** Once an earlier platform has fired, one more platform changes nothing. */
  lemma FiredStaysFired(p: Player, plats: seq<Platform>, k: int)
    requires |plats| > 0
    requires FirstFires(p, plats[..|plats| - 1], k)
    requires ResolveAll(p, plats[..|plats| - 1]) == ResolveOne(p, plats[k])
    ensures FirstFires(p, plats, k) && ResolveAll(p, plats) == ResolveOne(p, plats[k])
  {
    var n := |plats| - 1;
    var settled := ResolveOne(p, plats[k]);
    ResolveOneCases(p, plats[k]);
    SettledIsFixed(settled, [plats[n]]);
    assert ResolveAll(settled, [plats[n]]) == ResolveOne(settled, plats[n]);
  }

  lemma FirstFiresUnique(p: Player, plats: seq<Platform>, k: int, m: int)
    requires FirstFires(p, plats, k) && FirstFires(p, plats, m)
    ensures k == m
  {
  }

  /**
   * A landing on the first platform that fires snaps the player's bottom
   * edge to the platform's top, stops it and puts it on the ground.
   */
  lemma LandingSnapsToTop(p: Player, plats: seq<Platform>, k: int)
    requires FirstFires(p, plats, k) && Lands(p, plats[k])
    ensures var r := ResolveAll(p, plats);
      r.pos.y + PlayerSize == plats[k].pos.y && r.vel.y == 0.0 && r.onGround &&
      r.pos.x == p.pos.x && r.vel.x == p.vel.x
  {
    ResolveAllCases(p, plats);
    if k' :| FirstFires(p, plats, k') && ResolveAll(p, plats) == ResolveOne(p, plats[k']) {
      FirstFiresUnique(p, plats, k, k');
    }
  }

  /**
   * A head-bump on the first platform that fires snaps the player's top
   * edge to the platform's bottom and stops it, leaving on_ground as it was.
   */
  lemma BumpSnapsToBottom(p: Player, plats: seq<Platform>, k: int)
    requires FirstFires(p, plats, k) && Bumps(p, plats[k])
    ensures var r := ResolveAll(p, plats);
      r.pos.y == plats[k].pos.y + plats[k].size.y && r.vel.y == 0.0 && r.onGround == p.onGround &&
      r.pos.x == p.pos.x && r.vel.x == p.vel.x
  {
    ResolveAllCases(p, plats);
    if k' :| FirstFires(p, plats, k') && ResolveAll(p, plats) == ResolveOne(p, plats[k']) {
      FirstFiresUnique(p, plats, k, k');
    }
  }

  /**
   * A head-bump can only happen at exact contact: the overlap test needs the
   * player's top at or above the platform's bottom, the bump test at or
   * below it. The snap then leaves the player where it is.
   */
  lemma BumpOnlyAtContact(p: Player, plat: Platform)
    requires Bumps(p, plat)
    ensures p.pos.y == plat.pos.y + plat.size.y
    ensures ResolveOne(p, plat).pos == p.pos && ResolveOne(p, plat).vel.y == 0.0
  {
  }

  /**
   * A rising player whose top edge is strictly inside a platform is not
   * stopped by it: platforms are one-way from below.
   */
  lemma RisingIntoPassesThrough(p: Player, plat: Platform)
    requires p.vel.y < 0.0 && plat.pos.y < p.pos.y < plat.pos.y + plat.size.y
    ensures !Fires(p, plat) && ResolveOne(p, plat) == p
  {
  }

  /**
   * With on_ground cleared before the pass, the player ends on the ground
   * exactly when the first platform that fires is a landing.
   */
  lemma OnGroundIffLanded(p: Player, plats: seq<Platform>)
    requires !p.onGround
    ensures ResolveAll(p, plats).onGround <==> exists k :: FirstFires(p, plats, k) && Lands(p, plats[k])
  {
    ResolveAllCases(p, plats);
    if k :| FirstFires(p, plats, k) && ResolveAll(p, plats) == ResolveOne(p, plats[k]) {
      forall k' | FirstFires(p, plats, k') ensures k' == k {
        FirstFiresUnique(p, plats, k, k');
      }
    }
  }
}
