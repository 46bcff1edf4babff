/// Coin pickup: every uncollected coin the player touches becomes collected
/// and scores one point.
module Pickup {
  import opened Geometry
  import opened Entities

  predicate Touches(p: Player, c: Coin) {
    Overlaps(PlayerRect(p), CoinRect(c))
  }

  function PickUp(p: Player, c: Coin): Coin {
    if !c.collected && Touches(p, c) then c.(collected := true) else c
  }

  /** The coins after one pickup pass. */
  function PickUpAll(p: Player, coins: seq<Coin>): (r: seq<Coin>)
    ensures |r| == |coins|
    ensures forall i :: 0 <= i < |coins| ==>
      r[i].pos == coins[i].pos && (r[i].collected <==> coins[i].collected || Touches(p, coins[i]))
  {
    seq(|coins|, i requires 0 <= i < |coins| => PickUp(p, coins[i]))
  }

  /** Points scored by one pickup pass. */
  function Gained(p: Player, coins: seq<Coin>): nat
    decreases |coins|
  {
    if coins == [] then 0
    else
      var c := coins[|coins| - 1];
      Gained(p, coins[..|coins| - 1]) + (if !c.collected && Touches(p, c) then 1 else 0)
  }

  /** Indices of the coins that were uncollected before and are collected after. */
  function Flipped(before: seq<Coin>, after: seq<Coin>): set<int> {
    set i | 0 <= i < |before| && i < |after| && !before[i].collected && after[i].collected
  }

  /** The score gained is exactly the number of coins the pass flipped to collected. */
  lemma {:induction false} GainedCountsFlips(p: Player, coins: seq<Coin>)
    ensures Gained(p, coins) == |Flipped(coins, PickUpAll(p, coins))|
  {
    if coins != [] {
      var n := |coins| - 1;
      var front := coins[..n];
      GainedCountsFlips(p, front);
      var all := Flipped(coins, PickUpAll(p, coins));
      var part := Flipped(front, PickUpAll(p, front));
      if !coins[n].collected && Touches(p, coins[n]) {
        assert all == part + {n};
        assert n !in part;
      } else {
        assert all == part;
      }
    }
  }

  /** A pass scores nothing exactly when no uncollected coin touches the player. */
  lemma {:induction false} GainedZeroIff(p: Player, coins: seq<Coin>)
    ensures Gained(p, coins) == 0 <==> forall i :: 0 <= i < |coins| ==> coins[i].collected || !Touches(p, coins[i])
  {
    if coins != [] {
      var n := |coins| - 1;
      GainedZeroIff(p, coins[..n]);
      assert forall i :: 0 <= i < n ==> coins[..n][i] == coins[i];
    }
  }

  /**
   * A second pass with the player where it is changes nothing and scores
   * nothing: a coin is scored at most once.
   */
  lemma PickUpOnce(p: Player, coins: seq<Coin>)
    ensures PickUpAll(p, PickUpAll(p, coins)) == PickUpAll(p, coins)
    ensures Gained(p, PickUpAll(p, coins)) == 0
  {
    GainedZeroIff(p, PickUpAll(p, coins));
  }
}
