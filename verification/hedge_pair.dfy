/**
  Construction of hedge pairs and of replacement legs (NewHedgePair and the
  GridOrder literals of the repair sweep).
 */
module HedgePairs {
  import opened Types

  /** A leg that has not been placed yet: nothing filled, no venue id, not closed. */
  function NewLeg(id: ClientId, qty: real, pid: PairId): (o: GridOrder)
    ensures o.clientId == id && o.pair == pid && o.qty == qty
    ensures !o.closed && o.eQty == 0.0 && o.venueId == 0
  {
    GridOrder(id, 0, qty, 0.0, pid, false)
  }

  /** A fresh pair of level `grid` in direction `open` for `qty` on each side.
      Its legs take the ids `next` and `next + 1`; `pid` is the key the pair is
      stored under, and both legs point back to it. */
  function NewHedgePair(grid: nat, open: bool, qty: real, next: nat, pid: PairId): (p: HedgePair)
    ensures p.grid == grid && p.open == open
    ensures p.targetQty == qty && p.spotQty == 0.0 && p.futureQty == 0.0 && p.retryPlace == 0
    ensures forall side :: p.Leg(side).qty == qty && !p.Leg(side).closed && p.Leg(side).eQty == 0.0
    ensures forall side :: p.Leg(side).pair == pid && p.Leg(side).clientId >= next
    ensures p.spot.clientId != p.future.clientId
    ensures !p.BothClosed()
    ensures forall n: nat :: pid < n && next + 2 <= n ==> PairSound(p, pid, n)
  {
    HedgePair(grid, open, 0, qty, 0.0, 0.0, NewLeg(next, qty, pid), NewLeg(next + 1, qty, pid))
  }

  /** Direction of a leg's order: an opening pair buys spot and sells the
      future, a closing pair does the reverse. */
  function Direction(side: Side, open: bool): (d: OrderSide)
    ensures open ==> (d == Buy <==> side == SpotSide)
    ensures !open ==> (d == Sell <==> side == SpotSide)
  {
    if (side == SpotSide) == open then Buy else Sell
  }
}
