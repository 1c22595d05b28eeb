/**
  Concrete runs and consequences of the bookkeeping rules as written: the
  worked examples of the bot's behaviour, and what the shared client id of a
  trigger's two placements, the ordering of the retry ceiling and the
  zero-fill delete, and the market test of a closing update lead to.
 */
module Scenarios {
  import opened Types
  import opened OrderIndex
  import opened HedgePairs
  import opened Trigger
  import opened Notifications
  import opened Repair

  /** A single level that opens at a spread of 0.01, once, for 5 units. */
  function OneLevel(): (st: State)
    ensures Valid(st) && |st.grids| == 1 && st.nextId == 0
  {
    State("SPOT", "FUTURE", [TradeGrid(0.01, -1.0, 1, 0, 5.0, {}, {})], map[], map[], 0, [])
  }

  /** Spot ask 100 against future bid 101 (an open spread of 0.01) at that
      level: one opening pair of 5, a spot buy and a future sell of 5, and no
      chance left. */
  lemma OpenAtThreshold()
    ensures var r := Check(OneLevel(), 0, 0.01, 0.0);
      && r.fired
      && r.st.grids[0].openChance == 0
      && |r.st.grids[0].openPairs| == 1
      && (forall pid | pid in r.st.grids[0].openPairs ::
            pid in r.st.pairs && r.st.pairs[pid].targetQty == 5.0 && r.st.pairs[pid].open)
      && |r.st.placed| == 2
      && r.st.placed[0].market == "SPOT" && r.st.placed[0].side == Buy && r.st.placed[0].size == 5.0
      && r.st.placed[1].market == "FUTURE" && r.st.placed[1].side == Sell && r.st.placed[1].size == 5.0
  {
    var st := OneLevel();
    assert FirstFiring(st.grids, 0, 0, 0.01, 0.0);
    var r := Check(st, 0, 0.01, 0.0);
    assert r.st == FireAt(st, 0, 0.01, 0.0) == Fire(st, 0, true);
    assert |Added(st, r.st, 0, true)| == 1;
    var pid :| pid in Added(st, r.st, 0, true);
    assert Added(st, r.st, 0, true) == {pid};
    assert r.st.grids[0].openPairs == {pid};
  }

  /** A fetch of 3100 ms evaluates nothing; one of exactly 3000 ms still does. */
  lemma StaleFetchSkips(st: State, openSpread: real, closeSpread: real)
    requires Valid(st)
    ensures Check(st, 3_100_000_000, openSpread, closeSpread) == CheckOutcome(false, st)
    ensures Check(st, 3_000_000_000, openSpread, closeSpread).fired <==>
              exists k :: 0 <= k < |st.grids| && Fires(st.grids[k], openSpread, closeSpread)
  {
  }

  /** A live opening pair of level 0: spot leg id 0, future leg id 1, key 2. */
  function LivePair(target: real, spotQty: real, futureQty: real, spotClosed: bool, futureClosed: bool, retry: int): (st: State)
    ensures Valid(st) && 2 in st.pairs && st.nextId == 3
  {
    var p := HedgePair(0, true, retry, target, spotQty, futureQty,
                       GridOrder(0, 0, target, 0.0, 2, spotClosed),
                       GridOrder(1, 0, target, 0.0, 2, futureClosed));
    var index := (if spotClosed then map[] else map[0 := LegRef(2, SpotSide)])
                 + (if futureClosed then map[] else map[1 := LegRef(2, FutureSide)]);
    State("SPOT", "FUTURE", [TradeGrid(0.01, -1.0, 0, 0, target, {2}, {})], map[2 := p], index, 3, [])
  }

  /** A spot leg of 5 reports 3 filled and then closes: 3 is credited, the leg is
      closed and unregistered, and once the future leg is closed too the pair is
      due for repair because 3 differs from 5. */
  lemma PartialFillThenClose()
    ensures var s0 := LivePair(5.0, 0.0, 5.0, false, true, 0);
      var s1 := OnOrderChange(s0, OrderUpdate(0, 77, 3.0, "open", "SPOT"));
      var s2 := OnOrderChange(s1, OrderUpdate(0, 77, 3.0, "closed", "SPOT"));
      && s2.pairs[2].spotQty == 3.0
      && s2.pairs[2].spot.closed
      && Get(s2.index, 0) == None
      && Repairable(s2.pairs[2]) && s2.pairs[2].spotQty != s2.pairs[2].targetQty
  {
    var s0 := LivePair(5.0, 0.0, 5.0, false, true, 0);
    assert s0.index[0] == LegRef(2, SpotSide);
    var s1 := OnOrderChange(s0, OrderUpdate(0, 77, 3.0, "open", "SPOT"));
    assert s1.index == s0.index;
    assert s1.pairs[2].spotQty == 3.0 && s1.pairs[2].spot.eQty == 3.0;
  }

  /** Repair of a closed pair with 3 of 5 filled on spot, 5 on the future, no
      retry yet: a new spot order for the remaining 2, the future leg as it
      was, one retry counted. */
  lemma RepairRemainder()
    ensures var st := LivePair(5.0, 3.0, 5.0, true, true, 0);
      var r := RepairPair(st, 0, 2, true);
      && r.pairs[2].retryPlace == 1
      && r.pairs[2].spot.qty == 2.0 && !r.pairs[2].spot.closed
      && Get(r.index, r.pairs[2].spot.clientId) == Some(LegRef(2, SpotSide))
      && r.pairs[2].future == st.pairs[2].future
      && |r.placed| == 1 && r.placed[0].size == 2.0 && r.placed[0].market == "SPOT"
  {
    var st := LivePair(5.0, 3.0, 5.0, true, true, 0);
    var r := RepairPair(st, 0, 2, true);
    assert Repairable(st.pairs[2]);
    assert LegOutcome(st.pairs[2], r.pairs[2], 2, SpotSide, r.index, st.nextId);
    assert LegOutcome(st.pairs[2], r.pairs[2], 2, FutureSide, r.index, st.nextId);
  }

  /** Both orders of a trigger carry the spot leg's client id; the future leg's
      own id, which the index holds, is never sent to the venue. */
  lemma PlacementsShareSpotId(st: State, i: nat, open: bool)
    requires Valid(st) && i < |st.grids|
    ensures var r := Fire(st, i, open);
      forall pid | pid in Added(st, r, i, open) ::
        && |r.placed| == |st.placed| + 2
        && r.placed[|st.placed|].clientId == r.pairs[pid].spot.clientId
        && r.placed[|st.placed| + 1].clientId == r.pairs[pid].spot.clientId
        && r.placed[|st.placed| + 1].market == st.futureName
        && r.placed[|st.placed| + 1].clientId != r.pairs[pid].future.clientId
  {
    var r := Fire(st, i, open);
    forall pid | pid in Added(st, r, i, open)
      ensures r.placed[|st.placed| + 1].clientId != r.pairs[pid].future.clientId
    {
      assert Created(st, r, pid, i, open, st.grids[i].placeQty);
      assert PairSound(r.pairs[pid], pid, r.nextId);
    }
  }

  /** Consequence of the shared id: the venue reports the future order's fills
      under the spot leg's id, measured against the spot leg's accounted size.
      After a spot fill of 5, a future fill of 5 credits nothing. */
  lemma FutureFillMasked()
    ensures var s0 := LivePair(5.0, 0.0, 0.0, false, false, 0);
      var s1 := OnOrderChange(s0, OrderUpdate(0, 77, 5.0, "open", "SPOT"));
      var s2 := OnOrderChange(s1, OrderUpdate(0, 78, 5.0, "open", "FUTURE"));
      s2.pairs[2].spotQty == 5.0 && s2.pairs[2].futureQty == 0.0
  {
    var s0 := LivePair(5.0, 0.0, 0.0, false, false, 0);
    assert s0.index[0] == LegRef(2, SpotSide);
    var s1 := OnOrderChange(s0, OrderUpdate(0, 77, 5.0, "open", "SPOT"));
    assert s1.index == s0.index;
    assert s1.pairs[2].spot.eQty == 5.0;
  }

  /** A zero-fill opening pair within the ceiling is deleted from its
      collection and still has both legs re-issued: the sweep does not move on
      after the delete. */
  lemma ZeroFillOpenPairReissued(st: State, i: nat, pid: PairId)
    requires Valid(st) && i < |st.grids| && pid in st.grids[i].openPairs && pid in st.pairs
    requires st.pairs[pid].BothClosed() && st.pairs[pid].ZeroFill()
    requires st.pairs[pid].retryPlace <= MaxRetry && st.pairs[pid].targetQty != 0.0
    ensures var r := RepairPair(st, i, pid, true);
      && pid !in r.grids[i].openPairs
      && |r.placed| == |st.placed| + 2
      && r.pairs[pid].retryPlace == st.pairs[pid].retryPlace + 1
  {
    assert Deleted(st.pairs[pid], true);
  }

  /** The same holds for a zero-fill closing pair within the ceiling: it is
      deleted before the ceiling test and then re-issued like any other. */
  lemma ZeroFillClosePairReissued(st: State, i: nat, pid: PairId)
    requires Valid(st) && i < |st.grids| && pid in st.grids[i].closePairs && pid in st.pairs
    requires st.pairs[pid].BothClosed() && st.pairs[pid].ZeroFill()
    requires st.pairs[pid].retryPlace <= MaxRetry && st.pairs[pid].targetQty != 0.0
    ensures var r := RepairPair(st, i, pid, false);
      && pid !in r.grids[i].closePairs
      && |r.placed| == |st.placed| + 2
      && r.pairs[pid].retryPlace == st.pairs[pid].retryPlace + 1
  {
    assert Deleted(st.pairs[pid], false);
  }

  /** A reconciled pair, both legs closed and filled to target, is still
      visited: each sweep counts one more retry and places nothing, until the
      count passes the ceiling. */
  lemma ReconciledPairCounted(st: State, i: nat, pid: PairId, open: bool)
    requires Valid(st) && i < |st.grids| && pid in st.pairs
    requires st.pairs[pid].BothClosed() && st.pairs[pid].retryPlace <= MaxRetry
    requires st.pairs[pid].spotQty == st.pairs[pid].targetQty && st.pairs[pid].futureQty == st.pairs[pid].targetQty
    ensures var r := RepairPair(st, i, pid, open);
      && r.pairs[pid] == st.pairs[pid].(retryPlace := st.pairs[pid].retryPlace + 1)
      && r.placed == st.placed
      && r.index.Keys == st.index.Keys
  {
    var p := st.pairs[pid];
    var r := RepairPair(st, i, pid, open);
    assert LegOutcome(p, r.pairs[pid], pid, SpotSide, r.index, st.nextId);
    assert LegOutcome(p, r.pairs[pid], pid, FutureSide, r.index, st.nextId);
  }

  /** Past the ceiling the two directions part: an opening zero-fill pair is
      kept, untouched, in its collection; a closing one is deleted. Neither
      gets a new order. */
  lemma CeilingOrder(st: State, i: nat, pid: PairId, open: bool)
    requires Valid(st) && i < |st.grids| && pid in st.grids[i].Pairs(open)
    requires st.pairs[pid].BothClosed() && st.pairs[pid].ZeroFill()
    requires st.pairs[pid].retryPlace > MaxRetry
    ensures var r := RepairPair(st, i, pid, open);
      && r.placed == st.placed && r.pairs[pid] == st.pairs[pid]
      && (pid in r.grids[i].Pairs(open) <==> open)
  {
    var r := RepairPair(st, i, pid, open);
    if !open {
      assert r.grids[i] == RemoveFrom(st.grids[i], open, pid);
    }
  }

  /** A "closed" update for a market the bot does not trade unregisters the id
      but leaves the leg open, so right after the update its pair is not
      repairable and the leg can no longer be looked up by its id. */
  lemma UnknownMarketOrphansLeg(st: State, n: OrderUpdate)
    requires Valid(st) && n.clientId in st.index
    requires n.status == ClosedStatus && n.market != st.spotName && n.market != st.futureName
    ensures var r := OnOrderChange(st, n);
      var ref := st.index[n.clientId];
      && !r.pairs[ref.pair].Leg(ref.side).closed
      && r.pairs[ref.pair].Leg(ref.side).clientId == n.clientId
      && Get(r.index, n.clientId) == None
      && !r.pairs[ref.pair].BothClosed()
  {
    var r := OnOrderChange(st, n);
    var ref := st.index[n.clientId];
    assert r.pairs[ref.pair].Leg(ref.side) == r.pairs[ref.pair].spot || r.pairs[ref.pair].Leg(ref.side) == r.pairs[ref.pair].future;
  }
}
