/**
  The repair sweep (`checkPairs` in check.go). For every pair of every level:
  wait while a leg is open; give up past the retry ceiling; drop a pair that
  filled nothing on either side; otherwise count a retry and re-issue each leg
  whose filled quantity differs from the target, sized to the remainder.

  The source walks Go maps, whose iteration order is unspecified; the model
  takes the visiting order as a parameter.
 */
module Repair {
  import opened Types
  import opened OrderIndex
  import opened HedgePairs

  /** Repair runs while RetryPlace is at most this (the source tests `> 5`). */
  const MaxRetry: int := 5

  /** The sweep re-issues legs of this pair: both legs closed and the ceiling not passed. */
  predicate Repairable(p: HedgePair) {
    p.BothClosed() && p.retryPlace <= MaxRetry
  }

  /** The sweep removes this pair from its collection: both legs closed with
      nothing filled, and, for an opening pair only, the ceiling not passed
      (an opening pair tests the ceiling first, a closing pair deletes first). */
  predicate Deleted(p: HedgePair, open: bool) {
    p.BothClosed() && p.ZeroFill() && (!open || p.retryPlace <= MaxRetry)
  }

  /** The order that re-places the leg on `side` of pair `p`. */
  function RetryPlacement(st: State, p: HedgePair, side: Side, open: bool): Placement {
    Placement(p.Leg(side).clientId, Market(st, side), Direction(side, open), p.Leg(side).qty)
  }

  /** The level with `pid` removed from the collection of direction `open`. */
  function RemoveFrom(g: TradeGrid, open: bool, pid: PairId): (g': TradeGrid)
    ensures g'.Pairs(open) == g.Pairs(open) - {pid} && g'.Pairs(!open) == g.Pairs(!open)
    ensures g'.openAt == g.openAt && g'.closeAt == g.closeAt && g'.placeQty == g.placeQty
    ensures g'.openChance == g.openChance && g'.closeChance == g.closeChance
  {
    if open then g.(openPairs := g.openPairs - {pid}) else g.(closePairs := g.closePairs - {pid})
  }

  /** Replaces the closed leg on `side` by a fresh order for the remainder
      `TargetQty - filled`, registers it and places it (lines 172-182, 185-195,
      216-226, 229-239). */
  function Reissue(st: State, pid: PairId, side: Side, open: bool): (r: State)
    requires Valid(st) && pid in st.pairs && st.pairs[pid].Leg(side).closed
    ensures Valid(r)
    ensures r.grids == st.grids && r.spotName == st.spotName && r.futureName == st.futureName
    ensures r.pairs.Keys == st.pairs.Keys && st.nextId < r.nextId
    ensures forall q | q in st.pairs && q != pid :: r.pairs[q] == st.pairs[q]
    ensures forall id | id in st.index :: id in r.index && r.index[id] == st.index[id]
    ensures r.index.Keys == st.index.Keys + {r.pairs[pid].Leg(side).clientId}
    ensures r.pairs[pid] == st.pairs[pid].WithLeg(side, r.pairs[pid].Leg(side))
    ensures var o := r.pairs[pid].Leg(side);
      && o.qty == st.pairs[pid].targetQty - st.pairs[pid].Filled(side)
      && !o.closed && o.eQty == 0.0 && o.venueId == 0 && o.pair == pid && st.nextId <= o.clientId
      && Get(r.index, o.clientId) == Some(LegRef(pid, side))
    ensures r.placed == st.placed + [RetryPlacement(st, r.pairs[pid], side, open)]
  {
    var p := st.pairs[pid];
    var o := NewLeg(st.nextId, p.targetQty - p.Filled(side), pid);
    var r := st.(
      pairs := st.pairs[pid := p.WithLeg(side, o)],
      index := Add(st.index, o, side),
      placed := st.placed + [RetryPlacement(st, p.WithLeg(side, o), side, open)],
      nextId := st.nextId + 1);
    assert forall id | id in st.index :: id < st.nextId;
    assert IndexSound(r) by {
      forall id | id in r.index
        ensures r.index[id].pair in r.pairs
        ensures r.pairs[r.index[id].pair].Leg(r.index[id].side).clientId == id
        ensures !r.pairs[r.index[id].pair].Leg(r.index[id].side).closed
      {
        if id != o.clientId {
          assert id in st.index && r.index[id] == st.index[id];
          assert r.index[id] != LegRef(pid, side);
        }
      }
    }
    assert CollectionsSound(r) by {
      forall k, b: bool, q | 0 <= k < |r.grids| && q in r.grids[k].Pairs(b)
        ensures q in r.pairs && r.pairs[q].grid == k && r.pairs[q].open == b
      {
        assert q in st.pairs && st.pairs[q].grid == k && st.pairs[q].open == b;
      }
    }
    r
  }

  /** What the sweep promises for one leg: left as it was when its filled
      quantity already equals the target, otherwise replaced by a fresh,
      registered, open order for the remainder with no venue id yet. */
  ghost predicate LegOutcome(before: HedgePair, after: HedgePair, pid: PairId, side: Side,
                             index: map<ClientId, LegRef>, lo: nat)
  {
    if before.Filled(side) == before.targetQty then after.Leg(side) == before.Leg(side)
    else
      && after.Leg(side).qty == before.targetQty - before.Filled(side)
      && !after.Leg(side).closed && after.Leg(side).eQty == 0.0 && after.Leg(side).venueId == 0
      && after.Leg(side).pair == pid
      && lo <= after.Leg(side).clientId
      && Get(index, after.Leg(side).clientId) == Some(LegRef(pid, side))
  }

  /** What the sweep promises for one pair: nothing changes unless it is
      repairable; then one more retry is counted, fills and target stay, and
      each leg is kept or re-issued as `LegOutcome` says. */
  ghost predicate PairOutcome(before: HedgePair, after: HedgePair, pid: PairId,
                              index: map<ClientId, LegRef>, lo: nat)
  {
    if !Repairable(before) then after == before
    else
      && after.retryPlace == before.retryPlace + 1
      && after.grid == before.grid && after.open == before.open
      && after.targetQty == before.targetQty
      && after.spotQty == before.spotQty && after.futureQty == before.futureQty
      && LegOutcome(before, after, pid, SpotSide, index, lo)
      && LegOutcome(before, after, pid, FutureSide, index, lo)
  }

  /** An outcome stays valid when the index only gains entries and the
      freshness bound is lowered. */
  lemma OutcomeWeaken(before: HedgePair, after: HedgePair, pid: PairId,
                      index: map<ClientId, LegRef>, index': map<ClientId, LegRef>, lo: nat, lo': nat)
    requires PairOutcome(before, after, pid, index, lo)
    requires lo' <= lo
    requires forall id | id in index :: id in index' && index'[id] == index[id]
    ensures PairOutcome(before, after, pid, index', lo')
  {
    if Repairable(before) {
      forall side
        ensures LegOutcome(before, after, pid, side, index', lo')
      {
        assert LegOutcome(before, after, pid, side, index, lo);
      }
    }
  }

  /** Re-issues the leg on `side` when its filled quantity differs from the target. */
  function ReissueIfShort(st: State, pid: PairId, side: Side, open: bool): (r: State)
    requires Valid(st) && pid in st.pairs && st.pairs[pid].Leg(side).closed
    ensures Valid(r)
    ensures r.grids == st.grids && r.spotName == st.spotName && r.futureName == st.futureName
    ensures r.pairs.Keys == st.pairs.Keys && st.nextId <= r.nextId
    ensures forall q | q in st.pairs && q != pid :: r.pairs[q] == st.pairs[q]
    ensures forall id | id in st.index :: id in r.index && r.index[id] == st.index[id]
    ensures r.index.Keys == st.index.Keys
      + (if st.pairs[pid].Filled(side) != st.pairs[pid].targetQty then {r.pairs[pid].Leg(side).clientId} else {})
    ensures r.pairs[pid] == st.pairs[pid].WithLeg(side, r.pairs[pid].Leg(side))
    ensures LegOutcome(st.pairs[pid], r.pairs[pid], pid, side, r.index, st.nextId)
    ensures r.placed == st.placed
      + (if st.pairs[pid].Filled(side) != st.pairs[pid].targetQty then [RetryPlacement(st, r.pairs[pid], side, open)] else [])
  {
    if st.pairs[pid].Filled(side) != st.pairs[pid].targetQty then Reissue(st, pid, side, open) else st
  }

  /** The ids of the legs a retry of `before` re-issues, as they stand in
      `after`: one per side whose filled quantity differs from the target. */
  function ReissuedIds(before: HedgePair, after: HedgePair): set<ClientId> {
    (if before.spotQty != before.targetQty then {after.spot.clientId} else {})
    + (if before.futureQty != before.targetQty then {after.future.clientId} else {})
  }

  /** Counts one retry and re-issues the short legs of a pair whose legs are
      both closed (lines 170-195, 213-239). */
  function Retry(st: State, pid: PairId, open: bool): (r: State)
    requires Valid(st) && pid in st.pairs && st.pairs[pid].BothClosed()
    ensures Valid(r)
    ensures r.grids == st.grids && r.spotName == st.spotName && r.futureName == st.futureName
    ensures r.pairs.Keys == st.pairs.Keys && st.nextId <= r.nextId
    ensures forall q | q in st.pairs && q != pid :: r.pairs[q] == st.pairs[q]
    ensures forall id | id in st.index :: id in r.index && r.index[id] == st.index[id]
    ensures r.index.Keys == st.index.Keys + ReissuedIds(st.pairs[pid], r.pairs[pid])
    ensures var p := st.pairs[pid];
      && r.pairs[pid].retryPlace == p.retryPlace + 1
      && r.pairs[pid].grid == p.grid && r.pairs[pid].open == p.open
      && r.pairs[pid].targetQty == p.targetQty
      && r.pairs[pid].spotQty == p.spotQty && r.pairs[pid].futureQty == p.futureQty
      && LegOutcome(p, r.pairs[pid], pid, SpotSide, r.index, st.nextId)
      && LegOutcome(p, r.pairs[pid], pid, FutureSide, r.index, st.nextId)
    ensures var p := st.pairs[pid];
      r.placed == st.placed
        + (if p.spotQty != p.targetQty then [RetryPlacement(st, r.pairs[pid], SpotSide, open)] else [])
        + (if p.futureQty != p.targetQty then [RetryPlacement(st, r.pairs[pid], FutureSide, open)] else [])
  {
    RetryFrame(st, pid, open);
    RetryLegs(st, pid, open);
    RetryPlaced(st, CountRetry(st, pid), ReissueIfShort(CountRetry(st, pid), pid, SpotSide, open),
                RetryState(st, pid, open), pid, open);
    RetryIndex(st, CountRetry(st, pid), ReissueIfShort(CountRetry(st, pid), pid, SpotSide, open),
               RetryState(st, pid, open), pid);
    RetryState(st, pid, open)
  }

  /** The pair with one more retry counted. */
  function CountRetry(st: State, pid: PairId): (r: State)
    requires Valid(st) && pid in st.pairs
    ensures Valid(r)
  {
    RetryCounted(st, pid);
    st.(pairs := st.pairs[pid := st.pairs[pid].(retryPlace := st.pairs[pid].retryPlace + 1)])
  }

  /** The state after a retry, before anything is proved about it. */
  function RetryState(st: State, pid: PairId, open: bool): State
    requires Valid(st) && pid in st.pairs && st.pairs[pid].BothClosed()
  {
    var s2 := CountRetry(st, pid);
    var s3 := ReissueIfShort(s2, pid, SpotSide, open);
    ReissueIfShort(s3, pid, FutureSide, open)
  }

  lemma RetryFrame(st: State, pid: PairId, open: bool)
    requires Valid(st) && pid in st.pairs && st.pairs[pid].BothClosed()
    ensures var r := RetryState(st, pid, open);
      && Valid(r)
      && r.grids == st.grids && r.spotName == st.spotName && r.futureName == st.futureName
      && r.pairs.Keys == st.pairs.Keys && st.nextId <= r.nextId
      && (forall q | q in st.pairs && q != pid :: r.pairs[q] == st.pairs[q])
      && (forall id | id in st.index :: id in r.index && r.index[id] == st.index[id])
  {
  }

  lemma RetryLegs(st: State, pid: PairId, open: bool)
    requires Valid(st) && pid in st.pairs && st.pairs[pid].BothClosed()
    ensures var r := RetryState(st, pid, open);
      var p := st.pairs[pid];
      && r.pairs[pid].retryPlace == p.retryPlace + 1
      && r.pairs[pid].grid == p.grid && r.pairs[pid].open == p.open
      && r.pairs[pid].targetQty == p.targetQty
      && r.pairs[pid].spotQty == p.spotQty && r.pairs[pid].futureQty == p.futureQty
      && LegOutcome(p, r.pairs[pid], pid, SpotSide, r.index, st.nextId)
      && LegOutcome(p, r.pairs[pid], pid, FutureSide, r.index, st.nextId)
  {
    var p := st.pairs[pid];
    var s2 := CountRetry(st, pid);
    var s3 := ReissueIfShort(s2, pid, SpotSide, open);
    var r := ReissueIfShort(s3, pid, FutureSide, open);
    assert s3.pairs[pid].Leg(FutureSide) == p.future;
    assert r.pairs[pid].Leg(SpotSide) == s3.pairs[pid].Leg(SpotSide);
    assert LegOutcome(p, s3.pairs[pid], pid, SpotSide, s3.index, st.nextId);
    assert LegOutcome(p, r.pairs[pid], pid, SpotSide, r.index, st.nextId) by {
      if p.spotQty != p.targetQty {
        var id := r.pairs[pid].spot.clientId;
        assert Get(s3.index, id) == Some(LegRef(pid, SpotSide));
      }
    }
  }

  /** The index keys of one retry, leg by leg. */
  lemma RetryIndex(st: State, s2: State, s3: State, r: State, pid: PairId)
    requires pid in st.pairs && pid in s2.pairs && pid in s3.pairs && pid in r.pairs
    requires s2.index == st.index
    requires s2.pairs[pid].Filled(SpotSide) == st.pairs[pid].spotQty
    requires s2.pairs[pid].targetQty == st.pairs[pid].targetQty
    requires s3.pairs[pid].Filled(FutureSide) == st.pairs[pid].futureQty
    requires s3.pairs[pid].targetQty == st.pairs[pid].targetQty
    requires s3.index.Keys == s2.index.Keys
      + (if s2.pairs[pid].Filled(SpotSide) != s2.pairs[pid].targetQty then {s3.pairs[pid].Leg(SpotSide).clientId} else {})
    requires r.index.Keys == s3.index.Keys
      + (if s3.pairs[pid].Filled(FutureSide) != s3.pairs[pid].targetQty then {r.pairs[pid].Leg(FutureSide).clientId} else {})
    requires r.pairs[pid].Leg(SpotSide) == s3.pairs[pid].Leg(SpotSide)
    ensures r.index.Keys == st.index.Keys + ReissuedIds(st.pairs[pid], r.pairs[pid])
  {
  }

  /** The placements of one retry, leg by leg. */
  lemma RetryPlaced(st: State, s2: State, s3: State, r: State, pid: PairId, open: bool)
    requires pid in st.pairs && pid in s2.pairs && pid in s3.pairs && pid in r.pairs
    requires s2.placed == st.placed && s2.spotName == st.spotName && s3.spotName == st.spotName
    requires s2.futureName == st.futureName && s3.futureName == st.futureName
    requires s2.pairs[pid].Filled(SpotSide) == st.pairs[pid].spotQty
    requires s2.pairs[pid].targetQty == st.pairs[pid].targetQty
    requires s3.pairs[pid].Filled(FutureSide) == st.pairs[pid].futureQty
    requires s3.pairs[pid].targetQty == st.pairs[pid].targetQty
    requires s3.placed == s2.placed
      + (if s2.pairs[pid].Filled(SpotSide) != s2.pairs[pid].targetQty then [RetryPlacement(s2, s3.pairs[pid], SpotSide, open)] else [])
    requires r.placed == s3.placed
      + (if s3.pairs[pid].Filled(FutureSide) != s3.pairs[pid].targetQty then [RetryPlacement(s3, r.pairs[pid], FutureSide, open)] else [])
    requires r.pairs[pid].Leg(SpotSide) == s3.pairs[pid].Leg(SpotSide)
    ensures var p := st.pairs[pid];
      r.placed == st.placed
        + (if p.spotQty != p.targetQty then [RetryPlacement(st, r.pairs[pid], SpotSide, open)] else [])
        + (if p.futureQty != p.targetQty then [RetryPlacement(st, r.pairs[pid], FutureSide, open)] else [])
  {
    assert RetryPlacement(s2, s3.pairs[pid], SpotSide, open) == RetryPlacement(st, r.pairs[pid], SpotSide, open);
    assert RetryPlacement(s3, r.pairs[pid], FutureSide, open) == RetryPlacement(st, r.pairs[pid], FutureSide, open);
  }

  /** Removes a pair from a level's collection, keeping the state well formed. */
  function Drop(st: State, i: nat, pid: PairId, open: bool): (r: State)
    requires Valid(st) && i < |st.grids|
    ensures Valid(r)
    ensures r.spotName == st.spotName && r.futureName == st.futureName
    ensures r.pairs == st.pairs && r.index == st.index && r.nextId == st.nextId && r.placed == st.placed
    ensures |r.grids| == |st.grids| && forall k | 0 <= k < |st.grids| && k != i :: r.grids[k] == st.grids[k]
    ensures r.grids[i].Pairs(open) == st.grids[i].Pairs(open) - {pid}
    ensures r.grids[i].Pairs(!open) == st.grids[i].Pairs(!open)
    ensures SameLevel(st.grids[i], r.grids[i])
  {
    var r := st.(grids := st.grids[i := RemoveFrom(st.grids[i], open, pid)]);
    assert CollectionsSound(r) by {
      forall k, b: bool, q | 0 <= k < |r.grids| && q in r.grids[k].Pairs(b)
        ensures q in r.pairs && r.pairs[q].grid == k && r.pairs[q].open == b
      {
        assert q in st.grids[k].Pairs(b);
      }
    }
    r
  }

  /** One pair of level `i`'s collection of direction `open` (lines 154-196 for
      opening pairs, 198-240 for closing pairs). */
  function RepairPair(st: State, i: nat, pid: PairId, open: bool): (r: State)
    requires Valid(st) && i < |st.grids| && pid in st.pairs
    ensures Valid(r)
    ensures r.spotName == st.spotName && r.futureName == st.futureName
    ensures r.pairs.Keys == st.pairs.Keys && st.nextId <= r.nextId
    ensures forall q | q in st.pairs && q != pid :: r.pairs[q] == st.pairs[q]
    ensures forall id | id in st.index :: id in r.index && r.index[id] == st.index[id]
    ensures r.index.Keys == st.index.Keys
      + (if Repairable(st.pairs[pid]) then ReissuedIds(st.pairs[pid], r.pairs[pid]) else {})
    ensures PairOutcome(st.pairs[pid], r.pairs[pid], pid, r.index, st.nextId)
    ensures |r.grids| == |st.grids|
    ensures forall k | 0 <= k < |st.grids| && k != i :: r.grids[k] == st.grids[k]
    ensures r.grids[i] == if Deleted(st.pairs[pid], open) then RemoveFrom(st.grids[i], open, pid) else st.grids[i]
    ensures var p := st.pairs[pid];
      r.placed == st.placed
        + (if Repairable(p) && p.spotQty != p.targetQty then [RetryPlacement(st, r.pairs[pid], SpotSide, open)] else [])
        + (if Repairable(p) && p.futureQty != p.targetQty then [RetryPlacement(st, r.pairs[pid], FutureSide, open)] else [])
  {
    RepairFrame(st, i, pid, open);
    RepairEffect(st, i, pid, open);
    RepairIndex(st, i, pid, open);
    RepairState(st, i, pid, open)
  }

  /** The state after visiting one pair, before anything is proved about it. */
  function RepairState(st: State, i: nat, pid: PairId, open: bool): State
    requires Valid(st) && i < |st.grids| && pid in st.pairs
  {
    var p := st.pairs[pid];
    if !p.BothClosed() then st
    else if open && p.retryPlace > MaxRetry then st
    else
      // An opening pair has passed the ceiling test here; a closing pair tests it
      // only after the zero-fill delete. Neither continues after the delete.
      var s1 := if p.ZeroFill() then Drop(st, i, pid, open) else st;
      if !open && p.retryPlace > MaxRetry then s1
      else Retry(s1, pid, open)
  }

  lemma RepairFrame(st: State, i: nat, pid: PairId, open: bool)
    requires Valid(st) && i < |st.grids| && pid in st.pairs
    ensures var r := RepairState(st, i, pid, open);
      && Valid(r)
      && r.spotName == st.spotName && r.futureName == st.futureName
      && r.pairs.Keys == st.pairs.Keys && st.nextId <= r.nextId
      && (forall q | q in st.pairs && q != pid :: r.pairs[q] == st.pairs[q])
      && (forall id | id in st.index :: id in r.index && r.index[id] == st.index[id])
      && |r.grids| == |st.grids|
      && (forall k | 0 <= k < |st.grids| && k != i :: r.grids[k] == st.grids[k])
      && r.grids[i] == if Deleted(st.pairs[pid], open) then RemoveFrom(st.grids[i], open, pid) else st.grids[i]
  {
  }

  lemma RepairEffect(st: State, i: nat, pid: PairId, open: bool)
    requires Valid(st) && i < |st.grids| && pid in st.pairs
    ensures var r := RepairState(st, i, pid, open);
      var p := st.pairs[pid];
      && PairOutcome(p, r.pairs[pid], pid, r.index, st.nextId)
      && r.placed == st.placed
        + (if Repairable(p) && p.spotQty != p.targetQty then [RetryPlacement(st, r.pairs[pid], SpotSide, open)] else [])
        + (if Repairable(p) && p.futureQty != p.targetQty then [RetryPlacement(st, r.pairs[pid], FutureSide, open)] else [])
  {
    var p := st.pairs[pid];
    if p.BothClosed() && !(open && p.retryPlace > MaxRetry) && !(!open && p.retryPlace > MaxRetry) {
      var s1 := if p.ZeroFill() then Drop(st, i, pid, open) else st;
      RetryAfterDrop(st, s1, i, pid, open);
    }
  }

  lemma RepairIndex(st: State, i: nat, pid: PairId, open: bool)
    requires Valid(st) && i < |st.grids| && pid in st.pairs
    ensures var r := RepairState(st, i, pid, open);
      r.index.Keys == st.index.Keys
        + (if Repairable(st.pairs[pid]) then ReissuedIds(st.pairs[pid], r.pairs[pid]) else {})
  {
    var p := st.pairs[pid];
    if Repairable(p) {
      var s1 := if p.ZeroFill() then Drop(st, i, pid, open) else st;
      assert s1.index == st.index && s1.pairs == st.pairs;
    }
  }

  /** A retry on the state after the zero-fill delete, seen from before it. */
  lemma RetryAfterDrop(st: State, s1: State, i: nat, pid: PairId, open: bool)
    requires Valid(st) && Valid(s1) && i < |st.grids| && pid in st.pairs && Repairable(st.pairs[pid])
    requires s1 == st || s1 == st.(grids := st.grids[i := RemoveFrom(st.grids[i], open, pid)])
    ensures var r := Retry(s1, pid, open);
      var p := st.pairs[pid];
      && r.grids == s1.grids
      && PairOutcome(p, r.pairs[pid], pid, r.index, st.nextId)
      && r.placed == st.placed
        + (if p.spotQty != p.targetQty then [RetryPlacement(st, r.pairs[pid], SpotSide, open)] else [])
        + (if p.futureQty != p.targetQty then [RetryPlacement(st, r.pairs[pid], FutureSide, open)] else [])
  {
    var r := Retry(s1, pid, open);
    assert RetryPlacement(s1, r.pairs[pid], SpotSide, open) == RetryPlacement(st, r.pairs[pid], SpotSide, open);
    assert RetryPlacement(s1, r.pairs[pid], FutureSide, open) == RetryPlacement(st, r.pairs[pid], FutureSide, open);
  }

  /** Counting a retry on a pair keeps the state well formed. */
  lemma RetryCounted(st: State, pid: PairId)
    requires Valid(st) && pid in st.pairs
    ensures Valid(st.(pairs := st.pairs[pid := st.pairs[pid].(retryPlace := st.pairs[pid].retryPlace + 1)]))
  {
    var r := st.(pairs := st.pairs[pid := st.pairs[pid].(retryPlace := st.pairs[pid].retryPlace + 1)]);
    assert IndexSound(r) by {
      forall id | id in r.index
        ensures r.index[id].pair in r.pairs
        ensures r.pairs[r.index[id].pair].Leg(r.index[id].side).clientId == id
        ensures !r.pairs[r.index[id].pair].Leg(r.index[id].side).closed
      {
        assert st.pairs[r.index[id].pair].Leg(r.index[id].side).clientId == id;
      }
    }
    assert CollectionsSound(r) by {
      forall k, b: bool, q | 0 <= k < |r.grids| && q in r.grids[k].Pairs(b)
        ensures q in r.pairs && r.pairs[q].grid == k && r.pairs[q].open == b
      {
        assert q in st.pairs && st.pairs[q].grid == k && st.pairs[q].open == b;
      }
    }
  }

  /** The thresholds, chances and size of a level, everything but its collections. */
  predicate SameLevel(g: TradeGrid, g': TradeGrid) {
    && g.openAt == g'.openAt && g.closeAt == g'.closeAt && g.placeQty == g'.placeQty
    && g.openChance == g'.openChance && g.closeChance == g'.closeChance
  }

  /** A sequence without repetitions. */
  predicate Distinct(order: seq<PairId>) {
    forall a, b | 0 <= a < b < |order| :: order[a] != order[b]
  }

  /** The frame every visit of the sweep keeps: names, pair keys, levels'
      settings, existing index entries, ids registered only when freshly
      drawn, and a log and counter that only grow. */
  ghost predicate SweepFrame(st: State, r: State) {
    && r.spotName == st.spotName && r.futureName == st.futureName
    && r.pairs.Keys == st.pairs.Keys && st.nextId <= r.nextId && st.placed <= r.placed
    && (forall id | id in st.index :: id in r.index && r.index[id] == st.index[id])
    && RegistersFresh(st, r)
    && |r.grids| == |st.grids|
    && (forall k | 0 <= k < |st.grids| :: SameLevel(st.grids[k], r.grids[k]))
  }

  /** What one visit of pair `x` does, seen from the whole sweep. */
  ghost predicate VisitFacts(st: State, r: State, x: PairId) {
    && x in st.pairs
    && SweepFrame(st, r)
    && PairOutcome(st.pairs[x], r.pairs[x], x, r.index, st.nextId)
    && (forall q | q in st.pairs && q != x :: r.pairs[q] == st.pairs[q])
    && (forall k, o: bool | 0 <= k < |st.grids| ::
          r.grids[k].Pairs(o) == st.grids[k].Pairs(o) - Dropped(st, [x], o))
  }

  /** The pairs of `order` that the sweep deletes from the collections of direction `o`. */
  function Dropped(st: State, order: seq<PairId>, o: bool): (d: set<PairId>)
    ensures forall q :: q in d <==> q in order && q in st.pairs && Deleted(st.pairs[q], o)
  {
    set q | q in order && q in st.pairs && Deleted(st.pairs[q], o)
  }

  /** One step of the sweep: the pair `x` repaired in its own collection. */
  function Visit(st: State, x: PairId): (r: State)
    requires Valid(st) && Collected(st, x)
    ensures Valid(r) && VisitFacts(st, r, x)
  {
    var p := st.pairs[x];
    VisitFrame(st, x);
    VisitGrids(st, x);
    VisitPair(st, x);
    RepairPair(st, p.grid, x, p.open)
  }

  lemma VisitFrame(st: State, x: PairId)
    requires Valid(st) && Collected(st, x)
    ensures SweepFrame(st, RepairPair(st, st.pairs[x].grid, x, st.pairs[x].open))
  {
    var p := st.pairs[x];
    var r := RepairPair(st, p.grid, x, p.open);
    VisitFresh(st, r, p, r.pairs[x], x);
    LevelsKept(st.grids, r.grids, p.grid, x, p.open, Deleted(p, p.open));
    PlacedGrows(st.placed, r.placed,
      if Repairable(p) && p.spotQty != p.targetQty then [RetryPlacement(st, r.pairs[x], SpotSide, p.open)] else [],
      if Repairable(p) && p.futureQty != p.targetQty then [RetryPlacement(st, r.pairs[x], FutureSide, p.open)] else []);
    FrameIntro(st, r);
  }

  /** A log extended at its end keeps the old log as a prefix. */
  lemma PlacedGrows(log: seq<Placement>, log': seq<Placement>, a: seq<Placement>, b: seq<Placement>)
    requires log' == log + a + b
    ensures log <= log'
  {
    assert log' == log + (a + b);
  }

  /** The clauses of `SweepFrame`, one by one. */
  lemma FrameIntro(st: State, r: State)
    requires r.spotName == st.spotName && r.futureName == st.futureName
    requires r.pairs.Keys == st.pairs.Keys && st.nextId <= r.nextId && st.placed <= r.placed
    requires forall id | id in st.index :: id in r.index && r.index[id] == st.index[id]
    requires RegistersFresh(st, r)
    requires |r.grids| == |st.grids|
    requires forall k | 0 <= k < |st.grids| :: SameLevel(st.grids[k], r.grids[k])
    ensures SweepFrame(st, r)
  {
  }

  /** Removing a pair from one collection, or nothing, keeps every level's settings. */
  lemma LevelsKept(gs: seq<TradeGrid>, gs': seq<TradeGrid>, i: nat, pid: PairId, open: bool, drop: bool)
    requires i < |gs| && |gs'| == |gs|
    requires forall k | 0 <= k < |gs| && k != i :: gs'[k] == gs[k]
    requires gs'[i] == if drop then RemoveFrom(gs[i], open, pid) else gs[i]
    ensures forall k | 0 <= k < |gs| :: SameLevel(gs[k], gs'[k])
  {
  }

  /** The legs a repair re-issues carry ids drawn at or after `lo`. */
  lemma ReissuedFresh(before: HedgePair, after: HedgePair, pid: PairId, index: map<ClientId, LegRef>, lo: nat)
    requires PairOutcome(before, after, pid, index, lo)
    ensures Repairable(before) ==> forall id | id in ReissuedIds(before, after) :: lo <= id
  {
    if Repairable(before) {
      assert LegOutcome(before, after, pid, SpotSide, index, lo);
      assert LegOutcome(before, after, pid, FutureSide, index, lo);
    }
  }

  lemma VisitPair(st: State, x: PairId)
    requires Valid(st) && Collected(st, x)
    ensures var r := RepairPair(st, st.pairs[x].grid, x, st.pairs[x].open);
      && PairOutcome(st.pairs[x], r.pairs[x], x, r.index, st.nextId)
      && (forall q | q in st.pairs && q != x :: r.pairs[q] == st.pairs[q])
  {
  }

  /** A visit registers only ids drawn after `st`. */
  lemma VisitFresh(st: State, r: State, p: HedgePair, after: HedgePair, x: PairId)
    requires r.index.Keys == st.index.Keys + (if Repairable(p) then ReissuedIds(p, after) else {})
    requires PairOutcome(p, after, x, r.index, st.nextId)
    ensures RegistersFresh(st, r)
  {
    ReissuedFresh(p, after, x, r.index, st.nextId);
  }

  lemma VisitGrids(st: State, x: PairId)
    requires Valid(st) && Collected(st, x)
    ensures var r := RepairPair(st, st.pairs[x].grid, x, st.pairs[x].open);
      && |r.grids| == |st.grids|
      && forall k, o: bool | 0 <= k < |st.grids| ::
           r.grids[k].Pairs(o) == st.grids[k].Pairs(o) - Dropped(st, [x], o)
  {
    var p := st.pairs[x];
    var r := RepairPair(st, p.grid, x, p.open);
    forall k, o: bool | 0 <= k < |st.grids|
      ensures r.grids[k].Pairs(o) == st.grids[k].Pairs(o) - Dropped(st, [x], o)
    {
      var d := Dropped(st, [x], o);
      assert d <= {x};
      if x in st.grids[k].Pairs(o) {
        assert k == p.grid && o == p.open;
      } else {
        assert st.grids[k].Pairs(o) - d == st.grids[k].Pairs(o);
        if k == p.grid && Deleted(p, p.open) {
          assert r.grids[k] == RemoveFrom(st.grids[k], p.open, x);
        }
      }
    }
  }

  /** Visits the pairs of `order` one after the other, each in the collection
      its level and direction name. */
  function Sweep(st: State, order: seq<PairId>): (r: State)
    requires Valid(st) && Distinct(order)
    requires forall pid | pid in order :: Collected(st, pid)
    ensures Valid(r) && SweepFrame(st, r)
    ensures forall pid | pid in order :: pid in st.pairs && PairOutcome(st.pairs[pid], r.pairs[pid], pid, r.index, st.nextId)
    ensures forall pid | pid in st.pairs && pid !in order :: r.pairs[pid] == st.pairs[pid]
    ensures forall k, o: bool | 0 <= k < |st.grids| ::
              r.grids[k].Pairs(o) == st.grids[k].Pairs(o) - Dropped(st, order, o)
    decreases |order|
  {
    if |order| == 0 then st
    else
      var x := order[0];
      assert x in order;
      var s1 := Visit(st, x);
      SweepStepPre(st, s1, order);
      var r := Sweep(s1, order[1..]);
      SweepStep(st, s1, r, order);
      r
  }

  /** The first element of a distinct sequence is not among the rest, and every
      element is the first or among the rest. */
  lemma SplitFirst(order: seq<PairId>)
    requires Distinct(order) && |order| > 0
    ensures Distinct(order[1..]) && order[0] !in order[1..]
    ensures forall pid | pid in order :: pid == order[0] || pid in order[1..]
    ensures forall pid | pid in order[1..] :: pid in order
  {
    forall a | 0 <= a < |order[1..]| ensures order[1..][a] != order[0] {
      assert order[1..][a] == order[a + 1];
    }
    forall pid | pid in order ensures pid == order[0] || pid in order[1..] {
      var a :| 0 <= a < |order| && order[a] == pid;
      if a > 0 { assert order[1..][a - 1] == pid; }
    }
  }

  /** After visiting the first pair, the remaining ones are still collected. */
  lemma SweepStepPre(st: State, s1: State, order: seq<PairId>)
    requires Valid(st) && Distinct(order) && |order| > 0
    requires forall pid | pid in order :: Collected(st, pid)
    requires VisitFacts(st, s1, order[0])
    ensures Distinct(order[1..])
    ensures forall pid | pid in order[1..] :: Collected(s1, pid)
  {
    SplitFirst(order);
    forall q | q in order[1..]
      ensures Collected(s1, q)
    {
      assert q in order && q != order[0];
      assert Collected(st, q);
      assert s1.pairs[q] == st.pairs[q];
      assert q !in Dropped(st, [order[0]], st.pairs[q].open);
    }
  }

  /** The facts about a sweep composed from its first visit and the rest. */
  lemma SweepStep(st: State, s1: State, r: State, order: seq<PairId>)
    requires Valid(st) && Distinct(order) && |order| > 0
    requires forall pid | pid in order :: Collected(st, pid)
    requires VisitFacts(st, s1, order[0])
    requires SweepFrame(s1, r)
    requires forall pid | pid in order[1..] :: pid in s1.pairs && PairOutcome(s1.pairs[pid], r.pairs[pid], pid, r.index, s1.nextId)
    requires forall pid | pid in s1.pairs && pid !in order[1..] :: r.pairs[pid] == s1.pairs[pid]
    requires forall k, o: bool | 0 <= k < |s1.grids| ::
               r.grids[k].Pairs(o) == s1.grids[k].Pairs(o) - Dropped(s1, order[1..], o)
    ensures SweepFrame(st, r)
    ensures forall pid | pid in order :: pid in st.pairs && PairOutcome(st.pairs[pid], r.pairs[pid], pid, r.index, st.nextId)
    ensures forall pid | pid in st.pairs && pid !in order :: r.pairs[pid] == st.pairs[pid]
    ensures forall k, o: bool | 0 <= k < |st.grids| ::
              r.grids[k].Pairs(o) == st.grids[k].Pairs(o) - Dropped(st, order, o)
  {
    var x := order[0];
    SplitFirst(order);
    RegistersFreshTrans(st, s1, r);
    forall pid | pid in order
      ensures pid in st.pairs && PairOutcome(st.pairs[pid], r.pairs[pid], pid, r.index, st.nextId)
    {
      if pid == x {
        OutcomeWeaken(st.pairs[x], s1.pairs[x], x, s1.index, r.index, st.nextId, st.nextId);
      } else {
        assert pid in order[1..] && Collected(st, pid);
        OutcomeWeaken(st.pairs[pid], r.pairs[pid], pid, r.index, r.index, s1.nextId, st.nextId);
      }
    }
    forall o: bool
      ensures Dropped(st, order, o) == Dropped(st, [x], o) + Dropped(s1, order[1..], o)
    {
      forall q | q in order[1..] ensures q in s1.pairs && s1.pairs[q] == st.pairs[q] {
        assert q in order && q != x;
      }
    }
  }

  /** `order` visits every pair of every collection exactly once, level by level,
      a level's opening pairs before its closing pairs, as the nested loops of
      lines 153-241 do. */
  ghost predicate SweepOrder(st: State, order: seq<PairId>) {
    && Distinct(order)
    && (forall pid | pid in order :: Collected(st, pid))
    && (forall k, o: bool, pid | 0 <= k < |st.grids| && pid in st.grids[k].Pairs(o) :: pid in order)
    && (forall a, b | 0 <= a < b < |order| ::
          order[a] in st.pairs && order[b] in st.pairs && VisitedNoLater(st.pairs[order[a]], st.pairs[order[b]]))
  }

  /** Pair `p` may be visited before pair `q`. */
  predicate VisitedNoLater(p: HedgePair, q: HedgePair) {
    p.grid < q.grid || (p.grid == q.grid && (p.open || !q.open))
  }

  /** The repair sweep (lines 152-242). Every collected pair is repaired as
      `PairOutcome` says and stays in its collection unless `Deleted`; pairs
      outside the collections, the levels' thresholds and chances, and every
      existing index entry are left alone. */
  function CheckPairs(st: State, order: seq<PairId>): (r: State)
    requires Valid(st) && SweepOrder(st, order)
    ensures Valid(r) && SweepFrame(st, r)
    ensures forall k, o: bool, pid | 0 <= k < |st.grids| && pid in st.grids[k].Pairs(o) ::
              && PairOutcome(st.pairs[pid], r.pairs[pid], pid, r.index, st.nextId)
              && (pid in r.grids[k].Pairs(o) <==> !Deleted(st.pairs[pid], o))
    ensures forall k, o: bool, pid | 0 <= k < |st.grids| && pid in r.grids[k].Pairs(o) ::
              pid in st.grids[k].Pairs(o)
    ensures forall pid | pid in st.pairs && !Collected(st, pid) :: r.pairs[pid] == st.pairs[pid]
  {
    var r := Sweep(st, order);
    SweepCovers(st, order, r);
    r
  }

  /** Restates the sweep's facts for an order that covers exactly the collected pairs. */
  lemma SweepCovers(st: State, order: seq<PairId>, r: State)
    requires Valid(st) && SweepOrder(st, order)
    requires SweepFrame(st, r)
    requires forall pid | pid in order :: pid in st.pairs && PairOutcome(st.pairs[pid], r.pairs[pid], pid, r.index, st.nextId)
    requires forall pid | pid in st.pairs && pid !in order :: r.pairs[pid] == st.pairs[pid]
    requires forall k, o: bool | 0 <= k < |st.grids| ::
               r.grids[k].Pairs(o) == st.grids[k].Pairs(o) - Dropped(st, order, o)
    ensures forall k, o: bool, pid | 0 <= k < |st.grids| && pid in st.grids[k].Pairs(o) ::
              && PairOutcome(st.pairs[pid], r.pairs[pid], pid, r.index, st.nextId)
              && (pid in r.grids[k].Pairs(o) <==> !Deleted(st.pairs[pid], o))
    ensures forall k, o: bool, pid | 0 <= k < |st.grids| && pid in r.grids[k].Pairs(o) ::
              pid in st.grids[k].Pairs(o)
    ensures forall pid | pid in st.pairs && !Collected(st, pid) :: r.pairs[pid] == st.pairs[pid]
  {
    forall k, o: bool, pid | 0 <= k < |st.grids| && pid in st.grids[k].Pairs(o)
      ensures PairOutcome(st.pairs[pid], r.pairs[pid], pid, r.index, st.nextId)
      ensures pid in r.grids[k].Pairs(o) <==> !Deleted(st.pairs[pid], o)
    {
      assert pid in order;
      assert r.grids[k].Pairs(o) == st.grids[k].Pairs(o) - Dropped(st, order, o);
      assert pid in Dropped(st, order, o) <==> Deleted(st.pairs[pid], o);
    }
    forall k, o: bool, pid | 0 <= k < |st.grids| && pid in r.grids[k].Pairs(o)
      ensures pid in st.grids[k].Pairs(o)
    {
      assert r.grids[k].Pairs(o) == st.grids[k].Pairs(o) - Dropped(st, order, o);
    }
    forall pid | pid in st.pairs && !Collected(st, pid)
      ensures r.pairs[pid] == st.pairs[pid]
    {
      assert pid !in order;
    }
  }
}
