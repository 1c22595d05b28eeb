/**
  Grid trigger evaluation (`check` in check.go): the staleness gate, then a scan
  of the levels in their configured order that fires an open and/or a close at
  the first level that qualifies and stops there.

  The two market snapshots are fetched concurrently in the source; the model
  takes the resulting spreads and the elapsed time of the joined fetch as inputs.
 */
module Trigger {
  import opened Types
  import opened OrderIndex
  import opened HedgePairs

  /** A joined fetch that took longer than this many nanoseconds (3000 ms) is stale. */
  const StaleBoundNs: int := 3_000_000_000

  predicate OpenFires(g: TradeGrid, openSpread: real) {
    openSpread >= g.openAt && g.openChance > 0
  }

  predicate CloseFires(g: TradeGrid, closeSpread: real) {
    closeSpread <= g.closeAt && g.closeChance > 0
  }

  /** A level acts on this snapshot if either direction qualifies. */
  predicate Fires(g: TradeGrid, openSpread: real, closeSpread: real) {
    OpenFires(g, openSpread) || CloseFires(g, closeSpread)
  }

  /** The remaining chances of one direction. */
  function Chance(g: TradeGrid, open: bool): int {
    if open then g.openChance else g.closeChance
  }

  /** `pid` names a pair created between `st` and `r` for level `i`, direction
      `open`, sized `qty`, with both fresh legs registered in the index. */
  ghost predicate Created(st: State, r: State, pid: PairId, i: nat, open: bool, qty: real) {
    && pid !in st.pairs && pid in r.pairs
    && r.pairs[pid].grid == i && r.pairs[pid].open == open
    && r.pairs[pid].targetQty == qty && r.pairs[pid].retryPlace == 0
    && r.pairs[pid].spotQty == 0.0 && r.pairs[pid].futureQty == 0.0
    && forall side ::
         && r.pairs[pid].Leg(side).qty == qty
         && !r.pairs[pid].Leg(side).closed
         && r.pairs[pid].Leg(side).eQty == 0.0
         && r.pairs[pid].Leg(side).pair == pid
         && r.pairs[pid].Leg(side).clientId !in st.index
         && Get(r.index, r.pairs[pid].Leg(side).clientId) == Some(LegRef(pid, side))
  }

  /** The market names, and the pairs and index entries that existed before,
      are as they were, and every id registered since was drawn from the
      counter after `st`. */
  ghost predicate KeepsExisting(st: State, r: State) {
    && r.spotName == st.spotName && r.futureName == st.futureName
    && st.pairs.Keys <= r.pairs.Keys
    && (forall pid | pid in st.pairs :: r.pairs[pid] == st.pairs[pid])
    && (forall id | id in st.index :: Get(r.index, id) == Get(st.index, id))
    && RegistersFresh(st, r)
    && st.placed <= r.placed
    && st.nextId <= r.nextId
  }

  /** Every id that `r` registers beyond `st` is a leg of one of the pairs `ps`. */
  ghost predicate RegistersOnly(st: State, r: State, ps: set<PairId>) {
    forall id | id in Registered(st, r) :: id in r.index && r.index[id].pair in ps
  }

  lemma RegistersOnlyTrans(s0: State, s1: State, s2: State, ps: set<PairId>, qs: set<PairId>)
    requires RegistersOnly(s0, s1, ps) && RegistersOnly(s1, s2, qs)
    requires forall id | id in s1.index :: Get(s2.index, id) == Get(s1.index, id)
    ensures RegistersOnly(s0, s2, ps + qs)
  {
    forall id | id in Registered(s0, s2)
      ensures id in s2.index && s2.index[id].pair in ps + qs
    {
      if id in s1.index {
        assert id in Registered(s0, s1);
        assert Get(s2.index, id) == Get(s1.index, id);
      } else {
        assert id in Registered(s1, s2);
      }
    }
  }

  /** A key drawn from the counter is neither in the arena nor in any collection. */
  lemma FreshKeyUnused(st: State, pid: PairId)
    requires Valid(st) && st.nextId <= pid
    ensures pid !in st.pairs
    ensures forall k, open: bool | 0 <= k < |st.grids| :: pid !in st.grids[k].Pairs(open)
  {
    assert forall q | q in st.pairs :: q < st.nextId;
  }

  /** Level `i` with one chance of direction `open` consumed and `pid` added to
      that direction's collection. */
  function Consume(g: TradeGrid, open: bool, pid: PairId): TradeGrid {
    if open then g.(openChance := g.openChance - 1, openPairs := g.openPairs + {pid})
    else g.(closeChance := g.closeChance - 1, closePairs := g.closePairs + {pid})
  }

  /** The two orders a trigger hands to the venue. */
  function TriggerPlacements(st: State, p: HedgePair, open: bool, qty: real): seq<Placement> {
    [Placement(p.spot.clientId, st.spotName, Direction(SpotSide, open), qty),
     Placement(p.spot.clientId, st.futureName, Direction(FutureSide, open), qty)]
  }

  /** The state after a trigger, before anything is proved about it. */
  function FireState(st: State, i: nat, open: bool): State
    requires i < |st.grids|
  {
    var g := st.grids[i];
    var pid := st.nextId + 2;
    var p := NewHedgePair(i, open, g.placeQty, st.nextId, pid);
    st.(
      grids := st.grids[i := Consume(g, open, pid)],
      pairs := st.pairs[pid := p],
      index := Add(Add(st.index, p.future, FutureSide), p.spot, SpotSide),
      nextId := st.nextId + 3,
      placed := st.placed + TriggerPlacements(st, p, open, g.placeQty))
  }

  lemma FireStateValid(st: State, i: nat, open: bool)
    requires Valid(st) && i < |st.grids|
    ensures Valid(FireState(st, i, open))
  {
    var r := FireState(st, i, open);
    var pid := st.nextId + 2;
    var p := r.pairs[pid];
    FreshKeyUnused(st, pid);
    assert ArenaSound(r);
    assert IndexSound(r) by {
      forall id | id in r.index
        ensures r.index[id].pair in r.pairs
        ensures r.pairs[r.index[id].pair].Leg(r.index[id].side).clientId == id
        ensures !r.pairs[r.index[id].pair].Leg(r.index[id].side).closed
      {
        if id != p.spot.clientId && id != p.future.clientId {
          assert id in st.index && r.index[id] == st.index[id];
        }
      }
    }
    assert CollectionsSound(r) by {
      forall k, o: bool, q | 0 <= k < |r.grids| && q in r.grids[k].Pairs(o)
        ensures q in r.pairs && r.pairs[q].grid == k && r.pairs[q].open == o
      {
        if q != pid {
          assert q in st.grids[k].Pairs(o);
          assert q in st.pairs && st.pairs[q].grid == k && st.pairs[q].open == o;
        } else {
          assert r.grids[i].Pairs(!open) == st.grids[i].Pairs(!open);
        }
      }
    }
  }

  lemma FireStateKeeps(st: State, i: nat, open: bool)
    requires Valid(st) && i < |st.grids|
    ensures KeepsExisting(st, FireState(st, i, open))
  {
    FreshKeyUnused(st, st.nextId + 2);
    assert forall id | id in st.index :: id < st.nextId;
  }

  lemma FireStateCreates(st: State, i: nat, open: bool)
    requires Valid(st) && i < |st.grids|
    ensures Added(st, FireState(st, i, open), i, open) == {st.nextId + 2}
    ensures Created(st, FireState(st, i, open), st.nextId + 2, i, open, st.grids[i].placeQty)
    ensures var r := FireState(st, i, open);
      && r.pairs.Keys == st.pairs.Keys + Added(st, r, i, open)
      && forall pid | pid in Added(st, r, i, open) ::
           && Created(st, r, pid, i, open, st.grids[i].placeQty)
           && r.index.Keys == st.index.Keys + {r.pairs[pid].spot.clientId, r.pairs[pid].future.clientId}
           && r.placed == st.placed + TriggerPlacements(st, r.pairs[pid], open, st.grids[i].placeQty)
  {
    var pid := st.nextId + 2;
    FreshKeyUnused(st, pid);
    assert forall id | id in st.index :: id < st.nextId;
  }

  /** What firing direction `open` at level `i` does: everything that existed
      is kept; one chance of that direction is spent; the other levels, the
      thresholds, the size and the other direction are unchanged; exactly one
      new pair joins the arena and that direction's collection; exactly its two
      legs join the index; and its two orders are appended to the log. */
  ghost predicate FireEffect(st: State, r: State, i: nat, open: bool) {
    && FireLevels(st, r, i, open)
    && KeepsExisting(st, r)
    && |Added(st, r, i, open)| == 1
    && r.pairs.Keys == st.pairs.Keys + Added(st, r, i, open)
    && RegistersOnly(st, r, Added(st, r, i, open))
    && forall pid | pid in Added(st, r, i, open) ::
         && Created(st, r, pid, i, open, st.grids[i].placeQty)
         && r.index.Keys == st.index.Keys + {r.pairs[pid].spot.clientId, r.pairs[pid].future.clientId}
         && r.placed == st.placed + TriggerPlacements(st, r.pairs[pid], open, st.grids[i].placeQty)
  }

  /** The levels after firing direction `open` at level `i`: only that level
      changes, by one chance of that direction and by a grown collection. */
  predicate FireLevels(st: State, r: State, i: nat, open: bool) {
    && i < |st.grids| && |r.grids| == |st.grids|
    && (forall k | 0 <= k < |st.grids| && k != i :: r.grids[k] == st.grids[k])
    && r.grids[i].openAt == st.grids[i].openAt && r.grids[i].closeAt == st.grids[i].closeAt
    && r.grids[i].placeQty == st.grids[i].placeQty
    && Chance(r.grids[i], open) == Chance(st.grids[i], open) - 1
    && Chance(r.grids[i], !open) == Chance(st.grids[i], !open)
    && r.grids[i].Pairs(!open) == st.grids[i].Pairs(!open)
    && st.grids[i].Pairs(open) <= r.grids[i].Pairs(open)
  }

  lemma FireStateLevels(st: State, i: nat, open: bool)
    requires i < |st.grids|
    ensures FireLevels(st, FireState(st, i, open), i, open)
  {
  }

  lemma FireStateEffect(st: State, i: nat, open: bool)
    requires Valid(st) && i < |st.grids|
    ensures FireEffect(st, FireState(st, i, open), i, open)
  {
    FireStateLevels(st, i, open);
    FireStateKeeps(st, i, open);
    FireStateCreates(st, i, open);
    FireStateRegisters(st, i, open);
  }

  lemma FireStateRegisters(st: State, i: nat, open: bool)
    requires Valid(st) && i < |st.grids|
    ensures var r := FireState(st, i, open); RegistersOnly(st, r, Added(st, r, i, open))
  {
    var r := FireState(st, i, open);
    FireStateCreates(st, i, open);
    var pid := st.nextId + 2;
    forall id | id in Registered(st, r)
      ensures id in r.index && r.index[id].pair == pid
    {
      assert id == r.pairs[pid].spot.clientId || id == r.pairs[pid].future.clientId;
    }
  }

  /** Level `i` after firing in one direction (lines 48-57 for an open, 64-73 for
      a close), as `FireEffect` says. Both placements carry the SPOT leg's client
      id, as the source does, while the index registers each leg under its own id. */
  function Fire(st: State, i: nat, open: bool): (r: State)
    requires Valid(st) && i < |st.grids|
    ensures Valid(r) && FireEffect(st, r, i, open)
    ensures Chance(st.grids[i], open) > 0 ==> TickSafe(st, r)
  {
    FireStateValid(st, i, open);
    FireStateEffect(st, i, open);
    FireStateSafe(st, i, open);
    FireState(st, i, open)
  }

  /** The pair keys that `r` added to level `i`'s collection of direction `open`. */
  function Added(st: State, r: State, i: nat, open: bool): set<PairId>
    requires i < |st.grids| && i < |r.grids|
  {
    r.grids[i].Pairs(open) - st.grids[i].Pairs(open)
  }

  lemma KeepsExistingTrans(s0: State, s1: State, s2: State)
    requires KeepsExisting(s0, s1) && KeepsExisting(s1, s2)
    ensures KeepsExisting(s0, s2)
  {
    forall id | id in s0.index
      ensures id in s1.index && Get(s2.index, id) == Get(s0.index, id)
    {
      assert Get(s1.index, id) == Get(s0.index, id);
    }
    RegistersFreshTrans(s0, s1, s2);
  }

  /** A creation stays a creation when later steps keep what exists... */
  lemma CreatedPersists(s0: State, s1: State, s2: State, pid: PairId, i: nat, open: bool, qty: real)
    requires Created(s0, s1, pid, i, open, qty) && KeepsExisting(s1, s2)
    ensures Created(s0, s2, pid, i, open, qty)
  {
    forall side
      ensures Get(s2.index, s2.pairs[pid].Leg(side).clientId) == Some(LegRef(pid, side))
    {
      assert Get(s1.index, s1.pairs[pid].Leg(side).clientId) == Some(LegRef(pid, side));
    }
  }

  /** ... and also when earlier steps only added to what existed. */
  lemma CreatedEarlier(s0: State, s1: State, s2: State, pid: PairId, i: nat, open: bool, qty: real)
    requires KeepsExisting(s0, s1) && Created(s1, s2, pid, i, open, qty)
    ensures Created(s0, s2, pid, i, open, qty)
  {
    forall side
      ensures s2.pairs[pid].Leg(side).clientId !in s0.index
    {
      var id := s2.pairs[pid].Leg(side).clientId;
      assert id in s0.index ==> Get(s1.index, id) == Get(s0.index, id);
    }
  }

  /** The levels after level `i` acts on the snapshot: only that level
      changes, by one chance of each direction that qualifies and by grown
      collections. */
  predicate FireAtLevels(st: State, r: State, i: nat, openSpread: real, closeSpread: real) {
    && i < |st.grids| && |r.grids| == |st.grids|
    && (forall k | 0 <= k < |st.grids| && k != i :: r.grids[k] == st.grids[k])
    && r.grids[i].openAt == st.grids[i].openAt && r.grids[i].closeAt == st.grids[i].closeAt
    && r.grids[i].placeQty == st.grids[i].placeQty
    && r.grids[i].openChance == st.grids[i].openChance - (if OpenFires(st.grids[i], openSpread) then 1 else 0)
    && r.grids[i].closeChance == st.grids[i].closeChance - (if CloseFires(st.grids[i], closeSpread) then 1 else 0)
    && st.grids[i].openPairs <= r.grids[i].openPairs && st.grids[i].closePairs <= r.grids[i].closePairs
  }

  /** The pairs after level `i` acts on the snapshot: what existed is kept; each
      direction that qualifies adds exactly one created pair to its collection
      and nothing else joins the arena; every newly registered id is a leg of an
      added pair. */
  ghost predicate FireAtPairs(st: State, r: State, i: nat, openSpread: real, closeSpread: real) {
    && i < |st.grids| && i < |r.grids|
    && KeepsExisting(st, r)
    && |Added(st, r, i, true)| == (if OpenFires(st.grids[i], openSpread) then 1 else 0)
    && |Added(st, r, i, false)| == (if CloseFires(st.grids[i], closeSpread) then 1 else 0)
    && (forall pid | pid in Added(st, r, i, true) :: Created(st, r, pid, i, true, st.grids[i].placeQty))
    && (forall pid | pid in Added(st, r, i, false) :: Created(st, r, pid, i, false, st.grids[i].placeQty))
    && r.pairs.Keys == st.pairs.Keys + Added(st, r, i, true) + Added(st, r, i, false)
    && RegistersOnly(st, r, Added(st, r, i, true) + Added(st, r, i, false))
  }

  /** Level `i` acting on the snapshot: an open if the open side qualifies, then a
      close if the close side qualifies (lines 47-76). */
  function FireAt(st: State, i: nat, openSpread: real, closeSpread: real): (r: State)
    requires Valid(st) && i < |st.grids|
    ensures Valid(r)
    ensures FireAtLevels(st, r, i, openSpread, closeSpread)
    ensures FireAtPairs(st, r, i, openSpread, closeSpread)
    ensures !Fires(st.grids[i], openSpread, closeSpread) ==> r == st
  {
    FireAtFacts(st, i, openSpread, closeSpread);
    FireAtState(st, i, openSpread, closeSpread)
  }

  /** The state after level `i` acts, before anything is proved about it. */
  function FireAtState(st: State, i: nat, openSpread: real, closeSpread: real): State
    requires Valid(st) && i < |st.grids|
  {
    var g := st.grids[i];
    if OpenFires(g, openSpread) && CloseFires(g, closeSpread) then Fire(Fire(st, i, true), i, false)
    else if OpenFires(g, openSpread) then Fire(st, i, true)
    else if CloseFires(g, closeSpread) then Fire(st, i, false)
    else st
  }

  lemma FireAtFacts(st: State, i: nat, openSpread: real, closeSpread: real)
    requires Valid(st) && i < |st.grids|
    ensures var r := FireAtState(st, i, openSpread, closeSpread);
      && Valid(r)
      && FireAtLevels(st, r, i, openSpread, closeSpread)
      && FireAtPairs(st, r, i, openSpread, closeSpread)
  {
    var g := st.grids[i];
    if OpenFires(g, openSpread) && CloseFires(g, closeSpread) {
      FireAtBoth(st, i, openSpread, closeSpread);
    } else if OpenFires(g, openSpread) {
      FireSingleLevels(st, Fire(st, i, true), i, true, openSpread, closeSpread);
      FireOpenPairs(st, Fire(st, i, true), i, openSpread, closeSpread);
    } else if CloseFires(g, closeSpread) {
      FireSingleLevels(st, Fire(st, i, false), i, false, openSpread, closeSpread);
      FireClosePairs(st, Fire(st, i, false), i, openSpread, closeSpread);
    } else {
      assert Added(st, st, i, true) == {} && Added(st, st, i, false) == {};
    }
  }

  /** Both directions qualify: an open, then a close on the state it left. */
  lemma FireAtBoth(st: State, i: nat, openSpread: real, closeSpread: real)
    requires Valid(st) && i < |st.grids|
    requires OpenFires(st.grids[i], openSpread) && CloseFires(st.grids[i], closeSpread)
    ensures var r := Fire(Fire(st, i, true), i, false);
      && FireAtLevels(st, r, i, openSpread, closeSpread)
      && FireAtPairs(st, r, i, openSpread, closeSpread)
  {
    var s1 := Fire(st, i, true);
    var r := Fire(s1, i, false);
    KeepsExistingTrans(st, s1, r);
    FireBothLevels(st, s1, r, i, openSpread, closeSpread);
    FireBothCreates(st, s1, r, i);
    FireBothKeys(st, s1, r, i);
    RegistersOnlyTrans(st, s1, r, Added(st, s1, i, true), Added(s1, r, i, false));
  }

  /** Only direction `open` qualifies at level `i`: the levels ... */
  lemma FireSingleLevels(st: State, r: State, i: nat, open: bool, openSpread: real, closeSpread: real)
    requires FireLevels(st, r, i, open)
    requires Fired(st.grids[i], open, openSpread, closeSpread)
    requires !Fired(st.grids[i], !open, openSpread, closeSpread)
    ensures FireAtLevels(st, r, i, openSpread, closeSpread)
  {
  }

  /** ... and the pairs, when only the open side qualifies ... */
  lemma FireOpenPairs(st: State, r: State, i: nat, openSpread: real, closeSpread: real)
    requires FireEffect(st, r, i, true)
    requires OpenFires(st.grids[i], openSpread) && !CloseFires(st.grids[i], closeSpread)
    ensures FireAtPairs(st, r, i, openSpread, closeSpread)
  {
    OnlyOneAdded(st, r, i, true);
  }

  /** ... or when only the close side does. */
  lemma FireClosePairs(st: State, r: State, i: nat, openSpread: real, closeSpread: real)
    requires FireEffect(st, r, i, false)
    requires !OpenFires(st.grids[i], openSpread) && CloseFires(st.grids[i], closeSpread)
    ensures FireAtPairs(st, r, i, openSpread, closeSpread)
  {
    OnlyOneAdded(st, r, i, false);
  }

  /** When the collection of the other direction is unchanged, the pairs added
      in both directions are those added in direction `open`. */
  lemma OnlyOneAdded(st: State, r: State, i: nat, open: bool)
    requires i < |st.grids| && i < |r.grids|
    requires r.grids[i].Pairs(!open) == st.grids[i].Pairs(!open)
    ensures Added(st, r, i, !open) == {}
    ensures Added(st, r, i, true) + Added(st, r, i, false) == Added(st, r, i, open)
  {
  }

  /** An open and a close at the same level: the levels. */
  lemma FireBothLevels(st: State, s1: State, r: State, i: nat, openSpread: real, closeSpread: real)
    requires FireLevels(st, s1, i, true) && FireLevels(s1, r, i, false)
    requires OpenFires(st.grids[i], openSpread) && CloseFires(st.grids[i], closeSpread)
    ensures FireAtLevels(st, r, i, openSpread, closeSpread)
  {
  }

  /** ... the arena grows by exactly the two added pairs. */
  lemma FireBothKeys(st: State, s1: State, r: State, i: nat)
    requires i < |st.grids| && i < |s1.grids| && i < |r.grids|
    requires s1.pairs.Keys == st.pairs.Keys + Added(st, s1, i, true)
    requires r.pairs.Keys == s1.pairs.Keys + Added(s1, r, i, false)
    requires r.grids[i].openPairs == s1.grids[i].openPairs
    requires s1.grids[i].closePairs == st.grids[i].closePairs
    ensures Added(st, r, i, true) == Added(st, s1, i, true)
    ensures Added(st, r, i, false) == Added(s1, r, i, false)
    ensures r.pairs.Keys == st.pairs.Keys + Added(st, r, i, true) + Added(st, r, i, false)
  {
  }

  /** ... and the close pair is created after, and independently of, the open pair. */
  lemma FireBothCreates(st: State, s1: State, r: State, i: nat)
    requires FireEffect(st, s1, i, true) && FireEffect(s1, r, i, false)
    ensures |Added(st, r, i, true)| == 1 && |Added(st, r, i, false)| == 1
    ensures forall pid | pid in Added(st, r, i, true) :: Created(st, r, pid, i, true, st.grids[i].placeQty)
    ensures forall pid | pid in Added(st, r, i, false) :: Created(st, r, pid, i, false, st.grids[i].placeQty)
  {
    FireBothOpenPair(st, s1, r, i);
    FireBothClosePair(st, s1, r, i);
  }

  lemma FireBothOpenPair(st: State, s1: State, r: State, i: nat)
    requires i < |st.grids| && i < |s1.grids| && i < |r.grids|
    requires KeepsExisting(s1, r) && st.grids[i].placeQty == s1.grids[i].placeQty
    requires forall pid | pid in Added(st, s1, i, true) :: Created(st, s1, pid, i, true, s1.grids[i].placeQty)
    requires |Added(st, s1, i, true)| == 1
    requires r.grids[i].openPairs == s1.grids[i].openPairs
    ensures |Added(st, r, i, true)| == 1
    ensures forall pid | pid in Added(st, r, i, true) :: Created(st, r, pid, i, true, st.grids[i].placeQty)
  {
    assert Added(st, r, i, true) == Added(st, s1, i, true);
    forall pid | pid in Added(st, r, i, true)
      ensures Created(st, r, pid, i, true, st.grids[i].placeQty)
    {
      CreatedPersists(st, s1, r, pid, i, true, st.grids[i].placeQty);
    }
  }

  lemma FireBothClosePair(st: State, s1: State, r: State, i: nat)
    requires i < |st.grids| && i < |s1.grids| && i < |r.grids|
    requires KeepsExisting(st, s1) && st.grids[i].placeQty == s1.grids[i].placeQty
    requires forall pid | pid in Added(s1, r, i, false) :: Created(s1, r, pid, i, false, s1.grids[i].placeQty)
    requires |Added(s1, r, i, false)| == 1
    requires st.grids[i].closePairs == s1.grids[i].closePairs
    ensures |Added(st, r, i, false)| == 1
    ensures forall pid | pid in Added(st, r, i, false) :: Created(st, r, pid, i, false, st.grids[i].placeQty)
  {
    assert Added(st, r, i, false) == Added(s1, r, i, false);
    forall pid | pid in Added(st, r, i, false)
      ensures Created(st, r, pid, i, false, st.grids[i].placeQty)
    {
      CreatedEarlier(st, s1, r, pid, i, false, st.grids[i].placeQty);
    }
  }

  /** A level's chances never rise, and a direction that had no negative count
      gets none, since a chance is only spent while it is positive. */
  predicate ChanceStep(g: TradeGrid, g': TradeGrid) {
    && g'.openChance <= g.openChance && g'.closeChance <= g.closeChance
    && (g.openChance >= 0 ==> g'.openChance >= 0)
    && (g.closeChance >= 0 ==> g'.closeChance >= 0)
  }

  /** What a trigger evaluation may do at all: keep what existed, spend chances
      as `ChanceStep` allows, and add only pairs that have nothing filled and
      no retry. */
  ghost predicate TickSafe(st: State, r: State) {
    && KeepsExisting(st, r)
    && |r.grids| == |st.grids|
    && (forall k | 0 <= k < |st.grids| :: ChanceStep(st.grids[k], r.grids[k]))
    && (forall pid | pid in r.pairs && pid !in st.pairs ::
          r.pairs[pid].retryPlace == 0 && r.pairs[pid].spotQty == 0.0 && r.pairs[pid].futureQty == 0.0)
  }

  lemma FireStateSafe(st: State, i: nat, open: bool)
    requires Valid(st) && i < |st.grids|
    ensures Chance(st.grids[i], open) > 0 ==> TickSafe(st, FireState(st, i, open))
  {
    if Chance(st.grids[i], open) > 0 {
      var r := FireState(st, i, open);
      FireStateKeeps(st, i, open);
      FreshKeyUnused(st, st.nextId + 2);
      assert r.pairs.Keys == st.pairs.Keys + {st.nextId + 2};
      assert ChanceStep(st.grids[i], r.grids[i]);
    }
  }

  lemma TickSafeTrans(s0: State, s1: State, s2: State)
    requires TickSafe(s0, s1) && TickSafe(s1, s2)
    ensures TickSafe(s0, s2)
  {
    KeepsExistingTrans(s0, s1, s2);
    forall pid | pid in s2.pairs && pid !in s0.pairs
      ensures s2.pairs[pid].retryPlace == 0 && s2.pairs[pid].spotQty == 0.0 && s2.pairs[pid].futureQty == 0.0
    {
      if pid in s1.pairs {
        assert s2.pairs[pid] == s1.pairs[pid];
      }
    }
    forall k | 0 <= k < |s0.grids| ensures ChanceStep(s0.grids[k], s2.grids[k]) {
      assert ChanceStep(s0.grids[k], s1.grids[k]) && ChanceStep(s1.grids[k], s2.grids[k]);
    }
  }

  lemma FireAtSafe(st: State, i: nat, openSpread: real, closeSpread: real)
    requires Valid(st) && i < |st.grids|
    ensures TickSafe(st, FireAt(st, i, openSpread, closeSpread))
  {
    var g := st.grids[i];
    if OpenFires(g, openSpread) && CloseFires(g, closeSpread) {
      var s1 := Fire(st, i, true);
      assert Chance(s1.grids[i], false) == g.closeChance;
      TickSafeTrans(st, s1, Fire(s1, i, false));
    }
  }

  /** Whether direction `open` qualifies at a level. */
  predicate Fired(g: TradeGrid, open: bool, openSpread: real, closeSpread: real) {
    if open then OpenFires(g, openSpread) else CloseFires(g, closeSpread)
  }

  /** `k` is the first level from `i` on that acts on the snapshot. */
  ghost predicate FirstFiring(grids: seq<TradeGrid>, i: nat, k: nat, openSpread: real, closeSpread: real) {
    && i <= k < |grids|
    && Fires(grids[k], openSpread, closeSpread)
    && forall j | i <= j < k :: !Fires(grids[j], openSpread, closeSpread)
  }

  datatype CheckOutcome = CheckOutcome(fired: bool, st: State)

  /** The scan of lines 45-85 from level `i` on: the first level that acts
      changes and the scan stops; if no level acts nothing changes. */
  function Scan(st: State, i: nat, openSpread: real, closeSpread: real): (r: CheckOutcome)
    requires Valid(st) && i <= |st.grids|
    ensures Valid(r.st)
    ensures r.fired <==> exists k :: i <= k < |st.grids| && Fires(st.grids[k], openSpread, closeSpread)
    ensures !r.fired ==> r.st == st
    ensures forall k | FirstFiring(st.grids, i, k, openSpread, closeSpread) ::
              r.st == FireAt(st, k, openSpread, closeSpread)
    ensures TickSafe(st, r.st)
    decreases |st.grids| - i
  {
    if i == |st.grids| then CheckOutcome(false, st)
    else if Fires(st.grids[i], openSpread, closeSpread) then
      FireAtSafe(st, i, openSpread, closeSpread);
      FirstFiringHere(st.grids, i, openSpread, closeSpread);
      CheckOutcome(true, FireAt(st, i, openSpread, closeSpread))
    else
      FirstFiringLater(st.grids, i, openSpread, closeSpread);
      Scan(st, i + 1, openSpread, closeSpread)
  }

  /** A level that acts is the first acting level from itself on ... */
  lemma FirstFiringHere(grids: seq<TradeGrid>, i: nat, openSpread: real, closeSpread: real)
    requires i < |grids| && Fires(grids[i], openSpread, closeSpread)
    ensures forall k | FirstFiring(grids, i, k, openSpread, closeSpread) :: k == i
  {
  }

  /** ... and past a level that does not act, the first acting level is the
      same from the next level on. */
  lemma FirstFiringLater(grids: seq<TradeGrid>, i: nat, openSpread: real, closeSpread: real)
    requires i < |grids| && !Fires(grids[i], openSpread, closeSpread)
    ensures forall k | FirstFiring(grids, i, k, openSpread, closeSpread) :: FirstFiring(grids, i + 1, k, openSpread, closeSpread)
  {
  }

  /** One trigger evaluation (lines 11-88). `elapsedNs` is the duration of the
      joined snapshot fetch; spreads are computed by the caller. */
  function Check(st: State, elapsedNs: int, openSpread: real, closeSpread: real): (r: CheckOutcome)
    requires Valid(st)
    ensures Valid(r.st)
    ensures elapsedNs > StaleBoundNs ==> !r.fired && r.st == st
    ensures elapsedNs <= StaleBoundNs ==>
              (r.fired <==> exists k :: 0 <= k < |st.grids| && Fires(st.grids[k], openSpread, closeSpread))
    ensures !r.fired ==> r.st == st
    ensures elapsedNs <= StaleBoundNs ==>
              forall k | FirstFiring(st.grids, 0, k, openSpread, closeSpread) ::
                r.st == FireAt(st, k, openSpread, closeSpread)
    ensures TickSafe(st, r.st)
  {
    if elapsedNs > StaleBoundNs then CheckOutcome(false, st)
    else Scan(st, 0, openSpread, closeSpread)
  }
}
