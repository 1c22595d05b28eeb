/**
  The two notification handlers of check.go: an order update from the venue
  (`onOrderChange`) and a rejected placement (`onRejectOrder`). All events reach
  them through the main loop's single event channel, so each runs on its own,
  as one state-to-state function.
 */
module Notifications {
  import opened Types
  import opened OrderIndex

  /** The fields of a venue order update that `onOrderChange` reads. */
  datatype OrderUpdate = OrderUpdate(
    clientId: ClientId,
    venueId: int,
    filledSize: real,
    status: string,
    market: string)

  /** Fill the bot has not accounted for yet: FilledSize - EQty when positive, else nothing. */
  function NewFill(o: GridOrder, n: OrderUpdate): (d: real)
    ensures d >= 0.0
    ensures d > 0.0 <==> n.filledSize > o.eQty
    ensures o.eQty + d == (if n.filledSize > o.eQty then n.filledSize else o.eQty)
  {
    if n.filledSize - o.eQty > 0.0 then n.filledSize - o.eQty else 0.0
  }

  /** Adds a fill to the side selected by market name; the spot name is compared first and an
      unknown market credits nothing (lines 108-113). */
  function Credit(st: State, p: HedgePair, market: string, delta: real): HedgePair {
    if market == st.spotName then p.(spotQty := p.spotQty + delta)
    else if market == st.futureName then p.(futureQty := p.futureQty + delta)
    else p
  }

  /** The status string that ends an order. */
  const ClosedStatus: string := "closed"

  /** One order update (lines 90-128). An unknown client id is ignored. For a
      known one: the venue id is captured if still unset; a larger filled size
      is accounted on the leg and its difference credited to the pair's spot or
      future total by market name; a "closed" status marks the leg closed only
      when the market is the spot or future market, and unregisters the id in
      every case. */
  function OnOrderChange(st: State, n: OrderUpdate): (r: State)
    requires Valid(st)
    ensures Valid(r)
    ensures n.clientId !in st.index ==> r == st
    ensures r.grids == st.grids && r.nextId == st.nextId && r.placed == st.placed
    ensures r.spotName == st.spotName && r.futureName == st.futureName
    ensures r.pairs.Keys == st.pairs.Keys
    ensures forall pid | pid in st.pairs ::
              && r.pairs[pid].spotQty >= st.pairs[pid].spotQty
              && r.pairs[pid].futureQty >= st.pairs[pid].futureQty
              && r.pairs[pid].targetQty == st.pairs[pid].targetQty
              && r.pairs[pid].retryPlace == st.pairs[pid].retryPlace
    ensures n.clientId in st.index ==>
              var ref := st.index[n.clientId];
              var p := st.pairs[ref.pair];
              var p' := r.pairs[ref.pair];
              var o := p.Leg(ref.side);
              && (forall pid | pid in st.pairs && pid != ref.pair :: r.pairs[pid] == st.pairs[pid])
              && p'.spotQty == p.spotQty + (if n.market == st.spotName then NewFill(o, n) else 0.0)
              && p'.futureQty == p.futureQty
                   + (if n.market != st.spotName && n.market == st.futureName then NewFill(o, n) else 0.0)
              && p'.grid == p.grid && p'.open == p.open
              && p'.Leg(Other(ref.side)) == p.Leg(Other(ref.side))
              && p'.Leg(ref.side).clientId == o.clientId
              && p'.Leg(ref.side).qty == o.qty
              && p'.Leg(ref.side).eQty == (if n.filledSize > o.eQty then n.filledSize else o.eQty)
              && p'.Leg(ref.side).venueId == (if o.venueId == 0 then n.venueId else o.venueId)
              && (p'.Leg(ref.side).closed <==>
                    n.status == ClosedStatus && (n.market == st.spotName || n.market == st.futureName))
    ensures n.status == ClosedStatus ==> Get(r.index, n.clientId) == None
    ensures n.status != ClosedStatus ==> r.index == st.index
    ensures forall id | id != n.clientId :: Get(r.index, id) == Get(st.index, id)
  {
    if n.clientId !in st.index then st
    else
      ApplyUpdateValid(st, n);
      ApplyUpdateEffect(st, n);
      ApplyUpdate(st, n)
  }

  /** The leg after an update (lines 100-107 and 117-124): venue id captured when
      unset, a larger filled size recorded, closed by a "closed" status on a
      market the bot trades. */
  function UpdateLeg(o: GridOrder, n: OrderUpdate, knownMarket: bool): (o': GridOrder)
    ensures o'.clientId == o.clientId && o'.pair == o.pair && o'.qty == o.qty
    ensures o'.eQty == (if n.filledSize > o.eQty then n.filledSize else o.eQty)
    ensures o'.venueId == (if o.venueId == 0 then n.venueId else o.venueId)
    ensures o'.closed <==> o.closed || (n.status == ClosedStatus && knownMarket)
  {
    var o1 := if o.venueId == 0 then o.(venueId := n.venueId) else o;
    var o2 := if n.filledSize - o.eQty > 0.0 then o1.(eQty := n.filledSize) else o1;
    if n.status == ClosedStatus && knownMarket then o2.(closed := true) else o2
  }

  /** The state after an update for a registered id, before anything is proved about it. */
  function ApplyUpdate(st: State, n: OrderUpdate): State
    requires Valid(st) && n.clientId in st.index
  {
    var ref := st.index[n.clientId];
    var p := st.pairs[ref.pair];
    var o := p.Leg(ref.side);
    var delta := n.filledSize - o.eQty;
    var p1 := if delta > 0.0 then Credit(st, p, n.market, delta) else p;
    var o' := UpdateLeg(o, n, n.market == st.spotName || n.market == st.futureName);
    st.(
      pairs := st.pairs[ref.pair := p1.WithLeg(ref.side, o')],
      index := if n.status == ClosedStatus then Remove(st.index, n.clientId) else st.index)
  }

  lemma ApplyUpdateValid(st: State, n: OrderUpdate)
    requires Valid(st) && n.clientId in st.index
    ensures Valid(ApplyUpdate(st, n))
  {
    var r := ApplyUpdate(st, n);
    var ref := st.index[n.clientId];
    assert IndexSound(r) by {
      forall id | id in r.index
        ensures r.index[id].pair in r.pairs
        ensures r.pairs[r.index[id].pair].Leg(r.index[id].side).clientId == id
        ensures !r.pairs[r.index[id].pair].Leg(r.index[id].side).closed
      {
        assert id in st.index && r.index[id] == st.index[id];
        assert r.index[id] != ref || id == n.clientId;
      }
    }
    assert CollectionsSound(r) by {
      forall k, b: bool, q | 0 <= k < |r.grids| && q in r.grids[k].Pairs(b)
        ensures q in r.pairs && r.pairs[q].grid == k && r.pairs[q].open == b
      {
        assert q in st.pairs && st.pairs[q].grid == k && st.pairs[q].open == b;
      }
    }
  }

  lemma ApplyUpdateEffect(st: State, n: OrderUpdate)
    requires Valid(st) && n.clientId in st.index
    ensures var r := ApplyUpdate(st, n);
      var ref := st.index[n.clientId];
      var p := st.pairs[ref.pair];
      var p' := r.pairs[ref.pair];
      var o := p.Leg(ref.side);
      && r.pairs.Keys == st.pairs.Keys
      && (forall pid | pid in st.pairs && pid != ref.pair :: r.pairs[pid] == st.pairs[pid])
      && p'.spotQty == p.spotQty + (if n.market == st.spotName then NewFill(o, n) else 0.0)
      && p'.futureQty == p.futureQty
           + (if n.market != st.spotName && n.market == st.futureName then NewFill(o, n) else 0.0)
      && p'.grid == p.grid && p'.open == p.open
      && p'.targetQty == p.targetQty && p'.retryPlace == p.retryPlace
      && p'.Leg(Other(ref.side)) == p.Leg(Other(ref.side))
      && p'.Leg(ref.side).clientId == o.clientId
      && p'.Leg(ref.side).qty == o.qty
      && p'.Leg(ref.side).eQty == (if n.filledSize > o.eQty then n.filledSize else o.eQty)
      && p'.Leg(ref.side).venueId == (if o.venueId == 0 then n.venueId else o.venueId)
      && (p'.Leg(ref.side).closed <==>
            n.status == ClosedStatus && (n.market == st.spotName || n.market == st.futureName))
  {
  }

  /** The other leg of a pair. */
  function Other(side: Side): Side {
    match side
    case SpotSide => FutureSide
    case FutureSide => SpotSide
  }

  /** A rejected placement (lines 130-148). An unknown client id is ignored. For a
      known one, the leg of its pair whose client id matches is marked closed
      (the spot leg is matched first) and the id is unregistered; no fill is
      credited. */
  function OnRejectOrder(st: State, id: ClientId): (r: State)
    requires Valid(st)
    ensures Valid(r)
    ensures id !in st.index ==> r == st
    ensures r.grids == st.grids && r.nextId == st.nextId && r.placed == st.placed
    ensures r.spotName == st.spotName && r.futureName == st.futureName
    ensures r.pairs.Keys == st.pairs.Keys
    ensures id in st.index ==>
              var ref := st.index[id];
              var p := st.pairs[ref.pair];
              var p' := r.pairs[ref.pair];
              && (forall pid | pid in st.pairs && pid != ref.pair :: r.pairs[pid] == st.pairs[pid])
              && p'.spotQty == p.spotQty && p'.futureQty == p.futureQty
              && p'.targetQty == p.targetQty && p'.retryPlace == p.retryPlace
              && p'.grid == p.grid && p'.open == p.open
              && p'.Leg(ref.side) == p.Leg(ref.side).(closed := true)
              && p'.Leg(Other(ref.side)) == p.Leg(Other(ref.side))
    ensures Get(r.index, id) == None
    ensures forall other | other != id :: Get(r.index, other) == Get(st.index, other)
  {
    if id !in st.index then st
    else
      var ref := st.index[id];
      var p := st.pairs[ref.pair];
      var p' := if p.spot.clientId == id then p.(spot := p.spot.(closed := true))
                else if p.future.clientId == id then p.(future := p.future.(closed := true))
                else p;
      var r := st.(pairs := st.pairs[ref.pair := p'], index := Remove(st.index, id));
      assert IndexSound(r) by {
        forall other | other in r.index
          ensures r.index[other].pair in r.pairs
          ensures r.pairs[r.index[other].pair].Leg(r.index[other].side).clientId == other
          ensures !r.pairs[r.index[other].pair].Leg(r.index[other].side).closed
        {
          assert other in st.index && r.index[other] == st.index[other];
        }
      }
      assert CollectionsSound(r) by {
        forall k, b: bool, q | 0 <= k < |r.grids| && q in r.grids[k].Pairs(b)
          ensures q in r.pairs && r.pairs[q].grid == k && r.pairs[q].open == b
        {
          assert q in st.pairs && st.pairs[q].grid == k && st.pairs[q].open == b;
        }
      }
      r
  }

  /** Delivering the same update twice has the effect of delivering it once:
      the second delivery finds the fill already accounted for (or the id
      already unregistered). */
  lemma ReplayIsNoOp(st: State, n: OrderUpdate)
    requires Valid(st)
    ensures OnOrderChange(OnOrderChange(st, n), n) == OnOrderChange(st, n)
  {
    var s1 := OnOrderChange(st, n);
    if n.clientId in s1.index {
      var ref := st.index[n.clientId];
      assert s1.index[n.clientId] == ref;
      var p1 := s1.pairs[ref.pair];
      assert p1.Leg(ref.side).eQty >= n.filledSize;
      assert p1.Leg(ref.side).venueId != 0 || n.venueId == 0;
      assert p1.WithLeg(ref.side, p1.Leg(ref.side)) == p1;
    }
  }

  /** A second rejection of the same id finds it unregistered and changes nothing. */
  lemma RejectIsIdempotent(st: State, id: ClientId)
    requires Valid(st)
    ensures OnRejectOrder(OnRejectOrder(st, id), id) == OnRejectOrder(st, id)
  {
  }
}
