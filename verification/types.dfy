/**
  The records of the spread-grid bot's hedge-pair bookkeeping (config.go): grid
  levels, hedge pairs, the orders that make up their legs, the correlation index
  and the well-formedness invariant every operation of the model keeps.

  Pointers of the source become ids: a leg names its pair by the pair's key in an
  arena, and the correlation index maps a client id to the place of the leg
  (pair key and side) rather than to the order object itself.
 */
module Types {

  datatype Option<T> = None | Some(value: T)

  datatype Result<T, E> = Ok(value: T) | Err(error: E)

  /** Client (correlation) ids. The source draws random UUID strings; the model
      draws tokens from the counter `State.nextId`, so an id is fresh when it is
      not below the counter. */
  type ClientId = nat

  /** Key of a hedge pair, both in the arena and in its grid's pair collection. */
  type PairId = nat

  /** The two legs of a hedge pair. */
  datatype Side = SpotSide | FutureSide

  /** Direction of a placed order. */
  datatype OrderSide = Buy | Sell

  /** One leg attempt (GridOrder). `venueId` is 0 until the venue reports its own id;
      `eQty` is the last filled size the bot has accounted for; `pair` is the
      back-reference to the owning pair. Timestamps are not modelled. */
  datatype GridOrder = GridOrder(
    clientId: ClientId,
    venueId: int,
    qty: real,
    eQty: real,
    pair: PairId,
    closed: bool)

  /** A spot leg and a future leg traded together (HedgePair). `grid` is the
      position of the owning level, `open` tells an opening pair from a closing
      one, `spotQty`/`futureQty` are the quantities filled so far on each side. */
  datatype HedgePair = HedgePair(
    grid: nat,
    open: bool,
    retryPlace: int,
    targetQty: real,
    spotQty: real,
    futureQty: real,
    spot: GridOrder,
    future: GridOrder)
  {
    function Leg(side: Side): GridOrder {
      match side
      case SpotSide => spot
      case FutureSide => future
    }

    /** Filled quantity of one side. */
    function Filled(side: Side): real {
      match side
      case SpotSide => spotQty
      case FutureSide => futureQty
    }

    function WithLeg(side: Side, o: GridOrder): HedgePair {
      match side
      case SpotSide => this.(spot := o)
      case FutureSide => this.(future := o)
    }

    predicate BothClosed() {
      spot.closed && future.closed
    }

    predicate ZeroFill() {
      spotQty == 0.0 && futureQty == 0.0
    }
  }

  /** A grid level (TradeGrid): thresholds, remaining chances per direction, the
      quantity each trigger places, and the keys of the pairs it opened and closed.
      The level's UUID and its OpenTotal/CloseTotal fields are not used by the
      bookkeeping and are not modelled. */
  datatype TradeGrid = TradeGrid(
    openAt: real,
    closeAt: real,
    openChance: int,
    closeChance: int,
    placeQty: real,
    openPairs: set<PairId>,
    closePairs: set<PairId>)
  {
    /** The pair collection of one direction. */
    function Pairs(open: bool): set<PairId> {
      if open then openPairs else closePairs
    }
  }

  /** Where an indexed leg lives: its pair and its side. */
  datatype LegRef = LegRef(pair: PairId, side: Side)

  /** One order handed to the venue (arguments of `place`; price 0, market type,
      no reduce-only and no post-only are the same on every call and omitted). */
  datatype Placement = Placement(clientId: ClientId, market: string, side: OrderSide, size: real)

  /** The bot's whole bookkeeping state. */
  datatype State = State(
    spotName: string,
    futureName: string,
    grids: seq<TradeGrid>,
    pairs: map<PairId, HedgePair>,
    index: map<ClientId, LegRef>,
    nextId: nat,
    placed: seq<Placement>)

  /** Name of the market a side trades on. */
  function Market(st: State, side: Side): string {
    match side
    case SpotSide => st.spotName
    case FutureSide => st.futureName
  }

  /** A pair's legs point back at it, carry different ids, and every id it uses was
      drawn before `next`. */
  predicate PairSound(p: HedgePair, pid: PairId, next: nat) {
    && pid < next
    && p.spot.pair == pid && p.future.pair == pid
    && p.spot.clientId != p.future.clientId
    && p.spot.clientId < next && p.future.clientId < next
  }

  ghost predicate ArenaSound(st: State) {
    forall pid | pid in st.pairs :: PairSound(st.pairs[pid], pid, st.nextId)
  }

  /** Every indexed id names an existing pair whose leg on that side carries the
      id and is still open: the index holds exactly live legs. */
  ghost predicate IndexSound(st: State) {
    forall id | id in st.index ::
      && st.index[id].pair in st.pairs
      && st.pairs[st.index[id].pair].Leg(st.index[id].side).clientId == id
      && !st.pairs[st.index[id].pair].Leg(st.index[id].side).closed
  }

  /** A pair key in a level's collection names a pair of that level and of that
      direction, so each pair sits in at most one collection. */
  ghost predicate CollectionsSound(st: State) {
    forall i, open: bool, pid | 0 <= i < |st.grids| && pid in st.grids[i].Pairs(open) ::
      pid in st.pairs && st.pairs[pid].grid == i && st.pairs[pid].open == open
  }

  /** The pair is stored in the collection its own level and direction name. */
  ghost predicate Collected(st: State, pid: PairId) {
    && pid in st.pairs
    && st.pairs[pid].grid < |st.grids|
    && pid in st.grids[st.pairs[pid].grid].Pairs(st.pairs[pid].open)
  }

  /** The ids the index of `r` holds that the index of `st` does not. */
  function Registered(st: State, r: State): set<ClientId> {
    r.index.Keys - st.index.Keys
  }

  /** Every id registered since `st` was drawn from the counter after `st`:
      no id in use by then, live or orphaned, is registered again. */
  ghost predicate RegistersFresh(st: State, r: State) {
    forall id | id in Registered(st, r) :: st.nextId <= id
  }

  lemma RegistersFreshTrans(s0: State, s1: State, s2: State)
    requires RegistersFresh(s0, s1) && RegistersFresh(s1, s2) && s0.nextId <= s1.nextId
    requires s0.index.Keys <= s1.index.Keys
    ensures RegistersFresh(s0, s2)
  {
    forall id | id in Registered(s0, s2)
      ensures s0.nextId <= id
    {
      if id in s1.index {
        assert id in Registered(s0, s1);
      } else {
        assert id in Registered(s1, s2);
      }
    }
  }

  ghost predicate Valid(st: State) {
    ArenaSound(st) && IndexSound(st) && CollectionsSound(st)
  }
}
