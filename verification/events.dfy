/**
  The single-consumer event loop of main.go (lines 137-154): each turn either
  runs a trigger evaluation when the timer fires or handles one venue event,
  then runs the repair sweep. Because every turn goes through this one loop,
  the handlers never interleave and a whole run is a fold of turns. Timers and
  the periodic order polling are not part of the model.
 */
module Events {
  import opened Types
  import opened Trigger
  import opened Notifications
  import opened Repair

  /** What wakes the loop: the timer (with the fetch duration and the two
      spreads of its snapshot), an order update, or a rejected placement. */
  datatype Event =
    | Tick(elapsedNs: int, openSpread: real, closeSpread: real)
    | Update(n: OrderUpdate)
    | Reject(id: ClientId)

  /** One turn's event, and the order in which the turn's sweep meets the pairs. */
  datatype Turn = Turn(event: Event, sweepOrder: seq<PairId>)

  /** Dispatch of one event to its handler (lines 139-150). */
  function Handle(st: State, e: Event): (r: State)
    requires Valid(st)
    ensures Valid(r)
    ensures Monotone(st, r) && (RetryBounded(st) ==> RetryBounded(r))
  {
    match e
    case Tick(elapsedNs, o, c) =>
      var r := Check(st, elapsedNs, o, c).st;
      TickMonotone(st, r);
      r
    case Update(n) => OnOrderChange(st, n)
    case Reject(id) => OnRejectOrder(st, id)
  }

  /** What no turn undoes: the levels stay, chances never rise (nor drop below
      zero once at or above it), pairs stay in the arena with their target and
      fills never decreasing and retries never decreasing, ids are never
      reissued and the placement log only grows. */
  ghost predicate Monotone(st: State, r: State) {
    && |r.grids| == |st.grids|
    && (forall k | 0 <= k < |st.grids| :: ChanceStep(st.grids[k], r.grids[k]))
    && st.pairs.Keys <= r.pairs.Keys
    && (forall pid | pid in st.pairs ::
          && r.pairs[pid].spotQty >= st.pairs[pid].spotQty
          && r.pairs[pid].futureQty >= st.pairs[pid].futureQty
          && r.pairs[pid].targetQty == st.pairs[pid].targetQty
          && r.pairs[pid].retryPlace >= st.pairs[pid].retryPlace)
    && st.nextId <= r.nextId
    && st.placed <= r.placed
  }

  /** No pair has been retried more than once past the ceiling of 5. */
  ghost predicate RetryBounded(st: State) {
    forall pid | pid in st.pairs :: 0 <= st.pairs[pid].retryPlace <= MaxRetry + 1
  }

  lemma TickMonotone(st: State, r: State)
    requires TickSafe(st, r)
    ensures Monotone(st, r) && (RetryBounded(st) ==> RetryBounded(r))
  {
  }

  lemma MonotoneTrans(s0: State, s1: State, s2: State)
    requires Monotone(s0, s1) && Monotone(s1, s2)
    ensures Monotone(s0, s2)
  {
    forall k | 0 <= k < |s0.grids| ensures ChanceStep(s0.grids[k], s2.grids[k]) {
      assert ChanceStep(s0.grids[k], s1.grids[k]) && ChanceStep(s1.grids[k], s2.grids[k]);
    }
  }

  /** The sweep after an event keeps the monotone facts and the retry bound:
      a pair is retried only while its count is at most 5; the levels'
      thresholds, chances and sizes are untouched. */
  lemma SweepMonotone(st: State, order: seq<PairId>)
    requires Valid(st) && SweepOrder(st, order)
    ensures Monotone(st, CheckPairs(st, order))
    ensures RetryBounded(st) ==> RetryBounded(CheckPairs(st, order))
    ensures forall k | 0 <= k < |st.grids| :: SameLevel(st.grids[k], CheckPairs(st, order).grids[k])
    ensures var r := CheckPairs(st, order);
      forall pid | pid in st.pairs && r.pairs[pid].retryPlace != st.pairs[pid].retryPlace ::
        st.pairs[pid].retryPlace <= MaxRetry
  {
    var r := CheckPairs(st, order);
    forall k | 0 <= k < |st.grids| ensures ChanceStep(st.grids[k], r.grids[k]) {
      assert SameLevel(st.grids[k], r.grids[k]);
    }
    forall pid | pid in st.pairs
      ensures r.pairs[pid].spotQty >= st.pairs[pid].spotQty
      ensures r.pairs[pid].futureQty >= st.pairs[pid].futureQty
      ensures r.pairs[pid].targetQty == st.pairs[pid].targetQty
      ensures st.pairs[pid].retryPlace <= r.pairs[pid].retryPlace
      ensures RetryBounded(st) ==> 0 <= r.pairs[pid].retryPlace <= MaxRetry + 1
      ensures r.pairs[pid].retryPlace != st.pairs[pid].retryPlace ==> st.pairs[pid].retryPlace <= MaxRetry
    {
      var p := st.pairs[pid];
      if Collected(st, pid) {
        assert PairOutcome(p, r.pairs[pid], pid, r.index, st.nextId);
      }
    }
  }

  /** One turn of the loop: the event's handler, then the repair sweep (line 153). */
  function Step(st: State, t: Turn): (r: State)
    requires Valid(st) && SweepOrder(Handle(st, t.event), t.sweepOrder)
    ensures Valid(r)
    ensures Monotone(st, r) && (RetryBounded(st) ==> RetryBounded(r))
  {
    var s1 := Handle(st, t.event);
    SweepMonotone(s1, t.sweepOrder);
    MonotoneTrans(st, s1, CheckPairs(s1, t.sweepOrder));
    CheckPairs(s1, t.sweepOrder)
  }

  /** Every turn's sweep order lists the collected pairs of the state it sweeps. */
  ghost predicate Admissible(st: State, turns: seq<Turn>)
    requires Valid(st)
    decreases |turns|
  {
    |turns| == 0 ||
    (SweepOrder(Handle(st, turns[0].event), turns[0].sweepOrder) && Admissible(Step(st, turns[0]), turns[1..]))
  }

  /** A run of the loop. Whatever the events, the state stays well-formed,
      chances never rise or turn negative, fills never decrease, and no pair is
      ever retried past the ceiling. */
  function Run(st: State, turns: seq<Turn>): (r: State)
    requires Valid(st) && Admissible(st, turns)
    ensures Valid(r)
    ensures Monotone(st, r)
    ensures RetryBounded(st) ==> RetryBounded(r)
    decreases |turns|
  {
    if |turns| == 0 then st
    else
      var s1 := Step(st, turns[0]);
      var r := Run(s1, turns[1..]);
      MonotoneTrans(st, s1, r);
      r
  }
}
