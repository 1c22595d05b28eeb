/**
  Start-up configuration (config.go): the grid table read from CSV, the two
  polling intervals read from the JSON configuration, and the rebuilding of the
  correlation index from a saved state.
 */
module Config {
  import opened Types
  import opened OrderIndex

  // ---------------------------------------------------------------- grid table

  /** What the grid table sets: the two market names and the levels. */
  datatype GridTable = GridTable(spotName: string, futureName: string, grids: seq<TradeGrid>)

  /** Why reading the table stops the program: a missing cell (an index out of
      range) or a cell that does not parse as the number it should be. Rows and
      fields count from 0, as in the CSV record list. */
  datatype TableError = MissingCell(row: nat, field: nat) | BadNumber(row: nat, field: nat)

  /** Cell parsers: `ParseReal` stands for strconv.ParseFloat(s, 64), `ParseInt`
      for strconv.ParseInt(s, 10, 64); `None` is a parse error. */
  type ParseReal = string -> Option<real>
  type ParseInt = string -> Option<int>

  /** The numeric cell `f` of record `row` as a real. */
  function RealCell(records: seq<seq<string>>, row: nat, f: nat, pr: ParseReal): (v: Result<real, TableError>)
    requires row < |records|
    ensures v.Ok? <==> f < |records[row]| && pr(records[row][f]).Some?
    ensures v.Ok? ==> v.value == pr(records[row][f]).value
    ensures v.Err? && f >= |records[row]| ==> v.error == MissingCell(row, f)
    ensures v.Err? && f < |records[row]| ==> v.error == BadNumber(row, f)
  {
    if f >= |records[row]| then Err(MissingCell(row, f))
    else match pr(records[row][f])
      case None => Err(BadNumber(row, f))
      case Some(x) => Ok(x)
  }

  /** The numeric cell `f` of record `row` as an integer. */
  function IntCell(records: seq<seq<string>>, row: nat, f: nat, pi: ParseInt): (v: Result<int, TableError>)
    requires row < |records|
    ensures v.Ok? <==> f < |records[row]| && pi(records[row][f]).Some?
    ensures v.Ok? ==> v.value == pi(records[row][f]).value
    ensures v.Err? && f >= |records[row]| ==> v.error == MissingCell(row, f)
    ensures v.Err? && f < |records[row]| ==> v.error == BadNumber(row, f)
  {
    if f >= |records[row]| then Err(MissingCell(row, f))
    else match pi(records[row][f])
      case None => Err(BadNumber(row, f))
      case Some(n) => Ok(n)
  }

  /** Fields 0 and 1 (and 4) of a level row are reals, fields 2 and 3 integers. */
  predicate CellParses(records: seq<seq<string>>, row: nat, f: nat, pr: ParseReal, pi: ParseInt)
    requires row < |records|
  {
    f < |records[row]| && (if f == 2 || f == 3 then pi(records[row][f]).Some? else pr(records[row][f]).Some?)
  }

  /** One level row (config.go:201-208): open threshold, close threshold, open
      chances, close chances, quantity, read in that order so that the first
      faulty cell decides the error. Its collections start empty. */
  function GridRow(records: seq<seq<string>>, row: nat, pr: ParseReal, pi: ParseInt): (r: Result<TradeGrid, TableError>)
    requires row < |records|
    ensures r.Ok? <==> forall f | 0 <= f < 5 :: CellParses(records, row, f, pr, pi)
    ensures r.Ok? ==>
              && 5 <= |records[row]|
              && pr(records[row][0]) == Some(r.value.openAt)
              && pr(records[row][1]) == Some(r.value.closeAt)
              && pi(records[row][2]) == Some(r.value.openChance)
              && pi(records[row][3]) == Some(r.value.closeChance)
              && pr(records[row][4]) == Some(r.value.placeQty)
              && r.value.openPairs == {} && r.value.closePairs == {}
    ensures r.Err? ==> exists f | 0 <= f < 5 ::
              && !CellParses(records, row, f, pr, pi)
              && (forall e | 0 <= e < f :: CellParses(records, row, e, pr, pi))
              && r.error == (if f < |records[row]| then BadNumber(row, f) else MissingCell(row, f))
  {
    var openAt := RealCell(records, row, 0, pr);
    var closeAt := RealCell(records, row, 1, pr);
    var openChance := IntCell(records, row, 2, pi);
    var closeChance := IntCell(records, row, 3, pi);
    var placeQty := RealCell(records, row, 4, pr);
    assert CellParses(records, row, 0, pr, pi) <==> openAt.Ok?;
    assert CellParses(records, row, 1, pr, pi) <==> closeAt.Ok?;
    assert CellParses(records, row, 2, pr, pi) <==> openChance.Ok?;
    assert CellParses(records, row, 3, pr, pi) <==> closeChance.Ok?;
    assert CellParses(records, row, 4, pr, pi) <==> placeQty.Ok?;
    if openAt.Err? then Err(openAt.error)
    else if closeAt.Err? then Err(closeAt.error)
    else if openChance.Err? then Err(openChance.error)
    else if closeChance.Err? then Err(closeChance.error)
    else if placeQty.Err? then Err(placeQty.error)
    else Ok(TradeGrid(openAt.value, closeAt.value, openChance.value, closeChance.value, placeQty.value, {}, {}))
  }

  /** The level rows `row`, `row + 1`, ... in file order. */
  function GridRows(records: seq<seq<string>>, row: nat, pr: ParseReal, pi: ParseInt): (r: Result<seq<TradeGrid>, TableError>)
    requires row <= |records|
    ensures r.Ok? <==> forall k | row <= k < |records| :: GridRow(records, k, pr, pi).Ok?
    ensures r.Ok? ==> |r.value| == |records| - row
    ensures r.Ok? ==> forall k | row <= k < |records| :: r.value[k - row] == GridRow(records, k, pr, pi).value
    ensures r.Err? ==> exists k | row <= k < |records| ::
              && GridRow(records, k, pr, pi).Err?
              && (forall j | row <= j < k :: GridRow(records, j, pr, pi).Ok?)
              && r.error == GridRow(records, k, pr, pi).error
    decreases |records| - row
  {
    if row == |records| then Ok([])
    else
      var first := GridRow(records, row, pr, pi);
      if first.Err? then
        Err(first.error)
      else
        var rest := GridRows(records, row + 1, pr, pi);
        if rest.Err? then
          FirstFaultyLater(records, row, pr, pi, rest.error);
          Err(rest.error)
        else
          RowsPrepend(records, row, pr, pi, first.value, rest.value);
          Ok([first.value] + rest.value)
  }

  /** A faulty row after a good one is also the first faulty row counted from the good one. */
  lemma FirstFaultyLater(records: seq<seq<string>>, row: nat, pr: ParseReal, pi: ParseInt, e: TableError)
    requires row < |records| && GridRow(records, row, pr, pi).Ok?
    requires exists k | row + 1 <= k < |records| ::
               && GridRow(records, k, pr, pi).Err?
               && (forall j | row + 1 <= j < k :: GridRow(records, j, pr, pi).Ok?)
               && e == GridRow(records, k, pr, pi).error
    ensures exists k | row <= k < |records| ::
              && GridRow(records, k, pr, pi).Err?
              && (forall j | row <= j < k :: GridRow(records, j, pr, pi).Ok?)
              && e == GridRow(records, k, pr, pi).error
  {
    var k :| row + 1 <= k < |records| && GridRow(records, k, pr, pi).Err?
             && (forall j | row + 1 <= j < k :: GridRow(records, j, pr, pi).Ok?)
             && e == GridRow(records, k, pr, pi).error;
    assert forall j | row <= j < k :: GridRow(records, j, pr, pi).Ok?;
  }

  /** The good row `row` in front of the levels of the rows after it. */
  lemma RowsPrepend(records: seq<seq<string>>, row: nat, pr: ParseReal, pi: ParseInt, g: TradeGrid, rest: seq<TradeGrid>)
    requires row < |records| && GridRow(records, row, pr, pi) == Ok(g)
    requires forall k | row <= k < |records| :: GridRow(records, k, pr, pi).Ok?
    requires |rest| == |records| - (row + 1)
    requires forall k | row + 1 <= k < |records| :: rest[k - (row + 1)] == GridRow(records, k, pr, pi).value
    ensures forall k | row <= k < |records| :: ([g] + rest)[k - row] == GridRow(records, k, pr, pi).value
  {
    var gs := [g] + rest;
    forall k | row <= k < |records| ensures gs[k - row] == GridRow(records, k, pr, pi).value {
      if k > row {
        assert gs[k - row] == rest[k - (row + 1)];
      }
    }
  }

  /** The CSV grid table (config.go:185-213): record 0 holds the spot and
      future market names, record 1 is a header, every later record one level.
      A missing name cell or a faulty level row stops the program. */
  function LoadGrids(records: seq<seq<string>>, pr: ParseReal, pi: ParseInt): (r: Result<GridTable, TableError>)
    ensures |records| == 0 ==> r == Err(MissingCell(0, 0))
    ensures |records| > 0 && |records[0]| < 2 ==> r == Err(MissingCell(0, |records[0]|))
    ensures r.Ok? <==> |records| > 0 && |records[0]| >= 2
                       && forall k | 2 <= k < |records| :: GridRow(records, k, pr, pi).Ok?
    ensures r.Ok? ==>
              && r.value.spotName == records[0][0] && r.value.futureName == records[0][1]
              && |r.value.grids| == (if |records| < 2 then 0 else |records| - 2)
              && forall k | 2 <= k < |records| :: r.value.grids[k - 2] == GridRow(records, k, pr, pi).value
    ensures r.Ok? ==> Unpaired(r.value)
  {
    if |records| == 0 then Err(MissingCell(0, 0))
    else if |records[0]| < 2 then Err(MissingCell(0, |records[0]|))
    else if |records| < 2 then Ok(GridTable(records[0][0], records[0][1], []))
    else
      match GridRows(records, 2, pr, pi)
      case Err(e) => Err(e)
      case Ok(gs) =>
        assert forall k | 0 <= k < |gs| :: gs[k] == GridRow(records, k + 2, pr, pi).value;
        Ok(GridTable(records[0][0], records[0][1], gs))
  }

  /** The table written out the other way round: names, a header, one record
      per level. Go's CSV reader rejects records of differing widths, so the
      name record is padded with empty cells to the five cells of a level. */
  function GridTableRecords(t: GridTable, header: seq<string>, showReal: real -> string, showInt: int -> string): (records: seq<seq<string>>)
    requires |header| == 5
    ensures |records| == |t.grids| + 2
    ensures forall k | 0 <= k < |records| :: |records[k]| == 5
  {
    [[t.spotName, t.futureName, "", "", ""], header]
      + seq(|t.grids|, k requires 0 <= k < |t.grids| =>
              [showReal(t.grids[k].openAt), showReal(t.grids[k].closeAt),
               showInt(t.grids[k].openChance), showInt(t.grids[k].closeChance),
               showReal(t.grids[k].placeQty)])
  }

  /** Levels as a table holds them: no pairs yet. */
  predicate Unpaired(t: GridTable) {
    forall k | 0 <= k < |t.grids| :: t.grids[k].openPairs == {} && t.grids[k].closePairs == {}
  }

  /** The state a freshly read table starts the bot in: the table's names and
      levels, no pairs, an empty index and nothing placed. */
  function Initial(t: GridTable): (st: State)
    requires Unpaired(t)
    ensures Valid(st)
    ensures st.spotName == t.spotName && st.futureName == t.futureName && st.grids == t.grids
    ensures forall id :: Get(st.index, id) == None
  {
    State(t.spotName, t.futureName, t.grids, map[], NewOrderMap(), 0, [])
  }

  /** The printed cells of every level of `t` parse back to the values printed. */
  predicate ReadsBack(t: GridTable, showReal: real -> string, showInt: int -> string, pr: ParseReal, pi: ParseInt) {
    forall k | 0 <= k < |t.grids| ::
      && pr(showReal(t.grids[k].openAt)) == Some(t.grids[k].openAt)
      && pr(showReal(t.grids[k].closeAt)) == Some(t.grids[k].closeAt)
      && pi(showInt(t.grids[k].openChance)) == Some(t.grids[k].openChance)
      && pi(showInt(t.grids[k].closeChance)) == Some(t.grids[k].closeChance)
      && pr(showReal(t.grids[k].placeQty)) == Some(t.grids[k].placeQty)
  }

  /** Reading back a written table gives the same table, provided the parsers
      invert the number printers on the table's own cells. */
  lemma LoadGridsRoundTrip(t: GridTable, header: seq<string>,
                           showReal: real -> string, showInt: int -> string,
                           pr: ParseReal, pi: ParseInt)
    requires Unpaired(t) && |header| == 5
    requires ReadsBack(t, showReal, showInt, pr, pi)
    ensures LoadGrids(GridTableRecords(t, header, showReal, showInt), pr, pi) == Ok(t)
  {
    var records := GridTableRecords(t, header, showReal, showInt);
    forall k | 2 <= k < |records|
      ensures GridRow(records, k, pr, pi) == Ok(t.grids[k - 2])
    {
      RowRoundTrip(t, header, showReal, showInt, pr, pi, k);
    }
    var r := LoadGrids(records, pr, pi);
    assert r.Ok?;
    forall i | 0 <= i < |t.grids| ensures r.value.grids[i] == t.grids[i] {
      assert r.value.grids[(i + 2) - 2] == GridRow(records, i + 2, pr, pi).value;
    }
    assert r.value.grids == t.grids;
  }

  /** One written level record reads back as that level. */
  lemma RowRoundTrip(t: GridTable, header: seq<string>,
                     showReal: real -> string, showInt: int -> string,
                     pr: ParseReal, pi: ParseInt, k: nat)
    requires Unpaired(t) && |header| == 5 && 2 <= k < |t.grids| + 2
    requires ReadsBack(t, showReal, showInt, pr, pi)
    ensures GridRow(GridTableRecords(t, header, showReal, showInt), k, pr, pi) == Ok(t.grids[k - 2])
  {
    var records := GridTableRecords(t, header, showReal, showInt);
    var g := t.grids[k - 2];
    assert records[k] == [showReal(g.openAt), showReal(g.closeAt), showInt(g.openChance),
                          showInt(g.closeChance), showReal(g.placeQty)];
    assert pr(records[k][0]) == Some(g.openAt);
    assert pr(records[k][1]) == Some(g.closeAt);
    assert pi(records[k][2]) == Some(g.openChance);
    assert pi(records[k][3]) == Some(g.closeChance);
    assert pr(records[k][4]) == Some(g.placeQty);
    forall f | 0 <= f < 5 ensures CellParses(records, k, f, pr, pi) { }
  }

  // ----------------------------------------------------------- intervals

  /** Go's `int` and `time.Duration` on the 64-bit targets the program is built for. */
  type Int64 = x: int | -0x8000_0000_0000_0000 <= x < 0x8000_0000_0000_0000

  const NsPerMs: int := 1_000_000

  /** Two's-complement wrap-around of a 64-bit signed result. */
  function Wrap64(x: int): (w: Int64)
    ensures (w - x) % 0x1_0000_0000_0000_0000 == 0
    ensures -0x8000_0000_0000_0000 <= x < 0x8000_0000_0000_0000 ==> w == x
  {
    var m := x % 0x1_0000_0000_0000_0000;
    if m < 0x8000_0000_0000_0000 then m else m - 0x1_0000_0000_0000_0000
  }

  /** A configured interval in milliseconds as a Duration in nanoseconds
      (config.go:268-276): `ms * Millisecond`, wrapped to 64 bits, and replaced
      by `fallbackNs` when that product is zero. */
  function Interval(ms: Int64, fallbackNs: Int64): (d: Int64)
    ensures (ms * NsPerMs) % 0x1_0000_0000_0000_0000 == 0 ==> d == fallbackNs
    ensures (ms * NsPerMs) % 0x1_0000_0000_0000_0000 != 0 ==>
              d != 0 && (d - ms * NsPerMs) % 0x1_0000_0000_0000_0000 == 0
    ensures fallbackNs != 0 ==> d != 0
  {
    var ns := Wrap64(ms * NsPerMs);
    if ns == 0 then fallbackNs else ns
  }

  /** Settings whose nanosecond count fits in 64 bits. */
  predicate NoWrap(ms: int) {
    -9_223_372_036_854 <= ms <= 9_223_372_036_854
  }

  /** The regular price-check interval (lines 268-271); 0 ms means three seconds. */
  function CheckIntervalNs(ms: Int64): (d: Int64)
    ensures d != 0
    ensures ms == 0 ==> d == 3_000_000_000
    ensures NoWrap(ms) && ms != 0 ==> d == ms * NsPerMs
  {
    IntervalExact(ms, 3_000_000_000);
    Interval(ms, 3_000_000_000)
  }

  /** The quick re-check interval (lines 273-276); 0 ms means one second. */
  function QuickRecheckIntervalNs(ms: Int64): (d: Int64)
    ensures d != 0
    ensures ms == 0 ==> d == 1_000_000_000
    ensures NoWrap(ms) && ms != 0 ==> d == ms * NsPerMs
  {
    IntervalExact(ms, 1_000_000_000);
    Interval(ms, 1_000_000_000)
  }

  /** Within the range where no wrap-around happens, a non-zero setting is taken
      at its word and a zero setting gets the fallback. */
  lemma IntervalExact(ms: Int64, fallbackNs: Int64)
    ensures NoWrap(ms) && ms != 0 ==> Interval(ms, fallbackNs) == ms * NsPerMs
    ensures ms == 0 ==> Interval(ms, fallbackNs) == fallbackNs
  {
    if NoWrap(ms) {
      assert -0x8000_0000_0000_0000 <= ms * NsPerMs < 0x8000_0000_0000_0000;
      assert ms != 0 ==> ms * NsPerMs != 0;
    }
  }

  /** Every multiple of 2^58 milliseconds wraps to a zero Duration and so also
      gets the fallback, although it is not zero. */
  lemma IntervalWrapsToFallback(t: int, fallbackNs: Int64)
    requires -32 <= t < 32
    ensures var ms := t * 0x400_0000_0000_0000;
      -0x8000_0000_0000_0000 <= ms < 0x8000_0000_0000_0000 && Interval(ms, fallbackNs) == fallbackNs
  {
    var ms := t * 0x400_0000_0000_0000;
    assert ms * NsPerMs == (t * 15625) * 0x1_0000_0000_0000_0000;
    assert Wrap64(ms * NsPerMs) == 0;
  }

  // ----------------------------------------------------- re-registration

  /** Leg `side` of pair `pid` is live and carries client id `id`. */
  predicate LiveLeg(st: State, pid: PairId, side: Side, id: ClientId) {
    pid in st.pairs && !st.pairs[pid].Leg(side).closed && st.pairs[pid].Leg(side).clientId == id
  }

  /** Some live leg of the first `j` pairs of `order` carries `id`. */
  ghost predicate LiveAmong(st: State, order: seq<PairId>, j: nat, id: ClientId)
    requires j <= |order|
  {
    exists k, side | 0 <= k < j :: LiveLeg(st, order[k], side, id)
  }

  lemma LiveAmongStep(st: State, order: seq<PairId>, j: nat, id: ClientId)
    requires j < |order|
    ensures LiveAmong(st, order, j + 1, id) <==>
              LiveAmong(st, order, j, id) || LiveLeg(st, order[j], SpotSide, id) || LiveLeg(st, order[j], FutureSide, id)
  {
    if LiveAmong(st, order, j + 1, id) {
      var k, side :| 0 <= k < j + 1 && LiveLeg(st, order[k], side, id);
      if k < j {
        assert LiveAmong(st, order, j, id);
      }
    }
    if LiveLeg(st, order[j], SpotSide, id) {
      assert LiveAmong(st, order, j + 1, id) by { assert LiveLeg(st, order[j], SpotSide, id); }
    }
    if LiveLeg(st, order[j], FutureSide, id) {
      assert LiveAmong(st, order, j + 1, id) by { assert LiveLeg(st, order[j], FutureSide, id); }
    }
    if LiveAmong(st, order, j, id) {
      var k, side :| 0 <= k < j && LiveLeg(st, order[k], side, id);
      assert 0 <= k < j + 1;
    }
  }

  /** The index after the first `j` pairs of `order` were re-registered: exactly
      the ids of `idx0` and of the live legs met so far, the latter pointing at
      such a leg, every other entry of `idx0` left alone. */
  ghost predicate RegisteredUpTo(st: State, order: seq<PairId>, j: nat, idx0: Index, idx: Index)
    requires j <= |order|
  {
    && (forall id :: id in idx <==> id in idx0 || LiveAmong(st, order, j, id))
    && (forall id | id in idx && LiveAmong(st, order, j, id) ::
          idx[id].pair in order[..j] && LiveLeg(st, idx[id].pair, idx[id].side, id))
    && (forall id | id in idx0 && !LiveAmong(st, order, j, id) :: idx[id] == idx0[id])
  }

  /** The live legs of pair `p` added to `idx`, spot first. */
  function AddLive(idx: Index, p: HedgePair): Index {
    var withSpot := if !p.spot.closed then Add(idx, p.spot, SpotSide) else idx;
    if !p.future.closed then Add(withSpot, p.future, FutureSide) else withSpot
  }

  /** Re-registering one more pair extends the invariant by that pair. */
  lemma RegisteredStep(st: State, order: seq<PairId>, j: nat, idx0: Index, before: Index, idx: Index)
    requires j < |order| && order[j] in st.pairs
    requires st.pairs[order[j]].spot.pair == order[j] && st.pairs[order[j]].future.pair == order[j]
    requires RegisteredUpTo(st, order, j, idx0, before)
    requires idx == AddLive(before, st.pairs[order[j]])
    ensures RegisteredUpTo(st, order, j + 1, idx0, idx)
  {
    forall id
      ensures id in idx <==> id in idx0 || LiveAmong(st, order, j + 1, id)
      ensures id in idx && LiveAmong(st, order, j + 1, id) ==>
                idx[id].pair in order[..j + 1] && LiveLeg(st, idx[id].pair, idx[id].side, id)
      ensures id in idx0 && !LiveAmong(st, order, j + 1, id) ==> idx[id] == idx0[id]
    {
      RegisteredStepAt(st, order, j, idx0, before, idx, id);
    }
  }

  /** ... one id at a time. */
  lemma RegisteredStepAt(st: State, order: seq<PairId>, j: nat, idx0: Index, before: Index, idx: Index, id: ClientId)
    requires j < |order| && order[j] in st.pairs
    requires st.pairs[order[j]].spot.pair == order[j] && st.pairs[order[j]].future.pair == order[j]
    requires RegisteredUpTo(st, order, j, idx0, before)
    requires idx == AddLive(before, st.pairs[order[j]])
    ensures id in idx <==> id in idx0 || LiveAmong(st, order, j + 1, id)
    ensures id in idx && LiveAmong(st, order, j + 1, id) ==>
              idx[id].pair in order[..j + 1] && LiveLeg(st, idx[id].pair, idx[id].side, id)
    ensures id in idx0 && !LiveAmong(st, order, j + 1, id) ==> idx[id] == idx0[id]
  {
    assert order[..j + 1] == order[..j] + [order[j]];
    LiveAmongStep(st, order, j, id);
    if id in before && id in idx && idx[id] == before[id] && LiveAmong(st, order, j, id) {
      assert before[id].pair in order[..j];
    }
  }

  /** The re-registration loop of loadFromSaveFile (config.go:229-247): for each
      pair of `order`, its spot leg then its future leg are added to the index
      unless closed. Ids of live legs end up registered, pointing at a live leg
      with that id; every other entry of `idx0` is left alone. The index refers
      to a leg by its pair key and side; the source's legs lose their pair
      pointer when saved, which the model does not reproduce. */
  method Reregister(st: State, order: seq<PairId>, idx0: Index) returns (idx: Index)
    requires forall k | 0 <= k < |order| :: order[k] in st.pairs
    requires ArenaSound(st)
    ensures forall id :: id in idx <==> id in idx0 || LiveAmong(st, order, |order|, id)
    ensures forall id | id in idx && LiveAmong(st, order, |order|, id) ::
              idx[id].pair in order && LiveLeg(st, idx[id].pair, idx[id].side, id)
    ensures forall id | id in idx0 && !LiveAmong(st, order, |order|, id) :: idx[id] == idx0[id]
  {
    idx := idx0;
    var j := 0;
    while j < |order|
      invariant 0 <= j <= |order|
      invariant RegisteredUpTo(st, order, j, idx0, idx)
    {
      var pid := order[j];
      var p := st.pairs[pid];
      assert p.spot.pair == pid && p.future.pair == pid;
      var before := idx;
      if !p.spot.closed {
        idx := Add(idx, p.spot, SpotSide);
      }
      if !p.future.closed {
        idx := Add(idx, p.future, FutureSide);
      }
      RegisteredStep(st, order, j, idx0, before, idx);
      j := j + 1;
    }
    assert order[..j] == order;
  }

  /** A saved state after loadFromSaveFile (config.go:215-250): its index,
      empty at start-up, is rebuilt by visiting `order`, which lists the pairs
      of the levels' collections. Every live leg of every collected pair is then
      reachable by its id, nothing else is registered, and the state is
      well-formed again. */
  method LoadFromSave(saved: State, order: seq<PairId>) returns (r: State)
    requires ArenaSound(saved) && CollectionsSound(saved)
    requires forall pid | pid in order :: Collected(saved, pid)
    requires forall k, o: bool, pid | 0 <= k < |saved.grids| && pid in saved.grids[k].Pairs(o) :: pid in order
    ensures Valid(r)
    ensures r == saved.(index := r.index)
    ensures forall k, o: bool, pid, side |
              0 <= k < |saved.grids| && pid in saved.grids[k].Pairs(o) && !saved.pairs[pid].Leg(side).closed ::
              saved.pairs[pid].Leg(side).clientId in r.index
    ensures forall id | id in r.index :: r.index[id].pair in order && Collected(r, r.index[id].pair)
  {
    assert forall k | 0 <= k < |order| :: order[k] in order;
    var idx := Reregister(saved, order, NewOrderMap());
    r := saved.(index := idx);
    forall k, o: bool, pid, side |
      0 <= k < |saved.grids| && pid in saved.grids[k].Pairs(o) && !saved.pairs[pid].Leg(side).closed
      ensures saved.pairs[pid].Leg(side).clientId in r.index
    {
      assert pid in order;
      var j :| 0 <= j < |order| && order[j] == pid;
      assert LiveLeg(saved, order[j], side, saved.pairs[pid].Leg(side).clientId);
    }
    assert forall id | id in r.index :: LiveAmong(saved, order, |order|, id);
  }
}
