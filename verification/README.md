# Hedge-pair bookkeeping of a spot/future spread-grid bot, in Dafny

The bot trades the spread between a spot market and a future market on a grid
of levels. When the open spread reaches a level's `OpenAt` threshold, and that
level still has open chances, the bot creates a *hedge pair*. A hedge pair is
two legs: a spot order and a future order of the same size, each carrying its
own client id. A closing spread at or below `CloseAt` does the same in the
other direction. Venue notifications (fills, closes, rejections) are routed
back to the leg through a *correlation index* from client id to leg. A *repair
sweep* then re-issues the legs of finished pairs that did not fill to target.

This project models that bookkeeping as pure functions over an immutable state
and proves what each step keeps and what it changes:

| file | module | models |
|---|---|---|
| `types.dfy` | `Types` | levels, pairs, legs, the index, placements, the well-formedness invariant `Valid` |
| `order_index.dfy` | `OrderIndex` | `OrderMap`: `NewOrderMap`, `add`, `get`, `remove` |
| `hedge_pair.dfy` | `HedgePairs` | `NewHedgePair` and the order direction of each leg |
| `trigger.dfy` | `Trigger` | `check`: the staleness gate and the level scan |
| `notifications.dfy` | `Notifications` | `onOrderChange`, `onRejectOrder` |
| `repair.dfy` | `Repair` | `checkPairs`, per pair and as the whole sweep |
| `config.dfy` | `Config` | the CSV grid table, the two polling intervals, the re-registration in `loadFromSaveFile` |
| `events.dfy` | `Events` | the single-consumer loop that runs one handler and then the sweep, and invariants over whole runs |
| `scenarios.dfy` | `Scenarios` | worked examples and the consequences of the behaviours noted below |

Representation choices:

- **Ids.** Pointers become ids. Pairs live in an arena `map<PairId, HedgePair>`, and a leg names its pair by key. The index maps a client id to `LegRef(pair, side)`. The source uses random UUIDs. Here, client ids and pair keys are naturals drawn from the counter `nextId`, and an id is fresh when it is not below the counter.
- **Placements.** Orders handed to the venue are appended to a placement log. The HTTP call itself is not modelled.
- **Map iteration order.** Go's map iteration order is unspecified. It becomes an explicit parameter: the visiting order of the sweep and of the re-registration loop.
- **Numbers.** Quantities and thresholds are `real`. Chances and retry counts are `int`. The fetch duration is an input in nanoseconds.

Behaviours modelled exactly as the source has them:

- **Both trigger placements carry the spot leg's client id** (check.go:54-55 and 70-71). The index, however, registers each leg under its own id. `Scenarios.PlacementsShareSpotId` states this. `Scenarios.FutureFillMasked` shows a consequence: after a spot fill of 5, the future order's fill of 5 arrives under the spot id and is measured against the spot leg's accounted size, so nothing is credited.
- **Order of the retry ceiling and the zero-fill delete.**
  - An opening pair tests the ceiling `RetryPlace > 5` first. It then deletes a zero-fill pair from its collection and carries on without skipping, so a deleted pair still gets both legs re-issued (`Scenarios.ZeroFillOpenPairReissued`).
  - A closing pair deletes first and then tests the ceiling. Within the ceiling, a deleted zero-fill closing pair likewise still gets both legs re-issued (check.go:205-239, `Scenarios.ZeroFillClosePairReissued`). Past the ceiling, a zero-fill opening pair is kept and a zero-fill closing pair is dropped (`Scenarios.CeilingOrder`).
- **A reconciled pair keeps being counted.** A pair whose legs are both closed and filled to target is still visited by every sweep. Each visit raises `RetryPlace` by one and places nothing, until the count passes 5 (check.go:170 and 213, `Scenarios.ReconciledPairCounted`).
- **`onOrderChange` closes a leg only for the spot or future market name, but unregisters the id for every "closed" status.** A close reported under any other market name leaves an open leg that cannot be reached until the index is rebuilt on restart, when the load loop registers it again (config.go:231-236) (`Scenarios.UnknownMarketOrphansLeg`).
- **The fill delta is measured against the leg's last accounted size.** A repeated update is therefore a no-op (`Notifications.ReplayIsNoOp`).

- **No pair is ever marked abandoned.** No state records it. A zero-fill pair leaves its collection, but within the ceiling its legs are re-issued all the same. An opening pair past the retry ceiling stays in its collection for good.
- **The scan stops at the first level that acts** (check.go:78-84). If that level qualifies in both directions, both fire.

Levels read from the CSV table start with empty pair collections in the model. In the source their maps are nil, so a trigger on such a level would panic (see "Left out").

## Model

| member | source | states |
|---|---|---|
| OrderIndex.NewOrderMap | config.go:59-63 | a new index knows no client id |
| OrderIndex.Add | config.go:65-69 | after `add(o)`, looking up `o`'s id finds `o`'s leg; every other id looks up as before; the key set gains exactly that id |
| OrderIndex.Remove | config.go:81-85 | after `remove(id)`, `id` is not found; every other id looks up as before; removing an absent id leaves the index as it was |
| OrderIndex.AddThenRemove | config.go:65-92 | registering a leg and then unregistering its id gives the same index as only unregistering it |
| HedgePairs.NewLeg | config.go:315-324 | a new leg carries its id, size and pair, is not closed, and has nothing filled and no venue id |
| HedgePairs.NewHedgePair | config.go:310-329 | target is `qty`; fills and retries are 0; both legs have size `qty`, are open, have nothing filled, point back to the pair, and have distinct ids at or above the counter; the pair is well-formed once the counter passes its ids |
| HedgePairs.Direction | check.go:54-71 | an opening pair buys spot and sells the future; a closing pair sells spot and buys the future |
| Trigger.Fire | check.go:47-75 | a trigger at a level in one direction spends exactly one chance of that direction; exactly one new pair key joins the arena and that direction's collection, with target `PlaceQty`, no fills and no retry; the index gains exactly the new pair's two leg ids, both drawn fresh, and every existing entry is kept; exactly the two trigger placements are appended; the market names, the other levels and the other direction are unchanged; the state stays well-formed |
| Trigger.FireAt | check.go:47-76 | at one level, each direction whose threshold is met and whose chance is positive spends one chance and adds exactly one created pair to its collection; the arena gains exactly those pairs; every newly registered id belongs to a leg of one of them; every existing pair and entry and the market names are kept; a level that does not qualify is left unchanged |
| Trigger.FireAtSafe | check.go:47-76 | acting at a level never raises a chance nor takes a non-negative chance below zero; it keeps what existed; every pair it adds has nothing filled and no retry |
| Trigger.Scan | check.go:44-87 | the result is true exactly when some level qualifies; only the first such level changes; if no level qualifies nothing changes; the market names and every existing pair and index entry are kept |
| Trigger.Check | check.go:36-87 | a fetch longer than 3000 ms changes nothing and reports false; a fetch of up to 3000 ms behaves as the scan; the market names and every existing pair and index entry are kept; the state stays well-formed |
| Notifications.NewFill | check.go:96-114 | the credited amount is never negative; it is positive exactly when the reported filled size exceeds the leg's accounted size; accounted size plus credit is exactly the larger of the two, so nothing is credited twice or beyond the report |
| Notifications.UpdateLeg | check.go:100-124 | the venue id is captured once; the accounted size becomes the larger of old and reported; the leg closes only on a "closed" status for a traded market; id, size and pair are kept |
| Notifications.OnOrderChange | check.go:90-128 | an unknown id changes nothing; for a known id, exactly the new fill is added to the spot or future total by market, so fills never decrease; only that leg of that pair changes; the leg is closed iff the status is "closed" and the market is traded; a "closed" status always unregisters the id and any other status leaves the index alone; well-formedness is kept |
| Notifications.ReplayIsNoOp | check.go:96-127 | delivering the same update twice has the effect of delivering it once |
| Notifications.OnRejectOrder | check.go:130-148 | an unknown id changes nothing; for a known id, the matching leg is closed and the id is unregistered; the pair's fills, target, retry count, level, direction and other leg, every other pair, the other index entries, the levels, the names and the log are unchanged |
| Notifications.RejectIsIdempotent | check.go:130-148 | a second rejection of the same id changes nothing |
| Repair.RemoveFrom | check.go:166-167 | a delete removes exactly that pair key from that direction's collection and keeps the level's settings |
| Repair.Reissue | check.go:172-182 | a closed leg is replaced by a new open leg with a fresh registered id and no venue id yet, sized to the remainder `TargetQty - filled`; the index gains exactly that id and keeps every other entry; one placement for it is appended |
| Repair.ReissueIfShort | check.go:184-195 | a leg is re-issued exactly when its side's fill differs from the target, and the index then gains exactly the new id; a leg whose fill equals the target is untouched and the index is unchanged |
| Repair.Retry | check.go:170-195 | one retry is counted; each short leg is re-issued for its remainder; fills and target are kept; the index gains exactly the ids of the re-issued legs |
| Repair.RepairPair | check.go:154-240 | a pair with an open leg is skipped; an opening pair past 5 retries is skipped; otherwise the retry count rises by one and only short legs are re-issued; the index gains exactly the re-issued legs' ids, none for a skipped pair; a zero-fill pair leaves its collection, except an opening pair past the ceiling; all placements are spelled out |
| Repair.Sweep | check.go:152-242 | visiting pairs in turn repairs each visited pair as `PairOutcome` says; it removes from the collections exactly the visited pairs that are deleted; every other pair, the levels' settings and the existing index entries are kept; every id newly in the index was drawn during the sweep |
| Repair.CheckPairs | check.go:152-242 | over an order that lists every collected pair once, level by level with opening pairs before closing ones, every collected pair is repaired and stays in its collection iff it is not deleted; pairs outside the collections are untouched; every id newly in the index was drawn during the sweep |
| Config.Initial | config.go:200-212 | the state a freshly read table starts from is well-formed, carries the table's names and levels, and has an empty index |
| Config.GridRow | config.go:204-211 | a level record is accepted iff its five cells exist and parse; the cells map in order to `OpenAt`, `CloseAt`, `OpenChance`, `CloseChance`, `PlaceQty`; collections start empty; the first missing or unparsable cell is the error |
| Config.GridRows | config.go:203-212 | records from a given row on become levels in file order, one per record, or the first faulty record's error |
| Config.LoadGrids | config.go:200-212 | record 0 gives the spot and future names and record 1 is skipped; each later record becomes one level, in order, with no pairs, and nothing else is kept; a missing name cell or faulty record is an error |
| Config.LoadGridsRoundTrip | config.go:194-212 | a table written five cells wide on every record (as the CSV reader requires) reads back to the same names and levels whenever the number parsers invert the printers on that table's own cells |
| Config.Interval | config.go:268-276 | a setting whose nanoseconds are a multiple of 2^64 gets the fallback; any other gives a non-zero Duration equal to `ms * 1_000_000` modulo 2^64; a non-zero fallback never yields zero |
| Config.CheckIntervalNs | config.go:268-271 | the check interval is never zero; 0 ms means 3 s; any other setting whose nanoseconds fit in 64 bits is taken as milliseconds |
| Config.QuickRecheckIntervalNs | config.go:273-276 | the quick re-check interval is never zero; 0 ms means 1 s; any other setting that fits is taken as milliseconds |
| Config.IntervalExact | config.go:268-276 | without wrap-around, a non-zero setting gives `ms * 1_000_000` ns and 0 gives the fallback |
| Config.IntervalWrapsToFallback | config.go:268-276 | non-zero multiples of 2^58 ms wrap to a zero Duration and so also get the fallback |
| Config.Reregister | config.go:229-247 | every id of a live leg among the visited pairs ends up registered, pointing at a live leg with that id; closed legs are never added; entries for other ids are kept |
| Config.LoadFromSave | config.go:215-250 | given an order that lists exactly the pairs of the levels' collections, after loading every live leg of those pairs is registered; every entry points at a pair held in its own level's collection; nothing but the index changes; the state is well-formed |
| Events.Handle | main.go:139-150 | each event handler keeps the state well-formed; chances never rise; fills never decrease; retries stay bounded |
| Events.SweepMonotone | main.go:153 | the sweep after each event never lowers a fill, leaves every level's thresholds, chances and size unchanged, and changes a pair's retry count only when that count was at most 5 |
| Events.Step | main.go:137-153 | one turn of the loop (one event, then the sweep) keeps `Monotone` and the retry bound |
| Events.Run | main.go:137-153 | over any run of the loop: the state stays well-formed; chances never rise or become negative; pair fills never decrease; no pair is retried beyond 6 |
| Scenarios.OpenAtThreshold | check.go:47-59 | at open spread 0.01, a level with `OpenAt` 0.01, one chance and size 5 gets exactly one opening pair of 5, a spot buy and a future sell of 5, and no chance left |
| Scenarios.StaleFetchSkips | check.go:36-39 | a 3100 ms fetch changes nothing; a fetch of exactly 3000 ms is still evaluated |
| Scenarios.PartialFillThenClose | check.go:96-127 | a leg of 5 reporting 3 filled and then closed is credited 3, closed and unregistered; its pair is then due for repair |
| Scenarios.RepairRemainder | check.go:170-182 | a closed pair with 3 of 5 filled on spot gets a new spot order for 2; its retry count becomes 1; the full future leg is kept |
| Scenarios.PlacementsShareSpotId | check.go:54-57 | both orders of a trigger carry the spot leg's client id, never the future leg's own id |
| Scenarios.FutureFillMasked | check.go:96-113 | after a spot fill of 5, a future fill of 5 reported under the shared id credits nothing |
| Scenarios.ZeroFillOpenPairReissued | check.go:161-195 | a zero-fill opening pair within the ceiling is deleted from its collection and still gets both legs re-issued |
| Scenarios.ZeroFillClosePairReissued | check.go:205-239 | a zero-fill closing pair within the ceiling is deleted from its collection and still gets both legs re-issued |
| Scenarios.ReconciledPairCounted | check.go:154-240 | a pair with both legs closed and filled to target, within the ceiling, has its retry count raised by one and nothing else changed; nothing is placed and no id is registered |
| Scenarios.CeilingOrder | check.go:161-212 | past the ceiling, a zero-fill opening pair stays in its collection and a zero-fill closing pair is removed; neither gets an order |
| Scenarios.UnknownMarketOrphansLeg | check.go:117-127 | right after a "closed" update for an untraded market, the id is unregistered but the leg is still open, so its pair is not repairable |

## Left out

- The snapshot fetch and its goroutines (check.go:12-34, wg.go). They are concurrency and I/O. Their outcome enters the model as the fetch duration and the two spreads.
- A failed fetch. It leaves a nil snapshot that the source dereferences; only the success path is modelled.
- The spread arithmetic (check.go:41-42). It is floating-point division; the spreads are inputs.
- The loop timers, the periodic order polling and the websocket (main.go). These are I/O plumbing. Only the order of handler and sweep in one turn is modelled.
- `persistGrids` (main.go:37-48). It is a file write. It also stores the spot name as the future name, which the model does not reproduce.
- `place` (config.go:109-135). It is an HTTP call and an alert. A placement is an appended log entry. A venue-side rejection arrives as a separate `Reject` event.
- The file, CSV, YAML and JSON readers, and `mustFloat`/`mustInt`. These are library code. Number parsing is a parameter of `Config.LoadGrids`. A fatal error or panic is an `Err` result.
- Timestamps (`CreateAt`, `UpdateTime`, `FinishAt`). No decision of the modelled handlers depends on them. `UpdateTime`, set by `onOrderChange` (check.go:103), only gates the per-order polling, which is left out (main.go:171-174). UUID generation is replaced by the id counter.
- `debugGrid`, `debugPositions`, `profitTotal`, and the `Uuid`, `OpenTotal` and `CloseTotal` fields of a level. They are display only.
- A trigger at a level whose collections were loaded from the CSV table. In the source, writing into their nil maps (check.go:50 and 67) would panic. The model gives such levels empty collections.
- The loss of the leg-to-pair pointer when the saved state is read back. The source does not persist it. `Config.Reregister` registers each leg by its pair key and side, so the index is well-formed after loading. In the source, a reject for such a leg always dereferences the nil pair (check.go:139). A notification does so only when it adds fill on the spot or future market (check.go:106-113).
- Floating-point residue in the fill comparisons. In the source, the tests `SpotQty != TargetQty` and `FutureQty != TargetQty` (check.go:172 and 185) compare float64 sums, so a rounding residue can re-issue a leg for a negligible remainder. Quantities here are exact reals and cannot reproduce that.
- Trigger.FireAt: its contract leaves the appended placements to `Trigger.Fire`, which states them per direction.
- Repair.Sweep: the placement log is only said to grow. `Repair.RepairPair` states each pair's placements.
- Repair.CheckPairs: like `Repair.Sweep`, it only says that the placement log grows.
- Config.Reregister: when two visited legs carry the same id, it only says that the entry points at a live leg with that id, not at the last one added.
