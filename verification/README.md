# A verified model of the AVS Global core

AVS Global is a ship-chandlery marketplace with a simulated fleet behind it. This project models the parts of it whose
behaviour is decided by code alone and proves what they promise over all inputs and all runs.

- **Voyages** (`Geo`, `Routes`, `Ship`, `World`, `Voyages`, `Steering`): vessels that dwell in port and sail a closed
  tour, one tick at a time. `Ship` states a tick on values; `World.VesselState` and `World.World` run it on fields.
  Distances and bearings come from a `Geometry` of which only the laws in `Geo.Lawful` are used; `LineIsLawful` shows
  that the laws have a model.
- **Marketplace** (`Market`, `MarketService`, `MarketSafety`, `MarketQuotes`): orders and RFQs under any interleaving
  of admin, suppliers, purchaser and the background deadline sweep. `MarketService.Service` runs the calls on fields,
  with rollback; `Market` is what they compute; the other two modules hold what every run keeps.
- **Offline replay** (`Sync`, `SyncServer`, `SyncWrites`, `SyncEffect`, `SyncClient`): a durable client queue drained
  in batches of 25 over a link that may lose replies and delay, repeat or reorder requests, into a server that accepts
  each action id once. Both server behaviours are covered: a duplicate is dropped alone, or the whole batch fails
  without effect.
- **Bidding, scoring and sealing** (`Bidding`, `Sorting`, `Scoring`, `Spacing`, `Sealing`): a simulated supplier's bid
  under counter-offer terms, the weighted, normalised score, its winner, the rounded and sorted rows, and the redacted
  view for callers who are not administrators.
- **Windows, batches, provisioning** (`Ips`, `Runner`, `Feed`, `Catering`, `Quantities`): sliding windows against full
  logs, the tick loop and its batch against the emitted stream, and the arithmetic of a provisioning plan.

Numbers the source holds as floats are exact reals; decimal columns and rounded results are integers counting units of
the last digit, rounded half to even. Clocks, random draws, replies and query orders are inputs.

## What the proofs found

- Re-submitting an order that is already out to suppliers returns it to PENDING_APPROVAL, and a second fan-out then gives
  it two live RFQs (`orders.py:461-473` checks no status). The joint invariant holds along a run exactly when every
  order is submitted from DRAFT or PENDING_APPROVAL: `JointRunExactly`, `ResubmissionDoublesRfqs`.
- A no-bid line is stored with a quoted quantity of 0, which the table check at `models/supplier.py:371` forbids; where
  that check is deployed any form with a no-bid line is refused: `SubmissionAccepted`, with an instance in
  `NoBidFormExactly`.
- The recorded markup has two decimals, the applied one does not: the record reproduces every marked-up total exactly
  when the percentage had at most two decimals: `RecordedPctExact`, with 12.345 percent in `RecordedPctInstance`.
- A quote submitted after the last markup reaches the purchaser at its plain total, whether it comes before the RFQ is
  closed (`UnmarkedWithoutLateQuotes`) or after (`UnmarkedReachesPurchaser`), when no markup is possible any more
  (`MarkableExactly`). All quotes are marked up exactly when no submission was accepted since the last markup
  (`AllMarkedExactly`): that is what to check before sending, and closing does not end it.
- A server that fails a whole batch on a duplicate blocks a device for good after one lost reply: `RefusingProgress`
  gives the exact condition, `OneLostReplyJams` the shortest way there.
- An update goes over an applied one that its device has not seen exactly when it carries no version stamp, and then no
  conflict is recorded: `OverwritesExactly`, `StamplessUpdateIsLost`.
- The sealed response always reports winner rank 1. With a tie in rounded scores the row that discloses the winner's
  terms can have another rank: `ReportedRankExactly`, `ReportedRankCanBeWrong`.
- With no named winner and a tie at the top, the order of the input decides whose terms are disclosed:
  `OrderFreeExactly`, `TiedFallbackDependsOnOrder`.
- The batch cap does not limit a batch, although `events.py:23-27` says so: one vessel more than the cap is enough
  (`CapCanBeExceeded`). With n vessels of at most one event a tick, every run keeps to the cap exactly when the cap is
  at least 2n times the flush period in ticks (`CapSafeExactly`); otherwise a batch still never holds more than
  cap - 1 + 2n rows (`FleetBatches`). With a cap of zero or less, empty batches are sent: `EmptyFlushExactly`.
- When no score exceeds -1, the scorer names no winner and no winner rank is reported, but the first result's terms are
  disclosed all the same: `LoserShownExactly`, and `LoserShown` for weights that reach it.
- In the simulation, weights that sum to zero are used unnormalised, so their scale decides outcomes: `ScaleFreeExactly`
  gives the exact condition, `DoublingLosesTheWinner` a bid that loses its win.
- The documented range (-180, 180] of `angular_diff_deg` is [-180, 180) in the code: `HalfTurnExactly`,
  `OppositeHeadings`.
- The last waypoint of a route is moved to the destination but keeps the eta of its step, so it is due at the end of the
  leg exactly when the steps divide the distance evenly: `LastEtaExactly`.
- An offline order refused for one of its items stays in the database all the same, with the items before that one:
  `RowsCreated`.
- `build_route` divides by the distance, so two ports in one place raise a division error: `Routes.BuildRoute`.

## Model

| member | source | states |
|---|---|---|
| `Geo.LineIsLawful` | backend/sim/geo.py:43-152 | the laws assumed of distance, bearing, destination and interpolation hold together in one concrete geometry |
| `Geo.AngularDiffUnique` | backend/sim/geo.py:160-162 | the wrapped difference is the one number in [-180, 180) that differs from b - a by whole turns |
| `Geo.Mod360Turns` | backend/sim/geo.py:155-157 | normalising a heading forgets whole turns and keeps headings already in [0, 360) |
| `Steering.HalfTurnExactly` | backend/sim/geo.py:160-162 | the difference is -180 iff the headings are half a turn apart, and never 180 |
| `Steering.OppositeHeadings` | backend/sim/geo.py:160-162 | opposite headings differ by -180, outside the documented range |
| `Routes.BuildRoute` | backend/sim/routes.py:29-107 | the loop yields the planned route, or the first of the errors: same port, speed, step, zero length |
| `Routes.BuildCircularRoute` | backend/sim/routes.py:110-135 | fewer than two ports are refused; otherwise the legs of the tour in order with running departure times, or the first leg's error |
| `Routes.TourIsClosed` | backend/sim/routes.py:126-135 | a tour that is built at all links each port to the next, the last to the first, every leg snapped to its destination |
| `Routes.PathLengthIsTotal` | backend/sim/routes.py:63-107 | the waypoint polyline of a built route is exactly as long as the great circle, with max(1, floor(D / step)) waypoints |
| `Routes.RouteTimes` | backend/sim/routes.py:63-107 | a leg lasts exactly its length at the given speed, and waypoint i is due exactly after i steps of way |
| `Routes.LastEtaExactly` | backend/sim/routes.py:84-107 | the last waypoint is the destination, but its eta is the end of the leg iff the steps divide the distance evenly |
| `Routes.TourTimes` | backend/sim/routes.py:110-135 | on a tour every waypoint is due exactly after the legs and the steps before it have been sailed at the given speed |
| `Routes.SkippingShortens` | backend/sim/world.py:428-477 | skipping waypoints never lengthens the way that is left |
| `Ship.AdvanceThroughPassedWaypoints` | backend/sim/world.py:428-477 | the loop stops at the first waypoint that is neither within 0.5 nm nor abaft the beam |
| `Ship.NextAhead` | backend/sim/world.py:458-477 | the index never goes back, everything skipped was passed, and what it stops at is not |
| `Ship.ScanIdempotent` | backend/sim/world.py:389-394 | scanning again at the same position changes nothing |
| `Ship.TickInHours` | backend/sim/world.py:252-404 | on straight courses, with hours the tick's share of the clock: at sea the vessel closes in on the point steered for by 10 * 0.85 * top speed * hours or all the way; in port 60 * hours of dwell are used up, or all that is left |
| `Ship.EtaIsTravelTime` | backend/sim/world.py:269-424 | after a tick that ends at sea, speed (at least 1) times the hours until the eta is the distance to the destination, and a change of more than an hour is announced |
| `World.VesselState.DepartPort` | backend/sim/world.py:269-304 | the fields after a departure, and its event |
| `World.VesselState.HandleInPort` | backend/sim/world.py:244-267 | a tick in port: count the dwell down, or depart |
| `World.VesselState.SailOn` | backend/sim/world.py:323-394 | scan, steer with mean reversion, move by at most one step, scan again; how long a step is in hours of the clock, `Ship.TickInHours` says |
| `World.VesselState.HandleUnderway` | backend/sim/world.py:306-424 | a tick at sea: sail, then arrive within the threshold or update the eta |
| `World.VesselState.ArriveAtPort` | backend/sim/world.py:479-513 | the fields after an arrival, the next route of the circle, and the event |
| `World.World.Step` | backend/sim/world.py:215-240 | the clock moves by tick seconds * time scale / 3600 hours, every vessel takes exactly one tick under the same configuration, in fleet order, and sails or dwells for exactly the hours that the clock moved |
| `Voyages.TickCalls` | backend/sim/world.py:232-304 | a tick makes at most one port call, decided by its change of phase |
| `Voyages.TourTrace` | backend/sim/world.py:124-165 | over every run departures and arrivals alternate, the j-th departure is p(j) -> p(j+1), the j-th arrival p(j+1), and a vessel in port lies at its next origin |
| `Voyages.DepartureStaysPut` | backend/sim/world.py:269-285 | the position reset on departure never moves a vessel on tour |
| `Voyages.ScanStopsShort` | backend/sim/world.py:336-346 | a snapped route is consumed to its end only within the threshold of the destination |
| `Voyages.SailProgress` | backend/sim/world.py:336-404 | a tick at sea that does not arrive leaves a waypoint ahead and the destination beyond the threshold, never turns the index back and spends part of the leg's budget |
| `Voyages.LegEnds` | backend/sim/world.py:306-404 | from any state at sea the vessel arrives within its budget of ticks, calling nowhere else |
| `Voyages.DepartedVesselArrives` | backend/sim/world.py:269-404 | a departed vessel reaches its route's destination within floor(L / s) + k ticks |
| `Voyages.PlannedLegBudget` | backend/sim/routes.py:63-107 | on a route from build_route that bound is floor(D / s) + max(1, floor(D / step)) |
| `Voyages.DwellExact` | backend/sim/world.py:252-267 | a vessel with dwell m stays exactly ceil(m / e) ticks and departs on the next |
| `Voyages.NeverDeparts` | backend/sim/world.py:252-261 | with a clock that does not move forward a vessel with dwell left never departs |
| `Voyages.LongestCycle` | backend/sim/world.py:252-404 | a bound on stay, departure and leg, computed from the routes and the configuration |
| `Voyages.EveryVoyageCompletes` | backend/sim/world.py:215-240 | n such cycles of ticks complete at least n legs of the tour, in order: no vessel is ever stuck |
| `Voyages.EveryLegCompletes` | backend/sim/world.py:215-240 | the same for any bound on a cycle |
| `Steering.SpeedReverts` | backend/sim/world.py:361-366 | with noise bounded by N the speed error after n ticks is at most 0.8^n of the first error plus 5N |
| `Steering.DepartedSpeed` | backend/sim/world.py:269-366 | in every run, n ticks after departure and still at sea, a vessel's speed is within 0.8^n of half its cruise speed plus 5N of the cruise speed |
| `Steering.HeadingReverts` | backend/sim/world.py:366-370 | the wrapped heading error obeys the same bound for every N, and headings stay in [0, 360) |
| `MarketService.Service.SubmitOrder` | backend/app/api/v1/orders.py:461-473 | DRAFT, or any other status, becomes PENDING_APPROVAL |
| `MarketService.Service.FanOutRfq` | backend/app/services/marketplace_simple.py:54-130 | the new RFQ with its deadline (48 hours from now when none or zero are given), invited suppliers and copied items, and the order's status; or an error and nothing changed |
| `MarketService.Service.SupplierSubmitQuote` | backend/app/services/marketplace_simple.py:133-283 | a submission replaces the supplier's earlier quote and adjusts the count, or is refused and rolled back |
| `MarketService.Service.Requote` | backend/app/services/marketplace_simple.py:169-270 | the earlier quote is dropped first and restored when a line or the quantity check fails |
| `MarketService.Service.PriceForm` | backend/app/services/marketplace_simple.py:198-253 | the line loop returns the priced lines and their sum, or the first line's error; every line total is quantity times price to the nearest 10^-4, ties to even, and the sum is within half a unit per line of the exact one |
| `MarketService.Service.ApplyMarkup` | backend/app/services/marketplace_simple.py:286-323 | every quote is marked up from its own total, or nothing changes |
| `MarketService.Service.SendToPurchaser` | backend/app/services/marketplace_simple.py:326-355 | RFQ and order are closed together, only from SENT |
| `MarketService.Service.PurchaserDecide` | backend/app/services/marketplace_simple.py:358-430 | a closed RFQ is awarded or withdrawn with its order |
| `MarketService.Service.SweepRfqDeadlines` | backend/app/services/marketplace.py:856-881 | in whatever order it visits them, the sweep closes exactly the RFQs that are SENT with a deadline in the past, and counts them |
| `MarketSafety.JointRunExactly` | backend/app/services/marketplace_simple.py:64-122 | along any run with the sweep interleaved the joint invariant of orders and RFQs holds in every state iff no order is submitted once it is sent out |
| `MarketSafety.JointMeaning` | backend/app/services/marketplace_simple.py:334-415 | what the invariant says: at most one live RFQ, exactly one iff the order is RFQ_SENT or RFQ_CLOSED, awarded iff APPROVED, all withdrawn in DRAFT or PENDING_APPROVAL |
| `MarketSafety.SweepLeavesOrders` | backend/app/services/marketplace.py:864-881 | the sweep's branch on PENDING_APPROVAL never fires |
| `MarketSafety.OpenExactly` | backend/app/services/marketplace_simple.py:69-77 | an RFQ sent out stays SENT under a later sweep iff no more time has passed than the hours it was given, 48 when none or zero are |
| `MarketSafety.SubmitOrderExact` | backend/app/api/v1/orders.py:461-473 | submitting keeps the invariant iff the order is DRAFT or PENDING_APPROVAL |
| `MarketSafety.ResubmissionDoublesRfqs` | backend/app/api/v1/orders.py:461-473 | a run that re-submits an order sent out ends with two live RFQs |
| `MarketSafety.LaterRun` | backend/app/services/marketplace_simple.py:374-411 | over every run an RFQ's status never goes back, a decided RFQ with its quotes is frozen, a closed one keeps its markup and its quotes unless a supplier resubmits, and after its deadline it takes no quote |
| `MarketQuotes.PriceLinesMeaning` | backend/app/services/marketplace_simple.py:198-247 | a form prices iff every line is valid, and then line for line, with 0 < quantity <= requested on partial bids |
| `MarketQuotes.LinesSoundRun` | backend/app/services/marketplace_simple.py:198-253 | in every reachable state every stored line answers an item of its RFQ, and on every bid line 0 < quantity <= requested and the total is quantity times price, rounded to 10^-4 |
| `MarketQuotes.QuoteTotalsNear` | backend/app/services/marketplace_simple.py:234-253 | in every reachable state a quote's total is within half a unit per line of the sum of quantity times price |
| `Market.WholePrices` | backend/app/services/marketplace_simple.py:238 | a price of u whole units gives a total of exactly quantity times u |
| `MarketQuotes.NoBidFormExactly` | backend/app/models/supplier.py:369-372 | a form that declines its only item is accepted iff the quantity check is not deployed |
| `MarketQuotes.SubmissionAccepted` | backend/app/services/marketplace_simple.py:159-164 | exactly when a submission is accepted, with and without the quantity check of the table |
| `MarketQuotes.MarkupBounds` | backend/app/services/marketplace_simple.py:297-311 | a marked-up total is within half a unit of the exact product and between the total and its double |
| `MarketQuotes.MarkupMonotone` | backend/app/services/marketplace_simple.py:297-311 | markup keeps the order of prices |
| `MarketQuotes.MarkupReplaces` | backend/app/services/marketplace_simple.py:297-311 | two markups equal the second one: markup never compounds |
| `MarketQuotes.RecordedPctExact` | backend/app/models/supplier.py:252 | the recorded percentage reproduces all marked-up totals iff the applied one had at most two decimals |
| `MarketQuotes.RecordedPctInstance` | backend/app/models/supplier.py:252 | 12.345 percent applied, 12.35 recorded: two different marked-up totals |
| `MarketQuotes.MarksFollowHistory` | backend/app/services/marketplace_simple.py:249-311 | in every run each quote is marked up by the last markup accepted since its supplier's last accepted submission, which is the recorded percentage, or bears its own total when there was none |
| `MarketQuotes.MarkableExactly` | backend/app/services/marketplace_simple.py:297-311 | a quote just submitted can be marked up by whatever happens later iff its RFQ was still SENT |
| `MarketQuotes.AllMarkedExactly` | backend/app/services/marketplace_simple.py:297-311 | in every run all quotes of an RFQ are marked up iff no submission on it was accepted since its last markup |
| `MarketQuotes.UnmarkedWithoutLateQuotes` | backend/app/services/marketplace_simple.py:326-355 | a run in which every submission comes while SENT and the purchaser still sees a plain total |
| `MarketQuotes.UnmarkedReachesPurchaser` | backend/app/services/marketplace_simple.py:159-164 | a run that ends with an unmarked quote in a closed RFQ with a markup of ten percent |
| `MarketQuotes.TidyRun` | backend/app/services/marketplace_simple.py:159-270 | in every reachable state: one quote per supplier, the count right, totals the sums of their lines, marks following the markups accepted since each submission, an award naming a quote of its RFQ |
| `MarketQuotes.TidySubmitted` | backend/app/services/marketplace_simple.py:169-180 | the clamp of the count at zero never bites |
| `MarketQuotes.QuotesAreLastAccepted` | backend/app/services/marketplace_simple.py:169-270 | in every run the stored quotes are exactly each supplier's last accepted submission |
| `Sync.AtMostOnce` | frontend/src/offline/sync.js:43-89 | under any loss, delay, repetition or reordering the server's ids are duplicate-free and a prefix of the history, the queue is a suffix, together they cover it, and the server is at most one batch ahead |
| `Sync.RefusingProgress` | frontend/src/offline/sync.js:60-85 | a server that refuses batches with duplicates can make progress from an idle device iff it is not ahead of it |
| `Sync.OneLostReplyJams` | frontend/src/offline/sync.js:60-85 | the shortest run into that dead end |
| `Sync.TrimmingDrains` | frontend/src/offline/sync.js:43-89 | from every reachable moment a run against a server that drops duplicates alone empties the queue into a complete record, if need be after a restart of the device |
| `Sync.AfterDrain` | frontend/src/offline/sync.js:43-89 | a drain that comes to the end leaves only what was enqueued since it began |
| `SyncServer.Server.ReplayActions` | backend/app/services/sync.py:42-144 | the loop records, applies and tallies each action in order; in abort mode a batch with a known or repeated id has no effect; what the rows then hold, `SyncWrites` says |
| `SyncServer.TallyMeaning` | backend/app/services/sync.py:80-132 | applied + failed + conflicts = total, COMPLETED iff all applied, FAILED iff none applied and not empty |
| `SyncServer.ReplayRecords` | backend/app/services/sync.py:80-124 | the recorded ids are those of the replay protocol |
| `SyncEffect.FirstArrivalsSuffice` | backend/app/services/sync.py:80-124 | replaying any stream of actions leaves the database that its first arrivals alone leave |
| `SyncEffect.FirstAreNew` | backend/app/services/sync.py:80-124 | the first arrivals are one action for each id that the stream adds to the record, in order |
| `SyncEffect.ExactlyOnce` | backend/app/services/sync.py:80-124 | along every run of the protocol the server's database is that of replaying once, in order, a prefix of what the device enqueued |
| `SyncServer.NoLostUpdate` | backend/app/services/sync.py:187-202 | of the updates of one order with the same server stamp at most one is applied; later ones are conflicts or repetitions |
| `SyncServer.OverwritesExactly` | backend/app/services/sync.py:187-202 | whatever is replayed in between, a later update of an order is applied iff it has no stamp or one no older than the row, is a conflict otherwise, and goes over the earlier one unseen iff it has no stamp |
| `SyncServer.StamplessUpdateIsLost` | backend/app/services/sync.py:187-202 | two updates without stamps are both applied and the first is lost without a conflict |
| `SyncWrites.OutcomeExactly` | backend/app/services/sync.py:80-120 | an action is applied iff its id is new and all it needs is there, and is a conflict iff its id is new and it would go over a newer row |
| `SyncWrites.LastWriterWins` | backend/app/services/sync.py:187-202 | every order ends with the values of the last applied updates that name the field, keeps every other field, and gains one item per applied item; conflicts, failures, repetitions and other orders' updates leave it alone |
| `SyncWrites.LastWriterFrom` | backend/app/services/sync.py:187-202 | the same from any point of a batch on, for orders the batch itself created |
| `SyncWrites.VersionExactly` | backend/app/services/sync.py:187-202 | the version that conflicts are judged by moves iff an update of the order is applied |
| `SyncWrites.CreationAddsOneRow` | backend/app/services/sync.py:153-186 | an applied creation adds exactly one row under an unused id, with its notes and all its items, and leaves the others as they were |
| `SyncWrites.RowsCreated` | backend/app/services/sync.py:153-186 | no row is ever lost, and there is one more for each creation that arrives for the first time and names vessel and port, even when one of its items is refused |
| `SyncWrites.ConflictsRecorded` | backend/app/services/sync.py:108-119 | the conflict records are exactly the conflicts, in order |
| `SyncClient.System.EnqueueAction` | frontend/src/offline/db.js:78-85 | a new action goes to the end of the queue and of the history |
| `SyncClient.System.MarkAction` | frontend/src/offline/db.js:92-101 | a failed action is stamped and stays where it is |
| `SyncClient.System.RemoveAction` | frontend/src/offline/db.js:103-106 | the first entry with the id goes, the rest keeps its order |
| `SyncClient.System.MarkBatch` | frontend/src/offline/sync.js:76-80 | the entries of the batch, and no others, are marked as failed at a moment since then |
| `SyncClient.System.DrainBatch` | frontend/src/offline/sync.js:60-85 | one post, then removal action by action, or giving up with every entry of the batch marked as failed and all others left as they were |
| `SyncClient.System.DrainQueue` | frontend/src/offline/sync.js:43-89 | every drain is a run of the protocol; it ends at the first batch without a seen reply, whose entries are then marked as failed and no others, or with only newer actions left |
| `Bidding.GenerateBid` | backend/app/services/market_sim.py:140-201 | the loop skips products the supplier does not carry and yields the lines, lead time and totals of the specification |
| `Bidding.LinesAsk` | backend/app/services/market_sim.py:170-188 | one line per requested item the agent has a price for, in order, asking 0.9, 0.95, 1.08 or 0.82 of the base price by strategy, moved by the jitter, or the cap if that is lower, rounded to 10^-4 |
| `Bidding.LeadExactly` | backend/app/services/market_sim.py:190-192 | the lead time is the base lead with -2, 0, 3 or 7 days by strategy, or the cap if that is less, and never below one day |
| `Bidding.StrategiesOrdered` | backend/app/services/market_sim.py:58-66 | from one base the strategies order as aggressive, balanced, premium, slow by lead time under any terms, and as slow, aggressive, balanced, premium by price |
| `Bidding.CounterOfferHonoured` | backend/app/services/market_sim.py:160-193 | under tighter terms a bid is no dearer and no slower; every unit price and the lead time keep to their caps |
| `Bidding.SqueezeExactly` | backend/app/services/market_sim.py:176-188 | a counter-offer lowers the exact total iff one of its caps lies below the agent's own price of an item that counts |
| `Bidding.FreeTotal` | backend/app/services/market_sim.py:155-188 | without a counter-offer the total is the base total times one factor |
| `Bidding.JitterBounded` | backend/app/services/market_sim.py:56-188 | a jitter within its band moves the total by at most two percent of the base total, and keeps it between 0.80 and 1.10 of it |
| `Bidding.LinesNearTotal` | backend/app/services/market_sim.py:182-201 | the total is summed before unit prices are rounded, and differs from its lines by at most half a unit per piece |
| `Sorting.SortSorts` | backend/app/services/rfq_serializers.py:84-90 | the stable sort used below sorts and permutes |
| `Sorting.SortStable` | backend/app/services/market_sim.py:404 | elements tied with one another keep their order |
| `Scoring.ScoreBids` | backend/app/services/market_sim.py:341-409 | the loop's rows and winner are those of the specification, empty lists and bad weights included; `Spacing` says what its scores are |
| `Scoring.ScoreAll` | backend/app/services/rfq.py:133-171 | the running winner is the first bid with the greatest score, and the rows are sorted stably by rounded score |
| `Scoring.Leader` | backend/app/services/market_sim.py:368-402 | the first greatest score, or nothing iff no score exceeds -1 |
| `Scoring.WinnerIsFirstBest` | backend/app/services/rfq.py:134-169 | the reported winner is the first bid with the greatest exact score, or none iff no score exceeds -1 |
| `Scoring.SoundBidsHaveAWinner` | backend/app/services/market_sim.py:359-390 | with non-negative weights of positive sum and ratings in [0, 5] there is a winner and every score lies in [0, 1] |
| `Scoring.ScoreMonotone` | backend/app/services/market_sim.py:374-383 | a bid at least as good on all four criteria never scores lower |
| `Scoring.RescalingChangesNothing` | backend/app/services/rfq.py:116-119 | rescaling all weights leaves the whole outcome of either engine alone |
| `Scoring.RescalingExact` | backend/app/services/market_sim.py:359-360 | in the simulation a factor leaves the normalised weights alone iff they do not cancel out, or it is 1, or they are all zero |
| `Scoring.ScaleFreeExactly` | backend/app/services/market_sim.py:359-404 | no positive factor ever shows in the simulation's outcomes iff the weights do not cancel out or are all zero |
| `Scoring.DoublingLosesTheWinner` | backend/app/services/market_sim.py:359-402 | weights that cancel out and whose doubling takes the win from the only bid |
| `Scoring.ResultsRanked` | backend/app/services/market_sim.py:404 | the results are all the rows, by falling rounded score |
| `Scoring.TopRow` | backend/app/services/market_sim.py:398-404 | the first row carries the winner's rounded score and belongs to the first bid that rounds to it |
| `Scoring.WinnerLeadsExactly` | backend/app/services/rfq.py:164-171 | the winner's own row is first iff no earlier bid rounds to the same score |
| `Spacing.ScoreFormula` | backend/app/services/market_sim.py:362-383 | every exact score is the weighted sum of the share its total earns, the share its lead time earns, and its ratings in fifths; a share falls in proportion from 1 at the lowest value to 0 at the highest |
| `Spacing.PriceSpacing` | backend/app/services/market_sim.py:374 | bids alike in all but their totals score the price weight times the difference of totals over the span apart |
| `Spacing.LeadSpacing` | backend/app/services/market_sim.py:375 | the same for lead times |
| `Spacing.RatingSpacing` | backend/app/services/market_sim.py:376-383 | bids alike in total and lead time score the weighted difference of their ratings in fifths apart |
| `Spacing.ScaleBeginsAtZero` | backend/app/services/market_sim.py:374-383 | the dearest and slowest bid without ratings scores 0 |
| `Spacing.Defaults` | backend/app/services/rfq.py:110-119 | the weights in force when none are given, in either engine |
| `Spacing.RowsCarryScores` | backend/app/services/rfq.py:116-166 | for weights as given and either engine, every bid has a row with its ids, terms and ratings and that score over the sum of the weights, within half a unit of 10^-6 |
| `Sealing.BuildView` | backend/app/services/rfq_serializers.py:70-103 | the loops over roles and rows compute the sealed view: the list itself, untouched, iff the caller is super_admin or fleet_admin, otherwise one redacted row for each |
| `Sealing.SealComparison` | backend/app/services/rfq_serializers.py:106-146 | the payload itself iff the caller is super_admin or fleet_admin, otherwise redacted rows and no winner rank without a winner |
| `Sealing.TopRow` | backend/app/services/rfq_serializers.py:66 | the fallback winner is the first row with the greatest score |
| `Sealing.NonInterference` | backend/app/services/rfq_serializers.py:70-103 | for a caller with neither role, two lists with the same ids and scores that agree on the winner's terms, named or not, are sealed alike |
| `Sealing.EmptyIsAbsent` | backend/app/services/rfq_serializers.py:54-90 | empty ids of rows and winner are sealed like absent ones |
| `Sealing.OrderFreeExactly` | backend/app/services/rfq_serializers.py:54-90 | with distinct ids the order of the input cannot be seen iff a winner is named or no two top rows have terms to disclose |
| `Sealing.TiedFallbackDependsOnOrder` | backend/app/services/rfq_serializers.py:64-67 | two tied rows without a named winner, whose order shows |
| `Sealing.RanksAndScores` | backend/app/services/rfq_serializers.py:84-103 | ranks count from 1 and scores never rise, on any input |
| `Sealing.OneRowDiscloses` | backend/app/services/rfq_serializers.py:91-103 | scorer and sealer together: exactly one row discloses a total; it is the winner's, or the first result's when nobody wins |
| `Sealing.LoserShownExactly` | backend/app/services/rfq_serializers.py:64-67 | terms are disclosed while no winner is reported iff there are bids and no score exceeds -1 |
| `Sealing.LoserShown` | backend/app/services/rfq_serializers.py:131-141 | weights that cancel out and one unrated bid for which this happens |
| `Sealing.WinnerRankExactly` | backend/app/services/rfq_serializers.py:84-103 | that row has rank 1 iff every bid tied with the winner after rounding has a larger id |
| `Sealing.UniqueTopIsRankOne` | backend/app/services/rfq_serializers.py:84-103 | with no tie after rounding the first row discloses the winner's total |
| `Sealing.ReportedRankExactly` | backend/app/services/rfq_serializers.py:131-146 | the reported winner rank is always 1, and names the disclosed row iff the winner leads its ties |
| `Sealing.ReportedRankCanBeWrong` | backend/app/services/rfq_serializers.py:138-141 | two equal bids for which the report is wrong |
| `Ips.IPSState.Trim` | backend/app/core/ids.py:57-66 | the three queues of one address become the log's entries within their windows; other addresses keep theirs |
| `Ips.DropOld` | backend/app/core/ids.py:59-61 | popping from the front of an ordered queue is filtering by the cutoff |
| `Ips.IPSState.RecordLoginFailure` | backend/app/core/ids.py:90-94 | the count is the number of failures logged in the last 15 minutes, this one included |
| `Ips.IPSState.CheckBruteForce` | backend/app/core/ids.py:97-101 | true iff at least 5 of them |
| `Ips.IPSState.RecordRequest` | backend/app/core/ids.py:104-109 | the count is the number of requests logged in the last 15 minutes |
| `Ips.IPSState.IsRateLimited` | backend/app/core/ids.py:116-125 | true iff the address is not exempt and the logged requests exceed the limit; exempt addresses change nothing |
| `Ips.IPSState.RecordPath` | backend/app/core/ids.py:128-133 | the number of distinct paths logged in the last minute |
| `Ips.IPSState.IsPortScan` | backend/app/core/ids.py:136-140 | true iff more than 60 of them |
| `Ips.SinceTwice` | backend/app/core/ids.py:57-66 | an earlier trim never shows in a later one |
| `Ips.EnoughRecent` | backend/app/core/ids.py:97-101 | n entries are recent iff the n-th last one is |
| `Ips.OthersDoNotMatter` | backend/app/core/ids.py:53-66 | what is recorded for other addresses never enters an address's history |
| `Runner.EmitYield` | backend/sim/runner.py:268-276 | a report enters the batch before its own events, and each is counted |
| `Runner.FlushBatch` | backend/sim/runner.py:328-363 | a flush hands over the rows of the batch, posts them to the client unless it is a dry run, and empties the batch; a failed send drops it and is not counted |
| `Runner.TickAndFlush` | backend/sim/runner.py:264-295 | one round of the loop, with its flush condition and what it posts |
| `Runner.RunLoop` | backend/sim/runner.py:243-325 | the whole loop up to the iteration bound or the stop, and the last flush: final counts, an empty batch, and the log of flushes that the results below speak of, posted to the client in order |
| `Runner.StreamConserved` | backend/sim/runner.py:264-295 | at any moment what was flushed followed by what is buffered is the emitted stream in order |
| `Runner.NothingLeftBehind` | backend/sim/runner.py:321-325 | after the run the flushed batches, one after the other, are the emitted stream |
| `Runner.FinalCounts` | backend/sim/runner.py:231-240 | one report per yield; emitted counts equal the sum of batch sizes; the flush count is the number of batches answered, and accepted and rejected are the sums over their answers |
| `Runner.AnswersAreReplies` | backend/sim/runner.py:328-363 | what came of each flush is the backend's reply to that tick's batch, or nothing accepted and rejected in a dry run |
| `Runner.BatchesBounded` | backend/sim/runner.py:284-295 | a batch holds at most cap - 1 rows plus the yield of the tick that flushed it |
| `Runner.LastBatchBounded` | backend/sim/runner.py:321-323 | the flush after the loop stays below the cap |
| `Runner.CapCanBeExceeded` | backend/sim/events.py:61-95 | for every cap, one vessel more than it fills a batch beyond it in a single tick |
| `Runner.CapSafeExactly` | backend/sim/runner.py:264-295 | with n vessels of at most one event a tick, every run keeps to the cap iff it is at least 2n times the flush period in ticks |
| `Feed.FleetKeepsCap` | backend/sim/world.py:215-240 | under that condition no batch of n vessels ticking in the world exceeds the cap |
| `Feed.FleetBatches` | backend/sim/world.py:215-240 | with n vessels ticking in the world a batch holds at most cap - 1 + 2n rows |
| `Runner.EmptyFlushExactly` | backend/sim/runner.py:284-291 | an empty batch is flushed iff the cap is zero or less and some tick has nothing to flush |
| `Runner.FlushesEveryPeriod` | backend/sim/runner.py:284-295 | with vessels to report every stretch of max(1, ceil(interval / tick)) ticks contains a flush |
| `Runner.UncappedFlushTicks` | backend/sim/runner.py:284-295 | without a cap the flushes fall on the multiples of that period and on no other tick |
| `Catering.ComputeVoyagePlan` | backend/app/services/catering.py:43-143 | exactly which error is raised when, and otherwise a plan for this crew |
| `Catering.Aggregate` | backend/app/services/catering.py:90-98 | the nested loops list the demand of every nationality and meal |
| `Catering.Collect` | backend/app/services/catering.py:100-118 | the dictionary holds each product's grams over all default menus; missing menus are skipped |
| `Catering.Price` | backend/app/services/catering.py:120-138 | one line per product in insertion order, and the unrounded total |
| `Catering.MealsSumToTarget` | backend/app/services/catering.py:34-40 | a nationality's meals add up to headcount times daily target, exactly |
| `Catering.CaloriesConserved` | backend/app/services/catering.py:90-98 | the demand of the whole crew adds up to the daily calories |
| `Catering.CostMatchesLines` | backend/app/services/catering.py:120-141 | estimated cost and sum of line totals differ by at most 0.005 + 0.00005 per item |
| `Catering.GramsAdditive` | backend/app/services/catering.py:100-118 | grams per product are additive in the crew breakdown |
| `Quantities.NeedExactly` | backend/app/services/catering.py:94-118 | the grams of a product are the days times what the crew eats of it in a day: heads times daily target, split 0.25, 0.30, 0.30, 0.10, 0.05 over the meals, times the grams per calorie of each meal's menu |
| `Quantities.ServingsProvide` | backend/app/services/catering.py:115-116 | the servings of a menu provide exactly the calories asked for, a target below 1 counting as 1 |
| `Quantities.PlanBuysWhatIsEaten` | backend/app/services/catering.py:120-138 | every line of a plan buys the grams eaten in the plan's days and the buffer on top, in kilograms where the product is sold so, at the product's price; the grams per day do not depend on the days |
| `Quantities.PlanKcal` | backend/app/services/catering.py:67-140 | the plan's calories are exactly the days times the sum of heads times target |
| `Quantities.SameTargets` | backend/app/services/catering.py:62-76 | where every nationality has the same target, that is the crew count times the target |
| `Catering.OrderOfCrewIsIrrelevant` | backend/app/services/catering.py:68-141 | plans for one crew entered in any two orders agree in everything but the order of their items |

## Left out

- Trigonometry and floating point: distances and bearings obey laws, numbers are exact reals.
- The fleet as a dictionary keyed by MMSI: a vessel's state and its route assignment are one object, the fleet a list, so two vessels with one MMSI are not modelled.
- Random draws: the noise and the dwell of a tick are inputs; the bounds proved need them bounded.
- `compose_proposal`, `purchaser_approve_proposal`, `supplier_accept_slice`, `drop_slow_supplier` and the gated `supplier_submit_quote` of the older marketplace module: they refer to columns and models that no longer exist.
- Clarification, `build_rfq_for_order`, the older fan-out and offline status edits as marketplace steps: each can re-send an order with a live RFQ.
- `POST /orders/{id}/transition` (backend/app/api/v1/orders.py:384-399) sets any order status without a check, so it can break the joint invariant of orders and RFQs; it is not a step of the model.
- Which quote an unordered query returns first on award: a parameter of the decision.
- Notifications, audit rows, the HTTP layer, authentication and the database session beyond rollback.
- SyncServer.NoLostUpdate: speaks of updates handled one after the other; two server processes writing at the same instant are not modelled.
- Parsing of offline payloads: an action is well formed or not; field values are strings.
- `user_geo` and `record_user_geo` in the request monitor: they trim another key than they append to.
- Payload signatures (SQL and script patterns) in the request monitor.
- Names, ratings and sub-scores in result rows beyond the two ratings: sealing drops them all.
- The weights echoed with the simulation's results, missing or extra keys in a weights dictionary, and the award that `compare_quotes` writes back.
- `run_market_sim`, `derive_strategy` and the seeding of the random generator: the jitter of a bid is an argument, its strategy a field.
- Event-log redaction: payloads are copied unchanged.
- Pacing by wall clock in the tick loop: the moment the stop is seen is the length of the run.
- Conversion of reports and events to dictionaries: rows are opaque.
- Column types in provisioning: prices and grams are numbers, however the database driver types them; names and dates of a plan are not modelled.
