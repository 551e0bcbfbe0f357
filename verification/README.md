# GeoTrack, verified

A Dafny model of GeoTrack's stateful cores and proofs of what they promise over whole runs:
every interleaving, every crash point, every input. `dafny verify dfyconfig.toml` checks it.

| core | files |
|---|---|
| live view: hub, connection, wire, browser | `Grid`, `HubState`, `TickFrames`, `HubHistory`, `ConnectionState`, `LiveView`, `ConnectionHistory`, `ShippedBrowser`, `Disagreements`, `Gateway`, `DeviceStore` |
| geofence batch engine | `Geofence`, `Confluence`, `Records`, `Sharding`, `AlertHistory`, `Dwelling` |
| shard leases, consumers, rebalancing | `Delivery`, `ShardProtocol`, `ShardHistory`, `FairShare`, `Fleet`, `ProcessorControl` |
| sessions and subscriptions | `Sessions`, `Registry` |
| alert log, partitions, load generator | `AlertLog`, `Partitions`, `Generator`, `ReportFlow` |

How it is built. Each protocol is a step system on values (`Next`, `Enabled`, `Run`), and its
main theorems speak about every state of every run. Each object that the program updates in
place is a class whose methods, one per stretch between two awaits, keep the class invariant
and compute the step of that system: `Gateway.PositionHub` refines `HubState`,
`Gateway.ClientConnection` refines `ConnectionState`, `DeviceStores.DeviceStore` refines the
browser of `LiveView`, `Registry.ConnectionRegistry` refines `Sessions`. Three methods join
such stretches into a whole call that nothing interrupts: `RedisBridge.Sync`,
`History.RunOnce`, `WebsocketWorker.Send`. Coordinates are integers (degrees times 10^7),
times are integer milliseconds.

The main results, one per core:

- `LiveView.LiveViewTheorem`: a connection either owes a snapshot, or client, wire, pending
  delta and undrained delta add up to the hub's picture of the window its client asked for
  last; `ConnectionHistory.CatchesUp`: from any state it gets there.
- `HubHistory.LatestIsNewest`, `Records.TrackIsExact`, `PositionIsNewestReport`,
  `PresenceIsWhereItStood`: what hub and tables hold, told from the reports alone.
- `ShippedBrowser.ShippedBrowserTheorem` and `LostIff`: the browser as shipped shows that
  picture less the devices its own frames lost it, and which those are at any moment.
- `Confluence.BatchingIsConfluent`, `Sharding.ShardsInterleaveFreely`: neither the cut into
  batches nor the interleaving of shards shows in the outcome.
- `ShardProtocol.DeliveryTheorem`: at-least-once delivery with exactly-once effects.
- `Fleet.RebalancingConverges`: from any distribution of leases rebalancing ends, in balance.
- `AlertHistory.PublishedAlertsAlternate`, `DwellsArePaced`, `Dwelling.RemindersAreOnTime`: what
  users see per zone and device, reminders neither too often nor too late.
- `Sessions.SubscriptionsFollowSessions`: subscriptions agree with sessions whenever idle.
- `AlertLogs.OrderDoesNotMatter`, `Partitions.CoveredIff`, `GeneratorFleet.SameSeedSameReports`.

Where code and promise differ, the code is modelled and the exact extent is proved:

- The browser applies `items` and then `removed`. A device that crosses from one visible cell
  through a hidden one into another visible cell within one tick is in both lists, and the
  screen loses it (`DetourIsLost`). It stays lost exactly until the next frame that names it
  or the next full one (`LostIff`); everything else on the screen is right
  (`RightUnlessLost`). `OverlapIff` says which ticks produce such a frame.
- The hub forgets a device's timestamp when it sweeps it. If the tick that takes the device
  off a slow client's screen turns into a snapshot debt, and an older report of the device
  comes in before the snapshot is written, then the hub shows the older report and the
  browser keeps the newer one (`OldReportIsRefused`, on a run that `RefusalIsReached` starts
  from a freshly started replica). So the theorems about the shipped browser speak of orderly runs: a
  forgotten device comes back with a newer report, as the database guard sees to, and a
  browser that reconnects holds nothing newer than the replica it reaches has accepted.
- A position on longitude 180 is filed in the westernmost column, so a box that ends at 180
  without crossing it misses it (`EasternEdgeIsMissed`, `ContainedIsCovered`).
- A box that crosses 180 and closes on itself names the cells of one column twice when the
  window is the smaller set to walk (`WindowDisjoint`).

## Model

| member | source | states |
|---|---|---|
| `Grid.ContainedIsCovered` | src/geotrack/realtime/grid.py:32-72 | a position inside a box has its cell covered, if and only if it is west of 180, or the box crosses 180, or its west edge is in the westernmost column |
| `Grid.EasternEdgeIsMissed` | src/geotrack/realtime/grid.py:63-72 | the concrete box and position for which coverage fails |
| `Grid.CellIsItsSquare` | src/geotrack/realtime/grid.py:32-34 | a position's cell is the square that holds it, longitude wrapped into [-180, 180) and latitude held within the poles |
| `Grid.CoveredIsReached` | src/geotrack/realtime/grid.py:37-72 | a window names no cell in vain: each is the cell of a position the box reaches |
| `Grid.VisibleByWindow` | src/geotrack/realtime/connection.py:169-176 | walking the window yields each changed cell once per rectangle that holds it |
| `Grid.VisibleByTick` | src/geotrack/realtime/connection.py:177 | testing every changed cell yields each covered one exactly once |
| `Grid.VisibleChunks` | src/geotrack/realtime/connection.py:161-177 | either join selects exactly the covered changed cells, none twice on a disjoint window |
| `Grid.LayersCount` | src/geotrack/realtime/grid.py:42-43 | a cell is covered exactly when some rectangle holds it, by at most one when they are disjoint |
| `Grid.JoinsAgree` | src/geotrack/realtime/connection.py:161-177 | on a disjoint window the two joins agree as multisets |
| `Grid.WindowDisjoint` | src/geotrack/geo.py:51-58 | a box's rectangles are disjoint if and only if it does not cross 180 or its edges lie in different columns |
| `HubState.ApplyMoves` | src/geotrack/realtime/hub.py:112-135 | an accepted report moves exactly one device in every index, and the departures record where it went and nothing else |
| `HubState.ForgetMoves` | src/geotrack/realtime/hub.py:173-182 | a swept device leaves every index and departs to nowhere, all else unchanged |
| `HubState.ApplyKeepsValid` | src/geotrack/realtime/hub.py:112-135 | cell sets stay exact and non-empty, pending changes stay current, cached cells stay equal to re-encoding |
| `HubState.ForgetKeepsValid` | src/geotrack/realtime/hub.py:173-182 | the same for a swept device |
| `HubState.ApplyAllKeepsValid` | src/geotrack/realtime/hub.py:112-135 | the same for any list of reports |
| `TickFrames.SnapshotIsVisible` | src/geotrack/realtime/hub.py:159-171 | a snapshot mixed from cached and fresh cells is the live picture of the window, no device twice |
| `TickFrames.CachedKeepsValid` | src/geotrack/realtime/hub.py:167-170 | every cell a snapshot touched is cached, and the cache stays exact |
| `TickFrames.RunKeepsValid` | src/geotrack/realtime/hub.py:93-223 | the hub's invariant holds after any run of reports and forgettings |
| `TickFrames.BatchIsRun` | src/geotrack/realtime/hub.py:112-135 | a batch is its reports one after the other |
| `TickFrames.SweepIsRun` | src/geotrack/realtime/hub.py:173-182 | a sweep is its devices one after the other |
| `TickFrames.LastExit` | src/geotrack/realtime/hub.py:205-223 | after any run since a drain, a departure is recorded for a cell exactly when the device was there and is gone, and names where it went after its last visit |
| `TickFrames.DisappearanceIsListed` | src/geotrack/realtime/connection.py:139-145 | a device visible at any point since the drain and not visible now is listed as removed, for every window |
| `TickFrames.ListedIsRemoved` | src/geotrack/realtime/connection.py:139-145 | a tick's removed list is exactly the devices that left a covered cell for a place the window does not reach |
| `TickFrames.DrainItems` | src/geotrack/realtime/hub.py:137-149 | a tick's items for a window are exactly the changed devices now in view, with their newest report |
| `TickFrames.DrainCompletes` | src/geotrack/realtime/hub.py:137-149 | a synchronised view plus the delta of a drain is the hub's picture of the window |
| `TickFrames.StepKeepsSynced` | src/geotrack/realtime/hub.py:112-182 | no report or sweep takes a view out of synchronisation |
| `HubHistory.LatestIsNewest` | src/geotrack/realtime/hub.py:112-182 | over every run the hub holds a device exactly if it was heard of since it was last forgotten, with the newest report heard, the first of equally new ones |
| `HubHistory.UpdatesAreNews` | src/geotrack/realtime/hub.py:107-135 | the update counter counts exactly the reports that were news |
| `LiveView.BrowserAgreesIff` | frontend/js/main.js:335-338 | one frame: apply-then-remove equals "items win" if and only if no device is listed twice and no item is older than the one on screen |
| `LiveView.DrainedKeepsValid` | src/geotrack/realtime/hub.py:148-157 | draining or discarding a tick keeps the hub's invariant |
| `LiveView.TickCompletes` | src/geotrack/realtime/gateway.py:407-425 | after a tick a watching client owes a snapshot or, fully folded, shows the hub's picture |
| `LiveView.StepKeepsInv` | src/geotrack/realtime/connection.py:121-246 | every step keeps every connection synchronised or owing a snapshot |
| `LiveView.RunKeepsInv` | src/geotrack/realtime/gateway.py:286-301 | so does every run |
| `LiveView.MemoryIsBounded` | src/geotrack/realtime/connection.py:132-207 | in every reachable state a connection keeps one delta or one snapshot debt, never both, and no more control frames than its limit |
| `LiveView.WindowIsLastAsked` | src/geotrack/realtime/connection.py:121-130 | in every run a connection serves the window its client asked for last |
| `LiveView.NoWindowUnasked` | src/geotrack/realtime/connection.py:101 | and none before its first request |
| `LiveView.LiveViewTheorem` | src/geotrack/realtime/gateway.py:407-425 | in every reachable state, unless a snapshot is owed, client, wire, pending delta and undrained delta add up to the hub restricted to the window asked for last |
| `LiveView.QuietClientIsExact` | src/geotrack/realtime/gateway.py:407-425 | after a tick, a client with nothing under way shows exactly the window it asked for |
| `LiveView.BoxIsServed` | src/geotrack/realtime/connection.py:121-130 | a device inside the box asked for is shown with its newest report, 180 itself excepted as the window rules say |
| `ConnectionHistory.CatchesUp` | src/geotrack/realtime/connection.py:209-246 | from any reachable state a tick, the sends that empty the queues and their deliveries leave the client with exactly its window and every control frame |
| `ConnectionHistory.DebtHasCause` | src/geotrack/realtime/connection.py:121-159 | a snapshot is owed only after a window move, or a tick with news for the window while a delta was pending |
| `ConnectionHistory.ControlInOrder` | src/geotrack/realtime/connection.py:179-191 | control frames written and waiting spell out those queued, in order and none lost, until the connection closes |
| `ConnectionHistory.ClosedIff` | src/geotrack/realtime/connection.py:179-207 | a connection is closing exactly if it was hung up or one control frame came too many |
| `ShippedBrowser.RunKeepsOrdered` | frontend/js/devices.js:93-118 | with returning devices newer than before, frames under way only move devices forward in time |
| `ShippedBrowser.DeliveryExact` | frontend/js/main.js:335-338 | a delivery leaves the shipped browser right if and only if the frame lists no device twice |
| `ShippedBrowser.OverlapIff` | src/geotrack/realtime/connection.py:132-152 | a tick's frame lists a device twice if and only if a device now in view left a covered cell for a hidden place since the drain |
| `ShippedBrowser.ShippedBrowserTheorem` | frontend/js/devices.js:93-125 | in every state of every orderly run the shipped browser is "items win" less the set of lost devices, all of which "items win" shows |
| `ShippedBrowser.RightUnlessLost` | frontend/js/devices.js:93-125 | a screen is right if and only if nothing is lost, and never wrong about a device it shows |
| `ShippedBrowser.LostIff` | frontend/js/main.js:335-338 | a device is lost exactly from a frame that lists it both ways until the next frame that names it or is full |
| `ShippedBrowser.NoOverlapIsRight` | frontend/js/main.js:335-338 | a browser none of whose own frames so far listed a device both ways is right |
| `ShippedBrowser.QuietScreenIsExact` | frontend/js/main.js:335-338 | after a tick, with nothing under way, the screen is the hub's picture of the window asked for less the lost devices |
| `Disagreements.DetourIsLost` | frontend/js/main.js:335-338 | the concrete run in which the shipped order drops a visible device |
| `Disagreements.OldReportIsRefused` | frontend/js/devices.js:97-98 | from any state with a pending delta, a sweep, a tick, an older report, a send and a delivery end with the hub showing the older report and the browser the newer |
| `Disagreements.RefusalIsReached` | src/geotrack/realtime/hub.py:173-182 | a whole run from a starting replica into that disagreement |
| `Gateway.PositionHub.constructor` | src/geotrack/realtime/hub.py:94-101 | an empty hub |
| `Gateway.PositionHub.Touch` | src/geotrack/realtime/hub.py:205-211 | computes `HubState.Touch` |
| `Gateway.PositionHub.Leave` | src/geotrack/realtime/hub.py:213-223 | computes `HubState.Leave` |
| `Gateway.PositionHub.Apply` | src/geotrack/realtime/hub.py:112-135 | folds the reports in order, keeps the invariant, counts the accepted ones |
| `Gateway.PositionHub.ApplyOne` | src/geotrack/realtime/hub.py:114-130 | one report: refused unless newer, otherwise filed |
| `Gateway.PositionHub.Drain` | src/geotrack/realtime/hub.py:137-149 | hands over the tick's delta and clears it |
| `Gateway.PositionHub.DiscardPending` | src/geotrack/realtime/hub.py:151-157 | clears the delta and leaves the picture |
| `Gateway.PositionHub.SnapshotChunks` | src/geotrack/realtime/hub.py:159-171 | the visible cells, cached for the next client |
| `Gateway.PositionHub.Sweep` | src/geotrack/realtime/hub.py:173-182 | exactly the devices older than the cutoff are forgotten, the rest untouched |
| `Gateway.ClientConnection.constructor` | src/geotrack/realtime/connection.py:81-106 | a fresh connection |
| `Gateway.ClientConnection.SetViewport` | src/geotrack/realtime/connection.py:121-130 | the box's rectangles become the window, the old delta is dropped and a snapshot owed |
| `Gateway.ClientConnection.OfferPositions` | src/geotrack/realtime/connection.py:132-159 | one delta is kept, a second one turns into a snapshot debt |
| `Gateway.ClientConnection.SendControl` | src/geotrack/realtime/connection.py:179-191 | queued, or the slow consumer is closed |
| `Gateway.ClientConnection.RequestClose` | src/geotrack/realtime/connection.py:193-207 | closes once and drops everything pending |
| `Gateway.ClientConnection.NextFrame` | src/geotrack/realtime/connection.py:235-246 | control first, then a snapshot debt, then the delta |
| `Gateway.FanOut` | src/geotrack/realtime/gateway.py:407-425 | watched or discarded, the tick takes every connection where the step system puts it |
| `DeviceStores.FoldIsMerge` | frontend/js/devices.js:93-114 | folding items one by one, in any order and with repeats, is the live view's merge |
| `DeviceStores.AppliedIsBrowse` | frontend/js/devices.js:93-125 | items, full-frame cut and removals together are the live view's browser |
| `DeviceStores.DeviceStore.constructor` | frontend/js/devices.js:41-52 | an empty store with at least one slot |
| `DeviceStores.DeviceStore.VisibleIffLive` | frontend/js/devices.js:211-220 | a slot has a radius exactly while its device is live, and then the place and colour of that device |
| `DeviceStores.DeviceStore.Grow` | frontend/js/devices.js:222-230 | doubling the buffers changes nothing that is drawn |
| `DeviceStores.DeviceStore.Reserve` | frontend/js/devices.js:197-207 | nobody's slot ever changes, and a new device gets one nobody has |
| `DeviceStores.DeviceStore.Admit` | frontend/js/devices.js:197-214 | the device becomes visible in its colour, every other slot as it was |
| `DeviceStores.DeviceStore.Take` | frontend/js/devices.js:95-114 | one item: ignored unless newer, otherwise live, visible and aimed |
| `DeviceStores.DeviceStore.Apply` | frontend/js/devices.js:93-118 | the live map becomes the merge; a full frame leaves exactly its own devices; no slot changes; visible exactly while live, coloured by highlight |
| `DeviceStores.DeviceStore.Remove` | frontend/js/devices.js:120-125 | exactly the named devices go and are hidden |
| `DeviceStores.DeviceStore.Sweep` | frontend/js/devices.js:128-135 | exactly the stale devices go, and are the ones returned |
| `DeviceStores.DeviceStore.SetHighlighted` | frontend/js/devices.js:168-177 | repainting only the difference leaves every visible colour right |
| `DeviceStores.DeviceStore.Hide` | frontend/js/devices.js:216-220 | radius and alpha zero, no other slot touched |
| `DeviceStores.DeviceStore.Paint` | frontend/js/devices.js:232-237 | colours a live device and leaves hidden ones hidden |
| `DeviceStores.OnPositions` | frontend/js/main.js:335-338 | the page's handler on the real store is the browser of the live-view theorems |
| `Geofence.NewestIsNewest` | src/geotrack/processor/batch.py:300-311 | one report per device, from the batch, none in the batch newer |
| `Geofence.LatestPerDevice` | src/geotrack/processor/batch.py:300-311 | the latest per device, devices ordered by where they first turn up, none twice |
| `Geofence.AppearancesInOrder` | src/geotrack/processor/batch.py:306-311 | that order is the order of each device's first report |
| `Geofence.SortedIsSorted` | src/geotrack/processor/batch.py:221-231 | alerts are numbered by time, then zone, then device; no event lost or invented |
| `Geofence.KeepSorted` | src/geotrack/processor/batch.py:221-231 | selecting from a batch's events and ordering them commute |
| `Confluence.AcceptedIsFreshest` | src/geotrack/processor/batch.py:126-142 | deduplicating first and guarding after equals guarding every report |
| `Confluence.BatchAbsorbs` | src/geotrack/processor/batch.py:130-142 | after a batch the stored position is at least as new as each of its reports |
| `Confluence.StaysAbsorbedForever` | src/geotrack/processor/batch.py:130-142 | and stays so through any later batches and zone edits |
| `Confluence.ReplayChangesNothing` | src/geotrack/processor/batch.py:93-142 | re-applying committed reports later, regrouped at will, changes no position, presence row or alert |
| `Confluence.BatchIsSingles` | src/geotrack/processor/batch.py:113-219 | one batch leaves the positions and presence pairs of its reports taken singly |
| `Confluence.AnySplit` | src/geotrack/processor/batch.py:113-219 | so does any sequence of batches, history included |
| `Confluence.BatchingIsConfluent` | src/geotrack/processor/batch.py:113-219 | two ways to cut a report list into batches end alike |
| `Records.TrackIsExact` | src/geotrack/processor/batch.py:93-109 | over every run a track row exists exactly for the devices and times it had or some report names, never changes, and holds the first report that names it |
| `Records.PositionIsNewestReport` | src/geotrack/processor/batch.py:130-142 | over every run a device's row carries place, time and receipt of the newest report committed of it, the first of equally new ones |
| `Records.PresenceIsWhereItStood` | src/geotrack/processor/batch.py:147-219 | over every run, zones edited at will, a presence row exists exactly where the report that last moved the device put it inside the area the zone had then, the zone not deleted since |
| `Records.ZonesAreLastEdited` | src/geotrack/processor/batch.py:147-156 | the zones a batch sees are those of the last edits |
| `Sharding.BatchIsLocal` | src/geotrack/processor/batch.py:113-231 | what a batch does to a device depends only on what is known of that device |
| `Sharding.BatchIsElsewhere` | src/geotrack/processor/batch.py:113-231 | a batch without a device leaves it alone |
| `Sharding.OnlyOwnShardMatters` | src/geotrack/sharding.py:10-13 | a device ends as if only its own shard's batches had run |
| `Sharding.ShardsInterleaveFreely` | src/geotrack/sharding.py:10-13 | schedules that keep each shard's order agree on all tables, and on the alerts up to identities |
| `AlertHistory.LegalStory` | src/geotrack/processor/batch.py:158-195 | a legal story reads enter, dwell*, exit, repeated |
| `AlertHistory.AlertsAlternate` | src/geotrack/processor/batch.py:158-219 | over every run of batches and zone edits each pair's transitions alternate at increasing times and end inside exactly while a presence row exists |
| `AlertHistory.AlertsAreFilteredStory` | src/geotrack/processor/batch.py:182-195 | over every run, toggles switched at will: a pair's published alerts are its alternating story less exactly the events its zone did not ask for when their batch ran |
| `AlertHistory.AllAnnounced` | src/geotrack/processor/batch.py:182-195 | with both toggles on throughout, every transition is announced |
| `AlertHistory.PublishedAlertsAlternate` | src/geotrack/processor/batch.py:182-231 | then the published alerts themselves alternate |
| `AlertHistory.RunKeepsRows` | src/geotrack/processor/batch.py:197-213 | entered <= last alert <= last seen, and last seen is the stored position's time |
| `AlertHistory.DwellsArePaced` | src/geotrack/processor/batch.py:184-213 | never too often: at most one reminder per full interval of the time seen inside |
| `Dwelling.NothingSaid` | src/geotrack/processor/batch.py:126-142 | a batch that does not move a device leaves its row and its story alone |
| `Dwelling.EnterSaid` | src/geotrack/processor/batch.py:158-206 | moving in raises one enter at the report's time and place, announced as asked, and dates a new row |
| `Dwelling.DwellIff` | src/geotrack/processor/batch.py:182-213 | staying raises a reminder if and only if a full interval has gone by since the last one or the entry; the row restarts its clock exactly then |
| `Dwelling.ExitSaid` | src/geotrack/processor/batch.py:166-219 | moving out raises one exit, announced as asked, and ends the row |
| `Dwelling.OutsideSaid` | src/geotrack/processor/batch.py:147-219 | moving about outside raises nothing |
| `Dwelling.RowsTellTheStory` | src/geotrack/processor/batch.py:197-213 | over every run a row's entry is the last enter and its clock the last enter or reminder |
| `Dwelling.RemindersAreOnTime` | src/geotrack/processor/batch.py:184-213 | never too late: over every run with a fixed interval nobody is seen inside a full interval past the last enter or reminder without a new one |
| `Delivery.Decode` | src/geotrack/processor/consumer.py:250-265 | the decodable entries in order, each with its source, and the ids of the others |
| `Delivery.SplitStorable` | src/geotrack/processor/batch.py:339-351 | exactly the storable records in order, and the index of every one that is misnamed, older than the retention or beyond the skew |
| `Delivery.Triage` | src/geotrack/processor/consumer.py:227-248 | every entry is applied or dead-lettered, and every reject is traced to its own entry |
| `Delivery.CommittedIsAbsorbed` | src/geotrack/processor/consumer.py:227-248 | a committed entry's record is absorbed by the database ever after |
| `Delivery.ExactlyOnceEffects` | src/geotrack/processor/batch.py:93-142 | any history of repeated commits reads as if each entry had been committed once, the first time |
| `Delivery.OnceIsOnce` | src/geotrack/processor/consumer.py:113-154 | that history commits the same entries, none of them twice |
| `ShardProtocol.StepKeepsInv` | src/geotrack/processor/consumer.py:113-170 | every step, crash or failure keeps the books |
| `ShardProtocol.DeliveryTheorem` | src/geotrack/processor/consumer.py:113-307 | in every run an entry that left the stream was committed or dead-lettered, and the database reads as if every committed entry had been committed exactly once |
| `ShardProtocol.LeaseStands` | src/geotrack/processor/leases.py:25-37 | over any stretch of a run, whatever other replicas try, a lease stays as it is until its holder acts on it or it expires |
| `ShardProtocol.OneLastBatch` | src/geotrack/processor/consumer.py:143-170 | while the lease is not its replica's, a consumer commits at most the one batch whose check had succeeded |
| `ShardHistory.BatchIsHandled` | src/geotrack/processor/consumer.py:227-307 | a lease holder without failures handles what it reads: storable entries committed, the others dead-lettered, exactly these leave the stream |
| `ShardHistory.LosersStop` | src/geotrack/processor/consumer.py:143-170 | without the lease a consumer stops and leaves everything as it was |
| `ShardHistory.EntriesAreJudgedFairly` | src/geotrack/processor/consumer.py:227-265 | in every run an entry is dead-lettered only if it could not be stored at some moment so far, committed only if it could |
| `ShardHistory.RenewedLeaseIsKept` | src/geotrack/processor/leases.py:25-30 | a lease renewed in time is kept, each renewal moving its expiry to where it asked |
| `ShardHistory.LeaseChangesHands` | src/geotrack/processor/leases.py:128-142 | a free lease goes to the first to ask, and is free again on release or expiry |
| `FairShare.PlanReleases` | src/geotrack/processor/leases.py:68-79 | exactly the surplus is released, the highest shards |
| `FairShare.PlanOffers` | src/geotrack/processor/leases.py:81-84 | a replica below its share is offered every shard it does not hold, any other none |
| `FairShare.CeilCovers` | src/geotrack/processor/leases.py:69 | all shares together cover every shard |
| `FairShare.TargetIsFairShare` | src/geotrack/processor/leases.py:68-69 | the target is the least share that covers the shards, and zero only for none |
| `FairShare.PlanFollowsRing` | src/geotrack/processor/leases.py:81-84 | candidates come in ring order from the replica's own offset |
| `Fleet.MovesMakeProgress` | src/geotrack/processor/service.py:276-295 | every begin-drain, release, acquire and expiry decreases the measure |
| `Fleet.SomebodyHasRoom` | src/geotrack/processor/leases.py:61-84 | a free shard means some replica is below its share |
| `Fleet.StuckIsBalanced` | src/geotrack/processor/service.py:276-295 | no move left means every shard owned by a live replica, and live times one less than anybody's holding would not cover the shards |
| `Fleet.RebalancingConverges` | src/geotrack/processor/service.py:276-404 | from any distribution, leases of dead replicas included, and in any order: at most three moves per shard, ending with every shard owned by a live replica and nobody above the share |
| `ProcessorControl.ProcessorService.constructor` | src/geotrack/processor/service.py:112-121 | no shard running, none winding down |
| `ProcessorControl.ProcessorService.BeginDrain` | src/geotrack/processor/service.py:366-378 | a running shard moves to winding down; never both |
| `ProcessorControl.ProcessorService.StartRound` | src/geotrack/processor/service.py:276-306 | what stopped on its own winds down, to be released |
| `ProcessorControl.ProcessorService.HeartbeatReply` | src/geotrack/processor/service.py:280-293 | exactly the planned shards wind down, to be released, and the first candidate that is free is asked for unless the share is full |
| `ProcessorControl.ProcessorService.TryNext` | src/geotrack/processor/service.py:285-293 | the first candidate not winding down here is asked for, the rest kept; rests only at the target or with none left |
| `ProcessorControl.ProcessorService.AcquireReply` | src/geotrack/processor/service.py:285-294 | a taken lease starts a consumer, never beside one that winds down, and the walk goes on down the rest |
| `ProcessorControl.ProcessorService.RoundFailed` | src/geotrack/processor/service.py:268-274 | a round cut short by Redis leaves what it did in order |
| `ProcessorControl.ProcessorService.RenewReply` | src/geotrack/processor/service.py:318-342 | lost shards stop and are no longer this replica's to hand back |
| `ProcessorControl.ProcessorService.DrainFinished` | src/geotrack/processor/service.py:392-399 | the lease goes back only if it is still ours |
| `Sessions.StepKeepsInv` | src/geotrack/realtime/registry.py:45-109 | every step between awaits keeps sessions, locks, hooks and subscriptions in agreement |
| `Sessions.SubscriptionsFollowSessions` | src/geotrack/realtime/registry.py:86-109 | in every run: session limit kept, hooks alternate, and an idle user is subscribed and wanted exactly while holding a session |
| `Sessions.SessionsAreOpenConnections` | src/geotrack/realtime/registry.py:45-72 | over every interleaving a user's sessions are exactly the connections admitted below the limit and not disconnected since |
| `Sessions.CallerSettles` | src/geotrack/realtime/registry.py:98-109 | a caller whose turn has come signs off, at once or after one hook, with the subscription as the sessions call for |
| `Registry.ConnectionRegistry.constructor` | src/geotrack/realtime/registry.py:35-43 | nobody connected |
| `Registry.ConnectionRegistry.Add` | src/geotrack/realtime/registry.py:45-61 | admitted exactly below the limit, beside the sessions already held; takes the `Sessions` step |
| `Registry.ConnectionRegistry.Remove` | src/geotrack/realtime/registry.py:63-72 | takes the `Sessions` step, an unknown connection changes nothing |
| `Registry.ConnectionRegistry.Enter` | src/geotrack/realtime/registry.py:93-105 | takes the lock and starts the hook that closes the gap, if there is one |
| `Registry.ConnectionRegistry.Resume` | src/geotrack/realtime/registry.py:99-109 | records the hook and looks again; a settled caller signs off |
| `Registry.JoinKeepsExact` | src/geotrack/realtime/registry.py:93-96 | a joining caller shares the one object its user has |
| `Registry.DepartKeepsExact` | src/geotrack/realtime/registry.py:106-109 | the object is dropped exactly when its last caller leaves |
| `Registry.RedisBridge.constructor` | src/geotrack/realtime/bridge.py:61-62 | wants the positions channel, holds nothing |
| `Registry.RedisBridge.BeginApply` | src/geotrack/realtime/bridge.py:156-162 | the change notes both differences and awaits the command needed first; none if in sync |
| `Registry.RedisBridge.UnsubscribeReply` | src/geotrack/realtime/bridge.py:161-165 | only unwanted channels are let go; a failure ends the change |
| `Registry.RedisBridge.SubscribeReply` | src/geotrack/realtime/bridge.py:164-176 | in sync at the end if the commands landed and the connection was not lost on the way |
| `Registry.RedisBridge.ReadFailed` | src/geotrack/realtime/bridge.py:127-133 | the reader may clear the held channels at any moment, a change under way included, without breaking the books |
| `Registry.RedisBridge.Sync` | src/geotrack/realtime/bridge.py:146-176 | after whatever failures, one undisturbed change is in sync exactly when every command needed landed; a channel that was right stays right |
| `Registry.RedisBridge.SubscribeUser` | src/geotrack/realtime/bridge.py:108-112 | the channel is wanted whether or not Redis answers |
| `Registry.RedisBridge.UnsubscribeUser` | src/geotrack/realtime/bridge.py:114-117 | likewise no longer wanted |
| `Registry.RunHook` | src/geotrack/realtime/gateway.py:388-392 | from the moment a hook holds the lock the bridge wants exactly the positions channel and the channels the sessions call for |
| `AlertLogs.AddKeepsTop` | frontend/js/alerts.js:35-44 | one arrival, new, repeated or evicted before: the log stays the largest ids ever offered, newest first |
| `AlertLogs.TopIsUnique` | frontend/js/alerts.js:35-44 | the set of ids ever offered determines the log |
| `AlertLogs.AddAllIsTop` | frontend/js/alerts.js:35-48 | after any arrivals the log is the `capacity` largest ids, strictly descending |
| `AlertLogs.OrderDoesNotMatter` | frontend/js/alerts.js:35-48 | live and backfilled arrivals give the same log in any order |
| `AlertLogs.AlertLog.constructor` | frontend/js/alerts.js:21-23 | an empty log |
| `AlertLogs.AlertLog.InsertionIndex` | frontend/js/alerts.js:56-65 | binary search finds the first id that is not larger |
| `AlertLogs.AlertLog.Add` | frontend/js/alerts.js:35-44 | refused exactly if held; ids, items and the highest id ever seen stay in step |
| `AlertLogs.AlertLog.Trim` | frontend/js/alerts.js:40-42 | evicts from the old end only |
| `Partitions.History.constructor` | migrations/versions/0001_initial.py:187-190 | the migration's window of partitions |
| `Partitions.History.Ensure` | migrations/versions/0001_initial.py:130-158 | exactly the missing days of the window are created and counted; a reversed window is an error |
| `Partitions.History.Drop` | migrations/versions/0001_initial.py:161-184 | exactly the days before the cutoff are dropped and counted |
| `Partitions.History.TakeLead` | src/geotrack/processor/maintenance.py:102-105 | taken exactly if nobody holds it |
| `Partitions.History.LeaseExpired` | src/geotrack/processor/maintenance.py:27-30 | the lease ends with its time to live, so the next round can be led |
| `Partitions.History.Maintain` | src/geotrack/processor/maintenance.py:83-92 | the transaction moves the window to this round's, or changes nothing |
| `Partitions.History.GiveUpLead` | src/geotrack/processor/maintenance.py:107-112 | gives back its own lease and never another's |
| `Partitions.History.RunOnce` | src/geotrack/processor/maintenance.py:79-112 | an undisturbed round leads and moves the window, or changes nothing and leaves the lease free |
| `Partitions.WindowIsExact` | src/geotrack/processor/maintenance.py:33-50 | after any run of rounds the partitions are exactly the last round's window |
| `Partitions.CoveredIff` | src/geotrack/processor/batch.py:455-478 | every storable time has a partition if and only if the last round's window reaches from the day of the oldest to the day of the newest, for all settings and times |
| `Partitions.StorableHasPartition` | src/geotrack/processor/maintenance.py:33-50 | elapsed time plus skew within two days, and the batch keeping no more than the last round did: every storable report has its partition |
| `Partitions.History.AlwaysCovered` | src/geotrack/processor/maintenance.py:79-92 | so for the stored partitions themselves, after any sequence of rounds, failures and lease changes |
| `GeneratorFleet.FirstIsPrefix` | generator.py:1043-1059 | a device's first reports do not change as it reports more |
| `GeneratorFleet.SameSeedSameReports` | generator.py:995-1059 | two runs of one seed agree on every report of every device that both got to |
| `GeneratorFleet.StreamsAreSeparate` | generator.py:195-207 | a device's place comes from its movement stream and step lengths from its interval stream, the plain interval first and one draw per report after |
| `GeneratorFleet.ReportIsPathEnd` | generator.py:1043-1059 | report n is where n such steps lead |
| `GeneratorFleet.InsertedLoad` | generator.py:328-329 | a push adds one entry for its device |
| `GeneratorFleet.Schedule.Push` | generator.py:328-329 | the deadline is added in order |
| `GeneratorFleet.Schedule.PopDue` | generator.py:331-335 | exactly the due devices, earliest first, nobody due left |
| `GeneratorFleet.DueIsDistinct` | generator.py:972-981 | popped devices are distinct members of the fleet |
| `GeneratorFleet.Devices.constructor` | generator.py:995-1007 | every device starts with the plain interval |
| `GeneratorFleet.Devices.Drive` | generator.py:1012-1025 | a second owner is refused; a returning one re-arms |
| `GeneratorFleet.Devices.Start` | generator.py:1027-1041 | every device is scheduled exactly once, at its share of the ramp-up plus a part of an interval, whatever was scheduled before |
| `GeneratorFleet.Devices.Step` | generator.py:1043-1053 | the device's next report, from its own stream; no other device moves |
| `GeneratorFleet.Devices.Reschedule` | generator.py:1055-1059 | due again after the step length just drawn, the one draw on the interval stream per report |
| `GeneratorFleet.Devices.Defer` | generator.py:1061-1068 | due after the pause plus an interval that the schedule draws for itself; the device's streams untouched |
| `GeneratorFleet.Devices.ServeAll` | generator.py:1178-1181 | each due device reports once, the reports are the new end of the log, and each is due again after its own step length |
| `GeneratorFleet.Devices.DeferAll` | generator.py:1169-1176 | a throttle moves nobody and the schedule is whole again |
| `ReportFlow.Batcher.constructor` | generator.py:359-363 | an empty batcher |
| `ReportFlow.Batcher.Add` | generator.py:368-371 | appended; the first report sets the deadline |
| `ReportFlow.Batcher.Take` | generator.py:381-392 | a prefix within the limit leaves, the rest stays in order |
| `ReportFlow.HttpRunner.constructor` | generator.py:1256-1271 | an idle runner |
| `ReportFlow.HttpRunner.Offer` | generator.py:1329-1339 | queued at the back; a full queue sheds its oldest batch and counts it |
| `ReportFlow.HttpRunner.DrainReady` | generator.py:1319-1320 | terminates with no batch full or overdue, order kept, and no batch leaves before it is full unless the window is over |
| `ReportFlow.HttpRunner.Tick` | generator.py:1311-1321 | exactly the due devices report, once each, and the books still balance |
| `ReportFlow.HttpRunner.Pull` | generator.py:1341-1345 | batches leave in order |
| `ReportFlow.HttpRunner.Attempt` | generator.py:1347-1391 | a batch is booked once, when it is answered or out of attempts |
| `ReportFlow.HttpRunner.Balance` | generator.py:1303-1391 | produced = sent + dropped + batched + queued + held at every await |
| `ReportFlow.ChunkedIsAll` | generator.py:303-305 | frames carry everything in order, all but the last full |
| `ReportFlow.WebsocketWorker.constructor` | generator.py:1086-1107 | an idle worker |
| `ReportFlow.WebsocketWorker.Throttled` | generator.py:1236-1240 | no pause shortens another |
| `ReportFlow.WebsocketWorker.FrameTaken` | generator.py:1189-1194 | one frame from flight to wire: at every await produced = sent + dropped + in flight, and the wire spells out the reports that got through |
| `ReportFlow.WebsocketWorker.SocketFailed` | generator.py:1195-1200 | what is in flight is counted as dropped |
| `ReportFlow.WebsocketWorker.Send` | generator.py:1185-1200 | a whole send: the frames before the failure are on the wire, and sent + dropped grows by exactly the reports given |
| `ReportFlow.WebsocketWorker.Turn` | generator.py:1160-1183 | exactly the due devices report, or nobody under a throttle; the frames in flight are the new end of the log |

## Left out

- JSON, byte encodings and frame headers: a serialised cell is the set of items it carries, a
  frame its items, its removed devices and whether it is full.
- Binary floats: coordinates, sizes and times are integers; glide interpolation, `since`,
  `origin` and `drawn` buffers of the device store are not modelled.
- The browser's own sweep runs on the browser's clock: it is proved as a method of the store
  but is not an action of the live-view run, whose browser only receives frames.
- PostGIS: a zone's area is an arbitrary predicate on points; index prefilters and query plans
  are not modelled. Device and zone ids are integers in the batch engine, where their order
  matters; owner and zone-name columns of alerts are left out.
- `Geofence.ApplyBatch` keeps history rows for ever; dropping old days is modelled in
  `Partitions` on the set of days alone.
- Database retries and time-outs: an attempt that fails is a step that changes nothing, or one
  that commits and whose reply is lost.
- Dead letters are never trimmed in the model; the stream's approximate length limit is not.
- Redis group cursors: a consumer may read any entries still in the stream, which includes
  every order the cursors produce. Delivery is a safety claim: an entry claimed by an owner
  that has just lost its lease may wait until it is next re-read.
- `Fleet.RebalancingConverges`: assumes that the live replicas agree on their number and renew
  their leases in time; disagreement during membership changes is not covered.
- Hooks that raise, and the fleet-wide session count: only the per-replica limit is claimed.
- `GeneratorFleet.Schedule` is kept as the order its heap is popped in; heap layout is library
  code. Movement, jitter and start-up spread are arbitrary functions of the random streams.
- `ReportFlow.HttpRunner.Balance`: for runs in which the producer and the senders do not crash;
  a restarted producer begins with an empty batcher.
- Acknowledgement bookkeeping of the websocket worker, latency samples and counters of
  accepted reports.
- `Partitions.History.Maintain`: takes the database clock to advance from one led round to
  the next.
- The device-id pattern is an arbitrary predicate on ids; `AlertLog.addMany` and `clear`.
- Warm start, zone editing endpoints, authentication, settings, metrics, logging, the map and
  the rest of the page: they would only add easy members.
