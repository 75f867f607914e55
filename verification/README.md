# Clever Route: a verified model of its hard parts

This project models nine pieces of the Clever Route server, browser app and WordPress
plugin in Dafny and proves what they are for, over every input or every interleaving:

- `TrackingStream`, `TrackingHandler`: the live tracking stream of a route. It subscribes
  to the hub, queues events while a snapshot is read, drains the queue, goes live, and
  re-reads a snapshot on every heartbeat.
- `NotificationStream`: the admin notification stream, an acquire and release protocol that
  races with the connection closing.
- `RefreshCoalescer`: the browser's single-flight reload of notifications.
- `TrackingAssets`: the walk of a possibly cyclic build manifest that collects css.
- `Rings`, `Polygon`, `Convex`, `Drafts`: the even-odd point-in-polygon test, polygon drafts
  and their GeoJSON form.
- `SortedSets`, `DateSets`, `OrderFilters`, `FilterMeanings`, `FacetRuns`,
  `FacetChoices`, `FacetWeekdays`, `FacetRemovals`: the faceted filters of the orders page.
- `StopOrder`, `StopDecoder`: reordering stops in the browser and decoding the order on
  the server.
- `RawSync`: the self-scheduling raw order sync of the WordPress plugin.
- `BulkGeocoding`: the bulk geocoding job.
- `Text`, `Json`, `Wrappers`: trimming, decoded JSON, optional values and results.

`dafny verify dfyconfig.toml` checks the whole project.

## How the code is modelled

Asynchronous code is a state machine. One action is one stretch of code between two
awaits, or one step of the environment (an event is published, a read returns or fails,
the connection closes, a timer fires). `After(s, actions)` is the state after a run; an
action that is not possible leaves the state alone, so a theorem about all action lists
is a theorem about all interleavings. Beside each machine stands a class with the
closure variables of the source as mutable fields; each of its methods is proved to take
the corresponding step of the machine, and a driver that performs any list of actions is
proved to end in `After`. Histories (what was delivered, written, acquired,
released, logged) are kept in the state so that whole runs can be talked about.
A run of the tracking stream is called honest if events are stored before they are
published and every read sees at least what was stored when it began and nothing that is
not stored yet.

Loops and splices of the source are methods proved against functions; everything else is
a function. Services that are not part of the modelled files appear as parameters: the
answers of a database, geocoder, API or scheduler are functions of the page or position,
and `OrderFilters.Platform` holds collation (a total order), weekday-of-date, the date
check and lower-casing. Coordinates are exact reals.

## What the proofs found

- The heartbeat of the tracking stream is created without looking at `isCleanedUp` again.
  `TimerOutlivesCleanupIff` proves that the timer survives cleanup in exactly the runs in
  which cleanup came before the first snapshot was written, that is, while the operational
  state was being read, or, by an error that left the reply undestroyed, while the snapshot
  was; `TimerLeakWitness` gives a run of each kind.
- If the operational read fails, the handler ends while its hub subscription stays until the
  client closes: `EndedButSubscribedIff`, with the run of `SubscriptionLeakWitness`.
- Only the latest progress event enters the snapshot's id set, so a queued progress event
  that the snapshot already reflects can be written again and set the client's progress
  back, also in a run in which store and reads behave (`ReflectedProgressIsRepeated`).
  `ProgressSetBackIff` says exactly when: the last queued progress event that the snapshot
  does not list is one that it reflects. `ReconciliationRepairs` proves that the next
  reconciliation that is not discarded puts it right. It writes nothing if nothing compared
  differs, so a position that arrives late stays unknown to the client although the read
  lists it (`UnwrittenReadWitness`).
- Reconciling a weekday whose dates are all selected removes them. If other dates stay
  selected, no order is shown, and the pruning that follows clears an area or type filter
  that was not edited: `ChosenWeekdayKeepsFiltersIff`, and `ChosenWeekdayShowsIff` for what
  is in view afterwards. `reconcileOrderFilters` accepts this edit, but no control of the
  orders page makes it: the page only edits the area, the type and the dates.
- A closed draft whose first and last vertex coincide does not survive printing and
  reading, and with three vertices prints a ring of three positions, which section 3.1.6
  of RFC 7946 does not allow. `PrintThenRead` gives both conditions as equivalences.
- A bulk geocoding job whose order presenter throws counts a success that has no result
  (`PresenterFailureLosesAResult`); `Run` states that this is the only way its counts stop
  adding up.
- The raw sync ignores whether its successor could be scheduled, so a chain can end with
  no finalize message (`UnscheduledSuccessorEndsTheChain`); `FixedTotalChain` says exactly
  when it does post one.
- Without a reported total, a page with an unserialisable row counts as the last, and the
  sync finalizes without the pages after it: `UnknownTotalChain` gives the pages uploaded
  as a condition on rows, responses and scheduling, `SkippedRowEndsTheChain` a store.

## Model

| member | source | states |
|---|---|---|
| TrackingStream.EveryDeliveredEventIsShown | apps/delivery-api/src/routes/admin-route-plans.routes.ts:518-582 | in every run, once the first snapshot is sent, the events written are exactly the queued ones whose ids it lacks, then everything published since, in publication order; every delivered event was written or its id is in the snapshot's set |
| TrackingStream.WrittenIff | apps/delivery-api/src/routes/admin-route-plans.routes.ts:518-582 | in every run, once the first snapshot is sent, an event is written, also if that snapshot reflects it, exactly if it was queued and its id is not in the snapshot's set, or it was published after the snapshot |
| TrackingStream.ProgressSetBackIff | apps/delivery-api/src/routes/admin-route-plans.routes.ts:575-582 | in every run, going live leaves the client at the snapshot's progress exactly if the snapshot lists every queued progress event, and sets it back to an older progress that the snapshot reflects exactly if the last queued progress event that is not listed is reflected |
| TrackingStream.ReflectedProgressIsRepeated | apps/delivery-api/src/routes/admin-route-plans.routes.ts:575-582 | for any two progress events, an honest run, with a read that shows the later one, in which the earlier one is written again and the client's progress is set back to it |
| TrackingStream.LastSentIsOnScreen | apps/delivery-api/src/routes/admin-route-plans.routes.ts:523-618 | in every run the lastSent variables are the position, progress, watermark and, up to states that serialise alike, the operational state that a reader of the stream has on the screen; no snapshot repeats what is on the screen, and at most one reconciliation is in progress |
| TrackingStream.StreamOpens | apps/delivery-api/src/routes/admin-route-plans.routes.ts:565-574 | in every run the stream opens with the retry interval and the first snapshot, or ends before the latter |
| TrackingStream.TickIsWritten | apps/delivery-api/src/routes/admin-route-plans.routes.ts:583-628 | every heartbeat is written and starts a read of what is stored by then, one at a time |
| TrackingStream.QuietRouteStaysSilent | apps/delivery-api/src/routes/admin-route-plans.routes.ts:583-628 | from any reachable live state, while nothing is published and reads agree with the screen, no number of heartbeats shows anything further |
| TrackingStream.SnapshotsNeverGoBackwards | apps/delivery-api/src/routes/admin-route-plans.routes.ts:537-618 | if events are stored before they are published and reads see at least what was stored when they began, every snapshot of every run reflects everything the client was sent before it |
| TrackingStream.ScreenNeverGoesBack | apps/delivery-api/src/routes/admin-route-plans.routes.ts:528-618 | if moreover every read shows the latest position and progress of what it reflects, in whatever order, no snapshot of any run takes the position or the progress that the client shows back |
| TrackingStream.FirstSnapshotReflectsTheStore | apps/delivery-api/src/routes/admin-route-plans.routes.ts:554-574 | in every honest run the first snapshot reflects, and the client knows, everything stored when it connected |
| TrackingStream.ReconciliationWrites | apps/delivery-api/src/routes/admin-route-plans.routes.ts:590-618 | in every run a reconciliation that is not discarded appends a snapshot with exactly what was read if position, progress, watermark or operational state differ from the screen, and nothing otherwise; then the screen shows the read |
| TrackingStream.ReconciliationRepairs | apps/delivery-api/src/routes/admin-route-plans.routes.ts:583-618 | in every honest run that read reflects everything written before and everything stored when it began; the client knows all of it exactly if the snapshot was written or it knew before |
| TrackingStream.HeartbeatRepairs | apps/delivery-api/src/routes/admin-route-plans.routes.ts:583-628 | from any reachable live state a heartbeat followed by its two reads writes the heartbeat, then the read unless the screen shows it, and leaves the screen showing it |
| TrackingStream.EndedReadFreesTheSlot | apps/delivery-api/src/routes/admin-route-plans.routes.ts:619-623 | in every run a finished or failed reconciliation lets the next heartbeat start another; a failed one writes nothing |
| TrackingStream.UnwrittenReadWitness | apps/delivery-api/src/routes/admin-route-plans.routes.ts:590-618 | for any position and a later-stored earlier one, an honest run in which a reconciliation that lists the late position is not discarded, not written, and leaves it unknown to the client |
| TrackingStream.CleanedUpStreamIsSilent | apps/delivery-api/src/routes/admin-route-plans.routes.ts:546-553 | after cleanup a stream that went live or ended shows nothing further in any continuation |
| TrackingStream.DestroyedStreamSendsNoSnapshot | apps/delivery-api/src/routes/admin-route-plans.routes.ts:561-597 | once the connection is destroyed no snapshot is sent, unless the first one was already past its check |
| TrackingStream.TimerOutlivesCleanupIff | apps/delivery-api/src/routes/admin-route-plans.routes.ts:546-629 | the heartbeat timer exists after cleanup exactly in runs where cleanup came before the first snapshot was written, during the snapshot read or the operational read |
| TrackingStream.TimerLeakWitness | apps/delivery-api/src/routes/admin-route-plans.routes.ts:567-629 | a run with that leak for each of the two reads |
| TrackingStream.EndedButSubscribedIff | apps/delivery-api/src/routes/admin-route-plans.routes.ts:554-567 | a handler that ended before its first snapshot is still subscribed exactly if the operational read failed and the client has not closed |
| TrackingStream.SubscriptionLeakWitness | apps/delivery-api/src/routes/admin-route-plans.routes.ts:554-567 | a two-step run whose handler has ended and is still subscribed |
| TrackingHandler.Serve | apps/delivery-api/src/routes/admin-route-plans.routes.ts:518-629 | the handler's own methods, run in any interleaving, write exactly the stream of the run, without redundant snapshots and, if the run is honest, never going backwards |
| TrackingHandler.Handler.Drain | apps/delivery-api/src/routes/admin-route-plans.routes.ts:577-582 | the loop writes and remembers exactly the queued events outside the id set, in order |
| NotificationStream.EveryRun | apps/delivery-api/src/routes/admin-commerce-connections-ui.routes.ts:3494-3597 | in every interleaving the subscription is acquired and released at most once and held exactly while the stream is open, the timer runs exactly then, the history of writes is what was written, and once open every invalidation is followed by a change event on the wire unless the reply is destroyed |
| NotificationStream.NothingHeldAtTheEnd | apps/delivery-api/src/routes/admin-commerce-connections-ui.routes.ts:3510-3597 | a stream that returned, was rejected or closed after opening has released all it acquired and has no timer |
| NotificationStream.SubscribedOutcome | apps/delivery-api/src/routes/admin-commerce-connections-ui.routes.ts:3545-3597 | in every run, for every place where starting may fail: when the stream opens, returns or is rejected, what it holds, whether it still listens for close, and exactly what it has written |
| NotificationStream.NotSubscribedOutcome | apps/delivery-api/src/routes/admin-commerce-connections-ui.routes.ts:3536-3597 | an unknown shop or a failed subscription rejects the request, holds and writes nothing and listens no more |
| NotificationStream.ClosedWhileSubscribingIff | apps/delivery-api/src/routes/admin-commerce-connections-ui.routes.ts:3505-3523 | while subscribing, the stream counts as closed exactly if the request was destroyed at first or has closed since |
| NotificationStream.CloseIsHeardOnce | apps/delivery-api/src/routes/admin-commerce-connections-ui.routes.ts:3510-3522 | in every run the close event is heard once and leaves no timer and nothing held |
| NotificationStream.OpenStreamWrites | apps/delivery-api/src/routes/admin-commerce-connections-ui.routes.ts:3526-3575 | while the stream is open and the reply not destroyed, any run of invalidations and ticks is on the wire at once and in order, a change event for each of the former and a heartbeat for each of the latter |
| NotificationStream.PendingInvalidationIsWritten | apps/delivery-api/src/routes/admin-commerce-connections-ui.routes.ts:3526-3570 | any number of invalidations during subscribing are one notification right after the opening heartbeat |
| NotificationStream.ClosedStreamIsSilent | apps/delivery-api/src/routes/admin-commerce-connections-ui.routes.ts:3510-3533 | after close nothing is written or released again in any continuation |
| NotificationStream.Serve | apps/delivery-api/src/routes/admin-commerce-connections-ui.routes.ts:3494-3597 | the handler's own methods, run in any interleaving, write exactly what the history of the run says, have passed on every invalidation once open, and hold the subscription exactly while the stream is open |
| RefreshCoalescer.EveryRun | apps/route-ops-web/src/App.tsx:168-190 | in every run, with loads that resolve or reject: at most one load in flight, no more loads than triggers, none started after close, and every trigger before close is followed by a load or still queued |
| RefreshCoalescer.IdleMeansServed | apps/route-ops-web/src/App.tsx:172-190 | an open coalescer with nothing in flight has started a load after every trigger |
| RefreshCoalescer.TwoLoadsSuffice | apps/route-ops-web/src/App.tsx:179-189 | from any reachable state two settled loads without new triggers reach idle |
| RefreshCoalescer.Refresh | apps/route-ops-web/src/App.tsx:168-205 | run, the settling of loads and close, in any interleaving, keep at most one load in flight, and when idle and open every trigger has been served |
| TrackingAssets.CollectCss | apps/delivery-api/src/routes/customer-tracking.routes.ts:81-87 | for every graph and set of seen keys the recursion terminates, leaves the shared set as the walk does, and returns the css of the newly visited chunks in visiting order |
| TrackingAssets.ReadTrackingAssets | apps/delivery-api/src/routes/customer-tracking.routes.ts:89-103 | the shell links, under the asset base, exactly the css that the chunks reachable from the entry list, chunk by chunk without repetition, and the entry's file if it names one; nothing without a readable manifest |
| TrackingAssets.WalkIsReachable | apps/delivery-api/src/routes/customer-tracking.routes.ts:81-87 | the chunks visited are exactly those that some import path leads to, without repetition |
| TrackingAssets.VisitPostOrder | apps/delivery-api/src/routes/customer-tracking.routes.ts:81-87 | every import of a visited chunk was seen before, is visited before it, or lies on a cycle with it |
| TrackingAssets.ImportedCssComesFirst | apps/delivery-api/src/routes/customer-tracking.routes.ts:81-87 | if a imports b and b does not reach a, all of b's css stands before a's own in the output |
| Polygon.CoordinateInPolygon | apps/route-ops-web/src/routeGrouping.ts:66-79 | the toggling loop returns the parity of ray hits around the ring, false below three vertices; the divisor is never zero |
| Polygon.HitSide | apps/route-ops-web/src/routeGrouping.ts:73-76 | an edge is hit exactly when the point is left of it going up or right of it going down |
| Polygon.TriangleInside | apps/route-ops-web/src/routeGrouping.ts:66-79 | on every triangle of either orientation: strictly within all half-planes implies inside, inside implies within the closed half-planes; a degenerate triangle contains nothing |
| Convex.ConvexInsideIff | apps/route-ops-web/src/routeGrouping.ts:66-79 | on every strictly convex polygon, walked counter-clockwise (backwards changes no answer), a point, on the boundary or not, is inside exactly if it is strictly left of the edge up across its latitude and left of or on the edge down |
| Convex.ConvexInside | apps/route-ops-web/src/routeGrouping.ts:66-79 | so a point strictly left of all edges is inside, and an inside point is within every closed half-plane |
| Polygon.InsideIsOddFan | apps/route-ops-web/src/routeGrouping.ts:66-79 | a point is inside any polygon exactly when an odd number of the triangles of its fan contain it |
| Polygon.DiagonalSplitsInside | apps/route-ops-web/src/routeGrouping.ts:66-79 | cutting along any diagonal gives two polygons whose answers XOR to the original's, for every point |
| Polygon.InsideUnchangedByRotationAndReversal | apps/route-ops-web/src/routeGrouping.ts:66-79 | starting elsewhere or walking backwards changes no answer |
| Polygon.InsideUnchangedByClosing | apps/route-ops-web/src/routeGrouping.ts:66-79 | repeating the first vertex at the end changes no answer |
| Polygon.InsideUnchangedByVertexOnEdge | apps/route-ops-web/src/routeGrouping.ts:66-79 | inserting a vertex on the edge where it goes changes no answer |
| Polygon.OutsideBoundingBox | apps/route-ops-web/src/routeGrouping.ts:66-79 | a point outside the bounding box is outside |
| Rings.ColourChangesAreEven | apps/route-ops-web/src/routeGrouping.ts:69-74 | a closed vertex list crosses any latitude an even number of times |
| Drafts.ReachableClosedDrafts | apps/route-ops-web/src/routeGrouping.ts:4-27 | after any run of edits a closed draft has at least three vertices |
| Drafts.EditsAreUndone | apps/route-ops-web/src/routeGrouping.ts:4-27 | removing undoes appending and reopens, moving back undoes moving; a closed draft takes no append and an index out of range no move |
| Drafts.InsertedVertex | apps/route-ops-web/src/routeGrouping.ts:9-13 | a vertex inserted into a closed draft stands at its clamped index with the others around it unchanged; other drafts take none |
| Drafts.ClampingAndClosing | apps/route-ops-web/src/routeGrouping.ts:9-27 | the index is moved to the nearer end; closing succeeds exactly with three vertices and changes none |
| Drafts.InsertOnEdgeSelectsSamePoints | apps/route-ops-web/src/routeGrouping.ts:9-13 | inserting on an edge of a closed draft, index clamped, selects the same points |
| Drafts.PolygonDraftToGeoJson | apps/route-ops-web/src/routeGrouping.ts:29-38 | null unless closed with three vertices, else the positions with the first repeated unless already last |
| Drafts.PrintThenRead | apps/route-ops-web/src/routeGrouping.ts:29-64 | the printed ring is a linear ring of RFC 7946 iff the ends differ or there are four vertices; reading it back for editing is the identity iff the ends differ |
| Drafts.PrintThenReadSelectsSamePoints | apps/route-ops-web/src/routeGrouping.ts:29-79 | what is read back selects the same points in every case |
| Drafts.ReadRingAppend | apps/route-ops-web/src/routeGrouping.ts:40-64 | reading goes entry by entry, keeps the readable positions in order and skips the others |
| Drafts.ReadPositionIff | apps/route-ops-web/src/routeGrouping.ts:40-64 | an entry is read exactly if its first two items are numbers, longitude first |
| Drafts.PositionIsLongitudeFirst | apps/route-ops-web/src/routeGrouping.ts:29-38 | a position is printed longitude first, as section 3.1.1 of RFC 7946 asks |
| Drafts.OnlyPolygonsAreRead | apps/route-ops-web/src/routeGrouping.ts:40-64 | vertices are read only from the first ring of an object of type Polygon with coordinates |
| Drafts.DegenerateDraftPrintsShortRing | apps/route-ops-web/src/routeGrouping.ts:4-38 | a reachable closed draft whose printed ring is no linear ring |
| DateSets.ParseSerialize | apps/route-ops-web/src/state.ts:498-506 | parsing serialised comma-free values gives the sorted set of their normal forms |
| DateSets.ToggleAsSets | apps/route-ops-web/src/state.ts:231-249 | toggling removes the weekday's dates if all are selected and adds them otherwise, as sets |
| DateSets.ThreeTogglesAreOne | apps/route-ops-web/src/state.ts:231-249 | three toggles give the same text as one |
| DateSets.ToggleDates | apps/route-ops-web/src/state.ts:236-248 | the loop that deletes from or adds to the Set computes the toggle |
| SortedSets.SortUniqueSorts | apps/route-ops-web/src/state.ts:395-403 | the list has exactly the given elements, strictly sorted |
| SortedSets.SortedIsCanonical | apps/route-ops-web/src/state.ts:395-403 | a strictly sorted list is determined by its elements |
| Text.TrimRemovesSpace | apps/route-ops-web/src/state.ts:541-546 | trimming removes white space from both ends and nothing else |
| OrderFilters.ApplyFiltersMember | apps/route-ops-web/src/state.ts:417-486 | the filtered list holds exactly the orders that pass every filter, each as often as before, also on the path that skips filtering |
| OrderFilters.ApplyFiltersAppend | apps/route-ops-web/src/state.ts:417-486 | filtering a concatenation is concatenating the filtered parts, so what is kept stays in order |
| FilterMeanings.FiltersIntersect | apps/route-ops-web/src/state.ts:417-486 | an order passes several filters exactly if it passes each of them alone |
| FilterMeanings.NoFilterShowsAll | apps/route-ops-web/src/state.ts:417-486 | a filter that is blank or "all" shows every order |
| FilterMeanings.DateFilter | apps/route-ops-web/src/state.ts:417-486 | a single date shows the orders on it |
| FilterMeanings.WeekdayFilter | apps/route-ops-web/src/state.ts:417-486 | a weekday shows the orders whose date falls on it |
| FilterMeanings.AreaFilter | apps/route-ops-web/src/state.ts:417-486 | an area shows the orders of it without regard to case |
| FilterMeanings.ServiceSessionAndStatusFilters | apps/route-ops-web/src/state.ts:417-486 | service type, session and delivery status are compared as they are |
| FilterMeanings.TypeFilter | apps/route-ops-web/src/state.ts:417-486 | the type filter compares the trimmed service type, or the session where there is none |
| FilterMeanings.DatesFilter | apps/route-ops-web/src/state.ts:417-486 | a set of dates shows the orders on one of them, whatever the single date says |
| FilterMeanings.PlanningFilter | apps/route-ops-web/src/state.ts:417-486 | planned and unplanned partition the orders and any other status restricts nothing |
| FilterMeanings.SearchFilter | apps/route-ops-web/src/state.ts:417-486 | a search finds an order by any part of any of its texts without regard to case |
| FilterMeanings.TabFilter | apps/route-ops-web/src/state.ts:417-486 | what each tab shows |
| OrderFilters.PruneOrderFilters | apps/route-ops-web/src/state.ts:317-352 | the loop over the edit history and the weekday sync compute Prune |
| OrderFilters.ReconcileOrderFilters | apps/route-ops-web/src/state.ts:261-315 | the stepwise reassignments compute Reconcile for every changed field |
| FacetRuns.PruneKeepsShown | apps/route-ops-web/src/state.ts:317-387 | with valid dates, pruning hides no order that was shown and blanks nothing but perhaps the weekday |
| FacetRuns.ChosenDateShowsAnOrder | apps/route-ops-web/src/state.ts:134-352 | choosing any offered date leaves an order of that date visible, fills in its weekday, clears the set of dates and changes no other filter |
| FacetRuns.ChosenDatesShowAnOrder | apps/route-ops-web/src/state.ts:134-352 | the same for any set of valid dates that contains an offered one; the weekday is the one they share, if any |
| FacetChoices.ChosenDateIsListed | apps/route-ops-web/src/state.ts:261-352 | after choosing an offered date the history lists it, not the weekday nor the set of dates, and area and type as before |
| FacetChoices.ChosenDatesAreListed | apps/route-ops-web/src/state.ts:261-352 | the same for a set of valid dates |
| FacetChoices.EditChangesOneFilter | apps/route-ops-web/src/state.ts:261-387 | an edit of the area or the type that leaves an order in view changes that filter, moves it to the end of the history or takes it out if it is blank, and changes nothing else |
| FacetChoices.ChosenTypeShowsAnOrder | apps/route-ops-web/src/state.ts:134-387 | choosing an offered type keeps it, has an order of that type in view and changes no other filter |
| FacetChoices.ChosenAreaShowsAnOrder | apps/route-ops-web/src/state.ts:134-387 | the same for an offered area |
| FacetChoices.ClearedWeekdayKeepsDates | apps/route-ops-web/src/state.ts:286-352 | taking the weekday back keeps the dates and leaves the weekday that they imply |
| FacetChoices.StaleWeekdayIsIgnored | apps/route-ops-web/src/state.ts:317-329 | a weekday that is neither listed nor backed by dates plays no part in pruning |
| FacetChoices.AreaOptionsAre | apps/route-ops-web/src/state.ts:134-171 | an area is offered exactly if an order has it that only the area filter may hide |
| FacetChoices.TypeOptionsAre | apps/route-ops-web/src/state.ts:134-171 | a type is offered exactly if an order is of it that only the type filter may hide |
| FacetChoices.DateOptionsAre | apps/route-ops-web/src/state.ts:134-171 | a date is offered exactly if an order has it that only the date filters and a weekday they filled in may hide |
| FacetChoices.WeekdayOfferedIff | apps/route-ops-web/src/state.ts:134-171 | a weekday is offered exactly if an order falls on it that only dates and weekday may hide |
| FacetRuns.ChosenDateKeepsOffer | apps/route-ops-web/src/state.ts:134-171 | in every consistent state choosing an offered date keeps every date on offer, and offers exactly the same dates unless the user had chosen a weekday |
| FacetRuns.EveryRunIsConsistent | apps/route-ops-web/src/state.ts:261-352 | along every run of edits and refreshes from the defaults: never both date fields, a weekday shared by the dates is the weekday, a set weekday is listed or implied, every listed field is set and listed once |
| FacetRuns.PruningChangesAtMost | apps/route-ops-web/src/pages/OrdersPage.tsx:303-331 | whatever pool of orders each pruning is given, at most one per listed field and one more change anything |
| FacetRuns.PruningSettles | apps/route-ops-web/src/pages/OrdersPage.tsx:303-331 | pruning again and again with a pool that depends on the filters in any way, as the page does until nothing changes, stops within one round per listed field and one more |
| FacetChoices.RestingPageIsBacked | apps/route-ops-web/src/state.ts:317-387 | once pruning changes nothing more, every listed filter is set and backed by an order that it does not hide, or is a valid date |
| FacetRuns.OfferedDateExists | apps/route-ops-web/src/state.ts:134-171 | every valid date is offered by some page in a consistent state, so the theorems about offered dates are not empty |
| FacetRuns.LawfulPlatformExists | apps/route-ops-web/src/state.ts:251-259 | the laws assumed of collation, dates and lower-casing can be met together |
| FacetWeekdays.ChosenWeekdaySelects | apps/route-ops-web/src/state.ts:231-315 | after choosing a weekday the selected dates are the old ones with the weekday's available dates toggled as a set |
| FacetWeekdays.ChosenWeekdayShowsAnOrder | apps/route-ops-web/src/state.ts:134-387 | unless it removes the weekday's dates and leaves others, choosing an offered weekday leaves an order of that weekday in view, keeps the weekday and changes nothing but the dates |
| FacetRemovals.ChosenWeekdayKeepsFiltersIff | apps/route-ops-web/src/state.ts:286-387 | choosing an offered weekday keeps the area and type filters exactly if it does not remove dates and leave others, or neither is set |
| FacetRemovals.ChosenWeekdayShowsIff | apps/route-ops-web/src/state.ts:286-387 | a choice that does not remove dates and leave others shows an order; one that does clears the listed area and type filters in turn while no order is shown, and then shows an order exactly if one of the dates left is offered and they all share its weekday or it falls on the chosen one |
| FacetRemovals.RemovalClearsAreaWitness | apps/route-ops-web/src/state.ts:286-387 | for any area and two valid dates of different weekdays, a page reached by choosing the area and the dates on which choosing an offered weekday clears the area filter |
| FacetRemovals.RemovalHidesWitness | apps/route-ops-web/src/state.ts:286-387 | a page reached by choosing two dates on which choosing an offered weekday hides the only order, which was in view |
| FacetWeekdays.EveryRunIsValid | apps/route-ops-web/src/state.ts:261-387 | along every run of edits and refreshes the selected dates are valid and every set facet but the weekday is listed |
| StopOrder.MoveStops | apps/route-ops-web/src/state.ts:700-751 | the splices of the three moves, applied one after the other in any run, compute the run and give a renumbered permutation |
| StopOrder.RunIsPermutation | apps/route-ops-web/src/state.ts:700-751 | after any run of moves: a permutation, numbered 1 to n if anything moved, unmoved stops in their original relative order |
| StopOrder.StepIsUndone | apps/route-ops-web/src/state.ts:700-710 | a step that stays within the list exchanges two neighbours and the opposite step undoes it |
| StopOrder.IdleSteps | apps/route-ops-web/src/state.ts:700-710 | a step over the end or of an unknown stop changes nothing |
| StopOrder.IdleDrops | apps/route-ops-web/src/state.ts:715-731 | a drop of a stop on itself, or of or on an unknown stop, changes nothing |
| StopOrder.DropLandsBesideTarget | apps/route-ops-web/src/state.ts:715-731 | the dropped stop stands right before or right after its target |
| StopOrder.MoveToSequenceArrives | apps/route-ops-web/src/state.ts:733-751 | the stop ends up with the number asked for; a number out of range or not an integer changes nothing |
| StopOrder.ChangedIffReordered | apps/route-ops-web/src/state.ts:687-698 | with distinct non-empty ids a run counts as a change exactly when the order differs |
| StopOrder.ChangedIffNamesDiffer | apps/route-ops-web/src/state.ts:687-698 | a saved list counts as unchanged exactly if the draft names the same stops in the same order, by stop id, else source order id, else order id |
| StopDecoder.ReadRouteOpsStopSequence | apps/delivery-api/src/routes/admin-ui-route-planning.ts:587-650 | the pass with its set of seen ids computes Decode, stopping at the first error |
| StopDecoder.AcceptedIff | apps/delivery-api/src/routes/admin-ui-route-planning.ts:587-650 | a request is accepted exactly if it is an array with one entry per stop, all naming known and different stops, and is then placed as given; otherwise no array and wrong length are told apart |
| StopDecoder.FirstBadEntryDecides | apps/delivery-api/src/routes/admin-ui-route-planning.ts:600-650 | the error is that of the first entry that names no stop or one already named |
| StopDecoder.ResolvedIff | apps/delivery-api/src/routes/admin-ui-route-planning.ts:605-635 | an entry names a stop by its trimmed stop id if that is known, otherwise by its source order id, otherwise none |
| StopDecoder.MalformedEntries | apps/delivery-api/src/routes/admin-ui-route-planning.ts:600-613 | an entry that is no object or has a property that is no text is refused with the error for that |
| StopDecoder.AcceptedIsPermutation | apps/delivery-api/src/routes/admin-ui-route-planning.ts:614-649 | any accepted list names every current stop exactly once, numbered in order; a route with a repeated stop id accepts nothing |
| StopDecoder.EntryResolvesBySource | apps/delivery-api/src/routes/admin-ui-route-planning.ts:605-635 | an entry without a known stop id is found by its source order id or order id |
| StopDecoder.MovesAreAccepted | apps/delivery-api/src/routes/admin-ui-route-planning.ts:587-650 | for a route with distinct, trimmed, non-empty stop ids the server accepts the list after any run of moves and reads exactly the order on screen |
| RawSync.EveryChain | apps/wordpress-connector-plugin/includes/class-clever-route-admin.php:418-481 | after any number of jobs: chunk indexes 0, 1, ... without gaps, each with exactly the serialisable rows of its page in order, its id and the reported number of pages; every earlier chunk accepted, totals carried exactly, at most one finalize and only as the last post |
| RawSync.FixedTotalChain | apps/wordpress-connector-plugin/includes/class-clever-route-admin.php:418-532 | with N pages the chain is over after N jobs, and posts finalize exactly when every chunk was accepted and every successor scheduled, with N chunks and the sum of their sizes |
| RawSync.UnscheduledSuccessorEndsTheChain | apps/wordpress-connector-plugin/includes/class-clever-route-admin.php:404-467 | for any rows on two pages, a world in which every chunk is accepted and the chain ends without finalize and without the second page, because no successor could be scheduled |
| RawSync.UnknownTotalChain | apps/wordpress-connector-plugin/includes/class-clever-route-admin.php:446-532 | without a reported total, a page is uploaded exactly when every earlier page was full of serialisable rows, accepted and able to schedule its successor; the chain finalizes at a page exactly when that holds and the page is accepted and not full |
| RawSync.SkippedRowEndsTheChain | apps/wordpress-connector-plugin/includes/class-clever-route-admin.php:487-532 | a store in which one unserialisable row makes the sync finalize after its first page and never upload the order on the second |
| RawSync.NoStoreFinalizesEmpty | apps/wordpress-connector-plugin/includes/class-clever-route-admin.php:487-498 | without WooCommerce the run is finalized with no orders exactly if its one empty chunk is accepted |
| RawSync.OddJobsAreClamped | apps/wordpress-connector-plugin/includes/class-clever-route-admin.php:418-437 | a job without a run id does nothing; impossible pages, sizes and counts are brought into range |
| RawSync.NextJobGoesOn | apps/wordpress-connector-plugin/includes/class-clever-route-admin.php:456-470 | the successor goes on with the next page of the same run and size and adds the orders of this page |
| RawSync.Connector.ReadWooOrdersPage | apps/wordpress-connector-plugin/includes/class-clever-route-admin.php:487-532 | the loop returns exactly the values of the serialisable rows in order and decides whether there is more |
| RawSync.Connector.HandleRawSyncChunkJob | apps/wordpress-connector-plugin/includes/class-clever-route-admin.php:418-481 | one job posts its chunk and schedules a successor, stops, or finalizes |
| RawSync.Connector.RunScheduledJobs | apps/wordpress-connector-plugin/includes/class-clever-route-admin.php:324-333 | with a fixed page count the queue empties and the posts are those of the whole chain |
| BulkGeocoding.Job.GeocodeRow | apps/delivery-api/src/routes/admin-ui-bulk-geocoding.ts:190-259 | one turn records the row's expected result and counts it, or throws leaving an attempt without result exactly if the address was located |
| BulkGeocoding.Job.Run | apps/delivery-api/src/routes/admin-ui-bulk-geocoding.ts:170-268 | the job is suspended at exactly the awaits that the order list and the services give, and every observation there is sound with counts that add up; it completes exactly if nothing throws, with one result for every row whose flag, latitude or longitude is missing, in row order, the others counted as having coordinates; a failed job has counted nothing or stopped at the first row that threw and keeps the message thrown; in the end the counts add up exactly unless the presenter ended it |
| BulkGeocoding.LackingMember | apps/delivery-api/src/routes/admin-ui-bulk-geocoding.ts:182-187 | filtering keeps each row without coordinates as often as it was there and drops the others |
| BulkGeocoding.LackingAppend | apps/delivery-api/src/routes/admin-ui-bulk-geocoding.ts:182-187 | filtering goes row by row, so what is kept stays in order |
| BulkGeocoding.ResultMeans | apps/delivery-api/src/routes/admin-ui-bulk-geocoding.ts:190-259 | each result names its row, and its status, code and message say what became of it |
| BulkGeocoding.ThrownMeans | apps/delivery-api/src/routes/admin-ui-bulk-geocoding.ts:190-267 | the message a failed job keeps is that of the service that threw |
| BulkGeocoding.FinalCountsAddUpIff | apps/delivery-api/src/routes/admin-ui-bulk-geocoding.ts:170-268 | of everything a job can leave behind, also when its order list throws, failed + noAddress + succeeded is the number of results exactly unless the first row that throws does so in the presenter |
| BulkGeocoding.PresenterFailureLosesAResult | apps/delivery-api/src/routes/admin-ui-bulk-geocoding.ts:228-267 | services for one row whose presenter throws: the job fails with a success counted and no result |

## Left out

- HTTP plumbing, authentication, headers and error-to-status mapping of all routes.
- The hub, the database repositories, the geocoder, WooCommerce and the Action Scheduler: environment steps or parameters only; each scheduled job is taken to be run once.
- Payloads of hub events and snapshots beyond their ids, watermark and operational state.
- Freshness end to end between the browser's first load and its stream going live.
- Floating-point rounding, NaN and infinities in the geometry.
- The predicates behind planned, needs review and eligible orders, which are given as flags of an order, and the list of searched fields, given as texts.
- Number coercion, Date parsing, localeCompare and lower-casing: parameters with the stated laws.
- The fixed text of the result for an order that is gone, and the addresses and coordinates passed to the geocoding services.
- The module-level map of geocoding jobs, the clock behind `updatedAt`, and the html that the shell renders around its assets.
- RawSync.Connector.HandleRawSyncChunkJob: takes a decoded job record; the saved error messages and the order query's status and date filters are not modelled.
