# Verified model of the Xray operations control plane

This project models the protocols of a control plane for Xray proxies and proves what they keep over whole
runs. Each module stands for one component; operations that change state are methods over a class with the
component's fields, proved against definitions on values, and the properties are proved about those
definitions. `dafny verify dfyconfig.toml` checks everything.

- **Incremental log collection** (`Lines`, `LogParsing`, `LogDelta`, `LogRuns`, `LogProgress`, `LogBackfill`):
  files are appended to, renamed and expire while a collector with a byte limit and an (identity, offset)
  cursor reads them. An event is a position: the bytes of one line of one file.
- **Publication of report pairs** (`ReportFiles`, `ReportPublish`, `ReportCleanup`, `ReportRuns`): a file system of
  files, directories and symlinks in which an oracle decides for every single operation whether it fails. The
  ghost set `seen` collects what a reader of one arbitrary date could have found after each operation, in one
  call or over a whole run of publications and cleanups.
- **The panel** (`TrafficTables`, `PanelTables`, `PortRules`, `Orders`, `OrderInvariants`, `PanelOperations`,
  `PanelRuns`, `XrayApply`; what each operation does in `TrafficLedger`, `PortEffects`, `OrderEffects`): tables as
  maps, transactions that commit or roll back, five rendered files and two processes. An oracle decides which
  external step fails. The traffic sync, the operation, the automatic disabling and the listing each have their own
  reading of the clock.
- **DNS failover** (`DnsFailover`), **report rules** (`Rules`), **destination metrics** (`DestinationMetrics`,
  `DestinationTail`), **model input** (`ModelInput`) and **AI domains** (`AiRoutes`, `AiHistory`, `AiDomains`, with
  sums in `Partition`; what the section says of its records in `AiMeaning` and `AiSums`).
- **Unified entry** (`Decimal`, `UnifiedEntry`, `EntryGateway`, `ProxyHeader`): who owns a connection, from the
  rendered configuration through subscription, gateway and forwarder to counters and log lines.

Some statements one might expect are false of the code. Each has an input or a run that shows it, and the exact
condition under which it holds:

- A failed publication keeps the visible report: `LegacyReportIsLost`; exactly when it does is `Keeps` in the
  contract of `Publish` (`UndoneKeepsExactly`): of a completed rollback in terms of the directory before and the
  operations that fail, of one that stopped halfway without a former pointer by which stable paths it removed.
- The pair of a managed date stays whole: `FailedRollbackBreaksPair`; it breaks exactly when the rollback fails
  and one file is left without the other (`HalfLeft` in the contract of `Publish`, `TornIsBrokenExactly`).
- Cutting a log anywhere at a boundary is harmless: `CrLfCutRepeats`, `CutIsExact`.
- Flapping is bounded whatever the contents: `EqualContentsFlap`, `BoundedForPrimaryExactly`, `BoundedExactly`.
- A new purchase is served at once: `LeftoverTrafficStopsPurchase`, `PurchaseIsServed`.
- A mutation, the maintenance cycle and start-up leave a listing of exactly the enabled ports:
  `ExpiryBetweenReadings`, `ListedLaterExactly`.
- After start-up the data plane runs the configuration of the moment: `OldConfigRunsOn`; exactly when it does is in
  the contract of `Bootstrap` (`RestartsAtStart`, `SentAtStart`).
- The model-input selection fails only if no shorter selection would fit: `DroppingOneWouldHelp`,
  `ShorterFitsExactly`.
- The report validator accepts every analysis that was built: `UnknownPathIsRefused`; it does exactly when the
  first record of each domain and route has a known path (`BuiltAnalysisIsAccepted`).

The report's bucket for unknown sources is never used (`UnknownBucketIsEmpty`).

## Model

| member | source | states |
|---|---|---|
| Lines.JoinOfLines | components/xray_ops/parsing.py:172-174 | Cutting bytes into lines at LF, CR and CR LF loses nothing and invents nothing: the lines joined are the bytes. |
| Lines.CutIsExact | components/xray_ops/parsing.py:172-176 | Cutting a file at a line boundary and parsing both parts gives the lines of the whole if and only if the cut does not fall inside a CR LF pair. |
| Lines.LineIsExact | components/xray_ops/parsing.py:172-174 | What a line is: it ends behind LF, CR LF or a CR without LF, holds no other LF and no other CR, and only the last may lack its end. |
| LogParsing.ParseLogBytes | components/xray_ops/parsing.py:157-205 | The loop yields one event per complete line, in order; `consumed` is the position after the last terminator and `incomplete` the rest. |
| LogParsing.EventsAreLines | components/xray_ops/parsing.py:173-197 | Of whole lines there are exactly as many events as lines, each as long as its line. |
| LogParsing.EventsAreAdjacent | components/xray_ops/parsing.py:178-179 | Each event starts where the one before it ends, so no byte is skipped or attributed twice. |
| LogParsing.EventsOfCut | components/xray_ops/parsing.py:172-197 | Parsing up to a boundary and from it on gives the events of the whole window. |
| LogParsing.EventsNonempty | components/xray_ops/parsing.py:173-176 | A window yields an event if and only if a line boundary lies behind its start. |
| LogDelta.ReadFiles | components/xray_ops/remote.py:74-104 | The script's loop over the rotated files reads the same segments, final cursor and remaining limit as the recursive definition of reading on from a start. |
| LogDelta.ReadFileDelta | components/xray_ops/remote.py:20-118 | Missing log, choice of start file and offset, gap flag and bounded reading of the whole script. |
| LogDelta.ParseSegments | components/xray_ops/collector.py:387-411 | The collector parses segment after segment; the first unterminated tail stops it and overrides the cursor. |
| LogDelta.StreamCollector.CollectStream | components/xray_ops/collector.py:356-434 | One collection appends its events and moves the cursor in one commit; a missing log changes nothing; a gap is reported as partial. |
| LogRuns.CollectionIsSpan | components/xray_ops/collector.py:387-414 | A collection from a line boundary commits exactly the complete lines up to another line boundary, whatever the limit cuts. |
| LogRuns.SpanOfSpans | components/xray_ops/collector.py:403-414 | The lines of two adjacent spans are the lines of the joined span: nothing lost, repeated or split at a cursor. |
| LogRuns.ResumeAtCursor | components/xray_ops/remote.py:45-72 | With distinct identities the start is the cursor's own file and offset while that file has a name, and otherwise the current file with a gap. |
| LogRuns.StepKeepsInv | components/xray_ops/collector.py:356-434 | Appending, rotating, creating, expiring and collecting each keep the exactly-once invariant. |
| LogRuns.RunKeepsInv | components/xray_ops/collector.py:356-434 | The exactly-once invariant holds after every run of such steps. |
| LogProgress.DeliveredExactlyOnce | components/xray_ops/remote.py:39-105 | From the empty state, over every run without a reported gap, the committed events are exactly the complete lines from the start of the first current file to the cursor, in order. |
| LogProgress.GapExactly | components/xray_ops/remote.py:45-72 | A collection reports a rotation gap if and only if the file of its cursor has none of the three names path.2, path.1 and path; without a current file it reports a missing log and stores nothing. |
| LogProgress.GapInRuns | components/xray_ops/remote.py:45-72 | In every state reachable with distinct identities, the status is partial if and only if there is a current file and a cursor whose identity is that of none of the three files. |
| LogProgress.ResumedInSecond | components/xray_ops/remote.py:45-105 | A collection resumed in path.2 succeeds and commits the complete lines of path.2, path.1 and path, in that order, as far as the byte limit reaches. |
| LogProgress.ResumedInRotated | components/xray_ops/remote.py:45-105 | The same of one resumed in the older of the last two files. |
| LogProgress.StartedInCurrent | components/xray_ops/remote.py:51-105 | The same of the current file, when the cursor is in it, when there is none, or from its beginning after a gap. |
| LogProgress.ShrunkFileStart | components/xray_ops/remote.py:59-72 | A current file shorter than its cursor: reading starts in the newest older file that is long enough, at the cursor's offset; without one at the beginning of the current file, with a gap. |
| LogProgress.LimitReachedExactly | components/xray_ops/remote.py:74-118 | The answer says that the limit was reached if and only if at least that many bytes lay ahead, at least one. |
| LogProgress.StepsCommit | components/xray_ops/collector.py:356-434 | In a run only collections commit and report gaps, and with a log each commits what one collection does. |
| LogProgress.ProgressExactly | components/xray_ops/collector.py:403-411 | A collection commits at least one line if and only if the first unread line fits into the byte limit. |
| LogProgress.UnterminatedRestStalls | components/xray_ops/collector.py:406-411 | An unterminated rest, as a rotation in mid-line leaves it, stops the cursor: the collection commits nothing and stores the same cursor. |
| LogProgress.CollectionAdvances | components/xray_ops/collector.py:387-414 | When every line fits, a collection commits a span, and a nonempty one while complete lines are unread. |
| LogProgress.CatchesUp | components/xray_ops/collector.py:387-414 | When every line fits, as many collections as bytes are unread commit everything up to the last complete line. |
| LogBackfill.BackfillFile | components/xray_ops/collector.py:551-612 | The chunk loop terminates and yields the events and the offset of its recursive definition. |
| LogBackfill.BackfillIsPrefix | components/xray_ops/collector.py:551-612 | Backfill delivers exactly the lines before the first one longer than a chunk, or all complete lines, and stops at that boundary. |
| LogBackfill.BackfillExactly | components/xray_ops/collector.py:551-612 | A chunk size yields every complete line of a file and stops at its last boundary if and only if no line is longer than a chunk; all such sizes agree. |
| LogBackfill.CrLfCutRepeats | components/xray_ops/collector.py:551-612 | Counterexample without the hypothesis on CR LF, for every chunk size: a line one byte longer than a chunk that ends in CR LF is cut inside the pair and delivered as two events, and with chunks one byte larger as one. |
| ReportFiles.PairedIsAtomic | components/xray_ops/report_contract.py:796-870 | In a managed state both files of a date open from one generation, or neither opens. |
| ReportFiles.LosingOneFileBreaksPair | components/xray_ops/report_contract.py:843-858 | A visible pair whose pointer stays is broken as soon as one link or one report file of it goes. |
| ReportPublish.BeforeShowsOld | components/xray_ops/report_contract.py:825-838 | Every state before the pointer is switched, and every state after the switch was undone, shows readers of any managed date what they saw at the start, whatever the published date was. |
| ReportPublish.AfterShowsNew | components/xray_ops/report_contract.py:835-839 | After the one rename of the pointer, readers of the date see both new files, and readers of other dates what they saw. |
| ReportPublish.RolledBackKeepsExactly | components/xray_ops/report_contract.py:840-858 | A state on the way or after a rollback shows of the date what it showed if and only if, without a pointer, nothing visible lost its stable path, or, with one, no stable link was newly placed that shows a file. |
| ReportPublish.TornIsBrokenExactly | components/xray_ops/report_contract.py:843-858 | After a failed rollback the pair is broken if and only if one file is left without the other: without a former pointer, the first stable link was removed and the removal of the second failed; with one, exactly one of the two new report files is left. |
| ReportPublish.LegacyReportIsLost | components/xray_ops/report_contract.py:854-856 | Counterexample, as a run in which nothing fails: publishing over a report file written without generations is refused, and the handler removes that file. |
| ReportPublish.FailedRollbackBreaksPair | components/xray_ops/report_contract.py:843-858 | Counterexample, as a run: the sync after the switch, the removal of the pointer and that of one link fail, and one file of the new pair stays visible without the other. |
| ReportPublish.ReportDirectory.EnsureStableLink | components/xray_ops/report_contract.py:774-786 | An existing path that is not the managed link is refused; otherwise the link stands afterwards, and the stable path is there exactly if it was or the four operations up to its rename succeeded; readers of any managed date see no change. |
| ReportPublish.ReportDirectory.WriteReports | components/xray_ops/report_contract.py:826-830 | Both files are written and renamed inside the new generation, exactly if none of the nine operations fails, without any change for readers of any managed date. |
| ReportPublish.ReportDirectory.Switch | components/xray_ops/report_contract.py:832-839 | Links, temporary link, rename, fsync: whatever step fails, readers of any managed date saw only the old pair, or also the new one once the rename happened; which stable links were placed and whether the rename happened is decided by the operations that fail. |
| ReportPublish.ReportDirectory.RollBack | components/xray_ops/report_contract.py:840-858 | The handler fails to roll back exactly when the pointer was switched and an operation that puts it back fails; otherwise the old pair is visible again and nothing else was seen, for readers of any managed date; in no case is a mixture seen. It states which paths are left, from which the pair is whole or broken. |
| ReportPublish.ReportDirectory.UndoneKeepsExactly | components/xray_ops/report_contract.py:840-858 | A publication that was undone keeps what its date showed if and only if it uncovered no file: with a pointer, no missing stable link through which it leads to a file was reached by the rename without failure; without one, nothing was visible. |
| ReportPublish.ReportDirectory.Publish | components/xray_ops/report_contract.py:796-870 | Whole publication, with an oracle that decides which operations fail: which ones lead to success and which to a failed rollback, exactly; when the pair of a managed date is broken, exactly; when a failed publication keeps what its date showed, exactly; without failures it succeeds if and only if the paths are managed. Unless the rollback fails, readers of any managed date see at every moment the old pair or the complete new pair, in the end the new one on success and the old one on failure; even if it fails, never a mixture, and nothing of other dates. A managed date stays managed. What is cleared away: after success every older generation for which none of its removals failed, all of them if nothing failed, and the temporary names of the new one; after a complete rollback the new generation; and unless two operations fail, every temporary link. |
| ReportPublish.ReportDirectory.RemoveOldGenerations | components/xray_ops/report_contract.py:864-869 | Every generation of the date but the new one goes, except those for which a removal failed, each with a failed operation of its own; nothing else changes. |
| ReportPublish.ReportDirectory.RemoveTemps | components/xray_ops/report_contract.py:856-862 | The temporary names of the publication go unless a removal fails, and nothing else. |
| ReportCleanup.RetireDate | components/xray_ops/report_contract.py:889-896 | An expired date loses its pointer first: readers see its old pair, then nothing; on success nothing of it is left; other dates are untouched. |
| ReportCleanup.RemoveStaleGenerations | components/xray_ops/report_contract.py:904-920 | On success every stale generation is gone but those their date's pointer leads to; nothing else changes, and no visible pair. |
| ReportCleanup.CleanupReports | components/xray_ops/report_contract.py:873-921 | Cleanup shows the same pair throughout for every date that is kept, and only the old pair or nothing for an expired one; on success expired dates, stale names and stale generations without a pointer are gone, nothing else was touched, and the count is that of the stable paths removed. |
| ReportRuns.NewGeneration | components/xray_ops/report_contract.py:809 | A name for a new generation that no path has and no pointer leads to always exists and is found. |
| ReportRuns.Perform | components/xray_ops/report_contract.py:796-921 | One publication or cleanup keeps the watched date managed and everything seen of it atomic, unless it is a publication of that date whose rollback fails; and what it leaves visible of every date it touches. |
| ReportRuns.IsolatedIsUnbroken | components/xray_ops/report_contract.py:840-853 | If every failing operation is followed by four that do not fail, no rollback of a run fails. |
| ReportRuns.Run | components/xray_ops/report_contract.py:796-921 | Over every run of publications and cleanups in any order, with any operations failing: up to the first publication of a date with a failed rollback that date is managed before and after every call, and every pair its readers found is atomic; if failures are isolated, always. |
| TrafficTables.SyncAccessLog | app/state/traffic.py:100-150 | Aggregating a batch per port and day and upserting the aggregates has exactly the effect of syncing its lines one by one, last_seen included. |
| TrafficTables.SplitSync | app/state/traffic.py:100-150 | Syncing a batch of whole lines has the same effect as syncing any split of it. |
| TrafficTables.SyncTrafficStats | app/state/traffic.py:185-232 | The loop over counters is the fold of single upserts. |
| TrafficTables.RunConserves | app/state/traffic.py:69-250 | From empty tables, after any log syncs, counter syncs, resets and deletions, each port's totals are the sum of its daily rows in all three counters. |
| TrafficLedger.TablesShowWhatIsDue | app/state/traffic.py:69-250 | After any run the rows of a port for a day hold exactly its log hits since it was deleted last and its bytes since it was reset last, of that day; its totals those of all days; and its usage is bytes sent plus received. |
| TrafficLedger.RunKeepsOneRowEach | app/state/traffic.py:69-250 | No run leaves two rows for one port and day. |
| TrafficLedger.LastSeenIsLatest | app/state/traffic.py:100-232 | After any run a port was last seen at the latest of its hits and of the syncs that found bytes of it. |
| TrafficTables.ResetConserves | app/state/traffic.py:234-250 | A reset keeps totals equal to the sum of days and leaves no usage. |
| TrafficTables.DropConserves | app/state/ports.py:531-536 | Deleting ports drops their totals together with their days. |
| PortRules.AscendingIsSorted | app/xray/apply.py:260-280 | The listing is strictly ascending and holds exactly the selected listen ports. |
| PortRules.CleanupExpiredPorts | app/state/ports.py:538-552 | The row loop deletes exactly the expired ports without customer and service, with their traffic, and counts them. |
| PortRules.DisableAutoStoppedPorts | app/xray/apply.py:120-149 | The row loop disables exactly the enabled ports that expired or reached their quota, after the cleanup, and counts those deleted and disabled; it counts none if and only if the database is untouched. |
| PortRules.ListedIsEnabledIsActive | app/helpers.py:192-208 | After automatic disabling the enabled ports are exactly those whose status is active, and exactly those the listing holds. |
| PortRules.AutoStopKeepsLinked | app/xray/apply.py:120-149 | Ports of a customer or service never disappear, no port is switched on, and nothing but the enabled flag changes. |
| PortEffects.StatusExactly | app/helpers.py:192-208 | The status in terms of time, bytes sent and received, and the flag. |
| PortEffects.AutoStopEffect | app/xray/apply.py:120-149 | The automatic disabling deletes exactly the expired ports of nobody, with the counters of their numbers; every other port stays as it is but that it is off unless it is served, and so do its counters and the whole shop. |
| PanelOperations.ChangePort | app/state/ports.py:377-469 | Creating, updating, toggling and deleting a port and resetting its traffic, in place, with every refusal. |
| PortEffects.PortOperationFrame | app/state/ports.py:377-469 | An operation on a port leaves the shop, every other row and the counters of every other number alone. |
| PortEffects.CreateEffect | app/state/ports.py:377-399 | A new port needs a free number, belongs to nobody, and is served while its time and its bytes last. |
| PortEffects.UpdateEffect | app/state/ports.py:401-431 | An update moves the row to the new number, time and limit; owner and flag stay. |
| PortEffects.ToggleEffect | app/state/ports.py:433-455 | A port can always be switched off, and on exactly when it would be served; nothing else of it changes. |
| PortEffects.DeleteEffect | app/state/ports.py:457-469 | Exactly a port without customer and service can be deleted; its number keeps no counters. |
| PortEffects.ResetPortEffect | app/state/traffic.py:252-309 | A reset clears the bytes of the port's number on every day and switches on a port that only its quota had stopped; connections stay. |
| PanelOperations.FulfillInPlace | app/state/commerce.py:974-1099 | Fulfilment in place: the checks, the allocation, the two branches with their rows and links, the approved submission, the closed order. |
| PanelOperations.Perform | app/xray/apply.py:103-118 | Each operation of a mutation succeeds exactly when its definition does, and then leaves that database. |
| Orders.AllocateAutoPort | app/state/commerce.py:911-927 | The loop finds the port of the allocation function. |
| Orders.AllocatedPort | app/state/commerce.py:911-927 | An allocation is the least free listen port of the range, and fails only when the range is full. |
| OrderInvariants.ServicesAreFulfilledPurchases | app/state/commerce.py:1004-1052 | Services correspond one to one with fulfilled new purchases, and no two services share a port. |
| OrderInvariants.ApprovedIffFulfilled | app/state/commerce.py:938-958 | An approved submission exists if and only if the order is fulfilled, and it is the latest one. |
| OrderInvariants.EarlierAreRejected | app/state/commerce.py:634-665 | Whenever a payment may be submitted, every earlier submission of the order is rejected. |
| OrderInvariants.CreatedOrder | app/state/commerce.py:515-600 | An accepted renewal is for a service of the same customer and plan that has no other open renewal. |
| OrderInvariants.CreateKeepsInv | app/state/commerce.py:515-600 | Placing an order keeps the service structure and the order lifecycle. |
| OrderInvariants.SubmitKeepsInv | app/state/commerce.py:634-665 | Submitting a payment keeps them. |
| OrderInvariants.RejectKeepsInv | app/state/commerce.py:1110-1137 | Rejecting keeps them: the latest submission is rejected with its order. |
| OrderInvariants.CancelKeepsInv | app/state/commerce.py:1139-1163 | Cancelling keeps them. |
| OrderInvariants.ExpireKeepsInv | app/state/commerce.py:496-507 | Expiring pending orders keeps them. |
| OrderInvariants.FulfillKeepsInv | app/state/commerce.py:960-1108 | Fulfilling a purchase or a renewal keeps them: port, service and order are linked to each other. |
| OrderInvariants.PortChangesKeepLinks | app/state/ports.py:457-469 | Whatever else changes about ports, links survive as long as no linked port is removed. |
| PanelRuns.StepKeepsInv | app/state/commerce.py:496-1163 | Every transaction of shop, ports and maintenance keeps service structure and order lifecycle. |
| PanelRuns.RunKeepsInv | app/state/commerce.py:496-1163 | They hold in every state reachable from the empty database: services match fulfilled purchases, linked ports exist, open renewals match their service, at most one per service, submissions fit the order's status. |
| PanelRuns.ClosedForGood | app/state/commerce.py:1139-1163 | Over all runs fulfilled, cancelled and expired orders never change again. |
| OrderEffects.CreateOrderEffect | app/state/commerce.py:515-600 | An order is accepted if and only if the customer is active, the plan is enabled and, for a renewal, the service is the customer's, of this plan, stopped by time or bytes and not bound by another order; it then waits for payment, bound to the plan's terms of that moment. |
| OrderEffects.SubmitEffect | app/state/commerce.py:634-665 | Exactly the order's own customer may pay, while it waits for payment or its payment was rejected. |
| OrderEffects.RejectEffect | app/state/commerce.py:1110-1137 | Exactly a submitted payment can be rejected, and with it the order's last submission, and no other. |
| OrderEffects.CancelEffect | app/state/commerce.py:1139-1163 | Exactly an order that is not over can be cancelled; every other order at most expires. |
| OrderEffects.ExpiryEffect | app/state/commerce.py:496-507 | Exactly the orders past their deadline that wait for payment or were rejected expire. |
| OrderEffects.FulfillPurchaseEffect | app/state/commerce.py:960-1052 | A submitted purchase of a known customer is fulfilled if and only if a number of the range is free: one new port, on, for the days and bytes paid, one new service, linked to each other and to the order, and nothing else. |
| OrderEffects.FulfillRenewalEffect | app/state/commerce.py:1053-1108 | In reachable states a submitted renewal is fulfilled if and only if its customer and its plan are still there: its port is on with new time and limit, the bytes of its number are cleared, and nothing else of ports and counters changes. |
| OrderEffects.TermsAreKept | app/state/commerce.py:496-1163 | Over every run an order keeps its customer, plan, kind, days, limit and deadline, whatever becomes of the plan. |
| PanelRuns.RunKeepsSound | app/state/ports.py:531-552 | In every reachable state listen ports are unique and each port's traffic totals are the sum of its days. |
| PanelRuns.ServedExactly | app/xray/apply.py:120-149 | After automatic disabling an enabled port is listed if and only if it is neither expired nor over quota. |
| PanelRuns.ToggleDecidesService | app/state/ports.py:433-455 | A port that may be switched on is served at once; one that was on is not served any more. |
| PanelRuns.ResetRestoresService | app/state/traffic.py:252-309 | Resetting a port that stopped at its quota brings it back if and only if it has not expired and its limit is not zero. |
| PanelRuns.RenewalIsServed | app/state/commerce.py:1053-1099 | After a fulfilled renewal and the automatic disabling the port is served if and only if the plan has a duration and a positive limit. |
| PanelRuns.PurchaseIsServed | app/state/commerce.py:1004-1099 | After a fulfilled purchase and the automatic disabling the port is served if and only if the traffic left over under its number is below its limit (and the plan has a duration). |
| PanelRuns.PurchaseLasts | app/state/commerce.py:929-1052 | With leftover traffic below the limit, a purchased port is listed at a later time t if and only if t is before the fulfilment plus 86400 seconds for every day paid. |
| PanelRuns.RenewalLasts | app/state/commerce.py:1053-1099 | A renewed port with a positive limit is listed at a later time t if and only if t is before the fulfilment of the renewal plus 86400 seconds for every day paid. |
| PanelRuns.LeftoverTrafficStopsPurchase | app/state/commerce.py:1004-1052 | Counterexample, as a run from the empty database: counters of a free number, an order, its payment and its fulfilment, and the purchased port is not served. |
| XrayApply.XrayApplyService.RenderXrayConfig | app/xray/apply.py:340-394 | Success leaves all outputs rendered from the current listing; a failing step stops it, and the listing file is not touched. |
| XrayApply.XrayApplyService.Activate | app/xray/apply.py:181-207 | Render, test, restart, commit, in order, up to the first step that fails; in direct mode success means both processes run what the files say, in external-reloader mode that the watcher has its marker; when the marker is there afterwards is exact. |
| XrayApply.XrayApplyService.RollBack | app/xray/apply.py:208-258 | All five files are put back; the backup process, the node and the data plane are put back whenever the steps for them do not fail. |
| XrayApply.XrayApplyService.PersistAndReload | app/xray/apply.py:162-258 | All or nothing: it succeeds exactly when no step fails, and then the transaction is committed, the files are rendered from its listing, and a watcher that restarts the data plane has its marker; otherwise database and files are what they were, and the processes too unless a restart or sync after the first failing step fails. |
| XrayApply.XrayApplyService.ApplyMutation | app/xray/apply.py:103-118 | A mutation succeeds exactly when the operation is allowed and no step fails; it commits the operation's database after automatic disabling, or nothing but the traffic sync, leaving the files; after success the listing file holds exactly the enabled ports if and only if none of them expired between disabling and listing; and unless two steps fail the processes stay in step with the files, or the watcher has its marker. |
| XrayApply.XrayApplyService.DisableAutoStopped | app/xray/apply.py:83-101 | The maintenance cycle applies only when something changed; then the listing holds exactly the enabled ports if and only if none of them expired between disabling and listing, and otherwise files and listing are untouched. |
| XrayApply.XrayApplyService.UpdateState | app/storage/sqlite.py:46-64 | Transactions on orders, customers, plans and traffic leave a listing of exactly the enabled ports as such. |
| XrayApply.XrayApplyService.Bootstrap | app/state/lifecycle.py:62-77 | Start-up, each step at its own reading of the clock: the listing file holds exactly the enabled ports if and only if none of them expired between disabling and listing; and without failures the data plane runs the new configuration if and only if it did before or is restarted, which it is exactly on a remote node without a watcher that has another configuration on disk once ports were disabled. |
| XrayApply.OldConfigRunsOn | app/state/lifecycle.py:71-73 | Counterexample, as a run: at a start-up after a port expired, the node is sent the configuration without the port while ports are disabled, the last step finds nothing to send, and the data plane goes on serving the port. |
| XrayApply.ListedLaterExactly | app/xray/apply.py:260-280 | A listing rendered later than the automatic disabling holds exactly the enabled ports if and only if none of them expires in between. |
| XrayApply.ExpiryBetweenReadings | app/xray/apply.py:289-291 | Counterexample for two readings: a port that expires in between stays enabled and is not listed. |
| DnsFailover.TransitionIsExact | app/state/dns_failover.py:112-167 | For every second of the day and every window, across midnight too, the preferred target holds for exactly the computed delay, between 1 and 86399 seconds, and is the other one then. |
| DnsFailover.PreferredInside | app/state/dns_failover.py:112-160 | The backup is preferred exactly from the first to the second time of the day, across midnight when the first is the later one. |
| DnsFailover.WaitEndsAtBoundary | app/state/dns_failover.py:162-166 | Whatever the window, the wait is between one second and a day and ends where the current part of it does. |
| DnsFailover.DnsFailoverService.RunCheck | app/state/dns_failover.py:396-486 | A check counts the probe, then switches if a threshold is reached. |
| DnsFailover.DnsFailoverService.SwitchTarget | app/state/dns_failover.py:488-628 | A switch leaves the state alone when the provider fails, only records the target when the record already points there, and otherwise updates the record and the target read back from it. |
| DnsFailover.CountersAreTrailingRuns | app/state/dns_failover.py:443-450 | The stored counters are the lengths of the trailing runs of failed and successful probes. |
| DnsFailover.SwitchesExactly | app/state/dns_failover.py:185-210 | With distinct contents and a working provider, for either preference: a check leaves the preferred target if and only if the last failureThreshold probes failed, returns to it if and only if the last recoveryThreshold succeeded, and otherwise the target stays; a switch records the new content. |
| DnsFailover.CheckSwitchesExactly | app/state/dns_failover.py:435-486 | The same for one check from any state, by what it had counted. |
| DnsFailover.CheckPays | app/state/dns_failover.py:185-210 | A check pays for at most one step towards a switch, and a switch uses up a whole threshold. |
| DnsFailover.FlappingIsBounded | app/state/dns_failover.py:435-486 | With distinct contents, over any n checks from any state and with any provider failures: failovers times their threshold plus recoveries times theirs is at most n, plus what the start had counted, plus one threshold for each change of preference. |
| DnsFailover.EqualContentsFlap | app/dns_failover.py:157-164 | With equal contents the record always reads as primary, and every check from the threshold on switches again. |
| DnsFailover.BoundedForPrimaryExactly | app/state/dns_failover.py:435-486 | With the preference fixed to primary the bound holds for all starts and runs if and only if the contents differ or the failure threshold is at most one. |
| DnsFailover.BoundedExactly | app/state/dns_failover.py:185-210 | With any preferences it holds for all starts and runs if and only if the contents differ or both thresholds are at most one. |
| Rules.CounterIncreaseWithResets | components/xray_ops/rules.py:125-139 | The loop computes the reset-aware increase and the number of resets. |
| Rules.ResetsAreDrops | components/xray_ops/rules.py:125-139 | The resets counted are the samples smaller than the one before. |
| Rules.IncreaseIsGrowthPlusLosses | components/xray_ops/rules.py:125-139 | The increase is last minus first plus the value just before each reset. |
| Rules.IncreaseIsAdditive | components/xray_ops/rules.py:125-139 | Splitting a trace at a shared sample splits its increase. |
| Rules.SampledTotalIsLowerBound | components/xray_ops/rules.py:125-139 | For non-negative counters, the increase of any selection of samples never exceeds that of the full trace. |
| Rules.MaximalRunsAreDisjoint | components/xray_ops/rules.py:180-194 | Two maximal failing runs are the same or share no sample. |
| Rules.Intervals | components/xray_ops/rules.py:180-194 | One pass emits, in order, exactly the maximal runs of failing samples with gaps of at most 45 seconds and at least the required members, each with its start, end and size. |
| Rules.NoRunIffNoPair | components/xray_ops/rules.py:180-194 | No run of two is found if and only if no two neighbouring samples fail within the gap. |
| Rules.CoveredExactly | components/xray_ops/rules.py:115-118 | The coverage is at least 0.9 if and only if ten times the number of different seconds with a sample is at least nine times the number of scrapes due, one every 30 seconds and at least one. |
| Rules.Classify | components/xray_ops/rules.py:317-475 | A fault is reported if and only if two failing samples of the window without another between them lie at most 45 seconds apart, or (normal data plane) the record led away from the primary within 300 seconds of a failing health probe, or (AI data plane) the routing history records a fallback; a node without a fault is normal if and only if, for both series, ten times the different seconds seen is at least nine times the scrapes due every 30 seconds, at least one, and no sample of the window is down. |
| DestinationMetrics.SummaryIsRecount | app/web/metrics.py:256-294 | Listed counts are fresh counts of distinct destinations, sorted, at most the maximum and ahead of every unlisted one, and with other_requests make up all recent events. |
| DestinationMetrics.OrderedRearranges | app/web/metrics.py:275-276 | Ordering the counter rearranges its entries and neither drops nor invents any. |
| DestinationMetrics.Summarize | app/web/metrics.py:256-294 | The loop summarises exactly the events inside the window. |
| DestinationMetrics.SummaryCountsWindow | app/web/metrics.py:256-294 | Of any queue: each listed key has the number of its events of the last seconds of the window, the most frequent first and equals by key, and everything else is counted together. |
| DestinationTail.LinesContinue | app/web/metrics.py:353-358 | What a chunk adds to the complete lines read so far is the complete lines of the kept rest with the chunk, wherever the chunk was cut. |
| DestinationTail.DestinationLog.Consume | app/web/metrics.py:353-365 | A chunk keeps its unterminated rest, stamps and records its complete lines behind those recorded before; a tailed log drops its first line only if the first chunk completes one. |
| DestinationTail.DestinationLog.Prune | app/web/metrics.py:367-369 | Only events older than the window leave the queue, from the front. |
| DestinationTail.DestinationLog.Scrape | app/web/metrics.py:297-377 | A scrape reads the next chunk, starting over exactly when the file changed or shrank, and keeps what was recorded; each summary is a fresh count over the events of all complete lines read so far that lie in the window. |
| DestinationTail.ScrapesReadOnePart | app/web/metrics.py:319-351 | Over every run of scrapes of a growing log, with any chunk size, what was read is one part of the log from a fixed start, without gap or repetition. |
| DestinationTail.OneMoreScrape | app/web/metrics.py:337-344 | Each scrape of such a run reads the next chunk, up to the end of the log. |
| DestinationTail.FirstScrape | app/web/metrics.py:319-358 | The first scrape reads to the end of the file, of a long one only the last chunk, of which it drops the first line if it completed any. |
| DestinationTail.FurtherScrape | app/web/metrics.py:319-358 | Every further scrape reads at most one chunk behind the last and gives the lines it completes its own time; a replaced or shrunken file is read as if for the first time. |
| DestinationTail.LineIsRecorded | app/web/metrics.py:359-365 | Each understood line behind the dropped ones is recorded once, in order, with its own time stamp or, without one, the time it was read. |
| ModelInput.FourRoundsReachFixedPoint | components/xray_ops/codex_runner.py:345-347 | Four rounds always reach the least count that equals the length of the payload stating it. |
| ModelInput.LongerDraftsAreLonger | components/xray_ops/codex_runner.py:332-342 | Adding evidence never shortens the payload, so the first candidate that does not fit ends the longest fitting prefix. |
| ModelInput.DescribedGrow | components/xray_ops/codex_runner.py:345-350 | With its own length filled in, a longer selection is no shorter either. |
| ModelInput.CandidatesAreSorted | components/xray_ops/codex_runner.py:310-313 | The candidates are exactly the citable items, each as often as it occurs, sorted by role and id. |
| ModelInput.EncodedLengthIsLength | components/xray_ops/codex_runner.py:314-331 | The length that is computed is the length of the encoded text: items with commas between them, the flag and both numbers written out. |
| ModelInput.SelectModelInput | components/xray_ops/codex_runner.py:302-353 | Each error has its exact condition; a returned payload is within the cap, states its own length, and holds the longest prefix of the sorted candidates that fits. |
| ModelInput.DroppingOneWouldHelp | components/xray_ops/codex_runner.py:348-350 | Counterexample: a context of 189 bytes, one item of 19 bytes and a cap of 208 end in the last error, although the context alone fits with its own length. |
| ModelInput.ShorterFitsExactly | components/xray_ops/codex_runner.py:345-350 | When the longest prefix ends in the last error, some shorter selection would fit if and only if the selection of nothing does, with its own length filled in. |
| AiRoutes.RoutesAreClean | components/xray_ops/ai_domains.py:59-141 | Whatever a report states, a route's target is one the validator accepts, and its path is if and only if none or a known one was stated. |
| AiMeaning.TagsExactly | components/xray_ops/ai_domains.py:68-141 | When a route counts as proxied, when as direct, and when as unknown, by the stated tag or by class and routing status. |
| AiMeaning.PathsExactly | components/xray_ops/ai_domains.py:76-141 | A stated path stays; otherwise the path is that of the tag. |
| AiMeaning.TargetsExactly | components/xray_ops/ai_domains.py:50-141 | The target is the stated one with a host and a port of 1 to 65535, if any; only a proxied route without one takes the AI node's. |
| AiHistory.ChooseReports | components/xray_ops/ai_domains.py:266-300 | Exactly one report is chosen for every window, and no report of that window is preferred to it. |
| AiHistory.ChoiceIsUnique | components/xray_ops/ai_domains.py:287-294 | As file paths are unique, the choice does not depend on the order in which the reports are read. |
| AiSums.HistoryExactly | components/xray_ops/ai_domains.py:308-356 | The history of a day holds what the chosen reports of the windows that meet it list under valid names, with window, report time, file, hits, verdict and route, and nothing else. |
| AiMeaning.MeetsExactly | components/xray_ops/ai_domains.py:309-310 | A window counts for a day if and only if some moment lies in both. |
| AiHistory.MergeObservations | components/xray_ops/ai_domains.py:698-722 | The merge loop appends observations with a new key and fills gaps of the first record with the same key. |
| AiMeaning.MergingFillsGaps | components/xray_ops/ai_domains.py:703-722 | Merging an observation changes at most the verdict of the first record with its window and domain, and only what that had not stated; without such a record it is appended. |
| AiMeaning.CatalogFillsGaps | components/xray_ops/ai_domains.py:725-736 | The catalog fills in what is missing of a verdict and changes nothing else. |
| AiHistory.MergingKeepsKeys | components/xray_ops/ai_domains.py:698-722 | Merging keeps every history record's hits and route in place; every observation has a record with its window and domain, and every added record is of an observation. |
| AiHistory.MergingAddsNoDuplicate | components/xray_ops/ai_domains.py:703-706 | Two records with the same window and domain are both of the history: merging adds no second one. |
| AiHistory.HitsOfMerged | components/xray_ops/ai_domains.py:698-722 | Merging adds exactly the hits of observations whose window and domain neither the history nor an earlier observation has. |
| AiHistory.HitsOfDay | components/xray_ops/ai_domains.py:266-356 | The hits of a day are, window by window and each once, those that the window's chosen report lists under valid names, and besides those of observations with a new window and domain. |
| AiHistory.DayIsClean | components/xray_ops/ai_domains.py:303-356 | Every record of a day has a valid domain and target, and a known path if the reports state no other. |
| AiDomains.AggregateDomainRecords | components/xray_ops/ai_domains.py:517-679 | Items, new items, counts, sums, count tables with all fixed keys, and the classifier section of the aggregation. |
| AiMeaning.ItemVerdictExactly | components/xray_ops/ai_domains.py:530-594 | The class of a listed domain is that of its last record, by window end, report time and file, and its source the last stated one, or the text "unknown". |
| AiMeaning.DirectionExactly | components/xray_ops/ai_domains.py:581-589 | A domain is proxied, direct or unknown if and only if all its records are, and otherwise mixed. |
| AiSums.RoutesAreOfRecords | components/xray_ops/ai_domains.py:540-580 | No two listed routes of a domain have the same tag and target; each is that of some record, with the hits and windows of all records that have them. |
| AiSums.RouteIsListed | components/xray_ops/ai_domains.py:540-580 | Every record's route is listed, with those hits and windows. |
| AiSums.CountsExactly | components/xray_ops/ai_domains.py:625-633 | Each count is the number of listed domains of its class or direction, each class's hits are theirs, and a domain's hits are those of its records. |
| AiMeaning.SourcesExactly | components/xray_ops/ai_domains.py:150-157 | The counts by source are the numbers of domains with the texts builtin, codex and openai as source. |
| AiMeaning.NewExactly | components/xray_ops/ai_domains.py:624 | The new domains are exactly the listed ones marked as new. |
| AiSums.SectionExactly | components/xray_ops/ai_domains.py:635-667 | The classifier section lists the results of each domain under that domain and counts those of either class. |
| AiMeaning.ResultsExactly | components/xray_ops/ai_domains.py:559-566 | Each verdict of the classifier on a domain is among its results, and nothing it did not say. |
| AiSums.ObservedExactly | components/xray_ops/ai_domains.py:559-566 | A result bears the report time of the last record of which the classifier said it. |
| AiDomains.HitsAreConserved | components/xray_ops/ai_domains.py:517-615 | Every domain of the records is listed exactly once, and the listed hits are all hits. |
| AiDomains.CountsAreConserved | components/xray_ops/ai_domains.py:625-633 | Class, source and direction counts each sum to the number of domains, and class hits to the observed hits. |
| AiDomains.ObservedHitsAreOfWindows | components/xray_ops/ai_domains.py:681-744 | From reports and rows to the sum: the observed hits are those of each window's chosen report, once, and of observations with a new window and domain. |
| AiDomains.UnknownBucketIsEmpty | components/xray_ops/ai_domains.py:150-156 | A domain without any source is counted under the other sources: the bucket for unknown sources is always empty. |
| AiDomains.CodexCountsAreParts | components/xray_ops/ai_domains.py:657-664 | The classifier's counts by class are parts that make up its results. |
| AiDomains.RouteHitsAreConserved | components/xray_ops/ai_domains.py:545-556 | The hits of a domain's routes make up its hits. |
| AiDomains.ListsKnownPathsExactly | components/xray_ops/ai_domains.py:537-562 | The listed paths are all known if and only if those of the first records of each domain and route signature are. |
| AiSums.AcceptedExactly | components/xray_ops/report_contract.py:193-366 | The validator accepts an item if and only if it has a name and each route one of the three paths, a target with a host and a port of 1 to 65535, if any, and a window. |
| AiDomains.BuiltAnalysisIsAccepted | components/xray_ops/report_contract.py:193-366 | An analysis built from any reports, rows and catalog passes the validator if and only if, for each domain and route signature, the first record in sorted order has a known path; that is so whenever the reports state known paths or none. |
| AiDomains.UnknownPathIsRefused | components/xray_ops/ai_domains.py:76-106 | Counterexample: a day of one report that states a path of its own for a domain is aggregated, and the validator refuses the result. |
| UnifiedEntry.BuildInbounds | app/xray/render_config.py:265-282 | Unified mode fails exactly when the entry port is also an account; otherwise every account has its private socket and the entry one client per account. |
| UnifiedEntry.InboundsAreRendered | app/xray/render_config.py:265-282 | Every account keeps an inbound of its own on a socket with the shared id, and the entry takes one id per account, by its e-mail. |
| UnifiedEntry.UsersAreAccounts | app/xray/render_config.py:469-471 | The client file lists exactly the accounts, each with its own id. |
| UnifiedEntry.EndpointsExactly | app/subscriptions.py:51-55 | A port that is no account gets no endpoint; without a unified port every port has its own, with the shared id. |
| UnifiedEntry.ReadXrayTrafficStats | app/xray/stats.py:29-57 | The loop attributes to each account exactly the sums of its own counters, per direction. |
| UnifiedEntry.CountersBelongToAccount | app/xray/stats.py:33-44 | The counters of an account's user are read as its own, in either direction. |
| UnifiedEntry.InboundCountersBelongToAccount | app/xray/stats.py:33-44 | And so are the counters of its legacy inbound. |
| UnifiedEntry.DirectionsAreCounted | app/xray/stats.py:45-56 | Each counter is counted once: uplink as received, downlink as sent, counters of other accounts or directions not at all. |
| UnifiedEntry.LinesBelongToAccount | app/state/traffic.py:156-176 | A log line of a legacy inbound belongs to its port whatever its e-mail, one of the entry to the port of its e-mail. |
| UnifiedEntry.EntryCounterIsIgnored | app/xray/stats.py:33-44 | The counter of the shared entry inbound is attributed to nobody, so nothing is counted twice. |
| UnifiedEntry.OwnershipSurvives | app/subscriptions.py:51-55 | The subscription of account q leads to the entry with an id that exactly one client has, and that client's e-mail is decoded to q by the stats reader and the log parser. |
| EntryGateway.Render | scripts/render_entry_gateway.py:16-85 | The checks and rules, inbound by inbound and port by port, are those of the definition. |
| EntryGateway.GatewayAccepts | scripts/render_entry_gateway.py:16-47 | A rendered configuration is accepted if and only if entry port, ports and server name are valid, distinct and without conflict. |
| EntryGateway.AcceptedIsPrivate | scripts/render_entry_gateway.py:16-63 | In any accepted configuration the inbounds of accounts and entry have valid ports, wait on their own sockets and expect a PROXY header. |
| EntryGateway.GatewayRoutesToOwner | scripts/render_entry_gateway.py:66-84 | Alias q goes to the socket of account q's inbound, other traffic with the server name to the entry, the rest to the web server. |
| EntryGateway.LoadPortsRecovers | scripts/legacy_entry_forwarder.py:101-111 | The forwarder recovers the entry port and the list of ports in order, unless the entry port is also an account: then it refuses. |
| EntryGateway.LoadPortsExactly | scripts/legacy_entry_forwarder.py:101-111 | Of any configuration: the forwarder starts if and only if the tags go on with numbers, exactly one is that of an entry, and no legacy inbound has its port, and then serves exactly the ports of the legacy inbounds. |
| EntryGateway.AliasReachesItsAccount | scripts/legacy_entry_forwarder.py:72-84 | End to end: a connection to alias q carries q in its header and is sent to account q's socket. |
| ProxyHeader.HeaderRoundTrip | scripts/legacy_entry_forwarder.py:15-29 | A receiver of section 2.2 of the PROXY protocol specification reads back both endpoints, whatever bytes follow. |
| ProxyHeader.WireFormat | scripts/legacy_entry_forwarder.py:15-29 | The bytes of the header, literally; it is refused if and only if an address does not have the length of the family. |
| Decimal.ParseOfToString | app/xray/stats.py:41-42 | Reading a written port number gives it back. |
| Decimal.DecimalDigits | app/xray/stats.py:41-42 | A number is written in decimal digits, the most significant first and without leading zeros. |
| Decimal.SplitName | app/xray/stats.py:33-34 | A counter name of four parts splits into those parts. |

## Left out

- LogParsing.ParseLogBytes: one event per line; decoding and redacting a line into messages is a function of the line and is not modelled, nor are Docker records that hold several messages.
- LogBackfill.BackfillFile: the time cutoff that selects events for storage is a filter on single lines and is not modelled; the loop starts at a parameter, which backfill sets to zero.
- LogRuns.RunKeepsInv: file identities are never reused, a file does not change between stat and read, and a file is not truncated in place; with those the source's heuristics are not exact.
- ReportPublish.ReportDirectory.Publish: symlinks that lead out of the report directory count as opening nothing; the name of a new generation is fresh, as the one `ReportRuns.NewGeneration` finds.
- DestinationTail.DestinationLog.Scrape: lines end at LF or CR as in the log collector; other Unicode line separators and decoding are not modelled, and the time of the last request per destination is not part of the summary.
- UnifiedEntry.OwnershipSurvives: the keyed hash that derives account ids is a function assumed injective on the given ports.
- Decimal.ParseOfToString: numbers are read from texts of digits; signs, blanks, underscores and other scripts, which Python's int() also takes, are refused here.
- EntryGateway.Render: the patterns for server names, socket directory and web endpoint are parameters, and the gateway is its rules rather than its text.
- Rules.CounterIncreaseWithResets: the final rounding to an integer is not modelled; values are real numbers.
- AiDomains.AggregateDomainRecords: the order of listed domains and routes, protocols, first and last times, reasons and models of items, and route statuses are not modelled; which domains are new and which are pending are parameters.
- XrayApply.XrayApplyService.PersistAndReload: failures of the rollback's own local writes, the AI-node file and the removal of the pending marker by the watcher are not modelled.
- XrayApply.XrayApplyService.ApplyMutation: the cleanup of expired ports and the automatic disabling share one reading of the clock; a collision on the apply lock is not modelled.
- AiHistory.HitsOfDay: texts are taken as stripped and, where the source compares them so, in lower case; unreadable files and rows are left out of the input.
- Text of tables, JSON, Markdown and SQL; redaction; cryptography; SSH, Docker, provider and HTTP calls, which are parameters or decided by oracles.
- Rules.Classify: incidents, evidence and traffic status are not modelled; the verdict is.
- Deduplication of events by the store; components/xray_ops/storage.py is not part of this model, and a collection commits events and cursor together.
- Port tokens and tenant credentials, payment proof files, order numbers, admin and customer pages.
- Daylight saving in the peak window, and manual DNS switches.
- Dynamic routing rules, the AI-node configuration, backups, node recovery and the Google integration.
