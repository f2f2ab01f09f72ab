# Relay: a verified model

Dafny models of the parts of the relay whose correctness does not show in any single function, with proofs of what
they promise. `dafny verify dfyconfig.toml` checks everything.

| files | part of the relay |
|---|---|
| `credential_names`, `credential_envelope`, `credential_protocol`, `credential_manager` | credential rotation: a small-step protocol over one flat key map with any number of operations, expiring locks and crashes, and the manager whose calls are runs of it |
| `event_spec`, `event_hub`, `event_session`, `hub_consumer` | the replayable event hub, against the unbounded log, a consumer that reconnects, and the hub object as that consumer sees it |
| `sse_stream`, `event_wire`, `sdk_stream` | the event-stream writer against the reader of the HTML Living Standard, section 9.2, a consumer whose connections are cut anywhere, and the client loop of the SDK |
| `order_merge`, `fee_merge`, `order_ledger` | the conflict updates of orders and fee records, and runs of all three statements |
| `version_table`, `broker_publish` | versioned performance tables and publishing an audited broker statement |
| `clock`, `broker_return`, `broker_money`, `broker_price`, `broker_counter`, `broker_audit`, `broker_settlement`, `broker_gate`, `broker_statement` | the broker statement audit, and a statement from its files to the tables |
| `return_series`, `nav_overlay` | the performance series |
| `html_reader`, `markdown`, `markdown_renderer` | the documentation viewer's Markdown |
| `order_schedule` | daily order-entry windows |
| `refresh_protocol`, `refresh_scheduler` | debounced account refreshes |
| `text`, `int64`, `date_order`, `wrappers` | shared string, integer and sorting functions |

Statements, commands and critical sections are single atomic steps. Clocks, random tokens and nonces, `now()` and the
answers of queries are parameters. Where the code keeps an object, an array or a map, so does the model: methods are
proved against specification functions, and the theorems are about those functions or about whole runs.

Promises the code does not keep, each with the condition under which it does:

- Publishing an audit twice is not idempotent when a running value reaches zero: validation stores one in its place, so
  the next run finds a difference (`BrokerStatement.StatementTwice`, `BrokerStatement.SecondRunRewrites`).
- A trusted fee record agrees with its order after its own call, but a second trusted record of the same order takes
  the order's fee over (`FeeMerge.AgreementKeptExactly`, `FeeMerge.SecondRecordOverwrites`).
- A written-through fee is not safe from later order messages: a counter reply drops the mark that protects it, and an
  order event with a larger fee overwrites it mark or no mark (`FeeMerge.WrittenFeeStays`, `FeeMerge.ReplyDropsTheMark`,
  `FeeMerge.EventOverwrites`).
- The refresh cooldown holds in runs where no request slips between a firing and its callback, and any request that
  does can break it (`RefreshProtocol.CalmRunsKeepTheCooldown`, `RefreshProtocol.EverySlipCanBreak`).
- A client keeps its place across reconnections if it carries its last event ID into the new stream's reader, or keeps
  it outside the reader as the SDK does; a reader that starts with an empty ID forgets it (`SseStream.ReadPreamble`,
  `SseStream.EmptyBufferForgets`, `SdkStream.NothingSkippedOnTheWire`).
- An order first stored after its trusted fee record takes its own fee; over whole runs the two agree exactly when every
  statement was harmless (`OrderLedger.OrderStoredLater`, `OrderLedger.AgreementOverRuns`).
- Order events before an order's first upsert are lost (`OrderMerge.FirstArrivalConverges`).
- A chosen NAV version below the latest one becomes current (`VersionTable.ChosenVersionGoesBack`).
- The next change of order activity is reported a day of 24 hours ahead, which is wrong after the last window of a
  longer or shorter local day; and activity does not change where one window ends exactly as the next starts
  (`OrderSchedule.ActiveAt`, `OrderSchedule.LongDay`).
- A first order message may be stored terminal without a terminal time (`OrderMerge.InsertIsTheOnlyBreach`).

## Model

| member | source | states |
|---|---|---|
| `CredentialNames.KeyNameInjective` | internal/credentials/config.go:56-88 | key names of different accounts, versions or roles never collide in the one flat key map |
| `CredentialNames.AssociatedDataInjective` | internal/credentials/envelope.go:99-101 | the associated data determines environment, broker, account, version and key id |
| `CredentialEnvelope.DecryptUndoesEncrypt` | internal/credentials/envelope.go:103-161 | sealing succeeds exactly for a valid identity and credentials, and opening under the same identity and key gives the credentials back |
| `CredentialEnvelope.EnvelopeBoundToIdentity` | internal/credentials/envelope.go:163-223 | a ciphertext opens under no other account, version, key id or key than the one it was sealed for |
| `CredentialProtocol.StepKeeps` | internal/credentials/manager.go:107-374 | every step of every operation, crashes, lock expiry and failing audit writes included, keeps the invariant of slots, pointers, locks and audit records |
| `CredentialProtocol.InstalledVersionsIncrease` | internal/credentials/manager.go:140-203 | in every interleaving, with locks expiring and processes crashing at will, the versions made current for an account strictly increase, also across Disable |
| `CredentialProtocol.SuccessIsRecorded` | internal/credentials/manager.go:206-222 | a rotation that answers success has installed its version and left its audit record, in every interleaving and with audit writes failing at will |
| `CredentialProtocol.InstallingIsRecorded` | internal/credentials/manager.go:199-203 | making a version current is exactly what extends the history the previous theorem speaks of |
| `CredentialProtocol.OnlyInstallingWrites` | internal/credentials/store.go:62-76 | a pointer gets a new value by the lock owner's conditional write and in no other way |
| `CredentialProtocol.PointerNeverGoesBack` | internal/credentials/manager.go:338-352 | two reads of a present pointer at any two moments never see the version fall |
| `CredentialProtocol.PointerWritesAreFenced` | internal/credentials/manager.go:199-203 | an owner's pointer write is a compare-and-swap on what it read under its lock; a removal removes what it reports |
| `CredentialProtocol.SlotsAreContiguousAndImmutable` | internal/credentials/manager.go:157-185 | in every reachable state the stored versions are exactly 1..n, and no slot is ever rewritten or removed |
| `CredentialProtocol.StatusNeverMissesItsEnvelope` | internal/credentials/manager.go:226-273 | however much happens between the two unlocked reads of Status, the envelope is there, validates, and opens to its creator's plaintext |
| `CredentialManager.RedisSecretStore.SetIfLockOwner` | internal/credentials/store.go:62-76 | writes exactly when the lock holds this token |
| `CredentialManager.RedisSecretStore.DeleteIfLockOwner` | internal/credentials/store.go:78-92 | deletes exactly when the lock holds this token |
| `CredentialManager.RedisSecretStore.ReleaseLock` | internal/credentials/store.go:94-106 | removes the lock exactly when it holds this token |
| `CredentialManager.RedisSecretStore.SetIfAbsent` | internal/credentials/store.go:46-60 | the write-once slots and the lock: creates only what is absent, and says so |
| `CredentialManager.Manager.Rotate` | internal/credentials/manager.go:107-224 | undisturbed, with n slots and the pointer at c: fails without a trace when locked; makes slot n + 1 current; or reports VERSION_EXHAUSTED without a trace exactly when n >= c + 1000 (and an encryption failure when the numbers no longer fit 64 bits) |
| `CredentialManager.Manager.FindSlot` | internal/credentials/manager.go:153-185 | the candidate loop finds the first free slot exactly when it lies within a thousand of the pointer |
| `CredentialManager.Manager.Disable` | internal/credentials/manager.go:275-336 | removes the pointer and nothing else, and reports the version it removed |
| `CredentialManager.Manager.GetStatus` | internal/credentials/manager.go:226-273 | not configured exactly without a pointer; otherwise the version and key id it was sealed with; verification fails exactly for another key |
| `EventSpec.ParseCursorInverts` | internal/events/hub.go:245-263 | reading back a printed cursor gives its epoch and number for every non-empty epoch, also one containing dashes |
| `EventSpec.CursorInjective` | internal/events/hub.go:245-247 | different numbers print different cursors |
| `EventSpec.ResumedIff` | internal/events/hub.go:197-243 | a same-epoch cursor is resumed exactly when nothing numbered above it was evicted, and then yields exactly the matching log events above it |
| `EventSpec.MatchesAreDistinct` | internal/events/hub.go:294-304 | the matches of a stretch of the log are events of that stretch, no number twice |
| `EventSpec.NormalizedAccounts` | internal/events/hub.go:306-324 | normalised account ids are the trimmed non-blank ids, each once |
| `EventHub.Subscriber.Deliver` | internal/events/hub.go:98-117 | a full queue is drained and gets one gap marker, any other gets the event; there is always room and the channel is never closed |
| `EventHub.Subscriber.DrainEvents` | internal/events/hub.go:265-273 | empties the queue |
| `EventHub.Hub.AppendHistory` | internal/events/hub.go:185-195 | shifting in place, the bounded array stays exactly the last events of the unbounded log |
| `EventHub.Hub.Publish` | internal/events/hub.go:88-119 | appends the numbered event to the log and offers it to every subscriber, keeping all queues within bounds |
| `EventHub.Hub.ResumeFrom` | internal/events/hub.go:197-243 | the answer computed from the bounded history is the one defined on the unbounded log |
| `EventHub.Hub.SubscribeFrom` | internal/events/hub.go:126-165 | registers and resumes in one step, with an empty queue |
| `EventHub.Hub.Unsubscribe` | internal/events/hub.go:150-163 | removal and closing go together: no registered channel is closed |
| `EventSession.StepKeeps` | internal/events/hub.go:88-165 | every publish, subscribe, receive, disconnect and restart keeps the reading of a consumer consistent with the log |
| `EventSession.NothingLostNothingTwice` | internal/events/hub.go:88-165 | over any number of disconnects, restarts and overflows, what was received since the latest marker plus what is pending and queued is exactly the matching published events, in order |
| `EventSession.LossIsAnnounced` | internal/events/hub.go:275-292 | a reading starts afresh only by receiving a gap marker, or at a first subscription |
| `SseStream.WriteSseEvent` | internal/api/server.go:480-508 | appends exactly the frame: optional id line, event line, one data line per body line, blank line |
| `SseStream.ReadFrame` | internal/api/server.go:480-508 | one frame, interpreted by section 9.2.6 of the HTML Living Standard, dispatches one message with its type and body |
| `SseStream.ClientSeesWholeFrames` | internal/api/server.go:397-477 | a connection cut after any character: the client has exactly the frames that arrived whole, and its last event ID is that of the last such frame with an ID, or else the one it came with; connected and heartbeat frames never move it |
| `SseStream.EmptyBufferForgets` | internal/api/server.go:401-401 | a reader whose ID buffer starts empty forgets the ID it had at the blank line behind the retry field |
| `SseStream.ReadPreamble` | internal/api/server.go:401-401 | after the preamble a reader holds exactly the ID its buffer started with, and nothing was dispatched |
| `EventWire.CutIsDisconnect` | internal/api/server.go:397-477 | wherever a connection is cut and however far the server had written, what the client is left with is a session that received exactly the whole frames and then disconnected |
| `EventWire.NothingLostOnTheWire` | internal/api/server.go:386-477 | over any number of connections cut after any byte, each resumed with the ID the client holds, the client has received since its latest marker exactly what matched, once and in order |
| `SseStream.StreamRoundTrip` | internal/api/server.go:397-477 | the whole stream yields the whole sequence of types and bodies |
| `SdkStream.ReadEvents` | sdk/python/relay_sdk/client.py:1747-1790 | the loop keeps the cursor outside the reader and hands on every message but those whose cursor repeats or goes back |
| `SdkStream.ChecksFindNothing` | sdk/python/relay_sdk/client.py:2422-2437 | no event that arrives repeats the cursor or goes behind it, and a change of epoch comes with its gap marker |
| `SdkStream.NothingSkippedOnTheWire` | sdk/python/relay_sdk/client.py:1708-1790 | on every connection of a client that came back any number of times the loop hands on every message, and comes back with the cursor a reader that carries the ID would hold |
| `HubConsumer.Consumer.Subscribe` | internal/api/server.go:386-438 | registering and what the handler writes first are the session's step |
| `HubConsumer.Consumer.Receive` | internal/api/server.go:427-449 | reading the replay and then the channel is the session's step |
| `HubConsumer.Consumer.Publish` | internal/events/hub.go:88-119 | whoever publishes, the consumer's queue moves as the session says |
| `HubConsumer.ConsumerMissesNothing` | internal/events/hub.go:88-165 | whatever its consumers call on a hub object, one consumer's view is a run of the session, so nothing is lost unannounced and nothing comes twice |
| `OrderMerge.OverStaysOver` | internal/ledger/sql.go:128-222 | without counter replies a terminal order never reopens, and non-terminal messages leave its status, leaves and terminal time alone |
| `OrderMerge.TerminalTimesKept` | internal/ledger/sql.go:169-222 | "terminal exactly when a terminal time is set" is kept over all statements |
| `OrderMerge.InsertIsTheOnlyBreach` | internal/ledger/sql.go:44-97 | only storing a first message that breaks the rule can break it |
| `OrderMerge.TerminalNamesKept` | internal/ledger/sql.go:151-173 | a terminal order keeps a terminal status name |
| `OrderMerge.FirstIdentityStays` | internal/ledger/sql.go:191-193 | the first known message id, request id and idempotency key never change |
| `OrderMerge.ArrivalOrderConverges` | internal/ledger/sql.go:119-173 | the same messages in any order, each any number of times, merged by upsert or as events at any times, give the same status and quantities, when the terminal ones report one end and none reports more filled than it |
| `OrderMerge.ConvergenceNeedsTheLargest` | internal/ledger/sql.go:123-127 | that condition is exact: terminal last and terminal first agree if and only if no other message reports more filled |
| `OrderMerge.ConvergenceNeedsOneEnd` | internal/ledger/sql.go:151-173 | and so is the other: two terminal messages agree in either order exactly when they report the same end |
| `OrderMerge.FirstArrivalConverges` | internal/ledger/sql.go:44-173 | the same for an order not stored yet, under the same conditions, on what follows its first upsert; events before that are lost |
| `FeeMerge.NormalizeAmounts` | internal/ledger/fees.go:210-220 | rounds every amount in place, or refuses because one is negative |
| `FeeMerge.RoundAmountNear` | internal/ledger/fees.go:219-219 | rounding moves an amount by at most half a millionth and is idempotent |
| `FeeMerge.TrustAndTimeNeverFall` | internal/ledger/fees.go:397-420 | over any messages the record's time never falls and a trusted record never becomes untrusted |
| `FeeMerge.NewestTrustedSurvives` | internal/ledger/fees.go:397-420 | the strictly newest trusted record ends up stored in every arrival order, with any replays |
| `FeeMerge.TwoRecordsCommute` | internal/ledger/fees.go:397-420 | two records commute exactly when they are no tie in time and trust and the newer is not an untrusted one after a trusted one |
| `FeeMerge.AgreementKeptExactly` | internal/ledger/fees.go:421-451 | a call keeps all fees in agreement exactly when no other trusted record of the same order carries another total |
| `FeeMerge.SecondRecordOverwrites` | internal/ledger/fees.go:421-451 | a concrete pair of records of one order for which agreement is lost |
| `FeeMerge.FeeKeptExactly` | internal/ledger/sql.go:145-150 | one statement keeps a written-through fee and its mark exactly when it is an upsert that reports no fee or the same one and is no counter reply without the mark, or an event whose fee is not larger |
| `FeeMerge.WrittenFeeStays` | internal/ledger/sql.go:145-229 | over any run of statements, a written-through fee and its mark stay exactly when every statement is of that kind |
| `FeeMerge.ReplyDropsTheMark` | internal/ledger/sql.go:145-229 | a counter reply drops the mark, and the next upsert overwrites the fee |
| `FeeMerge.EventOverwrites` | internal/ledger/sql.go:335-352 | an order event with a larger fee overwrites a trusted one and ends the agreement with its record |
| `OrderLedger.Ledger.UpsertOrder` | internal/ledger/sql.go:44-229 | one step of the run of all three statements; no other order and no fee record changes |
| `OrderLedger.Ledger.UpdateOrderStatus` | internal/ledger/sql.go:335-372 | finds the order exactly when a message of it was upserted before, and is one step of the run |
| `OrderLedger.Ledger.UpsertOrderFeeRecord` | internal/ledger/fees.go:342-451 | one step of the run: afterwards the stored record, if trusted, agrees with its order, and no order changes in any other column |
| `OrderLedger.OrdersAreMerged` | internal/ledger/sql.go:44-372 | over any run of upserts, events and fee records, each order is, its fee and context aside, the merge of exactly its own statements in the order they were run |
| `OrderLedger.LedgersConverge` | internal/ledger/sql.go:44-372 | two databases that were sent the same messages of an order after its first upsert, in any order and any number of times, with any fee records between, hold the same outcome, when the terminal messages report one end and none more filled |
| `OrderLedger.AgreementStep` | internal/ledger/fees.go:421-451 | a statement keeps trusted fees in agreement exactly when it is harmless, which can be checked before it runs |
| `OrderLedger.AgreementOverRuns` | internal/ledger/fees.go:421-451 | fees agree throughout a run of all three statements exactly when each statement was harmless when it was run |
| `OrderLedger.QuietRunsAgree` | internal/ledger/fees.go:421-451 | so they always agree with one fee record per order, sent after a first message of the order, and order messages that report no fee and keep the mark |
| `OrderLedger.OrderStoredLater` | internal/ledger/sql.go:44-97 | an order first stored after its trusted fee record takes the fee of its own first message |
| `VersionTable.AutomaticRunsCount` | internal/ledger/performance_sql.go:416-476 | any run of automatically numbered statements and status updates numbers each key's rows 1..n and keeps row n, alone, current |
| `VersionTable.RunsStayMarked` | internal/ledger/performance_sql.go:416-491 | with chosen versions too, exactly the newest row of each key is current |
| `VersionTable.ChosenVersionGoesBack` | internal/ledger/performance_sql.go:459-459 | a chosen version is in force even when old: the current row has the largest version exactly when it exceeded all others |
| `VersionTable.InForceIsNewest` | internal/ledger/performance_sql.go:406-414 | what a reader of current rows sees is the newest row |
| `BrokerPublish.GoldBalances` | internal/ledger/performance_gold.go:165-175 | carried asset plus overnight adjustment plus profit is exactly the close |
| `BrokerPublish.PerformanceStore.UpsertGold` | internal/ledger/performance_gold.go:267-339 | equal content leaves the table alone, other content becomes the next current version |
| `BrokerPublish.PerformanceStore.UpsertNav` | internal/ledger/performance_sql.go:416-476 | refused for invalid values or a taken version, otherwise the next current version |
| `BrokerPublish.PerformanceStore.UpdateNavStatus` | internal/ledger/performance_sql.go:478-491 | rewrites only the row in force under that key, never what it is worth |
| `BrokerPublish.PerformanceStore.PersistAudit` | cmd/relayctl/performance_broker_statement.go:654-747 | the publishing loop writes exactly what the plan of the audit says, or rolls everything back |
| `BrokerPublish.StoredIsUnchanged` | cmd/relayctl/performance_broker_statement.go:749-764 | a stored row counts as unchanged on the next run exactly when the running value was positive |
| `BrokerPublish.PublishTwice` | cmd/relayctl/performance_broker_statement.go:654-764 | a second run of the same audit, confirmed by anyone at any time, succeeds, never touches the gold table, and saves no NAV row exactly when the running value stays positive on every published day |
| `BrokerPublish.EmptyTablesAcceptExactly` | cmd/relayctl/performance_broker_statement.go:668-747 | into empty tables a statement is published exactly when no day has negative assets, before or after its profit, and a first funded day opens on something |
| `BrokerPublish.PublishKeepsTables` | cmd/relayctl/performance_broker_statement.go:654-747 | a publication keeps one current row and gapless versions per key in both tables |
| `BrokerPublish.PublishKeepsSound` | cmd/relayctl/performance_broker_statement.go:654-747 | a publication leaves a NAV table the next publication may start from |
| `Clock.ParseClockFormat` | cmd/relayctl/performance_broker_statement.go:781-785 | a printed time of day is read back, also with a one-digit hour or a fraction of a second |
| `Clock.ParseMinuteFormat` | internal/config/config.go:464-470 | a printed hour and minute are read back |
| `BrokerReturn.WeightNeverRises` | cmd/relayctl/performance_broker_statement.go:786-796 | a later flow weighs no more, and strictly less while the session runs |
| `BrokerReturn.WeightIsAFraction` | cmd/relayctl/performance_broker_statement.go:781-796 | every weight lies in [0, 1] and is a whole number of 19800ths, an unreadable time included |
| `BrokerReturn.WeightedStaysInRange` | cmd/relayctl/performance_broker_statement.go:766-774 | the capital base lies between "all withdrawals at the open" and "all deposits at the open" |
| `BrokerReturn.PositiveOpenPositiveDenominator` | cmd/relayctl/performance_broker_statement.go:775-779 | a positive opening gives a denominator of at least one millionth, whatever the flows |
| `BrokerReturn.ReturnDenominator` | cmd/relayctl/performance_broker_statement.go:766-779 | the loop computes the rounded weighted base and reports each flow with its weight |
| `BrokerMoney.ParseDecimal` | cmd/relayctl/performance_broker_statement.go:798-831 | a plain signed decimal, commas and surrounding space aside, reads as exactly 100 times its value when that is whole and the whole part fits, and is refused otherwise; results out of range wrap |
| `BrokerMoney.RoundTrip` | cmd/relayctl/performance_broker_statement.go:870-877 | every 64-bit amount is read back as printed, the smallest one (which prints with two signs and a signed remainder) included |
| `Int64.WrapOnce` | cmd/relayctl/performance_broker_statement.go:824-829 | wrapping midway or only at the end of a 64-bit computation makes no difference |
| `DateOrder.AscendingIsUnique` | cmd/relayctl/performance_broker_statement.go:342-342 | whatever sorts them, the same rows of distinct dates end up in the same order |
| `DateOrder.SortedIsAscending` | cmd/relayctl/performance_broker_statement.go:342-342 | rows of distinct dates come out in strictly ascending order |
| `BrokerAudit.AuditFunds` | cmd/relayctl/performance_broker_statement.go:294-352 | refuses a date that is not in the calendar or repeats; otherwise sorts and counts exactly the days whose total does not follow |
| `BrokerAudit.NoFailureConserves` | cmd/relayctl/performance_broker_statement.go:343-351 | no failing day means exactly that every total is all deposits less withdrawals plus profit so far |
| `BrokerAudit.AuditCashFlows` | cmd/relayctl/performance_broker_statement.go:354-435 | counts exactly the days whose cash or whose bank transfers do not follow from the flows, and the distinct flow ids |
| `BrokerAudit.NoCashFailureConserves` | cmd/relayctl/performance_broker_statement.go:422-433 | no failing day means exactly that every cash balance is the sum of the flows dated on the statement's days so far |
| `BrokerAudit.TransfersExplainEarnings` | cmd/relayctl/performance_broker_statement.go:418-431 | if deposits and withdrawals match the bank transfers of each day, everything earned is transfers plus profit |
| `BrokerAudit.UniqueIds` | cmd/relayctl/performance_broker_statement.go:416-435 | as many distinct ids as flows means that no id repeats |
| `BrokerCounter.Unmatched` | cmd/relayctl/performance_broker_statement.go:641-650 | the unmatched counter is the size of the multiset symmetric difference, in whatever order the map keys come, and zero exactly for equal multisets |
| `BrokerSettlement.JoinInjective` | cmd/relayctl/performance_broker_statement.go:854-860 | keys of fields without the separator tell different fields apart |
| `BrokerPrice.NormalPrice` | cmd/relayctl/performance_broker_statement.go:841-850 | a price keeps its sign and whole part and loses exactly a plus sign and its trailing zeros |
| `BrokerPrice.SamePrice` | cmd/relayctl/performance_broker_statement.go:841-850 | two prices without leading zeros normalise to one text exactly when they are the same number, whatever their signs and number of decimals |
| `BrokerSettlement.AuditPositions` | cmd/relayctl/performance_broker_statement.go:551-584 | replayed oldest first, mismatches are exactly the rows whose reported balance is not the sum of movements; none negative means no security ends short |
| `BrokerSettlement.AuditSettlement` | cmd/relayctl/performance_broker_statement.go:448-584 | the financial counter is the symmetric difference between settled rows and the flows they must cause |
| `BrokerSettlement.AuditExecutions` | cmd/relayctl/performance_broker_statement.go:588-652 | the execution counter is the symmetric difference between fills and settled trades |
| `BrokerGate.AuditStatement` | cmd/relayctl/performance_broker_statement.go:170-252 | the quality gate passes exactly the statements whose files agree in all these ways |
| `BrokerGate.AssetsAreTransfersPlusProfit` | cmd/relayctl/performance_broker_statement.go:342-433 | in a statement that passes, each day's assets are the bank transfers so far plus the profit so far |
| `BrokerGate.SameTrade` | cmd/relayctl/performance_broker_statement.go:858-860 | a fill and a settled trade with one key agree field by field |
| `BrokerStatement.GroupTransfers` | cmd/relayctl/performance_broker_statement.go:245-250 | the map by date holds exactly the bank transfers of each date, in the order of the file |
| `BrokerStatement.PublishedFlowsAddUp` | cmd/relayctl/performance_broker_statement.go:690-700 | in a statement that passes, the flows of each capital base add up to the external flow published beside it, and the day closes on opening plus flow plus profit |
| `BrokerStatement.Run` | cmd/relayctl/performance_broker_statement.go:108-168 | the statement passes exactly when its rows in date order do; it is published exactly when it passes and no day is refused, as the plan of those rows says; otherwise the tables stay as they were |
| `BrokerStatement.StatementTwice` | cmd/relayctl/performance_broker_statement.go:108-168 | of a statement that passes, a later run by anyone at any time succeeds, leaves the gold table alone, and leaves the NAV table alone exactly when the running value stays positive |
| `BrokerStatement.SecondRunRewrites` | internal/ledger/performance.go:979-981 | a concrete three-day statement passes the gate and is published, and every later publication of it rewrites a NAV row, because a running value of zero is stored as one |
| `ReturnSeries.BuildResearchSeries` | internal/api/server.go:3357-3391 | rewrites each row in place and returns totals, compounded return and deepest drawdown; without an included row the summary stays |
| `ReturnSeries.RunIsExact` | internal/api/server.go:3371-3381 | the running variables are the wealth, its peak, the drawdown from it and the least drawdown so far, for all returns |
| `ReturnSeries.DeepestIsWorstLoss` | internal/api/server.go:3374-3381 | on positive wealth the one-pass maximum drawdown is the quadratic minimum over all pairs i <= j of wealth j over wealth i, less one |
| `ReturnSeries.SeriesMeetsTheDefinition` | internal/api/server.go:3357-3391 | so it is for every series whose included returns exceed minus one |
| `ReturnSeries.ExcludedRowsPlayNoPart` | internal/api/server.go:3365-3368 | unofficial and blocked rows change no return and no drawdown |
| `NavOverlay.MergeDates` | internal/api/server.go:3299-3319 | the rows that were there, repeated dates included, and one row for every official date without one, made from its first NAV row, in date order |
| `NavOverlay.Overlay` | internal/api/server.go:3188-3297 | each row is rewritten from the last official NAV of its date and the last published close before it, or reduced to a diagnostic |
| `NavOverlay.OverlaidIsIncluded` | internal/api/server.go:3206-3231 | the series counts exactly the days with a published NAV row |
| `NavOverlay.AssetChangesTelescope` | internal/api/server.go:3232-3244 | the reported asset changes add up to the last published close less the first reference close |
| `Markdown.SplitJoins` | cmd/relay-docs/main.go:1421-1421 | splitting into lines loses nothing |
| `HtmlReader.ReadPieces` | cmd/relay-docs/main.go:1420-1525 | an independent reader of tags and entities recovers the structure and text of what was printed |
| `MarkdownRenderer.InlineIsEscaped` | cmd/relay-docs/main.go:1549-1553 | dropping backticks after escaping drops exactly the text's own backticks |
| `MarkdownRenderer.Renderer.RenderLine` | cmd/relay-docs/main.go:1446-1517 | at most one of the four flags is ever set, and each line writes exactly the pieces of its mode and kind |
| `Markdown.EveryLineNests` | cmd/relay-docs/main.go:1446-1517 | after every line the output reads back with at most one block open |
| `Markdown.DocumentNests` | cmd/relay-docs/main.go:1518-1524 | for every text the whole document nests, every element in its proper container, all closed, no stray bracket or text |
| `MarkdownRenderer.RenderMarkdown` | cmd/relay-docs/main.go:1420-1525 | the renderer produces that document |
| `OrderSchedule.Validate` | internal/config/config.go:433-462 | comparing neighbours accepts exactly the schedules whose windows are readable, non-empty and pairwise disjoint in order |
| `OrderSchedule.ActiveAt` | internal/config/config.go:474-499 | an error exactly for an invalid schedule; otherwise active exactly inside a window counted from local midnight, and the reported moment is right (later than now, nothing changes before it, and the state changes there unless one window ends as another starts) exactly when entry is open, or a window is still to come today, or the local day lasts 24 hours |
| `OrderSchedule.EvenDaysAreOnTime` | internal/config/config.go:474-499 | in a zone of one offset every answer is right |
| `OrderSchedule.LongDay` | internal/config/config.go:493-496 | on a local day of 25 hours the reported moment may already have passed |
| `RefreshProtocol.NothingAfterStop` | internal/orderflow/auto_refresh.go:111-132 | once stopped, no callback refreshes anything, whatever was already firing |
| `RefreshProtocol.CalmRunsKeepTheCooldown` | internal/orderflow/auto_refresh.go:75-132 | refreshes of an account are at least the cooldown apart in every run where none of its requests falls between a firing and its callback |
| `RefreshProtocol.CalmRunsStayOrderly` | internal/orderflow/auto_refresh.go:75-132 | in such runs an account has at most one live timer, and it is tracked while armed |
| `RefreshProtocol.RaceLosesATimer` | internal/orderflow/auto_refresh.go:124-131 | otherwise a callback can delete the entry of the timer that replaced its own, which stays armed |
| `RefreshProtocol.EverySlipCanBreak` | internal/orderflow/auto_refresh.go:75-132 | from every state of every run, a request that slips in between a firing and its callback can be followed by a run that breaks a cooldown above zero |
| `RefreshProtocol.CooldownNeedsCalm` | internal/orderflow/auto_refresh.go:75-132 | over all runs the cooldown holds exactly when it is zero |
| `RefreshScheduler.AutoRefreshScheduler.Request` | internal/orderflow/auto_refresh.go:62-103 | a blank account is ignored, any other request is one protocol step |
| `RefreshScheduler.AutoRefreshScheduler.Run` | internal/orderflow/auto_refresh.go:124-132 | a callback refreshes exactly when the scheduler is not stopped |
| `RefreshScheduler.CalmSchedulerKeepsTheCooldown` | internal/orderflow/auto_refresh.go:62-132 | the same of the scheduler object: as long as its requests stay clear of pending callbacks it keeps the cooldown |
| `RefreshScheduler.StoppedStaysQuiet` | internal/orderflow/auto_refresh.go:111-132 | the same of the scheduler object: whatever its callers do after Stop, it refreshes nothing more |
| `RefreshScheduler.AutoRefreshScheduler.Stop` | internal/orderflow/auto_refresh.go:111-122 | stops every tracked timer in any order and tracks none |

## Left out

- EventHub.Hub.Publish: the event number is not allowed to wrap after 2^64 - 1 events.
- EventHub.Hub.SubscribeFrom: the goroutine that unsubscribes when a context ends is a separate call of Unsubscribe.
- SseStream.ReadFrame: a byte order mark at the very start of the stream and the retry field's effect are not read.
- SseStream.ClientSeesWholeFrames: field values are free of CR, LF and NUL and bodies free of CR, as JSON bodies and cursors are.
- SdkStream.ReadEvents: the reconnect budget, the reconciliation callback and its errors; cursors the hub did not print are read by the hub's rules.
- FeeMerge.NormalizeAmounts: NaN and infinities, and which amounts were already rounded when a later one is refused.
- OrderMerge.ArrivalOrderConverges: average prices, adapter status columns and adapter context are last-value-wins and do depend on arrival order.
- BrokerPublish.PerformanceStore.PersistAudit: the evidence kept in JSON components other than the funds hash, quality flags, column overflow, and statements that fail for outside reasons; dates are taken as normalised by their ISO form, and the list of current rows is not cut at the statement's last date, which no written row exceeds.
- BrokerSettlement.AuditSettlement: per-day statistics (amounts, fees, row counts), which only feed a report, and the duplicate fill number counter, which only warns.
- BrokerGate.AuditStatement: reading CSV files, missing columns and whether two export files are identical.
- OrderSchedule.ActiveAt: the beginnings of the local days are given, each later than the one before (a zone that shifts its clocks at midnight itself may begin one elsewhere); days that end before their last window does; and what the windows are on the wall clock after such a shift within the day, since they are counted from midnight.
- RefreshScheduler.AutoRefreshScheduler.Run: the refresh calls themselves, their timeouts and their logging.
- NavOverlay.Overlay: columns copied from JSON components (cash, market value, fills, turnover, fees) and quality flags.
- ReturnSeries.BuildResearchSeries: quality flags beyond the exclusion mark.
- Markdown.DocumentNests: how the blocks are grouped by Markdown's own rules; the theorem is about the emitted structure and text.
- AES-GCM, base64, JSON and SHA-256: sealing is a symbolic constructor, envelopes are values, content hashes are the content, key material is a number.
- Float64 rounding: amounts are integers or exact reals with the explicit rounding functions.
- Fee times and other timestamps are integers; RFC 3339 text is not parsed.
- The order row's fee_as_of, record scope and raw payload copies in the order's context.
- PostgreSQL notification plumbing, which only publishes another event; Redis retries and connection errors beyond refused and unanswered commands.
- HTTP routing, page templates, reporting queries, position and asset snapshots, cancel attempts, dead letters, benchmark series and daily reviews.
