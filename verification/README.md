# The life of a transaction row in the Wallets service

The service keeps two tables, wallets and transactions, in one database. A transaction row goes
NEW → SENT → CONFIRMED → REPORTED. Monitors bring rows in from chain feeds and send them to two external services
(Transactions and Exchanger); request handlers create rows, confirm them, and start or stop the monitoring of
wallets. Everything runs interleaved at the suspension points of the event loop, every write replaces a whole row,
and only the monitors take locks.

The project models this in layers.

- **Rows, Keys, Feeds**: the tables, their unique columns and row conditions; the names of the redis locks; what a run
  over wallets meets, in order.
- **Lifecycle**: what may happen to rows at all, as a machine of indivisible steps with the record of acknowledged
  sends, and what holds over every run of it.
- **World, Interleaving, Concurrency**: the same work split at every suspension point, for any number of workers that
  hold snapshots which may be out of date: snapshot, look at the lock, take it, remote answer, whole-row save, release,
  commit, and an error at any point. What holds in *every* interleaving is proved here.
- **Operations, History, Atomicity**: the service with every request and run done in one go, each by the very function
  its sequential code is proved against; what each worker has met so far, and that it accounts for what the worker will
  write; and that interleaved runs in which nobody was disturbed are runs of these operations.
- **Solo**: the other way round, every operation of the sequential code, done by one worker while the others rest, is a
  run of the interleaved world.
- **Refinement, Witnesses**: interleaved runs without stale write-backs keep the guarantees of the machine of steps;
  exactly when a write-back puts a row back; and concrete runs in which it does.
- **Manager, Ingestion, Filling, Handlers, Sending, Registry, Tasks, Alarm**: the sequential code in its own
  form (classes, loops, counters, run-level commit and rollback), each method proved against a function, and what those
  functions mean.

## What the code does that its tests and documentation do not say

- **The fill never fills.** `UpdateTrx.update` (wallets/monitoring/common.py:167-186) binds the name `trx`, which held
  the feed element, to the stored row at line 173, and then evaluates `trx['hash']`. Model objects
  (wallets/common/models.py:10-152) have no item access, so this is a `TypeError`, which the handler for `DoesNotExist`
  does not catch: the run fails and is rolled back at the first element that some expected deposit awaits. The tests
  (tests/tasks/test_tasks.py:39-57) expect the deposit to get the hash. Both readings are modelled
  (`Reading`: `Rebound` as written, `EntryKept` as expected). As written: a run changes nothing, and is exact if and only
  if there is nothing to fill (`AsWrittenFillsNothing`, `AsWrittenIsExactIff`, `ExpectedDepositArrives`). As expected:
  the greedy assignment is exact if and only if no hash offered for a deposit that stays open went to another sender,
  wallet or currency (`GreedyFillIsExact`; a feed where one does: `ContestedHashIsNotExact`). Every interleaved result
  holds for both readings.
- **Stale whole-row saves move rows back.** A sender can put a CONFIRMED row back to SENT, and a confirming handler a
  REPORTED row back to CONFIRMED, after which it is sent to the Exchanger again (`StaleSaveUndoesConfirmation`,
  `StaleCommitUndoesReport`, `UndoneReportIsSentTwice`). `RankDropsIffOvertaken` says exactly when a row is put back.
- **Sends can be repeated.** An error between the acknowledgement and the save leaves the row due
  (`LostReportIsSentTwice`). `AcknowledgedAgainIff`: a row is acknowledged once more exactly when the earlier
  acknowledgement was acted on or lost; by Transactions, asked from a current snapshot, exactly when it was lost.
- **Check-then-create is not atomic.** Two concurrent requests can register one external id twice
  (`ConcurrentStartsCollide`). `IdsStayUniqueIff`: over any interleaved run ids stay unique exactly when each id is
  still free as its wallet is created; so it is while such requests come one after another
  (`OneAfterAnotherIsUnique`). In the same way a batch of confirmations counts what the batch in one go would count
  exactly when no hash it missed has found a row by the commit (`WholeListAtOnceIff`).
- **Letter case.** Feeds are lower-cased, requests are not. A hash added by request with upper-case letters is stored a
  second time by ingestion (`AddedByHandIsStoredTwice`; exactly when: `StoredTwiceIff`), and an expected deposit can be
  settled only if its sender and currency were registered in lower case (`CanBeSettledIff`).
- **The alarm mails nothing and fails.** `send_mail` (wallets/monitoring/common.py:126-137) builds the context of the
  report and then posts an empty text; `send_message` (wallets/utils/__init__.py:51-64) asks the decoded answer for
  `raise_for_status`, which decoded JSON does not have. So a run that has anything to report ends in an error
  (`Alarm.SendMail`, `Alarm.CheckWallets`).
- **Sends survive a failed run.** A sender saves synchronously, outside its run's database transaction, so rows marked
  before an error stay marked (`SendTrxToExternalService.Execute`), unlike the writes of the other monitors.

## Assumptions

- `save` and `update` write the whole row. A monitor's or handler's writes through the manager become visible together at
  its commit; the sender's `save` is visible at once.
- Locks do not expire while their body runs. One run of the fill monitor is open at a time (it is one task, at present
  not scheduled: wallets/monitoring/common.py:437). Any number of the other workers may run.
- A query answers in any order; `get` answers any one match. A row's id is its position in the order of creation.
- A remote call is an outcome chosen by the environment: acknowledged, refused, or failed. Between the service's
  acknowledgement and the save others may act. The call to the Exchanger blocks the event loop
  (wallets/gateway/base.py:64-91), so there they cannot: what is proved of every run covers more runs than occur, and
  the concrete runs with the Exchanger do without that gap.
- Products of decimals are exact. `lower` acts on the letters A to Z.

## Model

| member | source | states |
|---|---|---|
| Rows.LowerTwice | wallets/utils/__init__.py:42-48 | lower-casing an already lower-cased field again, as the fill does with sender and currency, changes nothing |
| Rows.LowerIsByAlphabet | wallets/utils/__init__.py:42-48 | place by place, the capital at some place of the alphabet becomes the small letter at that place, and any other character stays |
| Rows.WholeAlphabet | wallets/utils/__init__.py:42-48 | the capitals from A to Z in lower case are the letters from a to z |
| Rows.InsertKeepsUnique | wallets/common/models.py:94-98 | adding a row keeps hash and uuid unique exactly when neither is taken |
| Rows.SamePayloadIff | wallets/common/models.py:94-138 | two rows have one payload exactly when they agree in every column but status and confirmation time |
| Keys.PrintInjective | wallets/common/models.py:31-33 | printed integers are equal only for equal integers |
| Keys.ReadsBack | wallets/gateway/method_classes.py:239 | a printed count or id is made of digits, and reading it in base ten gives the number back |
| Keys.LockNameReadsBack | wallets/common/models.py:31-33 | a lock name is the name of the model, `_id_` and the digits of the id |
| Keys.LockNameInjective | wallets/common/models.py:31-33 | two lock names are equal exactly when they lock the same row of the same table |
| Keys.NameTakenMeansRowLocked | wallets/monitoring/common.py:371-373 | asking redis for a name answers for that very row |
| Feeds.EventsAreLoaded | wallets/common/seriallizers.py:16-22 | every element a run meets has its texts in lower case, whatever the gateway received |
| Feeds.EventAt | wallets/monitoring/common.py:282-293 | element m of the feed of wallet n is met after the feeds of the wallets before and the m elements before it, its texts in lower case and its amount unchanged |
| Feeds.NothingElseIsMet | wallets/monitoring/common.py:282-293 | whatever is met was delivered for a wallet of the run, or raised by one |
| Lifecycle.StepAdvances | wallets/monitoring/common.py:400-430 | no step lowers a row's rank, touches a REPORTED row, or changes the payload of a row that has a hash |
| Lifecycle.StepKeepsInv | wallets/common/models.py:72-138 | every step keeps unique columns, row conditions, one acknowledgement at most per row and service, and an acknowledgement of exactly what is stored for SENT and REPORTED rows |
| Lifecycle.RunAdvances | wallets/gateway/method_classes.py:224-233 | over any run ranks never drop and REPORTED is absorbing |
| Lifecycle.ReachableRows | wallets/utils/consts.py:4-14 | from the empty store only four of the nine statuses occur; a row carries a confirmation time iff it is CONFIRMED or REPORTED; anything but NEW has a hash; REPORTED has a uuid and a platform wallet; a hash with upper-case letters comes with a uuid, that is, from a request |
| Lifecycle.AcknowledgedAtMostOnce | wallets/monitoring/common.py:358-388 | each service acknowledges each row at most once over a run of indivisible steps, and REPORTED and SENT rows were acknowledged with what is stored now |
| Lifecycle.AtMostThreeChangesPerRow | wallets/monitoring/common.py:396-430 | over any run at most three steps per row change a status |
| Interleaving.MoveGrows | wallets/monitoring/common.py:358-363 | every interleaved move keeps the payload of rows with a hash, all columns of wallets except that monitoring may stop, and all rows; a row with unchanged version is unchanged; only a fill commit touches expected deposits |
| Interleaving.MoveKeepsStore | wallets/common/models.py:94-138 | hashes and uuids stay unique and rows keep their conditions under every move, stale saves included |
| Interleaving.MoveKeepsWorkers | wallets/monitoring/common.py:370-385 | every held snapshot stays a possible state of its row: same payload, due when it was read, and equal to the row while its version is current |
| Interleaving.MoveKeepsLocks | wallets/monitoring/common.py:282-298 | under every move a lock is held by exactly the worker inside the body it protects |
| Interleaving.MoveConserves | wallets/monitoring/common.py:377-384 | every acknowledgement received is settled by a save, lost by an error, or still in hand |
| Interleaving.ReachableOk | wallets/monitoring/common.py:346-388 | all of the above in every reachable world, for any number of workers and any interleaving |
| Interleaving.RunGrows | wallets/monitoring/common.py:172-184 | over any interleaved run a row with a hash keeps hash, value, addresses, currency, uuid and wallet |
| Interleaving.ReportedMeansAcknowledged | wallets/exchanger_gateway/gateway.py:31-39 | in every interleaving a REPORTED row was acknowledged by the Exchanger with the uuid, value and hash it has now, a SENT row by Transactions likewise; confirmed iff it has a confirmation time |
| Interleaving.AcknowledgedStaysTrue | wallets/transactions_gateway/gateway.py:31-42 | everything a service ever acknowledged for a row -- settled, lost or still in a hand -- says what is stored, in every interleaving |
| Interleaving.BodiesExclude | wallets/monitoring/common.py:373-375 | bodies under one lock name exclude each other |
| Interleaving.OneLockEach | wallets/monitoring/common.py:285-287 | a worker holds at most one lock and none while it waits for one: no circular wait |
| Interleaving.LocksByName | wallets/monitoring/common.py:283-287 | inside its body a sender holds the lock named after its transaction, a run over wallets that after its wallet; no two senders are at one row, no two runs at one wallet |
| Interleaving.EveryPathReleases | wallets/monitoring/common.py:374-385 | done, refused or failed, a worker that leaves a body frees its lock and nobody else's |
| Interleaving.TurnedAwayBySameRow | wallets/monitoring/common.py:371-373 | a worker sees its lock taken exactly when some worker is inside a body for the very same row |
| Interleaving.AsksByName | wallets/monitoring/common.py:371-373 | a worker passes its row by exactly when the name is taken, and goes on to lock it exactly when it is not |
| Interleaving.FillNeverStale | wallets/monitoring/common.py:172-184 | an open fill run holds the expected deposits exactly as stored, so its commit is never stale |
| Interleaving.FillAsWrittenWritesNothing | wallets/monitoring/common.py:173-183 | as written the fill commits no change in any interleaving |
| Concurrency.CreateKeepsIdsIff | wallets/gateway/method_classes.py:107-114 | creating the wallet keeps external ids unique exactly when its id is still free at that moment |
| Concurrency.IdsStayUniqueIff | wallets/gateway/method_classes.py:107-114 | over any interleaved run external ids stay unique exactly when every check still holds at its creation |
| Concurrency.OneAfterAnotherIsUnique | wallets/gateway/method_classes.py:107-114 | while requests to start monitoring come one after another, whatever else goes on, ids stay unique |
| Concurrency.StoppedStaysStopped | wallets/gateway/method_classes.py:198-207 | in any interleaving a wallet row that is off monitoring stays off, and no run that begins later takes it up |
| Concurrency.ReachableMovedOn | wallets/monitoring/common.py:359-362 | a row whose acknowledgement was acted on is never NEW again |
| Concurrency.AcknowledgedAgainIff | wallets/monitoring/common.py:370-385 | a service acknowledges a row once more exactly when an earlier acknowledgement was settled or lost; Transactions, from a current snapshot, exactly when it was lost |
| Operations.OperationIsStep | wallets/monitoring/common.py:75-88 | every operation of the service is at most one step of the life of the rows |
| Operations.OperationsAreSteps | wallets/gateway/method_classes.py:221-236 | a run of operations is a run of the machine of steps |
| History.ExplainedIsIngested | wallets/monitoring/common.py:282-296 | what an open ingestion run has met, ingested in one go on the table as it is at the commit, gives exactly its buffer |
| History.AccountedIsRun | wallets/monitoring/common.py:325-343 | what an open fill run has met, with the answers it got, filled in one go on the table as it is at the commit, gives exactly its deposits |
| History.AnswersFitIff | wallets/monitoring/common.py:173-185 | those answers are what the queries give then exactly when no deposit has come in for an element passed over |
| Atomicity.MoveKeepsRecords | wallets/monitoring/common.py:282-296 | whatever others do in between, what a worker has met keeps accounting for what it will write |
| Atomicity.CommitPerforms | wallets/gateway/method_classes.py:221-239 | with current reads a commit is the batch over all hits, and the count answered is the count of that batch |
| Atomicity.MovePerforms | wallets/monitoring/common.py:358-388 | an undisturbed move is one operation of the service on the same inputs, or none |
| Atomicity.RunPerforms | wallets/gateway/method_classes.py:221-236 | an interleaved run in which nobody was disturbed reaches the store and the acknowledgements of the run of the same operations in one go, each read moved to its write |
| Atomicity.InterleavedIsOneAfterTheOther | wallets/monitoring/common.py:365-388 | the same from the empty store, for any number of workers: the acknowledgements received are those of the operations and those in hand |
| Atomicity.EveryIngestionIsOneRun | wallets/monitoring/common.py:277-301 | in every interleaving a finishing ingestion run is the run over its wallets and feeds in one go |
| Atomicity.FillIsOneRunIff | wallets/monitoring/common.py:320-343 | in every interleaving a finishing fill run is the run in one go exactly when no deposit has come in for an element passed over |
| Atomicity.SenderSkipsNothing | wallets/monitoring/common.py:370-385 | in every interleaving a sender that finishes is done with every row it took: saved and settled, refused, or passed by as locked |
| Atomicity.HandlerSkipsNothing | wallets/gateway/method_classes.py:221-236 | in every interleaving a handler that commits has looked for every hash of its list, as often as it occurs |
| Atomicity.WholeListAtOnceIff | wallets/gateway/method_classes.py:221-239 | with current reads the count answered is that of the whole list at the commit exactly when no missed hash has found a row since; then the commit is the whole list in one go |
| Solo.SenderRuns | wallets/monitoring/common.py:370-385 | the sequential pass, up to the first error, rows refused and rows locked by others included, is a run of the world |
| Solo.SenderSavesAll | wallets/monitoring/common.py:370-385 | a sender that nobody disturbs and that is always acknowledged writes every due row and no other |
| Solo.BatchRuns | wallets/gateway/method_classes.py:221-236 | the sequential batch of confirmations is a run of the world |
| Solo.StartRuns | wallets/gateway/method_classes.py:107-114 | a request to start monitoring, served alone, is a run of the world |
| Solo.StopRuns | wallets/gateway/method_classes.py:198-207 | a request to stop monitoring, served alone, is a run of the world |
| Solo.IngestionRuns | wallets/monitoring/common.py:282-296 | a finished sequential ingestion run is a run of the world |
| Solo.FillRuns | wallets/monitoring/common.py:325-339 | a finished sequential fill run is a run of the world |
| Refinement.MoveRefines | wallets/monitoring/common.py:358-388 | a move whose write-back of a row is not stale is at most one of the steps that may happen to rows |
| Refinement.RunRefines | wallets/gateway/method_classes.py:221-236 | an interleaved run without stale write-backs of rows reaches the store and the settled acknowledgements of a run of such steps |
| Refinement.FreshRunsAreSafe | wallets/monitoring/common.py:358-388 | such runs never lower a rank, never touch a REPORTED row, and act on each service's acknowledgement of a row at most once |
| Refinement.FreshLogsAgree | wallets/monitoring/common.py:358-363 | if nothing was lost and nothing is in hand, the acknowledgements received are those of the indivisible run, so at most one per row and service |
| Refinement.RankDropsIffOvertaken | wallets/monitoring/common.py:359-362 | in any interleaving a move lowers a rank exactly when it saves over a row that has overtaken the sender, or commits over a row reported meanwhile; then its snapshot is stale |
| Witnesses.StaleSaveUndoesConfirmation | wallets/monitoring/common.py:361-370 | a reachable run in which a save takes a row from CONFIRMED back to SENT and wipes out its confirmation time |
| Witnesses.StaleCommitUndoesReport | wallets/gateway/method_classes.py:229-233 | a reachable run in which a handler takes an acknowledged REPORTED row back to CONFIRMED, due for the Exchanger again |
| Witnesses.UndoneReportIsSentTwice | wallets/monitoring/common.py:417-430 | the run goes on: the same report is acknowledged a second time |
| Witnesses.LostReportIsSentTwice | wallets/monitoring/common.py:377-384 | a reachable run in which an error after the acknowledgement makes the same report go out twice |
| Witnesses.ConcurrentStartsCollide | wallets/gateway/method_classes.py:108-114 | a reachable run that leaves two wallets with one external id |
| Manager.GetAll | wallets/__init__.py:16-35 | the rows that meet every condition, each once |
| Manager.Exists | wallets/__init__.py:37-38 | true exactly when some row meets every condition |
| Manager.Get | wallets/gateway/method_classes.py:199-203 | some row that meets every condition, or nothing exactly when there is none |
| Manager.Database.CreateTrx | wallets/common/models.py:94-138 | adds the row, or adds nothing exactly when hash or uuid is taken |
| Manager.Database.UpdateTrx | wallets/common/models.py:26-28 | replaces the whole row, or nothing exactly when another row has its hash or uuid |
| Manager.SameKeysReplace | wallets/common/models.py:94-138 | a replacement that keeps hash and uuid never fails |
| Ingestion.IngestsFirstOccurrences | wallets/monitoring/common.py:282-296 | a run adds exactly the first occurrence, in wallet-then-feed order, of each hash not stored and addressed to the wallet, as a NEW row of that wallet; it fails exactly on a gateway error or on a new hash without target |
| Ingestion.IngestKeepsStore | wallets/monitoring/common.py:189-208 | existing rows are untouched, unique columns stay unique, and every row has its wallet |
| Ingestion.IngestIsOneStep | wallets/monitoring/common.py:75-88 | a finished run is one indivisible step |
| Ingestion.ReplayAddsNothing | wallets/monitoring/common.py:204-208 | running again on elements already met, in any order and repetition, adds nothing and fails nowhere |
| Ingestion.RepetitionIsHarmless | wallets/monitoring/common.py:293-296 | repeating elements inside the feeds does not change the outcome |
| Ingestion.OneElementIsStoredTwiceIff | wallets/common/seriallizers.py:16-22 | one element leaves one row for each chain transaction, letter case aside, exactly unless it is addressed and its hash is stored in other letters only |
| Ingestion.StoredTwiceIff | wallets/monitoring/common.py:195-208 | a finished run leaves one row for each chain transaction, letter case aside, exactly when no addressed element brings a hash that is stored in other letters only |
| Ingestion.RunInPlainTerms | wallets/monitoring/common.py:282-296 | in terms of what the gateway delivered: a raise fails the run; a finished run adds only rows of delivered elements sent to the address of their wallet, each hash once and none that was there, leaves every such hash stored, and has passed elements without target only under stored hashes |
| Ingestion.IsValid | wallets/monitoring/common.py:195-208 | new and addressed to the wallet; an error exactly when a new hash has no target |
| Ingestion.CheckTransactionsMonitor.SaveTrx | wallets/monitoring/common.py:146-155 | the two writes add one row with its wallet, or nothing when the hash is taken |
| Ingestion.CheckTransactionsMonitor.HandleEntry | wallets/monitoring/common.py:293-296 | one element has exactly the effect of the specification, and the counter rises by the rows added |
| Ingestion.CheckTransactionsMonitor.HandleFeed | wallets/monitoring/common.py:289-296 | the inner loop is the specification over one feed |
| Ingestion.CheckTransactionsMonitor.GetData | wallets/monitoring/common.py:270-275 | the monitored active wallets that are not platform wallets, each once, in any order |
| Ingestion.CheckTransactionsMonitor.Execute | wallets/monitoring/common.py:277-301 | the nested loop is the specification over everything met; the logged counter is the number of rows added |
| Ingestion.CheckTransactionsMonitor.Process | wallets/monitoring/common.py:75-88 | all writes of a run are kept or none; the counter is zero before and after; a wallet that raises makes the run fail; every row added is that of a delivered element, and every such hash is stored |
| Registry.IdsStayUnique | wallets/gateway/method_classes.py:107-114 | sequential requests keep external ids unique |
| Registry.StoppedStaysStopped | wallets/gateway/method_classes.py:198-207 | an id is on monitoring iff it was started and never stopped after that |
| Registry.NoRowsForStopped | wallets/monitoring/common.py:270-275 | no later ingestion run stores a row for a stopped external id, whatever the feeds bring |
| Handlers.Server.StartMonitoring | wallets/gateway/method_classes.py:99-114 | registers the wallet unless its external id is known, and answers accordingly |
| Handlers.Server.StopMonitoring | wallets/gateway/method_classes.py:192-208 | turns off one wallet with the id and nothing else, or changes nothing when there is none; always a success |
| Handlers.Server.UpdateTrx | wallets/gateway/method_classes.py:216-240 | confirms exactly the rows not REPORTED whose hash is in the list, changing status and confirmation time only, and reports the number of list elements that name such a row |
| Handlers.HitsCountRows | wallets/gateway/method_classes.py:221-239 | on a list without repetitions the reported number is the number of rows confirmed |
| Handlers.HitsCountPlaces | wallets/gateway/method_classes.py:221-239 | the reported number is the number of places in the list whose hash some row carries that is not REPORTED |
| Handlers.BatchIsOneStep | wallets/gateway/method_classes.py:221-236 | the batch is one indivisible step; a second time it counts the same and changes nothing |
| Handlers.RequestedIff | wallets/gateway/method_classes.py:292-334 | the rows that requests may write are exactly those of an expected deposit or of an input transaction for a wallet of that address and currency |
| Handlers.NewRowsAreOffered | wallets/monitoring/common.py:404-428 | every row that ingestion or a request brings with a hash, and every expected deposit that got one, is due for Transactions; every confirmed row with uuid and platform wallet is due for the Exchanger |
| Handlers.AddedByHandIsStoredTwice | wallets/gateway/method_classes.py:326-334 | a hash added by request with upper-case letters is stored again, lower-cased, as soon as ingestion meets it |
| Handlers.Server.GetExchangerWallet | wallets/utils/__init__.py:67-72 | some wallet of that address and currency, or nothing exactly when there is none |
| Handlers.Server.StartMonitoringPlatformWallet | wallets/gateway/method_classes.py:292-310 | adds one expected deposit with the columns of the request, or nothing, failing exactly without wallet, mandatory column or free uuid |
| Handlers.Server.AddInputTransaction | wallets/gateway/method_classes.py:318-352 | adds one row with the columns of the request and answers its hash, or nothing, failing exactly without wallet or when hash or uuid is taken |
| Filling.AsWrittenFillsNothing | wallets/monitoring/common.py:167-186 | as written a run changes no row and fails exactly on an error, a missing target, or the first valid element that an expected deposit awaits |
| Filling.AsWrittenIsExactIff | wallets/monitoring/common.py:167-186 | as written the run is exact iff no valid element meets an expected deposit |
| Filling.ExpectedDepositArrives | tests/tasks/test_tasks.py:39-57 | one deposit and its chain transaction: as written the run fails; as expected the deposit gets the hash |
| Filling.GreedyFillIsExact | wallets/monitoring/common.py:325-343 | as expected: per wallet, sender and currency the rows settled are at most the smaller of expected deposits and offered hashes, and exactly that if and only if, with deposits left over, no offered hash went elsewhere; which is so where no hash is contested |
| Filling.FillTouchesOnlyExpected | wallets/monitoring/common.py:172-184 | as expected: each row is as it was, or was an expected deposit and has hash and value of a valid element for its wallet, sender and currency and nothing else; no two rows get one hash; the counter is the drop in expected deposits |
| Filling.FillInPlainTerms | wallets/monitoring/common.py:325-343 | in terms of what the gateway delivered: in a finished run no wallet raised, each row is as it was or an expected deposit with hash and amount of a delivered element for it, and elements without target had stored hashes |
| Filling.ExactUnderIff | wallets/monitoring/common.py:166-186 | the same for one wallet, sender and currency and any order of the queries' answers |
| Filling.FillIsOneStep | wallets/monitoring/common.py:166-186 | a finished fill is one indivisible step, giving each picked row the hash and value of its element |
| Filling.RunKeepsUnique | wallets/common/models.py:94-98 | no two rows ever get one hash |
| Filling.ContestedHashIsNotExact | wallets/monitoring/common.py:337-339 | a feed in which two senders compete for one hash and the greedy order is not exact |
| Filling.CanBeSettledIff | wallets/monitoring/common.py:173-180 | as expected: some feeds settle an expected deposit exactly when its sender and currency are in lower case and its wallet is an active platform wallet on monitoring |
| Filling.CheckPlatformWalletsMonitor.FindExpected | wallets/monitoring/common.py:173-180 | some NEW hashless row of that wallet, sender and currency, or nothing exactly when there is none |
| Filling.CheckPlatformWalletsMonitor.HandleEntry | wallets/monitoring/common.py:337-339 | one element has exactly the effect of the specification with the row the query found |
| Filling.CheckPlatformWalletsMonitor.HandleFeed | wallets/monitoring/common.py:332-339 | the inner loop is the specification over one feed, up to the first error |
| Filling.CheckPlatformWalletsMonitor.Execute | wallets/monitoring/common.py:320-343 | the nested loop is the specification over everything met, which is everything the visits bring, up to the first error; the logged counter is the number of rows settled |
| Filling.CheckPlatformWalletsMonitor.Process | wallets/monitoring/common.py:75-88 | all writes of a run are kept or none; a finished run's counter is the drop in expected deposits; as written nothing changes, and the run fails exactly when the visits bring an error, a missing target, or a valid element that a deposit awaits |
| Sending.SendTrxToExternalService.GetData | wallets/monitoring/common.py:400-430 | for Transactions the NEW rows with a hash; for the Exchanger the CONFIRMED rows of platform wallets with hash and uuid; each once, in any order |
| Sending.SendTrxToExternalService.SetStatus | wallets/monitoring/common.py:358-363 | writes the snapshot back, however old, with the new status and counts; fails exactly when another row has its hash or uuid |
| Sending.SendTrxToExternalService.Execute | wallets/monitoring/common.py:365-388 | marks exactly the acknowledged rows before the first error SENT or REPORTED, also when the run then fails; every other row stays as it was |
| Sending.SendTrxToExternalService.Process | wallets/monitoring/common.py:75-88 | the same, with the counter zero before and after |
| Sending.FullPassLeavesNothingDue | wallets/monitoring/common.py:365-388 | if all are acknowledged nothing stays due; a row refused, locked or not reached is as it was and due again |
| Sending.PassIsARun | wallets/monitoring/common.py:365-388 | a pass is the run of indivisible sends of its acknowledged rows |
| Tasks.ChainAddsWhatItCounts | wallets/tasks/__init__.py:16-30 | over any runs on any feeds, failed ones among them, no row is lost or changed, the rows added are those counted, and the table keeps its conditions |
| Tasks.RunMonitoring | wallets/tasks/__init__.py:8-30 | for every round up to the cancellation there is a run on what that round brings, failing exactly when its loop does; a failed run stops nothing, and each starts from what the one before left |
| Alarm.Round3IsClose | wallets/monitoring/common.py:252-255 | the rounded amount is a whole number of thousandths, within half a thousandth |
| Alarm.Round3IsMonotone | wallets/monitoring/common.py:252-255 | rounding is monotone |
| Alarm.RoundedWithinIff | wallets/monitoring/common.py:118 | for every amount and threshold, within the threshold iff the amount is below the threshold cut to three places plus half a step (or equal, for a negative threshold) |
| Alarm.ReportedIff | wallets/monitoring/common.py:110-124 | a wallet is listed iff rate times value is below its cut threshold plus 0.0005, which is the threshold itself when given in thousandths; without a rate it is listed whenever its threshold is not negative |
| Alarm.UsdBalance | wallets/monitoring/common.py:250-255 | rate times value within half a thousandth, or zero when the rate is missing |
| Alarm.UsdIsRateTimesValue | wallets/monitoring/common.py:250-255 | the amount of every line is rate times value, rounded; zero without a rate |
| Alarm.SendMail | wallets/monitoring/common.py:126-137 | an empty report posts nothing; any other posts an empty text and ends in an error |
| Alarm.CheckWallets | wallets/monitoring/common.py:233-259 | reports every wallet with its own value and a warning when there are no rates, otherwise the order-preserving list of the low ones with their amounts; comes to no report exactly when a wallet has no threshold; ends without an error exactly when the report is empty |

## Left out

- Generated code, the REST gateway, migrations, deployment files and templates.
- The gateways' network calls and their retries, mail delivery, logging, configuration watching, server start and shutdown.
- `GetInputTrxMethod`: its query reads a column that does not exist (wallets/gateway/method_classes.py:266).
- `CheckBalanceMethod` and `HeathzMethod`: one comparison, and a constant answer.
- Request validators and the INVALID_REQUEST path: requests are taken to be well formed, except that an expected deposit may lack its address or amount.
- Texts of error messages; of the success texts only the counts and hashes they carry.
- Conversion of values by the database and message libraries: field lengths, number formats, the text form of a stored uuid inside a message.
- `wallets/scripts/p_wallets.py`: creates wallets outside the service's own steps.
- Times beyond present or absent.
- Filling.GreedyFillIsExact: the smaller number is reached where no two of wallet, sender and currency with expected deposits are offered one hash; elsewhere it depends on the order of the feeds who is outbid, and those outbid fall short (see ContestedHashIsNotExact).
- Filling.RunKeepsUnique: speaks of runs with nobody else writing; the interleaved counterpart is Interleaving.MoveKeepsStore.
- Registry.StoppedStaysStopped: for requests one after another; concurrent requests can register an id twice (see Witnesses.ConcurrentStartsCollide), so what holds of every interleaving is per wallet row (see Concurrency.StoppedStaysStopped).
- Refinement.RunRefines: the steps say what may happen to rows, not what a given request or feed brings; that is Atomicity.RunPerforms.
