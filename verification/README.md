# Verified model of the partition-tolerant payment engine

This project models the payment engine under `internal/` as Dafny programs and proves what it guarantees. It covers the
double-entry ledger and its locks, the two-phase online payment, the offline authorizer, the write-ahead log, the
reconciler, the fraud graph, the cuckoo revocation filter, and the gateway that ties them together.

`dafny verify dfyconfig.toml` checks everything.

## How it is built

Each component appears twice. The code that changes state is a class (or an in-place array method) with the source's
fields and loops; every method is proved equal to one step of a value-level model (`Ledger` to `LedgerModel`,
`WalStores` to `WalModel`, `Reconcilers` to `SettlementModel`, `FraudEngines` to `FraudModel`, `PaymentGateways` to
`GatewayModel`, and so on). The theorems are about runs of those models: all operation sequences, all interleavings, all
schedules, all arrival orders, all cuts of a file, all random choices.

| file | content |
|---|---|
| `LedgerModel`, `Ledger`, `LedgerEffects` | the ledger's ten operations, the class, and what each needs and moves |
| `LedgerConservation`, `LedgerJournal`, `RunConservation` | conservation, solvency, the journal as a faithful record |
| `LedgerLocks`, `LockCoverage` | locks as explicit steps, deadlock freedom, what the locks protect |
| `OnlinePayments`, `AccountDrain` | any number of racing two-phase payments |
| `Tournament`, `ReplayOrder`, `ReplayRuns` | the replay comparator, sorting under it, causality, replays after whole runs |
| `SettlementModel`, `Reconciler`, `SettlementBooks`, `SettlementLog`, `SettlementIsolation`, `SettlementReport` | replay onto the ledger, and what its report says |
| `ColonText`, `PayloadText` | colon-joined text; the text behind the deduplication hash, and which ids it tells apart |
| `WalModel`, `WalScan`, `WalRecovery`, `RecoveredRecords`, `WalDurability`, `WalStore` | framing, recovery from cuts and damage, durability |
| `Bits`, `CuckooModel`, `CompactFilter`, `FilterBits`, `FilterCodec`, `BigEndian` | the cuckoo filter, the bits of its hashes, and its binary form |
| `FraudModel`, `FraudEngine`, `FraudPruning`, `FraudHistory`, `FraudRings` | the sliding-window graph |
| `TokenText`, `OfflineAuth`, `TokenCaps`, `OfflineCeiling` | the signed text of a token, token floors, what one signature is worth and what is queued |
| `GatewayModel`, `PaymentGateway`, `GatewayAnswers`, `ScreenedRuns` | the gateway, what decides its answers, and screening over whole runs |
| `PartitionRuns`, `ExactSettlement`, `IdCollisions` | whole runs through partitions |
| `MerchantIncome`, `AccountBalance` | the money of one account over a whole run |
| `Queue`, `Sums`, `Lexicographic` | shared vocabulary |

## What turned out false, and exactly when it holds

- Every accepted offline payment is settled exactly once: false, even if SHA-256 never collides, because the hashed text joins
  its fields with colons and escapes none of them. Every run over a set of transaction ids settles all its records exactly once
  if and only if no id of the set is another one followed by a colon, a timestamp other than 0, a positive sequence number, a
  terminal sequence number and text that starts with `TOK-`, all with colons in between (`IdCollisions.AlwaysExactExactly`;
  `PayloadText.SeparatesExactly` is about the texts). Ids without colons are safe (`PayloadText.ColonFreeSafe`), and so are ids
  in which no `TOK-` follows a colon, such as `t` and `t:1` (`PayloadText.TokenFreeSafe`). For every other set there is a run,
  from the first request of a new terminal on and with good tokens, that records two payments of which only one is ever settled
  (`IdCollisions.UnsafeIds`). With amount 5 and timestamp 1, such a pair is id `t`, sequence numbers 1 and 1, token `TOK-a-9-1`,
  account `A`, merchant `M:1:2:0:TOK-b-9-2:B:N`, and id `t:1:1:1:TOK-a-9-1:A:M`, sequence numbers 2 and 0, token `TOK-b-9-2`,
  account `B`, merchant `N` (`PayloadText.OneTextTwoIds` and `IdCollisions.NestedIdUnderpays` are about the whole family). That
  nothing is settled twice holds for all ids and any hash function (`PartitionRuns.NeverTwice`).
- A signature binds the token it was made for: the signed text joins its fields with colons, too. It fixes them if and only if
  the account holds no colon and the terminal does not read as a number followed by a colon, nor as anything followed by two
  numbers and more (`TokenTexts.TextFixesExactly`; such tokens are called plain). A token for account `p:q` is also good as one
  with id `TOK-p`. Therefore a signature is good for nothing but its own token if and only if that is plain
  (`TokenCaps.GrantsAuthenticExactly`), and the revocation of an account binds a signature made for it if and only if that is for
  a plain token (`OfflineAuth.RevocationExactly`). With non-negative amounts, one signature hands out no more at any one terminal
  than the ceiling that was signed if and only if the floors that its text can be read with there, one for each id, add up to no
  more (`TokenCaps.SignatureCappedExactly`); plain tokens meet this (`TokenCaps.PlainCapped`), tokens with a floor for an account
  with a colon do not (`TokenCaps.ColonAccountBreaksCap`).
- A token hands out no more than its ceiling over a fleet of terminals: every agent keeps its own account of what was spent, so
  for a plain token with a floor this holds if and only if at most one agent of the fleet accepts it
  (`TokenCaps.FleetCappedExactly`).
- Replay order independent of arrival (README.md:115): false; it holds if and only if no three transactions of the batch
  precede each other in a cycle. For consistent batches this is true of every sorting procedure; for a batch with a cycle the
  comparator leaves at least two orders open (`ReplayOrder.OneReplayExactly`), a library that promises only to sort under
  strict orders may produce either (`ReplayOrder.EveryReplayExactly`), and insertion sort, which `sort.SliceStable` is up to
  twenty elements, does produce both (`ReplayOrder.DeterministicExactly`). Sequence numbers that follow causality are enough
  (`ReplayOrder.MonotoneConsistent`); `ReplayOrder.CausalityBroken` gives three transactions for which an effect is
  settled before its cause.
- The goods handed out on a token stay within its ceiling: over all runs with amounts from a set, if and only if the token
  is not for this terminal, or no amount of the set is negative, or none is grantable, that is positive and at most the ceiling
  and 5000 (`OfflineAuth.CappedExactly`), because the sign of an amount is never checked.
  `OfflineAuth.NegativeAmountReopensFloor` is the shortest run that breaks it.
- Recovery of a recovered log changes nothing: for any file of bytes, if and only if the last frame it reads is shorter than
  2^32 bytes (`WalDurability.RecoveryIdempotent`).
- A new filter has room for the capacity it was made for, in a power of two of buckets: if and only if a quarter of the
  capacity is at most 2^30 (`CompactFilters.NewCompactFilter`). Beyond, the source's 32-bit arithmetic makes a filter of no
  buckets, or never returns, or, from 2^34 keys on, truncates the target as well.
- A restored filter can be asked: if and only if its image is longer than the header of 8 bytes; an image without buckets is
  accepted (`CompactFilters.DeserializeCompactFilter`), can be mounted (`OfflineAuth.EdgeAuthorizer.SetRevocationFilter`), and
  makes every later authorization fail (`OfflineAuth.EdgeAuthorizer.AuthorizeOffline`).
- The journal reproduces the balances: if and only if no account carries the name of escrow, of the capital source, or of
  another account's `_ONLINE` or `_OFFLINE` side (`LedgerJournal.JournalExact`).
- A logged record survives reopening: if and only if its payload is shorter than 2^32 - 20 bytes
  (`WalDurability.DurableExactly`), because recovery adds header and length in 32 bits and the header has 32 bits for the length.
- A serialized filter can be restored: if and only if it has at most 2^29 - 2 buckets (`FilterCodec.RoundTrip`), because
  the expected length is computed in 32 bits.
- A reserve debit cannot deadlock with an online payment to the reserve: if and only if the reserve's name sorts before the
  other account's (`LedgerLocks.ReserveDebitRace`). A legacy overdraft of `a` in favour of `b` cannot deadlock with an online
  payment from `b` to `a`: if and only if `a` sorts before `b` (`LedgerLocks.RecordDeficitRace`).
- A replay returns: `SettlementBooks.HangsExactly` says for which transactions it locks an account twice.
- No ring is recorded within the window: exactly for transfers that name a receiver, or have no way back
  (`FraudRings.ApprovalRingFreeExactly`), because the check is skipped for an empty receiver. The recorded graph stays free of
  rings in whatever order of time requests arrive (`FraudRings.RunStaysRingFree`). The whole history of approvals does if no
  request is earlier than the last pruning it meets (`FraudRings.ApprovalsRingFree`); the clock is read before the lock is
  taken, and if requests may be late by `d` nanoseconds in this sense, it does if and only if `d` is zero
  (`FraudRings.LatenessExactly`); `ScreenedRuns.NoRingPaid` carries the theorem over to the money that the gateway pays out.
- Offline spending is carried by the offline allowance (docs/ARCHITECTURE.md:54-58): not enforced, since acceptance ignores
  the ledger (`OfflineCeiling.AcceptanceIgnoresAllowance`); the replay draws all of it from the allowance if and only if
  the allowance is large enough (`SettlementIsolation.AllowanceIsolates`).
- ReleaseHold keeps balances non-negative: for a negative amount, if and only if the online bucket covers it
  (`LedgerConservation.NegativeReleaseOverdraws`).
- The source's own CheckGlobalInvariant adds the same number to both of its sums and passes on every journal.

## Hypotheses of the run theorems

- Queued payloads are shorter than 2^32 - 20 bytes, and no offline payment of a positive amount to the deficit reserve itself is
  queued, for which a replay may hang (`SettlementBooks.HangsExactly`). Amounts are otherwise arbitrary, online and offline;
  administrators do not create or fund with negative amounts.
- A token that passes the signature check has the text of an issued token, where a theorem speaks of issued tokens: signatures
  cannot be forged and SHA-256 does not collide on token texts. Tokens of one authority carry different counters.
  `OfflineAuth.TokenCeiling` and `OfflineCeiling.QueuedWithinCeiling` further need the issued tokens to be plain.
  `ExactSettlement.ExactlyOnce` needs a clock that is not at the epoch.
- JSON decoding inverts encoding, a checksum has 32 bits, and, for payloads of 2^32 bytes and more, no proper prefix of an
  encoding decodes. That SHA-256 is injective is assumed by `ExactSettlement.ExactlyOnce`, `ExactSettlement.SettledExactly` and
  `IdCollisions.AlwaysExactExactly` and by nothing else. `IdCollisions.UnsafeIds` and `IdCollisions.AlwaysExactExactly` need the
  log to have room for a payment without clock and terminal whose hashed text is at most 40 characters longer than an id.
  Nothing more is assumed of SHA-256, JSON and CRC-32, and nothing at all of FNV-1a and the fingerprint mixer, which
  `CuckooModel.SOURCE_HASHING` spells out.
- Runs of the whole gateway are sequential, with replays in reserve mode; the ledger alone is also treated under arbitrary
  interleaving. Fewer than 2^64 records are logged.
- Screening times do not run backwards in `FraudHistory.EngineRefinesHistory`, where a device's last sighting overwrites earlier
  ones; pruning is invisible (`FraudPruning.PruningInvisible`) already when no screening precedes the last pruning it meets.

## Model

| member | source | states |
|---|---|---|
| LedgerEffects.StepMoves | internal/ledger/m2_conserving.go:138-629 | every completed operation moves exactly the amount it stands for from one bucket to another; every other outcome moves nothing |
| LedgerEffects.StepBooks | internal/ledger/m2_conserving.go:138-629 | a completed operation books one entry with the kind, the two sides, the transaction id and the amount of a table, under the next number; any other outcome books none |
| LedgerEffects.StepOpens | internal/ledger/m2_conserving.go:116-622 | which accounts exist after an operation: no account is closed, and only payees and overdrawn accounts are opened |
| LedgerEffects.CreationExactly | internal/ledger/m2_conserving.go:116-135 | a new account holds its opening balance online, an existing one is left alone, and nothing is booked |
| LedgerEffects.CompletesExactly | internal/ledger/m2_conserving.go:217-622 | an operation completes if and only if sign, payer, cover and lock checks are met |
| LedgerEffects.ErrorsExactly | internal/ledger/m2_conserving.go:217-622 | which error is reported, in the order of the checks, or that the call never returns |
| Ledger.ConservingLedger.constructor | internal/ledger/m2_conserving.go:97-113 | a new ledger holds the three system accounts and an empty journal |
| Ledger.ConservingLedger.AppendEntry | internal/ledger/m2_conserving.go:624-629 | appends one entry numbered by the counter |
| Ledger.ConservingLedger.CreateAccount | internal/ledger/m2_conserving.go:116-135 | equal to the model step; an existing account is left alone |
| Ledger.ConservingLedger.FundAccount | internal/ledger/m2_conserving.go:138-164 | equal to the model step |
| Ledger.ConservingLedger.GetAccount | internal/ledger/m2_conserving.go:167-189 | the account's buckets, or nothing for an unknown id |
| Ledger.ConservingLedger.AllocateOfflineAllowance | internal/ledger/m2_conserving.go:217-254 | equal to the model step |
| Ledger.ConservingLedger.CommitOfflineAllowance | internal/ledger/m2_conserving.go:257-315 | equal to the model step, including late creation of the payee |
| Ledger.ConservingLedger.DebitDeficitReserve | internal/ledger/m2_conserving.go:318-363 | equal to the model step, including the double lock |
| Ledger.ConservingLedger.ReserveFunds | internal/ledger/m2_conserving.go:367-418 | equal to the model step |
| Ledger.ConservingLedger.CommitHold | internal/ledger/m2_conserving.go:421-481 | equal to the model step |
| Ledger.ConservingLedger.DirectCommit | internal/ledger/m2_conserving.go:484-543 | equal to the model step |
| Ledger.ConservingLedger.ReleaseHold | internal/ledger/m2_conserving.go:546-579 | equal to the model step, with no check of the sign |
| Ledger.ConservingLedger.RecordDeficit | internal/ledger/m2_conserving.go:582-622 | equal to the model step, with no check of the sign |
| Ledger.ConservingLedger.AuditConservation | internal/ledger/m2_conserving.go:632-649 | the three sums are the system total and the held total, in any order of visiting |
| Ledger.ConservingLedger.CheckGlobalInvariant | internal/ledger/m2_conserving.go:198-214 | passes on every journal |
| LedgerConservation.StepConserves | internal/ledger/m2_conserving.go:116-622 | every operation with any outcome, self-transfers included, changes the total by exactly what creation and funding bring in |
| LedgerConservation.RunConserves | internal/ledger/m2_conserving.go:116-649 | over every run the total is the start plus seeds plus funding |
| LedgerConservation.StepStaysSolvent | internal/ledger/m2_conserving.go:217-579 | no prudent operation overdraws any bucket but the reserve's |
| LedgerConservation.RunStaysSolvent | internal/ledger/m2_conserving.go:365-386 | no run of prudent operations does |
| LedgerConservation.NegativeReleaseOverdraws | internal/ledger/m2_conserving.go:546-566 | a negative release keeps the ledger solvent if and only if the online bucket covers it |
| LedgerJournal.StepKeepsJournal | internal/ledger/m2_conserving.go:154-162 | one operation over clash-free names keeps the journal exact |
| LedgerJournal.RunKeepsJournal | internal/ledger/m2_conserving.go:243-619 | so does every run |
| LedgerJournal.JournalExact | internal/ledger/m2_conserving.go:138-622 | folding the journal over the opening balances gives every bucket and the held total after every run, if and only if the names do not clash |
| RunConservation.InterleavingConserves | internal/ledger/m2_conserving.go:426-467 | every interleaving of payments, with racing creation of the merchant, keeps the total |
| RunConservation.GatewayConserves | internal/gateway/m1_api.go:118-333 | every run of the gateway keeps the total, in both replay modes, up to seeds and funding |
| LedgerLocks.ScriptDisciplined | internal/ledger/m2_conserving.go:262-338 | every orderly operation takes its locks in order and frees them all, whether it is rejected at once, ends with the lookup of an unknown account, or goes through |
| LedgerLocks.ProgramDisciplined | internal/gateway/m1_api.go:293-327 | so does any sequence of orderly operations, snapshots, audits and checks, as in a request that reserves, commits and rolls back |
| LedgerLocks.AuditDisciplined | internal/ledger/m2_conserving.go:632-649 | an audit, holding the table throughout, does too |
| LedgerLocks.SomebodyMoves | internal/ledger/m2_conserving.go:438-454 | among disciplined threads some unfinished one can move, even when waiting writers block new readers |
| LedgerLocks.DeadlockFree | internal/ledger/m2_conserving.go:274-289 | no set of threads, each running any sequence of orderly operations, snapshots, audits and checks, deadlocks under any schedule; reserve debits are included when the reserve is in no other two-account operation |
| LedgerLocks.ReserveDebitRace | internal/ledger/m2_conserving.go:335-338 | a reserve debit racing the commit of an online payment to the reserve is safe under every schedule if and only if the reserve's name sorts first |
| LedgerLocks.RecordDeficitRace | internal/ledger/m2_conserving.go:595-598 | a legacy overdraft racing the commit of an online payment the other way is safe under every schedule if and only if the overdrawn account sorts first |
| LockCoverage.ChangesProtected | internal/ledger/m2_conserving.go:116-629 | an operation holds the locks of all accounts it reads or changes at once, the journal's exactly if it posts an entry, and the table's for writing if it creates an account; one that ends early changes nothing |
| LockCoverage.OnlyPartiesChange | internal/ledger/m2_conserving.go:116-622 | no other account is changed or created |
| LockCoverage.AuditReads | internal/ledger/m2_conserving.go:632-649 | an audit reads every account under its lock while it holds the table |
| OnlinePayments.HoldCovers | internal/ledger/m2_conserving.go:456-458 | a payment at its commit finds its hold intact |
| OnlinePayments.RunKeepsInv | internal/gateway/m1_api.go:293-319 | in every interleaving each reserved cent belongs to a payment between reserve and commit |
| OnlinePayments.NoRollbackEver | internal/gateway/m1_api.go:310-319 | ReservedBalance is exactly the sum of payments in flight, every commit succeeds, the rollback is never entered |
| AccountDrain.ApprovalsWithinFunds | internal/ledger/m2_conserving.go:383-391 | whatever the amounts and the interleaving, approvals on an account never exceed its online balance, and the offline allowance is untouched |
| AccountDrain.ExactDrain | internal/gateway/m1_api.go:263-328 | n racing payments of equal amount end with exactly min(n, balance div amount) approvals, all others declined for insufficient funds |
| Lexicographic.Transitive | internal/ledger/m2_conserving.go:439-442 | the string order behind the lock order is transitive |
| Lexicographic.Total | internal/reconcile/m6_engine.go:117-125 | and decides every pair of different strings |
| Lexicographic.LessExactly | internal/ledger/m2_conserving.go:439-442 | one string is smaller if and only if it is a proper prefix or has the smaller character where they first differ |
| Tournaments.SortSettles | internal/reconcile/m6_engine.go:102-127 | insertion sort ends with no two neighbours in the wrong order, cycles or not |
| Tournaments.SortContents | internal/reconcile/m6_engine.go:102-127 | sorting permutes the batch |
| Tournaments.AcyclicSortUnique | internal/reconcile/m6_engine.go:102-127 | without cycles there is one arrangement any sort can stop at |
| Tournaments.CycleTwoWays | internal/reconcile/m6_engine.go:102-127 | with a cycle there are two arrangements with no neighbours in the wrong order |
| Tournaments.ArrivalIndependence | internal/reconcile/m6_engine.go:102-127 | the result of insertion sort is independent of arrival if and only if there is no cycle of three |
| Tournaments.OneArrangementExactly | internal/reconcile/m6_engine.go:102-127 | whatever the procedure, there is one arrangement with no neighbours in the wrong order if and only if there is no cycle of three |
| Tournaments.EverySortExactly | internal/reconcile/m6_engine.go:102-127 | every procedure that sorts under strict orders ignores arrival if and only if there is no cycle of three |
| ReplayOrder.CompareVectorClocks | internal/reconcile/m6_engine.go:67-99 | -1, 1 or 0 exactly for precedes, is preceded by, and neither, a missing entry counting zero |
| ReplayOrder.IsBefore | internal/reconcile/m6_engine.go:103-126 | decides the comparator |
| ReplayOrder.BatchIsTournament | internal/reconcile/m6_engine.go:103-126 | with distinct ids the comparator decides every pair one way |
| ReplayOrder.DeterministicExactly | internal/reconcile/m6_engine.go:101-127 | insertion sort, which the library uses up to twenty elements, replays every arrival order alike if and only if the batch has no inconsistent triple |
| ReplayOrder.OneReplayExactly | internal/reconcile/m6_engine.go:101-127 | whatever the sorting procedure, the comparator leaves exactly one order open if and only if the batch has no inconsistent triple |
| ReplayOrder.EveryReplayExactly | internal/reconcile/m6_engine.go:101-127 | every procedure that sorts under strict orders replays the batch independently of arrival if and only if it has no inconsistent triple |
| ReplayOrder.MonotoneConsistent | internal/reconcile/m6_engine.go:108-111 | sequence numbers that follow causality exclude inconsistent triples |
| ReplayOrder.CausalReplay | internal/reconcile/m6_engine.go:101-127 | the one arrangement of a consistent batch is a linear extension of the causal order |
| ReplayOrder.BeforeExactly | internal/reconcile/m6_engine.go:103-126 | the comparator on fields: causal precedence, and for concurrent clocks the lexicographic order of terminal sequence number, sequence number, terminal, timestamp and id |
| ReplayOrder.ReplayFields | internal/reconcile/m6_engine.go:101-127 | in the replay of a consistent batch, what comes first precedes causally or is concurrent and has the smaller five fields |
| ReplayRuns.QueueExactly | internal/edge/m5_local_store.go:200-212 | what is replayed are exactly the listed transactions whose status is PENDING or empty |
| ReplayRuns.ReplayInOrder | internal/reconcile/m6_engine.go:108-116 | after every run, payments without clocks and with one terminal sequence number are replayed in the order in which they were authorized |
| ReplayOrder.CausalityBroken | internal/reconcile/m6_engine.go:103-126 | three transactions for which two arrival orders are replayed differently, once against causality |
| ReplayOrder.InsertDown | internal/reconcile/m6_engine.go:103-126 | one insertion step, in place |
| ReplayOrder.SortTransactionsVectorClock | internal/reconcile/m6_engine.go:102-127 | insertion sort of the slice in place, into the specified arrangement |
| Reconcilers.Reconciler.constructor | internal/reconcile/m6_engine.go:49-56 | nothing seen, nothing logged, legacy mode |
| Reconcilers.Reconciler.SetUseDeficitReserve | internal/reconcile/m6_engine.go:59-63 | sets the mode and nothing else |
| Reconcilers.Reconciler.Cover | internal/reconcile/m6_engine.go:171-190 | allowance first, then online balance, going by one snapshot |
| Reconcilers.Reconciler.ChargeReserve | internal/reconcile/m6_engine.go:193-223 | customer part, reserve part and deficit record |
| Reconcilers.Reconciler.ChargeCustomer | internal/reconcile/m6_engine.go:231-254 | the legacy overdraft and its record |
| Reconcilers.Reconciler.SettleOne | internal/reconcile/m6_engine.go:160-256 | one settlement, from snapshot to verdict |
| Reconcilers.Reconciler.Process | internal/reconcile/m6_engine.go:146-257 | one turn of the loop with deduplication, counters, logs and status |
| Reconcilers.Reconciler.ProcessAll | internal/reconcile/m6_engine.go:140-261 | the whole loop over a queue |
| Reconcilers.Reconciler.Replay | internal/reconcile/m6_engine.go:130-261 | read pending, sort, settle: equal to the model replay |
| SettlementBooks.SettleMoves | internal/reconcile/m6_engine.go:171-229 | in reserve mode the merchant gets the whole amount, the customer pays all but the shortfall, the reserve exactly the shortfall, nobody else is touched; a non-positive amount moves nothing |
| SettlementBooks.HangsExactly | internal/ledger/m2_conserving.go:335-336 | for which transactions a replay locks an account twice, in both modes |
| SettlementBooks.ReportAddsUp | internal/reconcile/m6_engine.go:140-229 | processed is successful plus deficit plus duplicate; the two totals make up the fresh amounts; the log grows by the reported records |
| SettlementReport.CoveredExactly | internal/reconcile/m6_engine.go:171-190 | in both modes a covered transaction is taken from the allowance if that suffices, else from the online balance, and booked with one entry |
| SettlementReport.AbsorbedMoves | internal/reconcile/m6_engine.go:193-211 | in reserve mode an uncovered one takes what is online from the customer and the rest from the reserve, all of it for the merchant |
| SettlementReport.AbsorbedExactly | internal/reconcile/m6_engine.go:193-229 | with an entry for each part and one record of the whole |
| SettlementReport.OverdrawnExactly | internal/reconcile/m6_engine.go:231-256 | in legacy mode it takes all of it from the customer, with its entry and record, and never gets past an account that pays itself |
| SettlementReport.HungExactly | internal/reconcile/m6_engine.go:193-211 | what a replay that hangs on a shortfall owed to the reserve leaves behind: the hash and the customer's part, but no record, status or count |
| SettlementReport.ReportExactly | internal/reconcile/m6_engine.go:140-257 | in both modes a replay that ends adds to the report exactly the covered transactions, the records of those that fell short, each with the customer's online balance as found, and the duplicates |
| SettlementReport.StatusesExactly | internal/reconcile/m6_engine.go:146-257 | in both modes the statuses in the log tell the covered transactions, those that fell short and the duplicates apart |
| ReplayRuns.ReplayReport | internal/reconcile/m6_engine.go:130-261 | in both modes the reconciled total is the sum of the amounts whose status became RECONCILED, the records are those of the transactions whose status became DEFICIT, in order and with their own fields, the deficit total is the sum of their amounts, and the log of deficits grows by just these |
| ReplayRuns.ReportAfterRun | internal/gateway/m1_api.go:331-333 | so it is for a replay after any run of the gateway, and it ends |
| SettlementBooks.ReplayMoney | internal/reconcile/m6_engine.go:146-229 | every account ends with its credits minus its debits plus what the reserve paid for it, and the reserve falls by exactly the reported deficits |
| SettlementBooks.MerchantPaidInFull | internal/reconcile/m6_engine.go:171-210 | a merchant that pays for nothing gets the full amount of each fresh transaction, online |
| SettlementBooks.PayoutOrderIndependent | internal/reconcile/m6_engine.go:146-229 | every permutation of a batch of new transactions leaves pure merchants and the total alike, whatever the comparator |
| SettlementBooks.ReplayStaysSolvent | internal/reconcile/m6_engine.go:194-211 | no replay in reserve mode drives a bucket below zero but the reserve's |
| SettlementBooks.TotalKept | internal/reconcile/m6_engine.go:146-256 | no replay in either mode changes the system total |
| SettlementBooks.SecondReplayHarmless | internal/reconcile/m6_engine.go:153-158 | a batch settled before changes no balance and adds no deficit |
| SettlementIsolation.AllowanceIsolates | internal/reconcile/m6_engine.go:171-179 | a customer's replayed spending comes wholly from the allowance if and only if the allowance covers it, and then the online balance is not debited |
| SettlementLog.SettleStatus | internal/reconcile/m6_engine.go:153-229 | a duplicate is marked so, a covered positive transaction reconciled, any other one a deficit |
| SettlementLog.SettleAllMarks | internal/reconcile/m6_engine.go:155-229 | a replay marks exactly its batch and changes nothing else in the log |
| SettlementLog.SettleAllSees | internal/reconcile/m6_engine.go:147-158 | every hash of the batch is remembered |
| SettlementLog.ArrivalInvisible | internal/reconcile/m6_engine.go:130-261 | two arrival orders of a consistent pending set give the same balances, journal, hashes, deficits and report |
| PayloadText.SeparatesExactly | internal/edge/m5_local_store.go:41-46 | the hashed text tells the ids of a set apart, whatever the other fields of queued transactions, if and only if no id of the set is another one followed by a colon and a timestamp, two sequence numbers and the start of a token id |
| PayloadText.ColonFreeSafe | internal/edge/m5_local_store.go:41-46 | ids without colons cannot be confused |
| PayloadText.TokenFreeSafe | internal/edge/m5_local_store.go:41-46 | nor can ids in which no token id stands behind a colon |
| PayloadText.OneTextTwoIds | internal/edge/m5_local_store.go:41-46 | the family of pairs of payments with different ids and one text: a merchant's name that holds a second payment, an id that holds a first one |
| PayloadText.RawLayout | internal/edge/m5_local_store.go:41-46 | the hashed text is the eight fields in order with colons in between |
| ColonTexts.DecimalValue | internal/edge/m5_local_store.go:42-43 | a number is printed with digits of its value, without leading zeros, behind a minus sign if it is negative |
| WalModel.ScanWithin | internal/edge/m5_local_store.go:142-151 | the truncation point lies within the file |
| WalRecovery.FrameReadable | internal/edge/m5_local_store.go:174-187 | a frame written by Append is read back wherever it stands |
| WalRecovery.TornEnds | internal/edge/m5_local_store.go:93-122 | a frame cut anywhere stops the scan |
| WalRecovery.CrashRecovery | internal/edge/m5_local_store.go:82-154 | cutting a log at any byte restores exactly the frames wholly before the cut and truncates behind them |
| RecoveredRecords.ReadExactly | internal/edge/m5_local_store.go:93-140 | a frame is read if and only if magic bytes, announced length, checksum and payload are those of a record |
| RecoveredRecords.RecoversExactly | internal/edge/m5_local_store.go:82-154 | from any file of bytes: the recovered records stand in it one behind the other from its start on, each behind the magic bytes with the checksum of its payload, no record stands behind the last one, where a file shorter than 2^32 bytes is cut; each entry is the last record of its id, and the counter is the highest number |
| RecoveredRecords.AppendedStands | internal/edge/m5_local_store.go:157-197 | an append under a new id writes such a record behind the file, with its digest, computed if it came without, and the next log number |
| RecoveredRecords.DamageRecovery | internal/edge/m5_local_store.go:125-154 | damage to one payload of a sound log that the checksum notices: exactly the records before it are restored, and the file is cut there |
| WalDurability.EventMirrors | internal/edge/m5_local_store.go:157-197 | append, status change, reopening and a crash inside an append keep disk, index, order and counter in step |
| WalDurability.Durable | internal/edge/m5_local_store.go:82-197 | over any number of them nothing written is lost or reordered, log numbers stay consecutive and ids distinct |
| WalDurability.AcknowledgedSurvives | internal/edge/m5_local_store.go:189-196 | an acknowledged append is in log and index after anything that may follow |
| WalDurability.RecoveryIdempotent | internal/edge/m5_local_store.go:82-154 | recovering a recovered file of any bytes and any length changes nothing if and only if the last frame it reads is shorter than 2^32 bytes |
| WalDurability.DurableExactly | internal/edge/m5_local_store.go:114-142 | a record of any size survives repeated reopening if and only if its payload is shorter than 2^32 - 20 bytes |
| WalStores.RecoverLoop | internal/edge/m5_local_store.go:90-143 | the read loop indexes every readable frame and finds the truncation point |
| WalStores.WALStore.constructor | internal/edge/m5_local_store.go:59-79 | opening a file equals the model recovery |
| WalStores.WALStore.Append | internal/edge/m5_local_store.go:157-197 | refused on a known id, otherwise one frame and one index entry |
| WalStores.WALStore.ReadAllPending | internal/edge/m5_local_store.go:200-212 | the pending entries in insertion order |
| WalStores.WALStore.UpdateStatus | internal/edge/m5_local_store.go:227-235 | changes the status of a known id and nothing else |
| BigEndians.NumberRoundTrip | internal/edge/m5_local_store.go:113-115 | reading big-endian bytes gives back the number written |
| BigEndians.BytesRoundTrip | internal/fraud/compact_filter.go:191-198 | writing the number read gives back the bytes |
| Bits.MaskedXorInvolution | internal/fraud/compact_filter.go:88-90 | exclusive-or under a mask undoes itself, for every mask |
| CuckooModel.AlternateInvolution | internal/fraud/compact_filter.go:108-110 | the alternate of the alternate bucket is the first one |
| CuckooModel.LookupDecidesClass | internal/fraud/compact_filter.go:135-145 | looking into the two buckets decides whether an item of the key's class is stored |
| CuckooModel.SwapTrades | internal/fraud/compact_filter.go:104-110 | a kick trades the item in hand for the displaced one and nothing else |
| CuckooModel.FillCompletes | internal/fraud/compact_filter.go:111-114 | filling a free slot completes the insertion |
| CompactFilters.BucketsFor | internal/fraud/compact_filter.go:35-48 | in 32-bit arithmetic, for every capacity: when the doubling never ends, when it yields no buckets, and that it yields a power of two with room for the capacity if and only if a quarter of the capacity is at most 2^30 |
| CompactFilters.TargetExactly | internal/fraud/compact_filter.go:36-40 | four keys to a bucket in 32 bits, and never less than 64 buckets |
| CompactFilters.SmallestFilter | internal/fraud/compact_filter.go:41-48 | up to 256 keys there are exactly 128 buckets |
| CompactFilters.CompactFilter.constructor | internal/fraud/compact_filter.go:50-54 | an empty filter of any number of buckets |
| CompactFilters.NewCompactFilter | internal/fraud/compact_filter.go:35-55 | for every capacity: whether the call returns, whether the filter is usable, and whether it suits the capacity |
| CompactFilters.CompactFilter.InsertIntoBucket | internal/fraud/compact_filter.go:120-128 | fills the first free slot, or the bucket is full and unchanged |
| CompactFilters.CompactFilter.Kick | internal/fraud/compact_filter.go:104-114 | one kick swaps the fingerprint in hand with a slot and puts the displaced one into the first free slot of its other bucket, or keeps it in hand if that is full |
| CompactFilters.CompactFilter.Displace | internal/fraud/compact_filter.go:98-117 | the kick loop gains the key's item, or trades it for one of class `left`, for every random choice; it goes from full bucket to full bucket until one has room, and gives up after exactly 500 kicks |
| CompactFilters.CompactFilter.Insert | internal/fraud/compact_filter.go:83-118 | success gains one item of the key's class and counts it; failure trades it for the item left in hand; the first bucket is used if it has room, else the second, and only if both are full are items displaced |
| CompactFilters.CompactFilter.Contains | internal/fraud/compact_filter.go:132-148 | true if and only if an item of the key's class is stored |
| CompactFilters.CompactFilter.Serialize | internal/fraud/compact_filter.go:158-181 | the binary form of the filter |
| CompactFilters.CompactFilter.Deserialize | internal/fraud/compact_filter.go:184-219 | restores what the bytes denote, usable if and only if there are more than 8 of them, or leaves the filter unchanged |
| CompactFilters.DeserializeCompactFilter | internal/fraud/compact_filter.go:221-228 | a new filter with what the bytes denote, or an error exactly if they denote nothing |
| CompactFilters.CounterStaysExact | internal/fraud/compact_filter.go:93-117 | the 32-bit counter tells the occupied slots through successes and failures |
| CompactFilters.RunAccounts | internal/fraud/compact_filter.go:83-118 | after any run, stored plus lost is asked for, class by class, and occupied slots are the successes |
| CompactFilters.NoFalseNegatives | internal/fraud/compact_filter.go:130-148 | a key asked for is found unless a failed insertion pushed out an item of its class |
| CompactFilters.FalsePositivesCollide | internal/fraud/compact_filter.go:130-148 | a key is found only if one of the same fingerprint and bucket pair was asked for |
| FilterBits.ClassExactly | internal/fraud/compact_filter.go:57-90 | two keys share a class if and only if their hashes agree in the low 16 bits, 0 counting as 1, and bits 16 to 47 modulo the number of buckets give the same bucket or the one reached by exclusive-or with the mixed fingerprint |
| FilterBits.FoundOnlyAlike | internal/fraud/compact_filter.go:57-148 | after any run of insertions into a power of two of buckets, a key is found only if the hash of an inserted key is like its own in this sense |
| FilterBits.OthersNotFound | internal/fraud/compact_filter.go:132-148 | so a filter into which no such key was inserted answers no |
| FilterBits.MaskIsRemainder | internal/fraud/compact_filter.go:88-90 | a mask of ones is a remainder |
| FilterBits.PublishedHashes | internal/fraud/compact_filter.go:57-61 | the hash gives two of the published test values of FNV-1a |
| FilterBits.MixedOne | internal/fraud/compact_filter.go:73-80 | the mixer, worked out on one fingerprint |
| FilterCodec.RoundTrip | internal/fraud/compact_filter.go:158-219 | a serialized filter is restored if and only if it has at most 2^29 - 2 buckets, and is rejected otherwise |
| FilterCodec.Canonical | internal/fraud/compact_filter.go:184-219 | accepted bytes serialize back to themselves |
| FilterCodec.ImageLayout | internal/fraud/compact_filter.go:158-180 | every byte of an image: bucket count, counter, and the slots bucket after bucket, high bytes first |
| FilterCodec.RestoredAnswers | internal/fraud/compact_filter.go:130-219 | a filter that was serialized and restored answers every lookup as before |
| FraudModel.RiskyExactly | internal/fraud/m3_graph_fraud.go:206-237 | when the score alone refuses a transfer |
| FraudModel.ScoreTable | internal/fraud/m3_graph_fraud.go:208-237 | every score that is reported, and exactly for which transfers |
| FraudEngines.Compact | internal/fraud/m3_graph_fraud.go:339-344 | in-place compaction keeps exactly the recent events, in order |
| FraudEngines.CountRecent | internal/fraud/m3_graph_fraud.go:312-321 | the number of recent transfers |
| FraudEngines.CountSeen | internal/fraud/m3_graph_fraud.go:323-332 | the number of devices seen recently |
| FraudEngines.DropBefore | internal/fraud/m3_graph_fraud.go:353-357 | deletes exactly the sightings before the cutoff |
| FraudEngines.InMemGraphFraudEngine.constructor | internal/fraud/m3_graph_fraud.go:70-82 | an empty engine with the default thresholds |
| FraudEngines.InMemGraphFraudEngine.SetVelocityThresholds | internal/fraud/m3_graph_fraud.go:85-90 | equal to the model step |
| FraudEngines.InMemGraphFraudEngine.ClearAccountHistory | internal/fraud/m3_graph_fraud.go:376-382 | equal to the model step |
| FraudEngines.InMemGraphFraudEngine.Reset | internal/fraud/m3_graph_fraud.go:385-392 | equal to the model step |
| FraudEngines.InMemGraphFraudEngine.SecondHop | internal/fraud/m3_graph_fraud.go:295-305 | whether an account leads back within the window |
| FraudEngines.InMemGraphFraudEngine.DetectCycle | internal/fraud/m3_graph_fraud.go:284-310 | whether a transfer closes a ring of two or three |
| FraudEngines.InMemGraphFraudEngine.PruneTransfers | internal/fraud/m3_graph_fraud.go:335-350 | equal to the pruned transfers of the model |
| FraudEngines.InMemGraphFraudEngine.PruneDevices | internal/fraud/m3_graph_fraud.go:352-361 | equal to the pruned sightings of the model |
| FraudEngines.InMemGraphFraudEngine.ScreenTransaction | internal/fraud/m3_graph_fraud.go:185-281 | decision and new state of the model |
| FraudPruning.StepKeepsSame | internal/fraud/m3_graph_fraud.go:188-272 | a pruning engine and one that keeps everything answer a command alike and stay alike, if a screening is not earlier than the last pruning |
| FraudPruning.PruningInvisible | internal/fraud/m3_graph_fraud.go:169-361 | they answer every command alike of every run in which no screening is earlier than the last pruning it meets, in whatever order of time otherwise |
| FraudPruning.PruneExactly | internal/fraud/m3_graph_fraud.go:335-373 | pruning keeps exactly the transfers less than 60 seconds old and the sightings at most 60 seconds old |
| FraudPruning.Forgets | internal/fraud/m3_graph_fraud.go:187-191 | after every punctual run that ends with a screening nothing older than 90 seconds is kept, and no account of which nothing is kept |
| FraudHistory.EngineRefinesHistory | internal/fraud/m3_graph_fraud.go:185-392 | every run with forward time is decided exactly as a search through the plain list of approved requests would: velocity, distinct devices and way back counted from scratch |
| FraudRings.ApprovalRingFreeExactly | internal/fraud/m3_graph_fraud.go:284-310 | an approved transfer keeps the graph ring-free if and only if it names a receiver, is to oneself, or has no way back |
| FraudRings.RunStaysRingFree | internal/fraud/m3_graph_fraud.go:169-258 | no run over named receivers, in whatever order of time, records a ring of two or three distinct accounts within one window |
| FraudRings.ApprovalsRingFree | internal/fraud/m3_graph_fraud.go:169-258 | not even the whole history of approvals of a pruning engine contains one, in every run in which no screening is earlier than the last pruning it meets |
| FraudRings.LateRequestClosesRing | internal/fraud/m3_graph_fraud.go:169-190 | three requests, the last one a nanosecond earlier than the last pruning, after which it does |
| FraudRings.LatenessExactly | internal/fraud/m3_graph_fraud.go:169-190 | over all runs whose screenings are at most d nanoseconds earlier than the last pruning, the history of approvals is free of rings if and only if d is zero |
| FraudRings.UnnamedReceiverClosesRing | internal/fraud/m3_graph_fraud.go:285-287 | two approved transfers, one without receiver, that form a ring |
| OfflineAuth.GrantedExactly | internal/edge/m4_offline_auth.go:136-228 | a grant needs every check, and a refusal changes nothing |
| OfflineAuth.RefusedExactly | internal/edge/m4_offline_auth.go:136-224 | which reason each refusal carries, and that a grant takes the next number and adds to the spending of its token id alone |
| OfflineAuth.SpendingRecorded | internal/edge/m4_offline_auth.go:205-218 | recorded spending is what was granted, and the sequence number counts the grants |
| TokenTexts.TextFixesExactly | internal/edge/m4_offline_auth.go:43-48 | the signed text of an issued token can be read in one way only if and only if the account holds no colon and the terminal cannot be read as numbers followed by a terminal |
| TokenTexts.TokenIdsExactly | internal/edge/m4_offline_auth.go:43-94 | the ids that tokens with a good signature can carry are exactly those that start like an issued one |
| TokenTexts.TokenLayout | internal/edge/m4_offline_auth.go:43-48 | the signed text is the six fields in order with colons in between |
| TokenTexts.TokenIdLayout | internal/edge/m4_offline_auth.go:81-81 | an id is TOK, account, clock and counter with dashes in between |
| OfflineAuth.TokenCeiling | internal/edge/m4_offline_auth.go:180-217 | in every run on plain tokens, grants under a token id less what negative amounts gave back stay within the ceiling of the issued token of that id, and without negative amounts nothing is given back |
| TokenCaps.GrantsAuthenticExactly | internal/edge/m4_offline_auth.go:43-217 | all that is ever granted on the strength of a signature is granted to the token it was made for if and only if that token is plain |
| TokenCaps.PlainCapped | internal/edge/m4_offline_auth.go:43-217 | for every plain token, whatever its floor, expiration and terminal, all that one signature is good for hands out at most the ceiling that was signed |
| TokenCaps.ColonAccountBreaksCap | internal/edge/m4_offline_auth.go:43-217 | an issued token with a positive floor whose account holds a colon hands out more than its ceiling at its own terminal |
| TokenCaps.SignatureCappedExactly | internal/edge/m4_offline_auth.go:43-217 | for every token: all readings of its text hand out together, at any one terminal and in every run without negative amounts, at most the ceiling that was signed if and only if at every terminal the floors of readings with different ids add up to no more |
| TokenCaps.FleetCappedExactly | internal/edge/m4_offline_auth.go:98-217 | over a fleet of agents with their own spending, a plain token hands out at most its ceiling if and only if it has no floor or at most one agent accepts it |
| OfflineAuth.CappedExactly | internal/edge/m4_offline_auth.go:195-217 | every run over a set of amounts hands out at most the token's ceiling on it, whatever else is shown under its id, if and only if the token is for another terminal, or no amount is negative, or no amount is grantable |
| OfflineAuth.GrantsNumbered | internal/edge/m4_offline_auth.go:217-224 | the k-th grant carries the k-th number |
| OfflineAuth.NegativeAmountReopensFloor | internal/edge/m4_offline_auth.go:195-217 | the shortest case of it: a full floor, its negative, and a full floor again are all granted |
| OfflineAuth.TokenAuthority.IssueToken | internal/edge/m4_offline_auth.go:75-96 | the id is built from account, clock and counter, the floor is clamped to 5000 and the counter advances |
| OfflineAuth.EdgeAuthorizer.constructor | internal/edge/m4_offline_auth.go:109-116 | nothing spent, no filter |
| OfflineAuth.EdgeAuthorizer.SetRevocationFilter | internal/edge/m4_offline_auth.go:119-123 | mounts any filter, also one without buckets |
| OfflineAuth.EdgeAuthorizer.ResetSpentCache | internal/edge/m4_offline_auth.go:231-235 | forgets all spending |
| OfflineAuth.EdgeAuthorizer.AuthorizeOffline | internal/edge/m4_offline_auth.go:136-228 | decides like the model, revocation being a lookup in the mounted filter, and fails without a change if and only if that has no buckets |
| OfflineAuth.RevokedStaysBlocked | internal/edge/m4_offline_auth.go:140-150 | once the account or id of a plain token was inserted into the filter, all that is shown on the strength of its signature is refused, unless a failed insertion pushed out its class |
| OfflineAuth.RevocationExactly | internal/edge/m4_offline_auth.go:43-150 | a listed account blocks all that is shown on the strength of a signature made for it if and only if that was for a plain token |
| OfflineCeiling.SpendingAccounted | internal/gateway/m1_api.go:211-253 | in every run without a reset, whatever the amounts, spending under a token is what is queued under it plus what was granted but refused by the log |
| OfflineCeiling.QueuedWithinCeiling | internal/gateway/m1_api.go:220-253 | in every run over plain tokens without a reset and without negative grants: spending equals what is queued if and only if no append of a positive amount was refused, it is at most the ceiling of the issued token and at most 5000, and queued sequence numbers rise strictly |
| OfflineCeiling.RefusedAppendSpends | internal/gateway/m1_api.go:247-253 | a refused append is declined, yet its amount stays spent |
| OfflineCeiling.AcceptanceIgnoresAllowance | internal/gateway/m1_api.go:211-261 | an offline decision does not depend on the ledger |
| PaymentGateways.PaymentGateway.constructor | internal/gateway/m1_api.go:66-84 | online, screening on, nothing cached |
| PaymentGateways.PaymentGateway.SetNetworkStatus | internal/gateway/m1_api.go:94-98 | sets the status and nothing else |
| PaymentGateways.PaymentGateway.SetFraudScreeningEnabled | internal/gateway/m1_api.go:87-91 | sets the switch and nothing else |
| PaymentGateways.PaymentGateway.HandleOfflinePayment | internal/gateway/m1_api.go:211-261 | authorize, queue, answer: equal to the model |
| PaymentGateways.PaymentGateway.ReserveAndCommit | internal/gateway/m1_api.go:293-327 | reserve, commit, roll back on failure: equal to the model |
| PaymentGateways.PaymentGateway.HandleOnlinePayment | internal/gateway/m1_api.go:263-328 | screening, then the ledger: equal to the model |
| PaymentGateways.PaymentGateway.Answer | internal/gateway/m1_api.go:140-199 | the choice between the two paths |
| PaymentGateways.PaymentGateway.ProcessPayment | internal/gateway/m1_api.go:118-209 | idempotency cache around the two paths: equal to the model |
| PaymentGateways.PaymentGateway.TriggerReconciliation | internal/gateway/m1_api.go:331-333 | a whole replay of the gateway's log |
| GatewayAnswers.ScreeningExactly | internal/fraud/m3_graph_fraud.go:187-260 | screening approves exactly the transfers without a way back to the sender in the recorded events of the last 60 seconds and below the thresholds for recent transfers, devices and amount, pruned on the way or not |
| GatewayAnswers.LedgerPaymentMoves | internal/gateway/m1_api.go:293-327 | an approved payment moves exactly the amount from payer to payee and books it in and out of escrow; a declined one leaves a solvent ledger as it was |
| GatewayAnswers.OnlineAnswer | internal/gateway/m1_api.go:263-328 | each answer of the online path, if and only if: QR mismatch, records against the transfer, no cover, unknown account or no amount, and approval otherwise; money moves only with the approval |
| GatewayAnswers.OfflineAnswer | internal/gateway/m1_api.go:211-261 | each answer of the offline path, if and only if: revoked, bad token, too high, known id, and authorization otherwise; what is spent, and the record with all its fields |
| GatewayAnswers.TokenRequired | internal/gateway/m1_api.go:212-218 | without a token nothing is authorized offline |
| GatewayAnswers.TamperedRefused | internal/gateway/m1_api.go:140-185 | a tampered dynamic QR code is refused before anything else, and nothing changes |
| ScreenedRuns.EngineOfRun | internal/gateway/m1_api.go:271-291 | over every run the engine has seen exactly the online payments with a matching QR code made with screening on, in order |
| ScreenedRuns.NoRingPaid | internal/gateway/m1_api.go:263-328 | in every punctual run with named merchants, the payments approved online with screening on contain no ring of two or three accounts within one window |
| PartitionRuns.AuthorizedIsRecorded | internal/gateway/m1_api.go:230-260 | an offline approval is given if and only if the transaction has just been recorded as asked |
| PartitionRuns.EveryAuthorizationRecorded | internal/gateway/m1_api.go:230-260 | in every run there are exactly as many records as offline payments were authorized |
| PartitionRuns.ReconcileKeepsInv | internal/reconcile/m6_engine.go:130-261 | a replay settles one transaction for every new hash and none for a hash seen before, leaves nothing it read pending, and never hangs |
| PartitionRuns.NeverTwice | internal/gateway/m1_api.go:118-333 | in every run, for any hash function and any ids: only records are settled, none twice, one per remembered hash; a record whose hash is not remembered is pending; without a restart nothing settled is |
| PartitionRuns.ReplaySettlesEverything | internal/reconcile/m6_engine.go:146-229 | after any run, a replay leaves no hash unsettled and a further one, even from a reopened log, changes no balance; every record has been settled exactly once if and only if their hashes differ |
| PartitionRuns.RepeatMovesNothing | internal/gateway/m1_api.go:118-138 | a request with a used idempotency key, after any run in between and whatever it asks for, gets the first answer and changes only the count of requests |
| ExactSettlement.ExactlyOnce | internal/gateway/m1_api.go:118-333 | in every run over issued tokens and ids that cannot be confused, each accepted offline transaction is settled exactly once or pending and not at all, nothing else is ever settled, and a replay at the end settles the rest |
| ExactSettlement.SettledExactly | internal/reconcile/m6_engine.go:146-158 | after any run and a replay, every record has been settled exactly once if and only if no two of them have one text |
| IdCollisions.CollisionUnderpays | internal/reconcile/m6_engine.go:147-158 | in every run, of two records with one text at most one is ever settled, and a replay settles one of those with it |
| IdCollisions.NestedIdUnderpays | internal/edge/m5_local_store.go:41-46 | the whole family of payments whose ids and merchants nest in this way, paid from the first request of a new terminal on: one of the two is never settled |
| IdCollisions.UnsafeIds | internal/edge/m5_local_store.go:41-46 | for every set of ids that ExactlyOnce excludes there is a run, from the first request of a new terminal on and with good tokens, that records two payments under its ids of which only one is ever settled |
| IdCollisions.AlwaysExactExactly | internal/reconcile/m6_engine.go:146-158 | every run over a set of ids and issued tokens settles every record exactly once if and only if no two ids of the set can be confused |
| MerchantIncome.LedgerPaymentAnswers | internal/gateway/m1_api.go:293-327 | on a solvent ledger a payment is approved if and only if the amount is positive and the account exists and covers it, declined for funds if and only if it exists and does not cover it |
| MerchantIncome.MerchantBalance | internal/gateway/m1_api.go:118-333 | after every run a merchant that only receives holds exactly its start, plus every offline transaction settled for it, plus every payment approved online, all in the online bucket |
| AccountBalances.AccountBalance | internal/gateway/m1_api.go:118-333 | after every run every account, payer, merchant or reserve, opened or funded on the way or not, holds its start plus what was settled and approved for it and brought in, less what was settled and approved against it, plus what the deficit log says the reserve paid for it; the reserve holds less by all of that log |

## Left out

- Integer widths of money: amounts and balances are unbounded; overflow of 64-bit cents is not modelled. The 32- and 64-bit
  arithmetic of lengths, offsets, counters and log numbers is.
- Account fields that carry no money: version, timestamps and the deprecated alias of the online balance; the map of
  reservations, which the source writes and never reads.
- ReplayOrder.SortTransactionsVectorClock: does not model the merging of blocks that Go's stable sort does beyond twenty
  elements, which is library code; for consistent batches ReplayOrder.EveryReplayExactly makes the result the same.
- ReplayOrder.DeterministicExactly: its "only if" is about insertion sort, as in the library up to twenty elements;
  ReplayOrder.OneReplayExactly and ReplayOrder.EveryReplayExactly do not depend on the procedure.
- Tournaments.SortSettles: about insertion sort; what merging blocks leaves behind when the comparator has cycles is open.
- Tournaments.CycleTwoWays: shows two arrangements that a sort could stop at; that both are left alone is shown for insertion
  sort in Tournaments.ArrivalIndependence.
- Tournaments.ArrivalIndependence: its "only if" is about insertion sort; Tournaments.EverySortExactly is about any procedure.
- PayloadText.SeparatesExactly: takes the range of the numbers as unbounded.
- MerchantIncome.MerchantBalance: requires that the merchant does not pay and is not administered in the run;
  AccountBalances.AccountBalance covers every account, over all buckets together.
- FraudModel.RiskyExactly: works on scores in hundredths instead of floating point.
- FraudModel.ScoreTable: works on scores in hundredths, too.
- FraudEngines.InMemGraphFraudEngine.ScreenTransaction: does not model the record of IP addresses, which no decision reads,
  nor the QR check before it, which the gateway model takes as a verdict.
- OfflineAuth.TokenAuthority.IssueToken: the clock is a parameter, and of the signature only the signed text is modelled.
- PaymentGateways.PaymentGateway.ProcessPayment: random ids, clocks and the verdicts of the QR, token and signature checks
  come from the surroundings; message strings, fraud scores in responses, ISO-8583 codes and the copied signature of a
  queued transaction are absent.
- PaymentGateways.PaymentGateway.HandleOfflinePayment: does not cover a mounted filter without buckets, with which the
  authorizer fails (OfflineAuth.EdgeAuthorizer.AuthorizeOffline).
- LockCoverage.ChangesProtected: takes each operation as one step of the model; what other threads do between its lookup and
  its locks is in OnlinePayments for payments, and otherwise left out.
- LedgerLocks.DeadlockFree: does not include RecordDeficit between names out of order, which LedgerLocks.RecordDeficitRace shows
  to deadlock, nor the locks of gateway, log and reconciler.
- Failing file system calls other than a crash: a write that fails half-way and is followed by further appends.
- A restart of the whole process: reconciler and ledger live in memory and are lost with it; a restart here reopens the log.
- Concurrent requests with one idempotency key, and audits during other operations.
- QR verification, epoch salts, HTTP server, command line, dashboard and scripts; the single-file copy
  `fs2601_all_in_one.go`.
