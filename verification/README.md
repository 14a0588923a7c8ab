# Verification of the TRC20 wallet

A Dafny model of the wallet's money paths, with proofs. `dafny verify dfyconfig.toml`
checks everything.

- **Withdrawals** (`WithdrawState`, `WithdrawSafety`, `WithdrawGuarantees`,
  `WithdrawLimits`, `HotWallet`, `HotWalletLimits`, `WithdrawWorld`, `WithdrawWorker`).
  Order rows, outbox, chain and clock are one state; the atomic steps of any number of
  workers and of the network are actions on it. The invariant holds in every run. The
  worker's methods are then proved, statement by statement, to move the state by such
  steps only, with everybody else acting before each operation, so what is proved
  about runs holds for the code. A crash is a worker that takes no further step.
- **Deposit scanner** (`Deposits`, `ScanState`, `ScanRuns`, `ScanLimits`, `Scanner`). The
  scanner is a class over its tables; every database or node operation may fail, which
  is also where it may crash. Validity relates cursor, snapshots, deposits and outbox to
  the history of committed blocks. Every method moves the tables by the steps of
  `ScanRuns` only, so what is proved about runs holds for it.
- **Sweeps** (`SweepState`, `SweepSafety`, `SweepLimits`, `SweepFinality`, `SweepService`,
  `SweepDeposits`). Round workers under per-(address, contract) locks next to unlocked
  reconcile loops that work on copies, as actions and as methods that take only those
  actions. `SweepDeposits` derives the deposits they see from the scanner's runs.
- **Address filter** (`Bloom`, `AddressRegistry`), **node access** (`RateLimit`, `Gateway`) and
  **codecs** (`Address`, `Tx`, `Amount`, `EventIds`, `ChainLog` over `Hex`, `Digits`,
  `Text`): base58 (draft-msporny-base58, sections 3 and 4), Protocol Buffers varints and
  length-delimited records (Protocol Buffers Encoding, "Base 128 Varints" and
  "Length-Delimited Records"), ABI calldata (Solidity Contract ABI Specification,
  "Formal Specification of the Encoding"), decimal token amounts.

Any database or node operation may fail in the methods. Where a contract says
`reliable` it speaks of a deployment in which none does, and then states what must
have happened.

## Assumptions

- The database gives atomic transactions, unique keys and exact row counts; Redis gives
  mutually exclusive locks that outlive their holder's work.
- The chain includes a txid at most once, only after it was broadcast and before the
  expiration in its body, and never replaces irreversible blocks. Without a solidity
  node, depth below the head is what irreversible means.
- A node builds the transfer it is asked for; sign-service signs only a body whose
  calldata matches the order (internal/signer/signer.go:165-185) and leaves the raw
  bytes alone. Hashes and signatures are arbitrary functions.
- No receipt of an included body shows another transfer out of the hot wallet than the
  one the body encodes.
- A node's "not found" is true when it answers, and the clock is read at most a fixed
  latency later. Only for the refund and solvency results: a node's permanent rejection
  means the body is never included.

## Where the code falls short of its promise

Each item names the run that shows the failure and the theorem that says exactly when
it can occur.

- **A paid order refunded.** An order is failed as expired by comparing the clock, read
  after the node's answer, with an expiration stored by the worker
  (internal/withdraw/worker.go:272, internal/withdraw/worker.go:630-648). An order signed
  with a body and an expiration can be refunded although that body paid it exactly when
  the expiration does not lie a query's latency beyond the one in the body, or the
  network includes what it refused for good (`RefundedAndPaidIff`; runs:
  `MarginIsNeeded`, `HonestyIsNeeded`; deployments: `RefundedAndPaidHappens`).
- **A relisted order.** Workers pay out the contract configured for the symbol, receipts
  are matched with the contract recorded in the row. After a change of configuration the
  tokens leave, the order can never be confirmed (`RelistedOrderNeverConfirms`) and a run
  refunds it (`RelistedOrderIsRefunded`), which occurs exactly when the configured
  contract is not the recorded one (`RefundedAndMovedIffRelisted`, `RelistingHappens`).
- **An overdrawn hot wallet.** Signings that all passed the comparison of the balance
  check overdraw the wallet exactly when another one came after its reads or an order was
  settled between them (`OverdrawnIff`; runs: `SecondSignerOverdraws`,
  `SettlementBetweenReadsOverdraws`; deployments: `BothOverdraw`).
- **One payment, two orders.** Nothing makes two orders' bodies different: equal transfers
  built in the same instant share a txid and one payment confirms both
  (`SharedBodyConfirmsTwice`, `SharedBodyHappens`). That is so exactly if one of them was
  signed with a body whose txid the other's row already had (`SharedPaymentIffReused`).
- **Orphaned for good.** A log of a scanned block is a live deposit afterwards exactly when
  its key was not orphaned before (`LiveIffNotOrphaned`, `OrphanStays`); a run in which
  the block that replaced another has the same log and its deposit stays orphaned is
  `OrphanRescanned`.
- **Shallow confirmations.** Depth is judged by the block first seen. A deposit can be
  confirmed below the configured depth exactly when its receipt moved to a later block
  (`ShallowIffMovedUp`, `UnmovedIsDeep`; run: `ShallowHappens`).
- **A lost realignment.** A realignment that cannot be saved leaves the cursor marked as
  checked (internal/scanner/scanner.go:274-281). `LoadCursor` says exactly when: the node
  answered that it is off the chain and the save failed. At nodes with one head a checked
  cursor then moves exactly if the head is past it, or lies below it and the process
  restarts: no cursor above the head is realigned before (`CheckedCursorMovesIff`; run:
  `RealignmentLost`).
- **Unlocked sweeps.** Two sweeps of one balance can be active exactly when no Redis is
  configured (`TwoActiveIffUnlocked`).
- **Written off too early.** A sweep can mark a deposit that landed after its balance was
  read exactly when it has no id bound, or read its ids more than Confirmations blocks
  later (`LateMarkIff`; runs: `BoundIsNeeded`, `SpeedIsNeeded`). Closing out an empty
  address can, exactly when more than Confirmations blocks passed (`LateEmptyMarkIff`;
  run: `EmptySpeedIsNeeded`).
- **Statuses of sweeps.** A settled sweep becomes active again exactly if its worker still
  works on it (`ActiveAgainIffOwned`); a confirmed one is failed exactly if its worker or
  a copy of it is still about (`ConfirmedFailsIffHeld`). Run: `ConfirmedIsNotFinal`.
- **Rows left behind.** An active sweep whose worker is gone is released exactly if a loop
  reads it (energy_ready or broadcast, with a txid) and it has an expiration or its
  transaction is on the chain (`ReleasedIffReleasable`). Any other blocks its address for
  good (`StuckBlocksAddress`); three kinds occur (`StuckHappens`).
- **A row lost to a rebuild.** A rebuild of the filter takes its instant after the load. A
  row rewritten behind the load is out of reach of later syncs exactly when the rebuild
  ends more than the window after the change and no row had the new address before
  (`RebuildLosesIff`; run: `RebuildLoses`).

## Model

| member | source | states |
|---|---|---|
| WithdrawSafety.StepInv | internal/withdraw/worker.go:273-329 | every step of every worker, the network and the api keeps: one body per order, each txid once on chain, outcomes justified, the outbox exact |
| WithdrawSafety.ReachInv | internal/withdraw/worker.go:1-5 | the invariant holds in every reachable state, and rows, outbox, broadcasts and irreversible blocks only grow |
| WithdrawSafety.EmptyInv | internal/withdraw/worker.go:159-178 | runs start in a state that satisfies the invariant |
| WithdrawSafety.StepLater | internal/withdraw/worker.go:820-829 | a written body never changes, statuses only move forward, a terminal row is frozen |
| WithdrawSafety.PaysIgnoresOutcome | internal/withdraw/worker.go:697-725 | settling an order touches nothing its receipt is compared with |
| WithdrawGuarantees.OneBodyPerOrder | internal/withdraw/worker.go:750-772 | all broadcasts of an order, now and in any later state, carry the one body stored in its row, under its txid |
| WithdrawGuarantees.OneTransferPerOrder | internal/withdraw/worker.go:1-5 | at most one included transaction belongs to an order |
| WithdrawGuarantees.ConfirmedIsPaid | internal/withdraw/worker.go:649-692 | a confirmed order has an irreversible successful receipt with its contract, sender, recipient and exact amount |
| WithdrawGuarantees.RefundedIsUnpaid | internal/withdraw/worker.go:635-648 | on an honest network and with the expiration margin, no included body of a failed order pays the contract recorded in it, and a rejected order has none |
| WithdrawGuarantees.RefundedMovesNothing | internal/withdraw/worker.go:635-648 | if the contract configured for its symbol is also the recorded one, no included body of a failed order moves any tokens |
| WithdrawGuarantees.RejectedHasNoBody | internal/withdraw/worker.go:565-585 | a rejected order was never signed |
| WithdrawGuarantees.OutcomesAreFinal | internal/withdraw/worker.go:791-839 | a terminal order and its outbox row never change again |
| WithdrawGuarantees.OutboxMatchesOrders | internal/withdraw/worker.go:480-503 | "withdraw:<order_no>" exists exactly for terminal orders, once, and tells their status and result |
| WithdrawGuarantees.NeverStuck | internal/withdraw/worker.go:1-5 | from every reachable state every order can still reach an outcome, which its event then tells |
| WithdrawLimits.RefundedAndPaidIff | internal/withdraw/worker.go:634-648 | some run refunds an order signed with a given body and expiration, that body irreversibly on the chain and paying it, exactly when the expiration lacks the margin or the network includes what it refused |
| WithdrawLimits.MarginIsNeeded | internal/withdraw/worker.go:634-648 | a run does for every body and expiration without the margin |
| WithdrawLimits.HonestyIsNeeded | internal/withdraw/worker.go:302-311 | on a network that includes what it refused for good a run does for every body and expiration |
| WithdrawLimits.PaysIffListed | internal/withdraw/worker.go:697-708 | an order's own body pays it exactly when it moved tokens and the configured contract is the recorded one |
| WithdrawLimits.RelistedOrderNeverConfirms | internal/withdraw/worker.go:86-92 | an order whose recorded contract is not the configured one is confirmed in no reachable state |
| WithdrawLimits.RelistedOrderIsRefunded | internal/withdraw/worker.go:697-708 | a run moves such an order's tokens irreversibly and then fails and refunds it |
| WithdrawLimits.RefundedAndMovedIffRelisted | internal/withdraw/worker.go:697-708 | on an honest network an order can be refunded although its tokens left exactly when its recorded contract is not the configured one |
| WithdrawLimits.RelistingHappens | internal/withdraw/worker.go:86-92 | deployments with such an order exist |
| WithdrawLimits.OwnTransferIffOwnTxid | internal/withdraw/worker.go:626-632 | two confirmed orders are paid by different transactions exactly when their txids differ |
| WithdrawLimits.SharedPaymentIffReused | internal/withdraw/worker.go:268-290 | in every run one payment confirms two orders exactly if one of them was signed with a body whose txid the other's row already had |
| WithdrawLimits.SharedBodyConfirmsTwice | internal/withdraw/worker.go:248-251 | one transfer confirms two equal orders whose bodies came out the same |
| WithdrawLimits.SharedBodyHappens | internal/withdraw/worker.go:248-251 | two such orders and their deployment exist |
| WithdrawLimits.RefundedAndPaidHappens | internal/withdraw/worker.go:634-648 | each failure occurs without the other's cause: on an honest network without the margin, and with the margin on one that is not |
| HotWallet.OpenEntryInFlight | internal/withdraw/worker.go:402-413 | a body included but not irreversible belongs to an order still in flight |
| HotWallet.SlackClimbs | internal/withdraw/worker.go:379-396 | further inclusions never shrink what is left after all in-flight orders are paid |
| HotWallet.SlackKept | internal/withdraw/worker.go:379-396 | neither does any step other than signing: inclusion, fork, settlement, halt, refill |
| HotWallet.SignSpends | internal/withdraw/worker.go:273-282 | signing takes from it exactly what it adds to the orders in flight |
| HotWallet.CheckIsCautious | internal/withdraw/worker.go:393-396 | what checkBalance compares never exceeds what is left |
| HotWallet.WalletCoversOrders | internal/withdraw/worker.go:217-290 | if every signing was checked, the balance covers the in-flight orders not yet included, in every state of the run |
| HotWalletLimits.OverdrawnIff | internal/withdraw/worker.go:382-400 | signings that all passed the comparison can overdraw the wallet exactly if others may come after the reads or settlements between them |
| HotWalletLimits.SecondSignerOverdraws | internal/withdraw/worker.go:183-188 | two workers that both pass the comparison overdraw the wallet |
| HotWalletLimits.SettlementBetweenReadsOverdraws | internal/withdraw/worker.go:383-392 | so does a sole signer, if another process settles an order between its two reads |
| HotWalletLimits.BothOverdraw | internal/withdraw/worker.go:382-400 | the deployments of both runs exist |
| WithdrawWorld.World.DoSign | internal/withdraw/worker.go:273-288 | the created-to-signed swap keeps a sole worker solvent if there is room for the amount |
| WithdrawWorld.World.TxInfoById | internal/chain/gateway.go:392-401 | a receipt is that of an included body; a missing txid was missing when asked |
| WithdrawWorld.World.Send | internal/chain/gateway.go:679-721 | only a permanent refusal says anything about a body's future |
| WithdrawWorld.RoomByCheck | internal/withdraw/worker.go:382-396 | a balance read and a later sum leave room for the difference |
| WithdrawWorld.RoomStays | internal/withdraw/worker.go:217-290 | that room is still there at the swap, whatever others did meanwhile |
| WithdrawWorker.Worker.Execute | internal/withdraw/worker.go:183-291 | only protocol steps; rejected exactly for the listed reasons; a sole worker stays solvent; nothing is signed that the signer's check refuses |
| WithdrawWorker.Worker.PayOut | internal/withdraw/worker.go:213-267 | balance, fee, body, signature in this order; the order ends halted, failed or on its way |
| WithdrawWorker.Worker.SignAndSend | internal/withdraw/worker.go:272-290 | the winner of the swap, and only it, stores and sends its body |
| WithdrawWorker.Worker.Broadcast | internal/withdraw/worker.go:293-339 | the stored body is sent, a permanent refusal settles the order, otherwise it leaves signed |
| WithdrawWorker.Worker.CheckBalance | internal/withdraw/worker.go:382-400 | enough exactly when the balance read covers the amount and the sum read after it; then there is room |
| WithdrawWorker.Worker.InflightUnits | internal/withdraw/worker.go:405-420 | the filtered sum is the total still to leave the wallet for the token |
| WithdrawWorker.Worker.Halt | internal/withdraw/worker.go:448-475 | halted exactly below the retry limit, and counted; otherwise failed |
| WithdrawWorker.Worker.FailHalted | internal/withdraw/worker.go:480-503 | only a created order is failed here |
| WithdrawWorker.Worker.RiskCheck | internal/withdraw/worker.go:516-563 | refused exactly for an invalid or listed destination, a non-positive amount or a limit |
| WithdrawWorker.Worker.Reject | internal/withdraw/worker.go:565-585 | only a created order is rejected, and it is no longer created afterwards |
| WithdrawWorker.Worker.Reconcile | internal/withdraw/worker.go:590-615 | the first 100 orders in flight, each taken up from a copy that may be stale; what was settled is terminal, and in a reliable deployment nothing fails but orders of a contract the signer no longer allows |
| WithdrawWorker.Worker.ReconcileOne | internal/withdraw/worker.go:626-692 | waits only for a receipt that is not final, sends again only what was missing before its expiration, settles to a terminal status |
| WithdrawWorker.Worker.SettleAbsent | internal/withdraw/worker.go:635-648 | a missing order is sent again before its expiration and failed after it |
| WithdrawWorker.Worker.SettleByReceipt | internal/withdraw/worker.go:649-692 | confirmed or failed as the irreversible receipt says, and not before there is one |
| WithdrawWorker.Worker.FinalInfo | internal/withdraw/worker.go:736-748 | the receipt returned is irreversible; none is returned only if none is final |
| WithdrawWorker.TransferredIn | internal/withdraw/worker.go:697-725 | found exactly when some log decodes to the order's transfer |
| WithdrawWorker.Worker.Rebroadcast | internal/withdraw/worker.go:750-789 | the stored bytes again, only under the stored txid and only while the signer allows the contract (internal/signer/signer.go:165-168); a permanent refusal settles the order |
| WithdrawWorker.Worker.Finish | internal/withdraw/worker.go:791-839 | settles an order still in flight on evidence that proves the outcome |
| WithdrawWorker.Worker.ProcessCreated | internal/withdraw/worker.go:159-178 | the first 20 created orders, each executed; those reported as moved on are no longer created |
| WithdrawWorker.Worker.Run | internal/withdraw/worker.go:94-120 | any number of rounds reaches only protocol states; the hot wallet of a sole worker covers its orders |
| Deposits.DecodesQualifying | internal/scanner/scanner.go:371-405 | a log decodes exactly to a Transfer of a listed token, positive and above the dust threshold |
| Deposits.FilterAgrees | internal/scanner/scanner.go:415-436 | filtering before the lookup changes nothing exactly when the filter knows the wallets the log names |
| Deposits.RecordsHold | internal/scanner/scanner.go:317-335 | a block's records are exactly what the logs of its successful receipts stand for |
| Deposits.CoveredRecords | internal/scanner/scanner.go:415-426 | with a filter that knows every wallet the records are those of the plain lookup |
| Deposits.InsertAllHolds | internal/scanner/scanner.go:346-351 | every record is there by its key afterwards, and nothing else was added |
| Deposits.ReplayedUnique | internal/model/model.go:117-118 | no key occurs twice, whatever is replayed |
| Deposits.ReplayedHolds | internal/scanner/scanner.go:346-354 | the deposits are the records of the committed blocks, by key |
| ScanState.NoHoles | internal/scanner/scanner.go:336-354 | between two retained snapshots up to the cursor everything is retained |
| ScanState.CommitKeeps | internal/scanner/scanner.go:336-354 | committing the next block, the cursor unmoved, keeps the chain of snapshots |
| ScanState.AdvanceKeeps | internal/scanner/scanner.go:161-184 | moving the cursor onto a committed block whose parent was checked keeps it linked |
| ScanState.RollbackKeeps | internal/scanner/scanner.go:588-610 | so does a rollback to a retained height |
| ScanState.PruneKeeps | internal/scanner/scanner.go:613-619 | so does pruning below the cursor |
| ScanState.OutboxConfirm | internal/scanner/scanner.go:513-556 | confirming adds a new event exactly for a deposit that is not internal |
| ScanState.EventsAreExact | internal/scanner/scanner.go:513-561 | "<txid>:<index>" exists exactly for a confirmed deposit that is not internal, and tells it |
| ScanRuns.ReachInv | internal/scanner/scanner.go:93-126 | in every run the deposits are the committed records, pending ones where they were seen, unmoved confirmed ones at depth, and a decided one never changes |
| ScanRuns.IdsFollowBlocks | internal/scanner/scanner.go:161-184 | while the cursor only went forward, deposit ids follow block order |
| ScanRuns.LiveIffNotOrphaned | internal/scanner/scanner.go:346-351 | in every run a log of the block just scanned is a pending or confirmed deposit exactly when its key was not orphaned before |
| ScanRuns.OrphanStays | internal/scanner/scanner.go:346-351 | an orphaned key stays orphaned in every later state, whatever is scanned again |
| ScanLimits.OrphanRescanned | internal/scanner/scanner.go:588-604 | a run with a fork whose deposit is in the replacing block, committed, and still orphaned |
| ScanLimits.UnmovedIsDeep | internal/scanner/scanner.go:474-521 | in every run a confirmed deposit whose receipt still names the block it was seen in has the configured depth |
| ScanLimits.ShallowIffMovedUp | internal/scanner/scanner.go:508-521 | in any reachable state a pending deposit can be confirmed below the depth by a receipt exactly when that names a block above the one it was seen in |
| ScanLimits.ShallowHappens | internal/scanner/scanner.go:508-521 | a run ends with a deposit confirmed below the depth |
| ScanLimits.CheckedCursorMovesIff | internal/scanner/scanner.go:130-187 | at nodes with one head, a cursor marked as checked moves in some run exactly if the head is past it, or lies below it and the process restarts |
| ScanLimits.RealignmentLost | internal/scanner/scanner.go:274-281 | a run marks a cursor above the head as checked without moving it |
| ScanLimits.PayingHappens | internal/scanner/scanner.go:371-405 | deployments and receipts as in these runs exist |
| ScanState.DepositsAreExact | internal/scanner/scanner.go:317-355 | without forks, after any crashes and replays, a deposit exists exactly for each log due in the scanned blocks, once |
| Scanner.Scanner.Tick | internal/scanner/scanner.go:130-187 | steps of ScanRuns only; keeps validity, freezes decided deposits; a tick that succeeds ends exactly at the batch's end; a checked cursor at or above the head stays as it is |
| Scanner.Scanner.Apply | internal/scanner/scanner.go:152-186 | blocks in order up to the first that is missing, unfit or not stored; the cursor passes none of them |
| Scanner.Scanner.FetchRange | internal/scanner/scanner.go:198-230 | in any order of completion every slot holds an error or the block of its height |
| Scanner.Scanner.LoadCursor | internal/scanner/scanner.go:235-284 | a stored cursor is marked as checked exactly when the node has answered; it fails and is marked exactly when the answer was "off the chain" and the save failed; a checked one is returned as it is |
| Scanner.Scanner.StartPosition | internal/scanner/scanner.go:237-258 | the legacy position if that is on the chain, else the configured block, else just below the head |
| Scanner.Scanner.CursorOnChain | internal/scanner/scanner.go:290-302 | above the head never, near it always, otherwise exactly if the node has the stored hash |
| Scanner.Scanner.SaveCursor | internal/scanner/scanner.go:305-314 | the cursor is the given one or unchanged |
| Scanner.Scanner.Advance | internal/scanner/scanner.go:179-184 | the cursor moves only onto a committed block linked to it |
| Scanner.Scanner.ScanBlock | internal/scanner/scanner.go:317-355 | all of a block's snapshot and deposits or nothing; existing rows stay; each log of the block is a live deposit exactly if its key was not orphaned before |
| Scanner.InsertRows | internal/scanner/scanner.go:346-351 | the loop of inserts is the insert of ScanRuns |
| ScanState.AddRowsAre | internal/scanner/scanner.go:346-351 | inserting rows is inserting deposits by key |
| Scanner.Scanner.Parse | internal/scanner/scanner.go:408-457 | one log's row, with the lookups it makes |
| Scanner.Scanner.ParseBlock | internal/scanner/scanner.go:319-335 | the loops over receipts and logs collect the block's records |
| Scanner.Scanner.IsInternal | internal/scanner/scanner.go:459-468 | a sender is internal exactly if filter and table know it |
| Scanner.Scanner.ConfirmUpTo | internal/scanner/scanner.go:473-493 | only pending rows at their depth change; the oldest 500 are decided where nothing fails |
| Scanner.Scanner.ConfirmOne | internal/scanner/scanner.go:495-557 | a pending row becomes what its receipt decides, its event with it; any other row stays; unmoved confirmations have the depth |
| Scanner.Scanner.HandleReorg | internal/scanner/scanner.go:565-611 | rolls back to the highest height of the window the node confirms, orphans exactly the pending deposits and drops exactly the snapshots above it; without one nothing changes |
| Scanner.Scanner.FindFork | internal/scanner/scanner.go:566-584 | everything retained above the height found was asked for and did not match |
| Scanner.Scanner.PruneSnapshots | internal/scanner/scanner.go:613-619 | exactly the snapshots below the retention limit go |
| Scanner.Scanner.Run | internal/scanner/scanner.go:93-126 | any number of ticks with crashes in between reaches only states of ScanRuns and keeps validity, depth of unmoved confirmations included; decided deposits never change |
| Scanner.Scanner.ScannedHeights | internal/scanner/scanner.go:174-184 | scanned are the heights from anchor to cursor and at most the next one |
| Scanner.Scanner.ExactDeposits | internal/scanner/scanner.go:317-355 | in every valid state over one chain and wallet table, the deposits are exactly the logs due |
| EventIds.SplitOfEventId | internal/api/util.go:99-109 | an event id splits into its parts exactly when the txid has no colon and the index fits |
| EventIds.EventIdInjective | internal/scanner/scanner.go:559-561 | no two deposits share an event id |
| EventIds.CollidesWithWithdrawal | internal/store/store.go:137-154 | a deposit's id can be a withdrawal's exactly when its txid begins like "withdraw:" |
| SweepSafety.StepInv | internal/sweep/sweep.go:243-396 | every step, unguarded writes included, keeps the invariant |
| SweepSafety.ReachInv | cmd/sweep/main.go:78-98 | it holds in every interleaving of rounds, reconcile loop and scanner |
| SweepSafety.OneActiveSweep | internal/sweep/sweep.go:243-261 | with locks, one sweep at most is active per address and token in every run |
| SweepSafety.OneBodyPerSweep | internal/sweep/sweep.go:580-640 | everything ever sent for a sweep is one body |
| SweepSafety.WriteOffIsCovered | internal/sweep/sweep.go:556-569 | a sweep with an id bound, its ids read soon enough, marks only deposits that had landed before its balance was read |
| SweepSafety.EmptyWriteOffIsCovered | internal/sweep/sweep.go:483-497 | so does closing out an empty address, at most Confirmations blocks after its balance was read |
| SweepSafety.SweptIffMarked | internal/sweep/sweep.go:493-496 | a deposit is swept exactly when one of the two marked it, and stays so |
| SweepLimits.TwoActiveIffUnlocked | internal/store/store.go:91-101 | two active sweeps of one address and token can occur exactly when no Redis is configured |
| SweepLimits.LateMarkIff | internal/sweep/sweep.go:556-569 | some run marks a deposit that landed after the balance was read exactly when the sweep has no id bound or read its ids more than Confirmations blocks later |
| SweepLimits.BoundIsNeeded | internal/sweep/sweep.go:564-566 | without an id bound a run does, however soon the ids are read |
| SweepLimits.SpeedIsNeeded | internal/sweep/sweep.go:303-318 | with one, a run does for every longer gap between the reads |
| SweepLimits.LateEmptyMarkIff | internal/sweep/sweep.go:483-497 | some run closes out a deposit that landed after an empty balance was read exactly when more than Confirmations blocks passed |
| SweepLimits.EmptySpeedIsNeeded | internal/sweep/sweep.go:112-119 | a run for every longer gap |
| SweepFinality.ActiveAgainIffOwned | internal/sweep/sweep.go:330-396 | a settled sweep becomes active again in some run exactly when its worker is still at work on it |
| SweepFinality.ConfirmedFailsIffHeld | internal/sweep/sweep.go:524-543 | a confirmed sweep is failed in some run exactly when its worker or a loop's copy of it is still about |
| SweepFinality.ConfirmedIsNotFinal | internal/sweep/sweep.go:393-396 | a run confirms a sweep while its worker and a second copy are about |
| SweepFinality.ReleasedIffReleasable | internal/sweep/sweep.go:504-601 | an active sweep whose worker is gone becomes inactive in some run exactly when it is energy_ready or broadcast with a txid and, without a receipt, has an expiration |
| SweepFinality.StuckBlocksAddress | internal/sweep/sweep.go:252-261 | any other never changes, and no new sweep of its address and token is created |
| SweepFinality.LockedIsUnattended | internal/sweep/sweep.go:243-261 | with locks nobody is about to create one where a sweep is active |
| SweepFinality.StuckHappens | internal/sweep/sweep.go:320-399 | runs that leave a row never signed, one stored but never noted as energy_ready, and one sent whose body was never stored |
| SweepDeposits.ScanMirrored | internal/scanner/scanner.go:317-355 | while the cursor only went forward, a scan adds deposits as sweeping assumes: in block order |
| SweepDeposits.DecisionMirrored | internal/scanner/scanner.go:495-557 | a decision by an unmoved receipt is a confirmation at depth, or nothing, for sweeping |
| SweepState.MarkDepsAt | internal/sweep/sweep.go:561-569 | exactly the covered deposits are marked |
| SweepService.World.Interfere | cmd/sweep/main.go:78-98 | others' steps leave a worker's session, its row's body and its loop's copies alone |
| SweepService.Service.RoundToken | internal/sweep/sweep.go:97-141 | exactly the candidates of the queried table are tried, each once, by protocol steps only; a sent one has a row of its key out; every lock is given back; nothing fails in a reliable deployment |
| SweepService.Service.RoundOne | internal/sweep/sweep.go:104-139 | what is sent is the whole balance; skipped exactly below the threshold without enough skips or staleness; an empty address is closed out unless no sweep of it was ever confirmed |
| SweepService.Service.Candidates | internal/sweep/sweep.go:168-186 | the deposit wallets among the first addresses with a confirmed, unswept deposit of the token that is not internal, none left out below the limit |
| SweepService.Service.RecordSkip | internal/sweep/sweep.go:146-165 | the count returned is the stored one and positive |
| SweepService.Service.Prepare | internal/sweep/sweep.go:243-306 | a row may be created only after lock, in-flight check and id bound |
| SweepService.Service.SweepOne | internal/sweep/sweep.go:243-400 | what counts as sent is a row of this address, token and amount whose body is out |
| SweepService.Service.StoreAndSend | internal/sweep/sweep.go:366-399 | the body sent is the row's, even when the write of it was lost |
| SweepService.Service.CountInflight | internal/sweep/sweep.go:252-261 | zero exactly when no sweep of the key is active |
| SweepService.Service.MaxUnsweptDepositId | internal/sweep/sweep.go:468-478 | the highest id of a confirmed unswept deposit, or 0 |
| SweepService.Service.MarkSweptEmpty | internal/sweep/sweep.go:483-497 | once done no deposit of the address and token is unswept; only after a confirmed sweep |
| SweepService.Service.Reconcile | internal/sweep/sweep.go:504-578 | the first hundred signed rows in flight, oldest first, none left out below that, each from its copy; in a reliable deployment nothing but a refusal of the signer keeps a row from its outcome |
| SweepService.Service.ReconcileRow | internal/sweep/sweep.go:512-577 | what each outcome says holds: bytes sent, row failed, released or confirmed; the copy is gone, the others are not |
| SweepService.Service.SettleByReceipt | internal/sweep/sweep.go:524-575 | a failed receipt fails the row; a successful one leaves it out of flight, its covered deposits swept, its skip counter gone |
| SweepService.Service.SettleAbsent | internal/sweep/sweep.go:583-601 | released once its expiration has passed; before, or without one, its stored bytes are sent again, or nothing is done if there are none |
| SweepService.Service.Rebroadcast | internal/sweep/sweep.go:605-640 | the stored bytes are out again, under the stored txid only and only while the signer signs; a permanent refusal fails the row |
| Bloom.Hashes | internal/bloom/bloom.go:136-148 | the loop computes the two folds over the bytes |
| Bloom.StepIsOdd | internal/bloom/bloom.go:144-146 | the step between indexes is odd |
| Bloom.Index | internal/bloom/bloom.go:70-73 | every index lies below the size, wrap-around included |
| Bloom.BloomFilter.constructor | internal/bloom/bloom.go:29-43 | empty, with enough words for its bits |
| Bloom.BloomFilter.Add | internal/bloom/bloom.go:62-76 | exactly the key's bits are added; every key added before keeps its bits |
| Bloom.BloomFilter.MayContain | internal/bloom/bloom.go:80-97 | true exactly if all bits are set, so never false for a key that was added |
| AddressRegistry.Table.After | internal/store/store.go:165-172 | the first rows after an id, none left out between them |
| AddressRegistry.Table.UpdatedSince | internal/store/store.go:178-185 | all rows touched since, unless the limit cuts them off |
| AddressRegistry.Registry.Load | internal/bloom/registry.go:219-236 | paging ends, covers every row that was there when it started, and adds exactly the addresses of its pages |
| AddressRegistry.Registry.Init | internal/bloom/registry.go:43-60 | afterwards every address is covered, or within reach of the next sync if others write |
| AddressRegistry.Registry.SyncPages | internal/bloom/registry.go:110-132 | covers the rows found by id |
| AddressRegistry.Registry.SyncUpdated | internal/bloom/registry.go:139-168 | covers the rows found by stamp, or all if they fill a page |
| AddressRegistry.Registry.Rebuild | internal/bloom/registry.go:194-208 | the new filter holds exactly what its load read, and covers the rows from before, when it is swapped in |
| AddressRegistry.Registry.Sync | internal/bloom/registry.go:98-134 | with nothing out of reach before, or by a rebuild, the rows settled at its start are covered, all of them if nobody writes; and none is out of reach of the next pass within the window |
| AddressRegistry.Registry.RunSync | internal/bloom/registry.go:170-190 | over any number of passes, failed ones included, and others' writes between them nothing gets out of reach unless a rebuild outlasts the window; what the last pass found settled is covered |
| AddressRegistry.Registry.Add | internal/bloom/registry.go:64-71 | the address is covered, nothing is lost |
| AddressRegistry.Registry.Lookup | internal/scanner/scanner.go:415-426 | with every address covered, filter then lookup is the plain lookup |
| AddressRegistry.RebuildLosesIff | internal/bloom/registry.go:194-236 | of a load during which a row already paged is rewritten: the row is out of reach exactly when the rebuild ends more than the window after the change and no row had the new address before |
| AddressRegistry.RebuildLoses | internal/bloom/registry.go:194-236 | such a load exists |
| RateLimit.RateBound | internal/chain/ratelimit.go:60-77 | reservations i to j number at most burst plus rate times the time between their releases, for any clock readings |
| RateLimit.Limiter.Reserve | internal/chain/ratelimit.go:60-77 | refills by elapsed time up to the burst, takes one token, delays by what is missing, and keeps the pace |
| RateLimit.NewLimiter | internal/chain/ratelimit.go:48-57 | a limiter exactly for a positive rate |
| RateLimit.Cooldown.Set | internal/chain/ratelimit.go:103-115 | never moves back, never exceeds two minutes past the latest set, five seconds without a hint |
| Gateway.Gateway.Call | internal/chain/gateway.go:93-157 | ends; contacts only open nodes; an answer is a node's last one, and without one every node failed or stayed parked; the number of waits is bounded |
| Gateway.Gateway.Sweep | internal/chain/gateway.go:105-136 | one pass in priority order leaves no node neither contacted nor parked |
| Gateway.Gateway.TryNode | internal/chain/gateway.go:113-135 | up to the configured attempts, stopped by an answer or a 429 |
| Gateway.Gateway.Broadcast | internal/chain/gateway.go:679-721 | one payload to each open node at most once, in order, until one answers |
| Address.Base58Encode | internal/tron/address.go:35-55 | division loop, leading zeros and in-place reversal give the encoding |
| Address.ReverseInPlace | internal/tron/address.go:51-53 | the swap loop reverses the buffer |
| Address.Base58Decode | internal/tron/address.go:57-77 | the value loop gives the decoding, or an error for a foreign character |
| Address.DecodeOfEncode | internal/tron/address.go:35-77 | decoding undoes encoding for all byte strings |
| Address.EncodeOfDecode | internal/tron/address.go:35-77 | encoding undoes decoding for all alphabet strings, the only ones accepted |
| Address.EncodedShape | internal/tron/address.go:80-86 | every encoded address has 34 characters and starts with T |
| Address.DecodeOfEncodedAddress | internal/tron/address.go:80-105 | decoding an encoded address gives the raw address back |
| Address.EncodeOfDecodedAddress | internal/tron/address.go:80-105 | and the other way round |
| Address.ValidIffEncoded | internal/tron/address.go:108-114 | valid addresses are exactly the encoded ones |
| Address.HexRoundTrip | internal/tron/address.go:117-143 | hex and base58 forms are mutually inverse |
| Address.FormsAgree | internal/tron/address.go:132-141 | the 20-, 21- and 32-byte forms of an address agree |
| Address.SpellingIgnored | internal/tron/address.go:127-131 | case and an 0x in front change nothing |
| Tx.AppendVarint | internal/tron/tx.go:99-105 | the shift loop appends the varint |
| Tx.VarintFits | internal/tron/tx.go:99-105 | one to ten bytes for every uint64 |
| Tx.ReadOfVarint | internal/tron/tx.go:99-105 | a base 128 decoder reads it back in front of any suffix |
| Tx.ReadOfFields | internal/tron/tx.go:93-97 | length-delimited records read back |
| Tx.SerializeSigned | internal/tron/tx.go:70-90 | raw data in field 1 and each signature in field 2, or an error |
| Tx.SerializedDecodes | internal/tron/tx.go:70-90 | the text decodes to exactly raw data and signatures |
| Tx.SerializedInjective | internal/tron/tx.go:70-90 | different transactions never share a serialization |
| Tx.ResigningIsIdentical | internal/tron/tx.go:39-62 | signing the stored raw data again gives the same transaction and txid |
| Tx.EncodeTRC20Transfer | internal/tron/tx.go:130-144 | the copied words are the call, or an error |
| Tx.CalldataReadsBack | internal/tron/tx.go:130-144 | built exactly for valid recipients and amounts below 2^256, and decodes back to both |
| Tx.ParseOfWord | internal/tron/tx.go:162-169 | a word parses to its value |
| ChainLog.DecodeOfTransferLog | internal/scanner/scanner.go:371-405 | a transfer's log decodes to the transfer |
| Amount.IsDigits | internal/api/util.go:86-96 | true exactly for a non-empty text of digits |
| Amount.ParsedValue | internal/api/util.go:56-84 | accepted exactly if a positive decimal of at most that many places, and then worth exactly that |
| Amount.FormatThenParse | internal/model/amount.go:12-29 | parsing what was formatted gives the amount back |
| Amount.ParseThenFormat | internal/model/amount.go:12-29 | formatting what was parsed gives the one canonical text of the amount |
| Amount.DecimalTextMeaning | internal/model/amount.go:22-28 | the formatted text is canonical and worth whole plus fraction |

## Left out

- HTTP handlers, TLS, logging, configuration loading, JSON and RocketMQ: no property of their own.
- SHA-256, Keccak, ECDSA, key derivation and encryption: arbitrary functions here; two bodies with one hash are a premise where it matters.
- Characters outside ASCII in case folding and in hashed keys.
- Energy rental, burn budget and fee limits: a nondeterministic yes, no or error in front of signing.
- Order columns that decide nothing: reasons, energy, fees, timestamps, merchant data. The failure codes are arbitrary non-empty texts.
- Daily and single limits of the risk check are parameters of an execution, as are blacklist and internal-wallet lookups.
- Configuration is constant during a run; a changed token list is a second configuration.
- Lock expiry while the holder still works.
- WithdrawWorld.World.InterfereBriefly: refills and inclusions are unconstrained in amount and order; a fork that drops a refill is not modelled.
- Scanner.Scanner.ScanBlock: the wallet table and the filter do not change within the parsing of one block; between blocks they may change in any way.
- SweepService.Service.RecordSkip: other workers may count or clear the same key in between, so the total is not tied to the caller's last one.
- SweepSafety.WriteOffIsCovered: deposit ids follow block order and receipts do not move, which a fork can break (SweepDeposits shows both for runs without).
- SweepService.Service.SettleAbsent: whether the stored destination is still the finance wallet is part of what the signer is assumed to answer.
- Sweep energy retry budget and stale age: a nondeterministic stop or go.
- Bloom sizing (logarithms), its false-positive rate, and adding keys while a sync runs in another goroutine.
- RateLimit.Limiter.Reserve: real numbers instead of floats, and no truncation of the delay to nanoseconds.
- Parsing of Retry-After headers and bodies; the cooldown takes the result.
- Other goroutines that throttle the same node during one call of the gateway.
