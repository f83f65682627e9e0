# Wallet, ledger and consensus: a verification project

A Dafny model of the money-moving core of a wallet service and of the revenue
service that pays into it, with proofs of what the core is for.

What is modelled:

- **The store** (`Records`, `Operations`, `Store`): wallets with TON, credit and
  frozen amounts, the transactions, the hash-linked ledger and the withdrawal
  requests. Each operation is given twice: as a decision on the rows it reads
  followed by one commit (`Operations`), and as a class method that performs the
  statements one by one and rolls back on failure (`Store`), proved equal.
- **What each operation does** (`Bookkeeping`): which calls are applied and what
  they leave, said of the rows before and after without the functions that
  `Operations` decides with.
- **What all runs keep** (`LedgerAgreement`, `BlockSigns`, `Holds`,
  `Conservation`, `Replay`): the redundant records agree, blocks have the signs
  of their transactions, holds are exact, money is conserved, 64-bit arithmetic
  does not overflow, repeated calls change nothing.
- **Operations side by side** (`Interleaving`, `Schedules`, `ScheduledMoney`,
  `Overlaps`): open transactions take row locks, read rows and the chain tip,
  decide, insert blocks under the unique number and commit, one statement at a
  time in any order. A schedule is any sequence of such steps. `Schedules` and
  `ScheduledMoney` have what all of them keep, `Overlaps` what an operation left
  alone does and what overlapping ones can break.
- **The hash chain** (`HashChain`, `ChainBinding`, `BaseTen`, `Alarm`): linking,
  the paged verifier and its refinement of a single pass, also beside appends;
  the payload text and what the tip hash binds; the periodic check and the number
  text of its alarm.
- **The votes** (`Consensus`, `Quorum`, `QuorumBounds`): the four rules, the
  workers' tables, the collecting engine and the guard as classes; overlapping
  calls with timeouts and restarts as a step system; and the exact bounds of what
  that system guarantees.
- **Deposits** (`Deposits`, `DepositRuns`, `DepositBounds`, `DepositFates`) and
  **the service's calls** (`Service`): polling, voting, crediting and invoice
  receipts, for any overlap of handlers and restarts, and what can still become
  of a deposit.
- **Revenue** (`Revenue`, `RevenueRuns`, `EarningCredits`): claiming and splitting
  earnings by any number of processors that may stop anywhere, down to the
  credited wallets.

How to read it: the hash of a block is a parameter (`Hasher`) everywhere but in
`ChainBinding`, where it is the hexadecimal SHA-256 text of the payload with
SHA-256 itself left open; results about it end in "or two texts with one digest".
Identifiers that the database generates are arguments and may clash. Clocks,
arrival orders, timeouts, replies and crashes are arguments or steps that may
take any value.

Several step systems take an `exclusive` argument: a set of keys, identifiers or
references whose own calls are kept apart. Calls with different ones always
overlap freely, and the results hold for every such set.

Where the code does less than its comments say, a lemma reaches the failing state
and another says exactly when the promise holds: the status of a request is not
checked when it is settled (`Holds.SettledTwice`, `Holds.SettlementIff`); that
entered amounts are positive is left to the callers (`BlockSigns.SignsIff`); a hold
may be covered by credit but is paid in TON (`Holds.CreditPaidOutAsTon`,
`Holds.CoverIff`); deposits and payments look for duplicates before they lock
(`Overlaps.DepositBookedTwice`, `Overlaps.PaymentBookedTwice`,
`Overlaps.BookedOnceIff`); workers look an identifier up before they record it
(`QuorumBounds.OverlapApprovesTwice`, `QuorumBounds.ApprovedOnceIff`); a deposit
can be lost because its votes come too late (`DepositBounds.LateVotes`,
`DepositFates.CreditableIff`, `QuorumBounds.ApprovableAgainIff`), because its
handler stops after the approval (`DepositBounds.ApprovedAndStopped`,
`DepositFates.ApprovedCreditableIff`) or, for its invoice, after the credit
(`DepositFates.CreditedAndStopped`, `DepositFates.ApprovedReceivableIff`); a
reference is checked before its earning is created
(`RevenueRuns.TwoEarningsPerRef`, `RevenueRuns.RefOnceIff`); and a claimed earning
can be stranded (`RevenueRuns.Strands`, `RevenueRuns.SettlableIff`,
`RevenueRuns.StrandedIff`).

## Model

| member | source | states |
|---|---|---|
| `WalletStore.Store.constructor` | botpay/internal/store/models.go:189-197 | a new store holds no wallets, transactions, blocks or requests |
| `WalletStore.Store.GetOrCreateWallet` | botpay/internal/store/wallet_repo.go:25-42 | creates an empty wallet row once and leaves every existing row alone |
| `WalletStore.Store.Deposit` | botpay/internal/store/wallet_repo.go:106-146 | an existing wallet under a new hash gets the amount on its TON balance, one deposit row and one credit block of that amount with the new total; otherwise nothing changes and the answer says why; equal to the decide-and-commit specification |
| `WalletStore.Store.Deduct` | botpay/internal/store/wallet_repo.go:155-230 | an applied payment lowers TON by exactly what the credit does not cover, so only if no credit is left, with one payment row and one debit block; it is applied exactly for a positive amount within the free total, a new reference and a new identifier |
| `WalletStore.Store.AddCredit` | botpay/internal/store/wallet_repo.go:237-284 | an applied credit raises the credit and nothing else, with one row and one credit block; it is applied exactly for a positive amount, a service, a reference and a key that has no row yet |
| `WalletStore.Store.Transfer` | botpay/internal/store/transfer.go:43-132 | the sender pays credit first, the receiver gets as credit exactly what the sender had as credit and the rest as TON, a transfer to oneself leaves the row, with two rows and a debit and a credit block, or nothing at all |
| `WalletStore.Store.WriteTransfer` | botpay/internal/store/transfer.go:80-129 | the writes of a transfer are exactly two updates, two rows and two blocks in order, or a rollback |
| `WalletStore.Store.AppendLedger` | botpay/internal/store/ledger.go:24-42 | one block linked to the queried tip is added and nothing else changes |
| `WalletStore.Store.CreateWithdraw` | botpay/internal/store/withdraw_repo.go:15-33 | the hold rises by amount and fee and the request is stored exactly when the free total covers both and the identifier is new, otherwise nothing changes |
| `WalletStore.Store.CompleteWithdraw` | botpay/internal/store/withdraw_repo.go:46-94 | TON and hold are lowered by amount and fee, whatever the request status, with one transaction and one debit block |
| `WalletStore.Store.RejectWithdraw` | botpay/internal/store/withdraw_repo.go:97-133 | the hold is released with a zero-amount notice and no block, whatever the request status |
| `LedgerAgreement.EffectAgrees` | botpay/internal/store/ledger.go:20-42 | every operation keeps the redundant records in agreement: a valid chain, blocks one for one with the non-refund transactions, each of its transaction's type and signed amount, transactions adding up to each row, no negative credit |
| `BlockSigns.RunBlocksCarry` | botpay/internal/store/ledger.go:20-42 | after every admissible run no block has a negative amount; it is a credit exactly when its transaction has a positive amount, and then of that amount, and otherwise a debit of the negated amount |
| `BlockSigns.EveryScheduleBlocksCarry` | botpay/internal/store/models.go:212-219 | the same under every interleaving, with either lock setting |
| `BlockSigns.SignsIff` | botpay/internal/store/ledger.go:20-22 | the store does not check it: an applied operation keeps the signs if and only if it is no deposit of a non-positive amount and completes no request of a negative one |
| `Bookkeeping.CallDescribed` | botpay/internal/store/wallet_repo.go:106-284 | for each operation, without the decision functions: exactly which calls are applied, the rows, transactions, blocks and requests an applied one leaves, and that any other changes nothing and answers with a reason that holds |
| `Bookkeeping.EveryCallDid` | botpay/internal/store/wallet_repo.go:155-230 | in every run each call either does what its description says, credit spent before TON, or changes nothing |
| `LedgerAgreement.RunAgrees` | botpay/internal/store/ledger.go:55-73 | that agreement holds after every run of calls |
| `LedgerAgreement.BalanceCheckPasses` | botpay/internal/store/ledger.go:59-73 | after every run the balance check answers true for every wallet there is, and an error for any other |
| `LedgerAgreement.ApartCheckIff` | botpay/internal/store/ledger.go:59-73 | whatever is booked between its three queries, the check passes if and only if the credits booked before the second equal the debits booked before the third |
| `LedgerAgreement.KindsAddUp` | botpay/internal/store/ledger.go:64-72 | credits minus debits of a wallet is the sum of its signed movements |
| `LedgerAgreement.BalanceAfterIff` | botpay/internal/store/transfer.go:123-129 | a block balance computed from the rows read at the start is the total after the relative updates if and only if the operation is not a transfer to oneself |
| `LedgerAgreement.LastBlockGivesTotal` | botpay/internal/store/transfer.go:49-129 | on every run without self-transfers each block carries its wallet's running total and the last one its current total |
| `Holds.RunHolds` | botpay/internal/store/withdraw_repo.go:12-133 | on every run whose settled requests are still pending: `frozen` is the sum of the pending requests, credit is not negative and the total covers the hold |
| `Holds.SettlementIff` | botpay/internal/store/withdraw_repo.go:46-133 | since the status is not checked, settling a request of positive amount keeps the holds exact if and only if it was pending |
| `Holds.SettledTwice` | botpay/internal/store/withdraw_repo.go:46-94 | it happens: an explicit run completes one request twice, both times applied, and ends with a negative hold and a negative TON balance |
| `Holds.PlanKeepsFrozen` | botpay/internal/store/withdraw_repo.go:21-31 | an admissible decision keeps `frozen` the sum of the pending requests even if the rows it was taken on have changed since |
| `Holds.HoldRoundTrip` | botpay/internal/store/withdraw_repo.go:15-133 | create then reject restores the wallet rows and the chain; create then complete lowers one TON balance by amount and fee and nothing else |
| `Holds.CoverIff` | botpay/internal/store/wallet_repo.go:181-205 | every operation keeps holds covered by TON, and a new hold does if and only if it fits the free TON |
| `Holds.TonNeverNegative` | botpay/internal/store/withdraw_repo.go:58-65 | on runs whose holds fit the free TON no TON balance is ever negative |
| `Holds.CreditPaidOutAsTon` | botpay/internal/store/withdraw_repo.go:24-31 | without that condition it fails: an explicit admissible run ends with a TON balance of minus one hundred |
| `Conservation.EffectConserves` | botpay/internal/store/transfer.go:65-94 | each operation changes the sum of all totals by exactly what it brings in or takes out; transfers change neither bucket's sum |
| `Conservation.TotalsConserved` | botpay/internal/store/wallet_repo.go:106-284 | after every run the wallets together hold deposits plus credits minus payments minus completed withdrawals |
| `Conservation.NoOverflow` | botpay/internal/store/models.go:59-63 | if all money ever brought in fits 64 bits and a request's amount plus fee does, no balance check and no block balance of any call overflows; a transfer to oneself overflows if and only if the not yet lowered total plus the amount, or the credit plus its part, does not fit |
| `Conservation.StoredValuesFit` | botpay/internal/store/wallet_repo.go:106-284 | the values the bound speaks of leave out nothing that is stored: if they fit, every row and every new block of the applied call fits |
| `Conservation.CheckedValuesFit` | botpay/internal/store/models.go:59-63 | nor what the check of the free total computes, whether or not it passes |
| `ScheduledMoney.EveryCommitDid` | botpay/internal/store/transfer.go:43-132 | under every interleaving, with either lock setting, each commit does to the rows it meets what the description of its operation says, and no other step changes the database |
| `ScheduledMoney.EveryScheduleConserves` | botpay/internal/store/wallet_repo.go:106-284 | under every interleaving, with either lock setting, the wallets together hold what the committed operations brought in minus what they paid out |
| `ScheduledMoney.EveryScheduleFits` | botpay/internal/store/models.go:59-63 | at every moment of every interleaving with the locks honoured, the bound on overflow holds for the values an operation computes from the rows as they are then |
| `ScheduledMoney.EveryScheduleCoversTon` | botpay/internal/store/withdraw_repo.go:58-65 | under every interleaving, with either lock setting, whose holds fit the free TON when they commit, holds are exact and no TON balance is ever negative |
| `Conservation.SumUpdate` | botpay/internal/store/transfer.go:73-94 | a relative update of one row changes a column's sum by its own amount |
| `Replay.ReplaysChangeNothing` | botpay/internal/store/wallet_repo.go:106-284 | re-delivering applied keyed calls, any number of times and anywhere later, ends in the same database as the run without them |
| `Replay.RunBooksOnce` | botpay/internal/store/wallet_repo.go:152-154 | in serial runs each hash is one deposit and each payment or credit reference one row |
| `Interleaving.EveryScheduleAgrees` | botpay/internal/store/chain.go:40-71 | every interleaving of open transactions that take row locks, read tips, insert blocks under the unique number and commit keeps the records in agreement, the chain valid and contiguous |
| `Interleaving.InsertedBlock` | botpay/internal/store/models.go:222-227 | with a tip read at any earlier moment, a block that gets past the unique index on its number sits right behind the committed chain |
| `Interleaving.FinishIsEffect` | botpay/internal/store/transfer.go:49-129 | what commits after a decision on earlier reads equals the operation run at the commit alone |
| `Interleaving.OtherFlightOk` | botpay/internal/store/wallet_repo.go:174-205 | another transaction's commit leaves an open one's locked reads, its decision and its linked blocks valid |
| `Schedules.EveryScheduleSerializes` | botpay/internal/store/transfer.go:40-42 | with the locks the code asks for, every interleaving commits what running the operations' bodies one after another in commit order would; the bodies start behind the early duplicate check, which is not under the lock |
| `Schedules.EveryScheduleLastBlock` | botpay/internal/store/transfer.go:49-129 | under every interleaving without self-transfers every block balance is right and the last block of a wallet shows its current total |
| `Schedules.EveryScheduleFrozen` | botpay/internal/store/withdraw_repo.go:12-133 | whether or not the lock of `CreateWithdraw` is honoured: under every interleaving whose settlements meet pending requests, `frozen` is the sum of the pending requests |
| `Schedules.EveryScheduleHolds` | botpay/internal/store/withdraw_repo.go:12-33 | if it is honoured, every total covers its hold under all those interleavings too |
| `Overlaps.OverHeld` | botpay/internal/store/withdraw_repo.go:18-30 | if the lock asked for through the query option is not honoured, two withdrawals that fit alone but not together can both be held |
| `Overlaps.CoveredIffHonoured` | botpay/internal/store/withdraw_repo.go:12-20 | holds stay covered under every interleaving of admissible calls, settlements of pending requests included, if and only if the lock asked for is honoured |
| `Schedules.EveryScheduleCreditsOnce` | botpay/internal/store/wallet_repo.go:232-284 | under every interleaving at most one credit per wallet, service and reference is ever applied |
| `Schedules.ExclusiveKeyBooksOnce` | botpay/internal/store/wallet_repo.go:106-174 | a deposit hash or payment reference is booked at most once under every interleaving in which no two calls with it are open at the same moment, whatever else overlaps |
| `Overlaps.BookedOnceIff` | botpay/internal/store/wallet_repo.go:106-284 | over all interleavings that keep a given set of keys exclusive, a deposit hash or payment reference is booked at most once if and only if it is in the set; a credit reference always is |
| `Overlaps.DepositBookedTwice` | botpay/internal/store/wallet_repo.go:108-127 | two overlapping deposits of one hash are both booked when both check before either commits |
| `Overlaps.PaymentBookedTwice` | botpay/internal/store/wallet_repo.go:161-205 | two overlapping payments with one key are both booked when both check before either commits |
| `Overlaps.BookedTwice` | botpay/internal/store/wallet_repo.go:106-174 | in general: two keyed calls that would each go through without their early check are both booked if they overlap |
| `Overlaps.AloneCommits` | botpay/internal/store/wallet_repo.go:106-284 | for each of the seven operations: locks, reads, decision, tips, insertions and commit with nothing in between commit the operation's whole effect |
| `Schedules.BalanceCheckBesideOperations` | botpay/internal/store/ledger.go:59-73 | beside any interleaving the balance check passes if and only if the credits booked on the wallet between its first and second query equal the debits between its first and third; so it passes when nothing is booked meanwhile |
| `Alarm.ChainGuard.CheckOnce` | botpay/internal/chainguard/guard.go:93-109 | the guard is healthy exactly when the scan finds nothing, and always when a valid chain only grew under it |
| `Alarm.ChainGuard.CheckStill` | botpay/internal/chainguard/guard.go:93-109 | with nothing else running the guard is healthy if and only if the chain is valid |
| `Alarm.ChainGuard.CheckBesideOperations` | botpay/internal/chainguard/guard.go:93-109 | no interleaving of operations with the queries of a check raises the alarm |
| `HashChain.AppendValid` | botpay/internal/store/chain.go:64-71 | linking behind the queried tip keeps a valid chain valid |
| `HashChain.TipIsHighest` | botpay/internal/store/chain.go:42-50 | on any table the tip is a row that no other is numbered above; on an empty one number zero and sixty-four zeros |
| `HashChain.TipOfValid` | botpay/internal/store/chain.go:42-50 | on a valid chain the row with the highest number is the last block |
| `HashChain.SinglePassCorrect` | botpay/internal/store/chain.go:83-88 | a single pass answers intact exactly on valid chains; otherwise its block count minus one is the longest valid prefix and it names the first bad block's stored number and defect |
| `HashChain.VerdictDetermined` | botpay/internal/store/chain.go:75-81 | there is one correct verdict per table |
| `HashChain.ScanBatches` | botpay/internal/store/chain.go:98-144 | the paged loop terminates and its result, whatever each query sees, is that of the scan specification |
| `HashChain.VerifyChain` | botpay/internal/store/chain.go:89-145 | from the zero hash on; on a table that stands still the result is that of a single pass |
| `HashChain.ScanBatch` | botpay/internal/store/chain.go:112-140 | the row loop stops at the first of the three defects or ends with the last hash |
| `HashChain.ScanIsSinglePass` | botpay/internal/store/chain.go:89-145 | on a table that stands still the scan in batches of a thousand equals the single pass |
| `HashChain.ScanBesideAppends` | botpay/internal/store/chain.go:98-144 | beside appends a valid chain is never reported broken, an intact verdict is about the whole table at some query, and a defect found is one of the last state |
| `ChainBinding.PayloadInjective` | botpay/internal/store/chain.go:27-35 | two blocks with one payload text agree in all seven fields, for any type text and any previous hash without a bar |
| `ChainBinding.TipBindsHistory` | botpay/internal/store/chain.go:24-71 | two accepted chains with one tip hash are equal block by block and in length, or exhibit two texts with one digest or a digest that is all zeros |
| `ChainBinding.RewriteMovesTip` | botpay/internal/store/models.go:222-224 | rewriting any block and recomputing every later hash still moves the tip |
| `ChainBinding.BlockText` | botpay/internal/store/chain.go:21-38 | each block of a valid chain has its place as number, its predecessor's hash or sixty-four zeros, and as hash the hexadecimal digest of number, transaction, wallet, type, amount, balance and previous hash joined by bars in this order |
| `ChainBinding.HexText` | botpay/internal/store/chain.go:37 | each byte is written as two lower-case hexadecimal digits, the high one first |
| `ChainBinding.HexInjective` | botpay/internal/store/chain.go:37 | the hexadecimal text of a digest determines it |
| `Alarm.FillDigits` | botpay/internal/chainguard/guard.go:142-148 | the digit loop fills the twenty bytes from the right with the digits of the number and always leaves room for the sign |
| `Alarm.Itoa` | botpay/internal/chainguard/guard.go:134-154 | for every 64-bit integer the text is its decimal text, except that the minimum comes out as a bare sign |
| `Alarm.WrittenReadsBack` | botpay/internal/chainguard/guard.go:134-154 | parsing the text gives the number back if and only if it is not the 64-bit minimum |
| `BaseTen.DecimalRoundTrip` | botpay/internal/store/chain.go:27 | parsing a decimal text gives the number back |
| `Service.WalletService.RequestWithdraw` | botpay/internal/wallet/wallet.go:294-325 | the store is asked exactly for valid addresses, amounts from 0.1 TON on and a free total that covers the amount and the fee of 0.01 TON; otherwise nothing changes |
| `Service.ValidIff` | botpay/internal/wallet/wallet.go:351-359 | an address is accepted exactly when it is spaces around forty-eight characters that start with UQ or EQ and do not end with a space |
| `Service.WalletService.Transfer` | botpay/internal/wallet/wallet.go:385-406 | the store is asked exactly for covered transfers between different users, so never from a wallet to itself |
| `Service.WalletService.Pay` | botpay/internal/wallet/wallet.go:243-266 | a payment reaches the store exactly when the user has a wallet whose free total covers it and, with the guard wired in, enough workers approve in time |
| `Service.ServedRun` | botpay/internal/wallet/wallet.go:98-406 | in runs of calls the service makes that settle each request while it is pending, holds are exact and each wallet's last block shows its total, which covers its hold |
| `Consensus.Worker.constructor` | botpay/internal/consensus/workers.go:33-50 | a worker opens the table a previous process left; its digest chain starts from zeros |
| `Consensus.Worker.HasSeen` | botpay/internal/consensus/local_db.go:126-136 | exactly the recorded identifiers are seen, and never the empty one |
| `Consensus.Worker.SaveTxRecord` | botpay/internal/consensus/local_db.go:82-98 | the first record of an identifier stays |
| `Consensus.Worker.Verify` | botpay/internal/consensus/workers.go:55-370 | a worker approves exactly what is new to it and within the limits of its rule, given in figures; it records the vote unless the identifier is on record, and only an approving Merkle worker advances its digest |
| `Consensus.JudgeApprovesIff` | botpay/internal/consensus/workers.go:55-370 | the vote that the step system uses approves exactly the same transactions |
| `Consensus.Engine.constructor` | botpay/internal/consensus/worker.go:106-118 | a threshold of zero means three |
| `Consensus.Engine.AddWorker` | botpay/internal/consensus/worker.go:121-129 | the worker is added behind the others with fresh figures |
| `Consensus.Engine.Collect` | botpay/internal/consensus/worker.go:165-192 | for every arrival order and timeout pattern yes plus no is the number of rounds; a worker's approved figure grows by the number of its approving votes that arrived, its rejected figure by that of its others, verified by both |
| `Consensus.Engine.Verify` | botpay/internal/consensus/worker.go:132-219 | approved if and only if as many distinct workers as the threshold approve in time; every worker remembers the identifier; no workers, no approval; each worker's figures grow by its own votes, and with distinct names the approved figures together by the number of approvals |
| `Consensus.ApprovingIsApprovers` | botpay/internal/consensus/worker.go:165-194 | counting approvals counts the workers that approve, in any order of arrival |
| `Consensus.ReceivedParts` | botpay/internal/consensus/worker.go:165-192 | the votes kept are those that arrived, in order: joining two stretches of rounds joins their votes, a vote is kept and a timeout is not |
| `Consensus.ApprovalsAddUp` | botpay/internal/consensus/worker.go:176-187 | the approvals of differently named workers add up to the approving votes |
| `Consensus.ThreeWillingIff` | botpay/internal/consensus/workers.go:55-392 | three of the four rules accept a recent transaction if and only if its amount is positive and at most a million TON and at most one of three further objections applies; all four if and only if it is at most 100,000 TON with a sender and a target |
| `Consensus.SetupWorkers` | botpay/internal/consensus/workers.go:399-424 | adds the four workers in order, each with its stored table and figures under a name of its own |
| `Consensus.Guard.CheckDeduct` | botpay/internal/consensus/guard.go:23-54 | passes if and only if enough workers approve in time |
| `Consensus.Guard.CheckDeposit` | botpay/internal/consensus/guard.go:57-86 | without a hash passes with no vote and no change; with one passes if and only if enough workers approve |
| `Consensus.Guard.CheckWithdraw` | botpay/internal/consensus/guard.go:89-116 | passes if and only if every worker approves in time, hence only amounts up to 100,000 TON to a named address |
| `Quorum.EveryScheduleKeepsInv` | botpay/internal/consensus/worker.go:154-209 | under every overlap, timeout pattern and restart: recorded and counted approvals come from rules that accept, and of the identifiers whose calls exclude each other at a worker no worker approves one for two calls |
| `Quorum.NoSecondApproval` | botpay/internal/consensus/worker.go:154-209 | when twice the threshold exceeds the number of workers, an identifier whose own calls do not overlap at a worker is never approved twice, whatever other identifiers overlap with it |
| `QuorumBounds.SecondApproval` | botpay/internal/consensus/worker.go:154-209 | the bound is exact: two disjoint willing groups of the threshold's size can each approve one of two overlapping calls |
| `QuorumBounds.OverlapApprovesTwice` | botpay/internal/consensus/workers.go:358 | if a worker interleaves lookup and record of two calls with one identifier, no threshold prevents a second approval |
| `QuorumBounds.ApprovedOnceIff` | botpay/internal/consensus/worker.go:132-219 | identifier by identifier: it is never approved twice if and only if no worker overlaps two calls with it and twice the threshold exceeds the number of workers |
| `QuorumBounds.ApprovableIff` | botpay/internal/consensus/worker.go:194 | a transaction can be approved if and only if as many rules as the threshold have nothing against it, whatever the workers overlap |
| `Quorum.ApprovedAmount` | botpay/internal/consensus/workers.go:384-392 | with the four workers and threshold three, whatever is ever approved has a positive amount of at most a million TON, whatever the workers overlap |
| `QuorumBounds.AloneVerifies` | botpay/internal/consensus/worker.go:132-219 | a call whose steps nothing overlaps ends as the engine method says: every worker remembers the identifier and it is approved if and only if enough workers approve in time |
| `QuorumBounds.SpentForGood` | botpay/internal/consensus/worker.go:178-189 | an identifier that more workers than the surplus over the threshold have recorded without an approval in time is never approved again |
| `QuorumBounds.LateVotesLose` | botpay/internal/consensus/worker.go:178-189 | it happens to any transaction whose votes all arrive too late |
| `QuorumBounds.ApprovableAgainIff` | botpay/internal/consensus/workers.go:55-370 | exactly when an identifier can still be approved: some continuation approves it if as many workers as the threshold have not recorded it, and if no call on it is open only then |
| `Deposits.InvoiceStore.AddInvoiceReceipt` | botpay/internal/store/invoice_repo.go:40-62 | each receipt adds its amount; a pending invoice becomes paid, by that hash, exactly by the receipt that covers it or by any if it is open; nothing else of it changes |
| `Deposits.InvoiceStore.FindPendingInvoiceByCode` | botpay/internal/store/invoice_repo.go:27-34 | finds a pending invoice with the code, or there is none |
| `Deposits.Watcher.Poll` | botpay/internal/ton/watcher.go:85-144 | the polled events are the specification's and every incoming hash is remembered |
| `Deposits.PolledIff` | botpay/internal/ton/watcher.go:96-115 | a hash is delivered if and only if it was not seen and the first transaction carrying it brings a positive amount; and then once |
| `Deposits.PolledEvent` | botpay/internal/ton/watcher.go:96-143 | the events are exactly, for each new hash, the comment and amount of the first incoming transaction that carries it, if that amount is positive |
| `Deposits.DeliveredOnce` | botpay/internal/ton/watcher.go:102-106 | over all its polls one watcher delivers a hash at most once |
| `Deposits.DepositService.HandleDeposit` | botpay/internal/wallet/wallet.go:98-188 | the deposit goes to the wallet of the pending invoice with the comment as its code, else to the wallet whose handle the comment is, and is ignored if and only if neither exists; voted down exactly without enough approvals; ignored, refused or failed events change nothing; exactly the found invoice receives the amount |
| `DepositRuns.HashCountsOnce` | botpay/internal/wallet/wallet.go:142-188 | for every overlap of handlers, of votes on other identifiers and of restarts that forget what was polled, a non-empty hash whose own votes do not overlap at a worker is credited at most once and received by at most one invoice once |
| `DepositBounds.OneWatcherCountsOnce` | botpay/internal/ton/watcher.go:85-144 | with one polling goroutine between restarts a non-empty hash counts at most once however the workers overlap payment votes and deposit votes |
| `DepositRuns.InvoicesAddUp` | botpay/internal/store/invoice_repo.go:36-62 | for every overlap: an invoice's total is the sum of its receipts, each receipt has a booked transaction, and it is announced paid once, exactly when that sum covers it while it is pending |
| `DepositRuns.NeverCredited` | botpay/internal/wallet/wallet.go:142-165 | an approved hash whose handler stopped before the credit is never credited later |
| `DepositBounds.OneWatcherNeverCredits` | botpay/internal/wallet/wallet.go:142-165 | with one polling goroutine that holds however the workers overlap calls |
| `DepositBounds.ApprovedAndStopped` | botpay/internal/wallet/wallet.go:142-165 | it happens: any hash that enough rules accept can be approved and its handler stop before the credit |
| `DepositBounds.LateVotesLoseDeposit` | botpay/internal/consensus/worker.go:178-189 | a hash that so many workers have recorded without approving it in time that the rest are no quorum is never credited |
| `DepositBounds.LateVotes` | botpay/internal/consensus/worker.go:178-189 | it happens to a hash that every rule accepts when its votes arrive too late |
| `DepositFates.CreditableIff` | botpay/internal/wallet/wallet.go:142-165 | exactly when a hash can still be credited, given an event for it that finds a wallet and that every rule accepts: if as many workers as the threshold have not recorded it and no transaction carries it, and without an approval and open votes only then |
| `DepositFates.ApprovedCreditableIff` | botpay/internal/wallet/wallet.go:142-165 | exactly when an approved hash that is not booked can still be credited: if and only if its handler is still there, at the credit or before a check that finds no transaction with the hash |
| `DepositFates.ApprovedReceivableIff` | botpay/internal/wallet/wallet.go:166-188 | exactly when an approved hash that has not been received can still reach its invoice: if and only if its handler is still there and has found one |
| `DepositFates.CreditedAndStopped` | botpay/internal/wallet/wallet.go:166-188 | it happens: a deposit is credited and its handler stops before the receipt |
| `DepositBounds.ArrivalChooses` | botpay/internal/wallet/wallet.go:98-141 | the step system begins an event for the same wallet as the method, or ignores it, and puts it to the vote under its hash |
| `DepositBounds.AloneTurn` | botpay/internal/wallet/wallet.go:98-188 | an event's arrival, its whole vote for any order of votes and timeouts, the check, the credit and the receipt with nothing in between end as the method's contract says |
| `DepositBounds.AloneHandles` | botpay/internal/wallet/wallet.go:142-188 | past its vote, a handler whose steps nothing overlaps makes one call of `Deposit` and, unless that fails, adds one receipt, as the method does |
| `DepositBounds.UnhashedReceivedTwice` | botpay/internal/consensus/guard.go:58-62 | without a hash there is no vote: an event that comes again after a restart is credited once but received twice |
| `DepositBounds.CountsOnceIff` | botpay/internal/wallet/wallet.go:142-188 | with one polling goroutine and a quorum of more than half, a hash counts at most once in every run if and only if it is not empty |
| `Revenue.EarningStore.MarkProcessing` | revenue-service/internal/store/store.go:96-101 | the claim succeeds for whoever finds the earning pending |
| `Revenue.EarningStore.MarkDone` | revenue-service/internal/store/store.go:103-114 | records the result on one row |
| `Revenue.EarningStore.MarkFailed` | revenue-service/internal/store/store.go:116-124 | marks one row whatever its status was |
| `Revenue.EarningStore.FindEarningByRefID` | revenue-service/internal/store/store.go:75-85 | finds an earning with the reference, or there is none; never for an empty one |
| `Revenue.RevenueEngine.ProcessEarning` | revenue-service/internal/engine/engine.go:47-124 | a claimed earning sends its owner one request for exactly the share, if there is both, and the platform one for exactly the rest, unless the owner's failed; the row ends failed or with both amounts, which add up to its total, and both transactions; any other earning sends nothing |
| `Revenue.RevenueEngine.ProcessBatch` | revenue-service/internal/engine/engine.go:148-161 | the batch is its rows handled in order from the listed copies |
| `Revenue.RevenueEngine.CreateAndProcess` | revenue-service/internal/engine/engine.go:165-202 | creates exactly for a positive total and a new reference; the row carries the given total, owner and reference; an owner with a share is sent exactly one request for exactly it, and a finished row has it as its owner's amount |
| `Revenue.BatchSettlesEach` | revenue-service/internal/engine/engine.go:154-160 | in a batch of pending rows each row ends as if it were alone |
| `RevenueRuns.PaidAtMostOnce` | revenue-service/internal/engine/engine.go:78-123 | for any number of processors that may stop anywhere: one claim per earning, each share requested at most once, together at most the total, and recorded shares add up to it |
| `RevenueRuns.OwnersAreAsked` | revenue-service/internal/engine/engine.go:87-123 | under every interleaving each request to an owner goes to its earning's owner, a finished row has the requested amounts, and the owner with a share of a finished earning has been sent one for it |
| `RevenueRuns.EarningsAsMade` | revenue-service/internal/engine/engine.go:165-202 | under every interleaving an earning's total, owner and reference are those of the import or the submission that made it |
| `RevenueRuns.AloneCreates` | revenue-service/internal/engine/engine.go:165-202 | a check, a creation and a processor that nothing overlaps end as the method's contract says |
| `RevenueRuns.AloneProcesses` | revenue-service/internal/engine/engine.go:47-124 | a processor whose steps nothing overlaps leaves the table and sends the requests that the method's contract says |
| `RevenueRuns.StrandedForever` | revenue-service/internal/engine/engine.go:78-123 | a processor that stops after its claim leaves the earning processing for good, with nothing more requested |
| `RevenueRuns.Strands` | revenue-service/internal/engine/engine.go:78-123 | it happens to any earning: claimed, stranded, and nothing requested |
| `RevenueRuns.SettlableIff` | revenue-service/internal/engine/engine.go:78-123 | exactly when a claimed earning can still be settled: some continuation finishes it if and only if a processor past its claim is still there, and otherwise every continuation leaves it processing |
| `RevenueRuns.StrandedIff` | revenue-service/internal/engine/engine.go:78-123 | run by run: an earning is stranded if and only if one of the steps stopped a processor past its claim on it |
| `RevenueRuns.OneEarningPerRef` | revenue-service/internal/engine/engine.go:176-200 | if no other creation under the same reference comes between check and creation, the reference has at most one earning, whatever happens under other references |
| `RevenueRuns.TwoEarningsPerRef` | revenue-service/internal/engine/engine.go:176-200 | otherwise one event delivered twice can create two |
| `RevenueRuns.RefOnceIff` | revenue-service/internal/engine/engine.go:176-200 | reference by reference: it has at most one earning in every run if and only if it is not empty and its own creations exclude each other |
| `EarningCredits.RefTextInjective` | revenue-service/internal/engine/engine.go:92-111 | the reference text determines the earning and the share |
| `EarningCredits.CreditedAtMostTotal` | revenue-service/internal/engine/engine.go:87-120 | however often the requests are delivered and under every interleaving of the wallet store's operations, the wallets are credited between nothing and the total for a claimed earning, and nothing for any other |
| `EarningCredits.CreditedBySerialCalls` | revenue-service/internal/engine/engine.go:87-120 | the same for calls that come one after another, whether or not they are applied |

## Left out

- Telegram bot, keyboards, translations, profiles, notifications and published events: user interface and messaging.
- NATS, Redis, HTTP, JSON, logging, metrics, configuration and SQL mechanics: a database transaction is all or nothing, a row lock is mutual exclusion, database errors other than a missing row or a key clash do not occur.
- SHA-256, SHA-512, HMAC, Ed25519 and AES-GCM: the chain digest is a parameter, worker signatures always succeed, key files and service authentication are absent; the Merkle worker's digest is a parameter too.
- Floating point: amounts are nano integers; the owner's share is any value from zero to the total, which leaves out rules with a percentage outside 0 to 100 and the conversion of payouts to TON and back.
- Time: an expiry, a timeout or an old timestamp is an argument or a step that may happen at any moment; entry times, identifiers, references and notes of ledger entries are not hashed in the code and not part of a block here.
- Text is a sequence of characters; lengths that the code takes in bytes agree with it on one-byte characters only, and trimming knows the ASCII spaces only.
- The balance cache of the pay client, `ProcessGroupRevenue`, `ConfirmInvoice`, statistics and listing queries, wallet language and address lookups, withdrawal checks of the bot: not called in the modelled paths, or easy.
- The lock on the chain tip: the code sets it through a query option whose effect is not visible in these files, so the results rest on the unique index on the block number alone, which is stronger.
- The lock of `CreateWithdraw` is set through the same option; `honoured` in the step model says whether it works, and the results name which setting they need. The code's comment claims it does.
- A partial unique index on transaction hashes that a comment announces: no migration in these files creates it, so a hash may repeat and only the lookups prevent it.
- Hashes of internal movements are generated texts; they are a separate value here, so an on-chain hash that imitates one is not modelled.
- The comment that every transaction has two ledger entries that sum to zero: the code writes one entry per movement and two per transfer, and the model follows the code.
- WalletStore.Store.GetOrCreateWallet: the telegram key, the address and the later filling of an empty pay handle are not columns of the model.
- Quorum.NoSecondApproval: no lock keeps a worker's lookup and record of one identifier together, so `exclusive` is the caller's to see to; QuorumBounds.ApprovedOnceIff shows that it is needed.
- DepositRuns.HashCountsOnce: asks for that of the hash's own identifier; DepositBounds.OneWatcherCountsOnce derives it from the single polling goroutine of a process. Without the guard wired in, the lookup before the lock is the only protection, as for payments.
- While a vote on a hash is open it may still be approved by workers that have recorded it for that vote; `QuorumBounds.ApprovableAgainIff` and `DepositFates.CreditableIff` are exact once the vote has ended or the process has restarted, and until then give the half that holds anyway.
- Service.WalletService.Pay: the identifier under which a payment is voted on is random, so votes say nothing about repeated payments.
