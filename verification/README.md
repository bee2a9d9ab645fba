# The escrow contract: a verified model

This project models the core of a Soroban escrow contract (`contracts/escrow/src/lib.rs`) and proves
what holds over every run of it. A merchant and a customer lock a payment; it is released, refunded,
disputed, escalated, expired, vested, split among several parties or tokens, hung below another escrow,
appealed, and counted. About ten entry points race to settle the same escrow, a queue replaces a scan
over all of them, and admins act through proposals.

Each component has the same parts.

* The storage as a value, and every entry point as a function from storage and arguments to storage and
  result: `Lifecycle`, `EscalationQueue`, `PooledEscrow`, `Hierarchy`, `Vesting`, `AdminCouncil`,
  `Appeals`, `Analytics`, `Merkle`, `Codec`.
* The laws: operations as data, runs as lists of them, the invariants each step keeps, and the theorems
  about all reachable storages: `LifecycleLaws`, `Settlement`, `EscalationScan`, `PooledMoney`,
  `PooledLaws`, `PooledWeights`, `PooledHistory`, `SharedAccount`, `JointAccount`, `HierarchySearch`,
  `VestingLaws`, `VestingOverdraw`, `VestingPayouts`, `AdminLaws`, `AdminBackers`, `AppealPayments`,
  `AnalyticsLaws`, `AnalyticsCounts`; for the queue and the two small algorithms they stand beside the functions.
* What one call leaves behind, told without the functions of the first part: who is paid, which balances,
  records, votes and accounts have changed and how: `Recipients`, `PooledEffects`, `VestingCurve`,
  `AdminEffects`, `AnalyticsEffects`.
* The contract as it runs: classes whose methods load, change and store fields and loop as the source
  does, each proved to compute the function of the first part and to keep the invariants:
  `EscalationQueue.QueueStorage`, `LifecycleContract`, `PooledContract`, `HierarchyContract`,
  `VestingContract`, `VestingEscrows`, `AdminContract`, `AppealsContract`, `AnalyticsContract`.

Hierarchy, council, appeals and analytics are built on the single-escrow machine, so their theorems are
about runs in which all its calls are interleaved with their own.

`dafny verify dfyconfig.toml` verifies the whole project.

## How the host is modelled

* A top-level call that fails leaves the storage as it was. Two calls swallow inner failures,
  `process_escalation_timeouts` and `batch_release_escrows`; what a failing inner call had stored stays.
* Ledger time is a number that never goes down. It moves only by a tick between calls.
* For single escrows a transfer is answered by an arbitrary token: no token contract at that address, so
  the call is skipped; the money moves; or the transfer fails. A call carries its answers as a function
  of escrow and leg, chosen anew for each call, so nothing is assumed about them. Within one call no leg
  of an escrow is tried twice.
* Pooled escrows run on a ledger of balances for every token and holder. A token moves no negative
  amount and no more than the sender has; others may transfer too, also into the contract's account. The
  contract cannot authorise a call to itself, so it is never the customer who pays in. Everything else
  that the contract pays, for single escrows, milestones or collateral, leaves the same account, as a
  payout of any token, receiver and amount at any time; in `JointAccount` the payouts are those of the
  single-escrow machine, whose tokens then answer as the account does.
* The authorised caller is a parameter. Where the source asks for an admin outside the council model,
  the caller is taken to be one.
* What sub-accounts and release signers allow, the fee recipient, the watchdog configuration, the outcome
  of evidence and of a condition are parameters. In a batch the gate is asked anew at each position.
* The hash function is a parameter, without assumptions: soundness of proofs exhibits a collision. No
  function from 64 to 32 bytes is free of collisions, so the exact conditions for acceptance assume it
  only of the finitely many pairs that are hashed for the proof and for the tree.
* Integers are unbounded, except where a bound matters: saturating deadlines, the 64-bit counter behind
  proposal ids, the cut to 32 bits of the number of signatures, the 32-bit acceleration, the shifts of
  the byte codec.
* Division truncates toward zero, as in Rust.
* `paid`, `payouts`, `returned`, `transferred`, `executions`, `phantoms`, `base` and `drift` are histories:
  the contract does not store them, and no entry point reads them.

## Where the code does less than it seems

The code was kept as it is; each of these is a theorem.

* A refused transfer inside `process_escalation_timeouts` leaves an escrow settled with nothing paid, or
  with the first half of a split, and of escrow calls and appeals only a later appeal pays for it
  (`AppealPayments.SwallowedRefusalStrandsIff`).
* `auto_resolve_dispute` settles without a payment, and again only an appeal pays
  (`AppealPayments.AutoResolvedUnpaidIff`).
* Resolving an appeal asks for no status: an escrow that was settled before is then paid twice
  (`AppealPayments.PaidTwiceIffSettledBefore`, `PaidTwice`).
* A fee rate is never checked when stored, and a negative one pays out more than the amount
  (`LifecycleLaws.ReleasePaysExactlyIff`, `Settlement.ReleaseWithinAmountIff`).
* Creating a single escrow takes nothing in, but settling it pays from the account in which the pooled
  escrows lie. So the contract can owe more than it has: creating and refunding a single escrow is
  enough to make the payout of a multi-party escrow and the release of a multi-token escrow fail
  (`SharedAccount.CreateAndRefundStrandsParty`, `CreateAndRefundStrandsBundle`). It stays solvent exactly
  as long as such payouts are within the surplus (`PooledLaws.SolventIff`, `JointAccount.JointSolventIff`,
  `SettlementWithinIff`).
* Vote weights are seeded from shares, so confirming a weight can hold a release back that everybody
  approves; it cannot exactly when weights equal shares (`PooledWeights.SettingIsSafeIffAligned`,
  `MisalignedHoldsBackUnanimity`).
* A released escrow can be given a new child (`HierarchySearch.ReleasedParentGetsLockedChild`); what is
  below it stays settled exactly as long as nobody attaches there (`HierarchySearch.StaysSettledIff`).
* Milestones of a vesting escrow and the settlement of its record do not ask each other, so together they
  can pay more than the amount (`VestingPayouts.WithinAmountIff`, `VestingPaidTwice`).
* Releases of vested amounts can return negative amounts: after a milestone was paid beyond what was
  releasable, after acceleration was configured again, or after a milestone was added to a linear
  schedule (`VestingOverdraw.InBalanceIff`, `NegativeReleaseIff`, and one run each in
  `MilestonePaidEarly`, `AccelerationReset`, `MilestoneAddedLate`).
* Milestones can share an id, and then only the first is payable (`VestingLaws.PayableIff`).
* A proposal to remove somebody who is no admin lowers the count of admins
  (`AdminLaws.QuorumAlwaysReachable`), and approvals outlive the membership of their givers
  (`AdminLaws.ApprovalOutlivesItsGiver`, `AdminBackers.ExecutionBackedIff`).
* The proof verifier accepts inner nodes with shorter proofs and values below a leaf with longer ones
  (`Merkle.NodesAccepted`, `ShortAcceptedIff`, `LongAcceptedIff`).
* A reset clears only one of three ledgers (`AnalyticsLaws.ResetBreaksIff`). Conditional and vesting
  escrows are disputed and released on the books without having been created on them, and changed amounts
  are not posted (`AnalyticsCounts.FiguresMatchRecords`, `ConditionalUncounted`, `VestingUncounted`).

Where comments and code differ, the model follows the code.

* The comments on the vesting calls (lines 6520-6526, 6609-6614, 6675-6680, 6779-6783) promise errors of
  their own for unknown, unapproved and overflowing milestones and for nothing to release; the code
  returns the general status error for each.
* `release_vested_amount` is documented as a release of funds; it returns and records the amount but
  transfers nothing. Only `release_milestone` pays.
* A comment on approvals (line 2990) lets only participants with positive recorded weight vote; the code
  asks for the separately stored vote weight first.

## Model

| member | source | states |
|---|---|---|
| EscalationQueue.DequeuedWellFormed | contracts/escrow/src/lib.rs:11205-11243 | Dequeuing keeps the queue well formed: the index is strictly ascending and holds exactly the deadlines that have a bucket, buckets are non-empty and without repetition, and an id is in a bucket exactly when its recorded deadline is that one. |
| EscalationQueue.EnqueuedWellFormed | contracts/escrow/src/lib.rs:11185-11203 | Enqueuing, or enqueuing again at another deadline, keeps the queue well formed. |
| EscalationQueue.EntriesMembers | contracts/escrow/src/lib.rs:11185-11295 | The list of all entries, bucket after bucket in index order, holds a pair of id and deadline exactly when the reverse map records it. |
| EscalationQueue.EntriesSortedDistinct | contracts/escrow/src/lib.rs:11185-11295 | That list is ordered by deadline and names no escrow twice. |
| EscalationQueue.DequeuedEntries | contracts/escrow/src/lib.rs:11205-11243 | Dequeuing removes exactly the escrow's own entry from the list and leaves the order of the others. |
| EscalationQueue.EnqueuedEntries | contracts/escrow/src/lib.rs:11185-11203 | Enqueuing moves the escrow behind every entry that is due no later and in front of every entry that is due later. |
| EscalationQueue.EntriesDetermineQueue | contracts/escrow/src/lib.rs:11185-11295 | Two well-formed queues with the same list are equal: index, buckets and reverse map cannot disagree and still list the same entries. |
| EscalationQueue.QueueStorage.InsertDeadline | contracts/escrow/src/lib.rs:11245-11275 | The scan for the deadline and the copying loop put it in its place in the index, once. |
| EscalationQueue.QueueStorage.RemoveDeadline | contracts/escrow/src/lib.rs:11277-11295 | The copying loop drops the deadline from the index and keeps the order of the rest. |
| EscalationQueue.QueueStorage.Dequeue | contracts/escrow/src/lib.rs:11205-11243 | The stored queue becomes the dequeued queue of the specification, for which the laws above hold. |
| EscalationQueue.QueueStorage.Enqueue | contracts/escrow/src/lib.rs:11185-11203 | The stored queue becomes the enqueued queue of the specification, for which the laws above hold. |
| EscalationScan.ObstacleIffNotDue | contracts/escrow/src/lib.rs:4551-4573 | A timeout resolution is let through exactly for an escrow that is disputed and was escalated at least its timeout ago; the saturating deadline in the queue makes no difference. |
| EscalationScan.QueueListsTheScan | contracts/escrow/src/lib.rs:4636-4637 | The due entries of the queue are the set that a full scan of all escrows finds, each once, although stale entries may be queued too. |
| EscalationScan.ProcessEffect | contracts/escrow/src/lib.rs:4638-4703 | For any answers of the tokens: processing attempts the due escrows in queue order until the limit is used up, treats each as a direct resolution would, counts and dequeues those that went through, and touches nobody else. |
| EscalationScan.ProcessRefinesScan | contracts/escrow/src/lib.rs:4636-4703 | In every reachable storage, when no transfer is refused, processing with a limit resolves exactly the first `limit` escrows of the full scan in deadline-then-insertion order, returns their number and touches nothing else. |
| LifecycleLaws.ReleasePaysExactlyIff | contracts/escrow/src/lib.rs:3627-3700 | For any amount and fee rate, a release whose transfers go through pays out exactly the amount if and only if amount times rate is above -10000; otherwise it pays more. |
| LifecycleLaws.TimeoutPlan | contracts/escrow/src/lib.rs:4575-4622 | What a timeout pays adds up to the amount for each favour; both halves of an equal split together are the amount whatever its parity. |
| LifecycleLaws.StepKeeps | contracts/escrow/src/lib.rs:3569-3825 | Every call of the single-escrow machine keeps the queue in agreement with the records, moves every escrow only forward, never pays a settled escrow again and never beyond its amount. |
| LifecycleLaws.ReachableSound | contracts/escrow/src/lib.rs:4551-4703 | In every storage that calls of the single-escrow machine reach, with failed transfers swallowed in mid-batch included, the queue is well formed, every escalated dispute is queued at its own deadline, and no escrow with ordinary money was paid beyond its amount. |
| LifecycleLaws.SettledAtMostOnce | contracts/escrow/src/lib.rs:3569-3825 | Whatever is called after an escrow was settled, its record and its payments stay what they were; until it is settled nothing is paid for it. |
| Settlement.SettledInFull | contracts/escrow/src/lib.rs:3627-3825 | Per escrow: whatever else happens in the run, to it or to others, a settled escrow with ordinary money has been paid out exactly, principal plus fee, if the call that settled it was no resolution by evidence and its own payments moved. |
| Settlement.ReleaseWithinAmountIff | contracts/escrow/src/lib.rs:3627-3700 | For any amount and fee rate, a release pays at most the amount whatever the tokens answer, refusals that a batch swallows included, if and only if the fee is neither negative nor more than the amount. |
| Recipients.EverybodyRightlyPaid | contracts/escrow/src/lib.rs:3535-3825 | Over every run: each settled escrow has a call that settled it, and if its transfers moved in it, record and payments are at the end of the run what that call says: after a decision the side decided for has the amount, after a timeout the favoured side or each its half, after a refund or an expiry the customer, after a release the recipient the amount less the fee and the fee recipient the fee, after a resolution by evidence nobody anything. |
| Recipients.TimeoutPays | contracts/escrow/src/lib.rs:4551-4634 | A timeout resolution goes through exactly for a due dispute none of whose transfers is refused. Then the customer is paid the amount and the escrow resolved, or the merchant is paid and it is released, or the customer is paid half, rounded toward nothing, the merchant the rest, and it is resolved, as its favour says; it leaves the queue, and no other escrow is touched. |
| Recipients.ClearsIff | contracts/escrow/src/lib.rs:4673-4682 | A due escrow is counted and leaves the queue exactly when none of its transfers is refused. |
| Recipients.ProcessPays | contracts/escrow/src/lib.rs:4638-4703 | Processing pays each escrow it attempts by its favour in the same way, unless one of its transfers is refused, and leaves every other record and payment alone. |
| Recipients.DecisionPays | contracts/escrow/src/lib.rs:4740-4857 | A decision on a dispute, taken directly or by proposal, pays the amount to the merchant and releases the escrow, or to the customer and resolves it, as it says; no other escrow is touched. |
| Recipients.WatchdogPays | contracts/escrow/src/lib.rs:8585-8619 | The watchdog pays the amount to the customer or to the merchant, as it is configured, with the status that belongs to that side. |
| Recipients.BackPays | contracts/escrow/src/lib.rs:3775-3825 | Refunds resolve and expiries cancel the escrow, and both pay the customer everything. |
| Recipients.ReleasePays | contracts/escrow/src/lib.rs:3535-3761 | A release goes through exactly for a locked escrow whose time has come, with children, sub-accounts and signers content and no transfer refused. Then it is released, the merchant or the recipient named instead receives the amount less the fee, the fee recipient the fee when it is positive, and nobody else anything; no other escrow is touched. |
| Recipients.OrdinaryRelease | contracts/escrow/src/lib.rs:3659-3700 | With ordinary money and a recipient other than the fee recipient, what each address receives from a release: `amount - amount * feeBps / 10000`, `amount * feeBps / 10000`, and nothing for everybody else. |
| Recipients.DispatchReleasePays | contracts/escrow/src/lib.rs:6890-7020 | The proposal path pays the merchant in the same way, and asks for the record, its status and its time alone. |
| Recipients.EvaluationPays | contracts/escrow/src/lib.rs:9041-9141 | The first evaluation of a locked conditional escrow succeeds unless it is met and a transfer is refused; met, it pays the merchant less the fee and releases; not met, it pays nobody. |
| Recipients.BatchPays | contracts/escrow/src/lib.rs:10266-10307 | In a batch each escrow reported as released was locked and is paid less the fee; to each other one nothing has happened, unless one of its transfers was refused. |
| AppealPayments.OnlyAnAppealPaysAgain | contracts/escrow/src/lib.rs:4914-5210 | Over all runs of escrow calls and appeals: after an escrow is settled its payments stay what they were if and only if no appeal for it is resolved with its transfer moved, and such a resolution happens at most once. |
| AppealPayments.AutoResolvedUnpaidIff | contracts/escrow/src/lib.rs:4432-4476 | A dispute resolved by evidence is settled without a payment and stays unpaid if and only if no appeal for it is resolved with its transfer moved. |
| AppealPayments.SwallowedRefusalStrandsIff | contracts/escrow/src/lib.rs:4673-4682 | A refusal swallowed in a batch of timeouts leaves the escrow settled and queued with what had landed, the first half of a split or nothing, and that stays all it is paid if and only if no appeal for it is resolved with its transfer moved. |
| AppealPayments.PaidTwiceIffSettledBefore | contracts/escrow/src/lib.rs:5133-5147 | When an appeal is resolved and the money moves, the stored status before the call tells what the escrow has been paid in all: twice its amount if it was settled (cleanly), exactly once if it was locked or disputed. |
| AppealPayments.PaidTwice | contracts/escrow/src/lib.rs:5133-5147 | Concrete run: a dispute resolved for the merchant and an appeal resolved for the customer pay the whole amount to both. |
| LifecycleContract.EscrowContract.CreateEscrow | contracts/escrow/src/lib.rs:2651-2825 | Succeeds exactly when there is no expiry or it lies beyond the release and the hold period; then a new id holds a locked record with the parties, amount, fee, times and favour given, created now; no funds move. |
| LifecycleContract.EscrowContract.CreateConditionalEscrow | contracts/escrow/src/lib.rs:8951-9028 | Stores a locked record with the parties, amount and fee given, which never reaches its release time, and an unevaluated condition. |
| LifecycleContract.EscrowContract.CreateVestingRecord | contracts/escrow/src/lib.rs:6039-6122 | Stores a locked record with the parties, amount and fee given, released at the end of its schedule, or refuses times or milestones with no change. |
| LifecycleContract.EscrowContract.TryCreateSingleEscrow | contracts/escrow/src/lib.rs:9715-9850 | One entry of a batch: refused exactly for its amount or its time with no change, else stored locked with its parties and amount, without fee, hold or expiry. |
| LifecycleContract.EscrowContract.CreateEscrowBatch | contracts/escrow/src/lib.rs:9650-9713 | Creates one entry after the other within the limit: each entry is refused with its error or has a new, ascending id that holds its own record, and no escrow that was there before is touched. |
| LifecycleContract.BatchCreates | contracts/escrow/src/lib.rs:9650-9713 | Each entry of a batch with a positive amount and a later release is stored as given, each other one refused with its error; the ids ascend and earlier records stay. |
| LifecycleContract.EscrowContract.DisputeEscrow | contracts/escrow/src/lib.rs:3839-3954 | Exactly a party of a locked escrow turns it into a disputed one, stamped with the time; every other case is refused with its error and no change. |
| LifecycleContract.EscrowContract.EscalateDispute | contracts/escrow/src/lib.rs:4386-4419 | Stamps the escalation, raises the level by one and files the escrow at its deadline, also when it was filed before; succeeds exactly for a party of a disputed escrow. |
| LifecycleContract.EscrowContract.AutoResolveDispute | contracts/escrow/src/lib.rs:4432-4476 | Succeeds exactly for a dispute without activity for 500 seconds; sets the status the evidence decides, pays nobody and leaves the queue alone. |
| LifecycleContract.EscrowContract.TriggerTimeoutResolution | contracts/escrow/src/lib.rs:4551-4634 | Settles exactly a due escrow without a refused transfer, paid by its favour to customer, merchant or both, with the error cases in order; a failing call is rolled back. |
| LifecycleContract.EscrowContract.ProcessEscalationTimeouts | contracts/escrow/src/lib.rs:4638-4703 | The walk over local copies of index and buckets, while the resolutions change the stored ones, ends in exactly the storage and count of triggering one entry after the other; each attempted escrow is paid by its favour unless a transfer is refused, every other one is untouched. |
| LifecycleContract.EscrowContract.ResolveDisputedEscrow | contracts/escrow/src/lib.rs:4718-4857 | Settles exactly a disputed escrow whose transfer is not refused, pays the side decided for and dequeues it; nobody else is touched. |
| LifecycleContract.EscrowContract.ExecuteResolveProposal | contracts/escrow/src/lib.rs:7021-7102 | The proposal path pays and settles the same way but leaves the queue entry behind. |
| LifecycleContract.EscrowContract.CanRelease | contracts/escrow/src/lib.rs:3569-3625 | Lets through exactly the locked escrows whose time has come and whose children and sub-accounts are content; whatever it refuses, every release refuses with the same error and without a change. |
| LifecycleContract.EscrowContract.ReleaseEscrow | contracts/escrow/src/lib.rs:3535-3761 | Releases exactly a locked escrow whose time has come and whose gates and transfers allow it: the recipient receives the amount less the fee and the fee recipient the fee; otherwise fails with the first applicable error and no change. |
| LifecycleContract.EscrowContract.BatchReleaseEscrows | contracts/escrow/src/lib.rs:10266-10307 | Releases up to twenty escrows one after the other, each one reported as released paid less the fee to the recipient; failures are reported with their errors and what they stored stays. |
| LifecycleContract.EscrowContract.ExecuteReleaseProposal | contracts/escrow/src/lib.rs:6890-7020 | The proposal path releases to the merchant, less the fee, without asking children or signers. |
| LifecycleContract.EscrowContract.RefundEscrow | contracts/escrow/src/lib.rs:3775-3825 | Pays the whole amount back to the customer, exactly when a party asks for a disputed escrow or for a locked one past its hold period and the transfer is not refused. |
| LifecycleContract.EscrowContract.TriggerWatchdogRelease | contracts/escrow/src/lib.rs:8585-8619 | Exactly after the inactivity period settles a locked escrow and pays the configured side. |
| LifecycleContract.EscrowContract.EvaluateAndRelease | contracts/escrow/src/lib.rs:9041-9141 | Evaluates a condition once, releases to the merchant less the fee when it is met, and returns whether it was. |
| LifecycleContract.EscrowContract.ExpireEscrow | contracts/escrow/src/lib.rs:9963-10005 | Cancels exactly a locked escrow past its expiry and pays the customer the whole amount. |
| PooledMoney.ProRataBound | contracts/escrow/src/lib.rs:3090-3097 | For any non-negative total and shares summing to 10000 the floored payouts total at most the total, and the dust left is less than the number of participants with a positive share. |
| PooledMoney.PaySharesEffect | contracts/escrow/src/lib.rs:3090-3097 | With enough money in the contract's account every payment of the loop goes through; each account gains what it is owed, the contract pays for all of it, and no other token is touched. |
| PooledMoney.PaySharesIff | contracts/escrow/src/lib.rs:3090-3097 | The payout loop goes through if and only if the balance is what it needs, also when the contract is itself a participant. |
| PooledMoney.NeededIsTotal | contracts/escrow/src/lib.rs:3090-3097 | When no participant is the contract itself, the loop needs exactly the floored shares together. |
| PooledMoney.EveryoneGetsTheirShare | contracts/escrow/src/lib.rs:3090-3097 | With distinct addresses every participant receives its own floored share and nothing else. |
| PooledMoney.RefundEffect | contracts/escrow/src/lib.rs:9579-9602 | A refund takes at most the total; a participant in the customer's role gets all of it. |
| PooledMoney.CoveredMoves | contracts/escrow/src/lib.rs:3390-3412 | Because the tokens are distinct, once the balance check has passed no transfer of the bundle fails. |
| PooledLaws.StepKeeps | contracts/escrow/src/lib.rs:2842-3428 | Every call keeps approvals, votes and the one-payout records sound, also when the contract is not solvent; every call but one keeps it solvent, and a payout for anything else does exactly when it is within the surplus of balance over what is owed. |
| PooledLaws.SolventIff | contracts/escrow/src/lib.rs:6839-6857 | Over every run: in all its storages, for every token, the balance covers the totals of all live multi-party escrows plus the entries of all locked multi-token escrows, if and only if every other payout was within the surplus when it was made. |
| PooledLaws.PayOutKeepsIff | contracts/escrow/src/lib.rs:6839-6857 | A payout from the same account for a single escrow, a milestone or collateral keeps a solvent contract solvent if and only if nothing moves, the money comes back, or it is no more than balance less what is owed. |
| PooledLaws.BundleReleaseIff | contracts/escrow/src/lib.rs:3375-3428 | Over every run a locked multi-token escrow whose time has come is released if and only if every entry is covered, no transfer fails after the check, and the merchant has every entry; while other payouts stay within the surplus the check turns none down. |
| PooledLaws.PartyPayoutFailsIff | contracts/escrow/src/lib.rs:9566-9602 | Over every run a release, a merchant verdict or a refund of a multi-party escrow fails for want of money if and only if everything else lets it through and the balance is below what it needs: for the customer the total, by share what the loop needs; never while other payouts stay within the surplus. |
| PooledLaws.PaidOutAtMostOnce | contracts/escrow/src/lib.rs:9527-9616 | Each multi-party escrow is paid out at most once across release and both outcomes of a dispute; an unresolved dispute record exists exactly while the status is disputed. |
| PooledLaws.VotersAreParticipants | contracts/escrow/src/lib.rs:9473-9499 | A list of distinct votes by participants is no longer than the list of participants. |
| PooledLaws.OneQuorumAtMost | contracts/escrow/src/lib.rs:9544-9558 | The two vote lists are without repetition, disjoint and within the participants, so at most one side has the quorum and asking the customer's side first would give the same verdict. |
| SharedAccount.CreateAndRefundStrandsParty | contracts/escrow/src/lib.rs:3775-3815 | Concrete run: after a multi-party escrow is created, a single escrow of the same amount and token is created and refunded; the account is empty, the whole amount is owed, and the refund that the expired vote decides on fails. |
| SharedAccount.CreateAndRefundStrandsBundle | contracts/escrow/src/lib.rs:3390-3402 | The same with a multi-token escrow: its time has come, and the balance check turns its release down. |
| JointAccount.JointSolventIff | contracts/escrow/src/lib.rs:6839-6857 | Over every run in which the single-escrow machine and the pooled escrows share one account, batches included: the contract is solvent for its pooled escrows in all storages if and only if each call paid, in each token, no more than was left beside what it owed for them. |
| JointAccount.SettlementWithinIff | contracts/escrow/src/lib.rs:3627-3700 | Settling one escrow cleanly, principal and fee, leaves a solvent contract solvent if and only if its stored amount is within the surplus of its token. |
| PooledEffects.CreationPulls | contracts/escrow/src/lib.rs:2842-2948 | A multi-party escrow is created exactly for two to ten different participants whose shares and whose weights are each the whole, when the customer has the total; the total moves into the contract's account, and the record holds the participants unapproved, their counting weights being their shares and the threshold the whole. |
| PooledEffects.ApprovalMarks | contracts/escrow/src/lib.rs:2962-3038 | An approval succeeds exactly for a participant of a locked escrow who has not approved and whose counting weight is positive; it marks that participant, records its counting weight, lists it, and changes nothing else. |
| PooledEffects.ReleasePaysShares | contracts/escrow/src/lib.rs:3051-3107 | A release succeeds exactly for a locked escrow with enough weight whose time has come, when the contract has what the payments need. Then each participant other than the contract has `total * shareBps / 10000` more, the contract has less by exactly what they gained, no other account or token changes, and the escrow is released. |
| PooledEffects.ResolutionPays | contracts/escrow/src/lib.rs:9527-9616 | A dispute with a majority for the merchant is released and paid by share; otherwise there is a majority for the customer or the deadline is over, the escrow is resolved and the first participant in the customer's role has the whole total, or everybody its share when nobody has that role. |
| PooledEffects.VoteCounts | contracts/escrow/src/lib.rs:9449-9514 | A vote succeeds exactly for a participant of an open dispute who has not voted; the side it names gains this voter alone and the other side stays. |
| PooledEffects.BundlesMove | contracts/escrow/src/lib.rs:3290-3428 | Creating a bundle moves each entry from the customer to the contract, releasing it moves each on to the merchant; the release succeeds exactly for a locked bundle whose time has come and whose every entry is covered. |
| PooledHistory.VotesAreCast | contracts/escrow/src/lib.rs:9473-9499 | Over every run: an address stands on a side of a dispute exactly when the run holds its successful vote for that side, and a side has as many votes as participants voted so. |
| PooledHistory.MajorityDecides | contracts/escrow/src/lib.rs:9544-9602 | Over every run: a resolved dispute went to the merchant, paid by share and released, if and only if more than half of the participants voted so in the run; to the customer, paid back and resolved, exactly when more than half voted that way or, without a majority for the merchant, the deadline was over. |
| PooledHistory.ReleaseIsBacked | contracts/escrow/src/lib.rs:3051-3107 | Over every run: a multi-party escrow is released exactly when it is locked, its time has come, the participants whose approvals the run holds have, by the weights last given to them, what the threshold last given to it asks for, and the contract has what the payments need. |
| PooledWeights.ApprovedIsBallot | contracts/escrow/src/lib.rs:1563-1576 | The loop over participants and the list of approvals count the same weight, each approver once. |
| PooledWeights.ReleaseNeedsDistinctApprovers | contracts/escrow/src/lib.rs:3070-3080 | In every reachable storage the approvals are distinct participants, and a release gets past the weight check exactly when their weights, counted once each, reach the threshold. |
| PooledWeights.SetWeightOnlyConfirms | contracts/escrow/src/lib.rs:3153-3229 | A successful setting of a weight sets the value already recorded: the records do not change, only the counting weight does. |
| PooledWeights.AlignedAlwaysReleasable | contracts/escrow/src/lib.rs:2931-3107 | An escrow created with weights equal to shares keeps counting weights that sum to 10000 over every run, and approval by everybody with a positive weight meets any admissible threshold. |
| PooledWeights.SettingIsSafeIffAligned | contracts/escrow/src/lib.rs:2931-2936 | For a new escrow every successful setting of a weight leaves the counting weights at 10000 or more if and only if it was created with weights equal to shares. |
| PooledWeights.MisalignedHoldsBackUnanimity | contracts/escrow/src/lib.rs:2931-2936 | Concrete input: with shares 9000/1000 and weights 1000/9000, confirming one weight leaves the approval of everybody worth 2000, and the release is refused until the threshold is lowered; confirming the second weight before any approval would have avoided it. |
| PooledContract.HasDuplicateAddress | contracts/escrow/src/lib.rs:2860-2867 | The double loop finds a repeated address exactly when there is one. |
| PooledContract.HasDuplicateToken | contracts/escrow/src/lib.rs:3307-3316 | The double loop finds a repeated token exactly when there is one. |
| PooledContract.Totals | contracts/escrow/src/lib.rs:2870-2875 | The loop returns the sums of shares and of recorded weights. |
| PooledContract.Normalize | contracts/escrow/src/lib.rs:2884-2894 | The rebuilt participants are the given ones without any approval. |
| PooledContract.IsParticipant | contracts/escrow/src/lib.rs:9393-9399 | The loop finds the caller exactly when it participates. |
| PooledContract.FindCustomer | contracts/escrow/src/lib.rs:9580-9587 | The loop finds the first participant in the customer's role. |
| PooledContract.Reweigh | contracts/escrow/src/lib.rs:3183-3202 | The rebuilt list differs in one recorded weight, and the returned total is its sum. |
| PooledContract.PooledContract.PayEveryone | contracts/escrow/src/lib.rs:3090-3097 | The payout loop has the effect of the pro-rata specification and stops at the first transfer that fails. |
| PooledContract.PooledContract.PreFlight | contracts/escrow/src/lib.rs:3390-3402 | The check passes exactly when every entry is covered by the balance. |
| PooledContract.PooledContract.SumApprovedWeight | contracts/escrow/src/lib.rs:1563-1576 | The loop adds the counting weight of every approved participant. |
| PooledContract.PooledContract.CreateMultiPartyEscrow | contracts/escrow/src/lib.rs:2842-2948 | The checks in order, the total moved in from the customer, the record and the weights as given; refused with no change otherwise; invariants kept. |
| PooledContract.PooledContract.MarkApproved | contracts/escrow/src/lib.rs:2991-3019 | The loop that searches the caller builds the updated list or stops with the caller's error. |
| PooledContract.PooledContract.ApproveRelease | contracts/escrow/src/lib.rs:2962-3038 | One approval by a participant with positive weight, which marks and lists this participant alone; invariants kept. |
| PooledContract.PooledContract.ReleaseMultiPartyEscrow | contracts/escrow/src/lib.rs:3051-3107 | Succeeds exactly once weight, time and money suffice; every participant then has its floored share more, the contract less by what they gained, no other balance changes and the escrow is released; a failure is undone. |
| PooledContract.PooledContract.SetParticipantWeight | contracts/escrow/src/lib.rs:3153-3229 | The admin's change of a weight before any approval, in the record and beside it; the recorded weights still sum to the whole; invariants kept. |
| PooledContract.PooledContract.UpdateApprovalThresholdBps | contracts/escrow/src/lib.rs:3232-3274 | Stores exactly the given threshold, from 1 to 10000, twice: in the record of a locked escrow and beside it. |
| PooledContract.PooledContract.DisputeMultiPartyEscrow | contracts/escrow/src/lib.rs:9376-9434 | Exactly a participant of a locked escrow opens a vote without votes, with a majority quorum and a deadline in seven days. |
| PooledContract.PooledContract.VoteOnMultiPartyDispute | contracts/escrow/src/lib.rs:9449-9514 | One vote per participant of an open dispute: the named side gains the voter, the other side stays; invariants kept. |
| PooledContract.PooledContract.ResolveMultiPartyDispute | contracts/escrow/src/lib.rs:9527-9616 | With a majority for the merchant everybody is paid by share and the escrow released; with one for the customer, or after the deadline, it is resolved and paid back; a failed payout is undone. |
| PooledContract.PooledContract.CreateMultiTokenEscrow | contracts/escrow/src/lib.rs:3290-3362 | Moves every entry of distinct tokens in from the customer and stores the bundle, or changes nothing; invariants kept. |
| PooledContract.PooledContract.ReleaseMultiTokenEscrow | contracts/escrow/src/lib.rs:3375-3428 | Succeeds exactly for a locked bundle whose time has come and whose every entry is covered; every entry then has moved to the merchant and no other balance changes; invariants kept. |
| PooledContract.PooledContract.TransferIfTokenContract | contracts/escrow/src/lib.rs:6839-6857 | Moves the amount out of the account or fails with no change, and succeeds without moving anything when the address is no token contract; the records stay sound, and the contract stays solvent exactly when the payout was within the surplus. |
| Hierarchy.AttachKeeps | contracts/escrow/src/lib.rs:10981-11057 | Attaching a child keeps the forest: greater ids below, depth at most three, parents and children naming each other, a record for every node. |
| Hierarchy.StepKeepsForest | contracts/escrow/src/lib.rs:10981-11057 | So does every call of the single-escrow machine in between. |
| HierarchySearch.LevelOrderIsTheSubtree | contracts/escrow/src/lib.rs:11070-11108 | The level order lists an escrow and everything below it, as the stored parents define it, each exactly once and with depths that never go down. |
| HierarchySearch.ReachableForest | contracts/escrow/src/lib.rs:10981-11108 | In every reachable storage the nodes form a forest in which ids grow away from the roots, and the tree below any escrow is listed completely without repetition. |
| HierarchySearch.FinishedIsAll | contracts/escrow/src/lib.rs:11070-11108 | A work list that holds exactly the root and its own children is the level order: the loop cannot end early. |
| HierarchySearch.ReleasedAfterDescendants | contracts/escrow/src/lib.rs:3583-3585 | Over whole runs: when an escrow is released by `release_escrow` or in a batch whose gate answers truly, everything below it is released, resolved or cancelled, and in every later storage those records are exactly what they were. |
| HierarchySearch.AttachAllowedIff | contracts/escrow/src/lib.rs:10981-11057 | Attaching succeeds exactly by record, depth and inherited expiry, never by the parent's status, and afterwards the parent's guard fails. |
| HierarchySearch.AttachLeavesSettledIff | contracts/escrow/src/lib.rs:10981-11057 | When everything below an escrow is settled, an attach leaves it so if and only if it fails or its parent is neither that escrow nor below it. |
| HierarchySearch.StaysSettledIff | contracts/escrow/src/lib.rs:10981-11057 | Over whole runs: once everything below an escrow is settled, it stays settled in all storages of a run if and only if no attach to that escrow or to one below it succeeds in the run. |
| HierarchySearch.ReleasedParentGetsLockedChild | contracts/escrow/src/lib.rs:10981-11057 | Concrete input: an escrow that has been released can still be given a child, which is then locked below it. |
| HierarchyContract.AttachAdds | contracts/escrow/src/lib.rs:10981-11057 | Attaching succeeds exactly below a stored escrow less than three deep whose expiry, if any, lies beyond its release and its hold period. The child then is locked, with the customer, merchant, amount and fee given and the release, hold and expiry of its parent; its node hangs one deeper under the parent's, and no other record or node changes. |
| HierarchyContract.HierarchyContract.CreateChildEscrow | contracts/escrow/src/lib.rs:10981-11057 | Creates the child for the customer, merchant and amount given, with its parent's times, links both nodes, changes no other, and keeps the forest. |
| HierarchyContract.HierarchyContract.GetEscrowHierarchy | contracts/escrow/src/lib.rs:11070-11108 | The loop terminates and returns the nodes of the level order, or nothing for an unknown root. |
| HierarchyContract.HierarchyContract.CanParentRelease | contracts/escrow/src/lib.rs:11121-11170 | The loop terminates and returns true exactly when the escrow exists and every proper descendant, by the stored parents, is released, resolved or cancelled. |
| HierarchyContract.HierarchyContract.ReleaseEscrow | contracts/escrow/src/lib.rs:3535-3625 | A release asks the guard in the storage it meets, and succeeds exactly for a locked escrow whose time has come, everything below which is settled, and whose other gates and transfers allow it. |
| HierarchyContract.HierarchyContract.BatchReleaseEscrows | contracts/escrow/src/lib.rs:10266-10307 | A batch asks the guard for each escrow in the storage that its earlier releases have left, so its gate answers truly, and everything below each escrow it releases is settled. |
| VestingLaws.VestedBounds | contracts/escrow/src/lib.rs:6206-6287 | The vested amount lies between what the schedule alone gives and the total, for every acceleration, capped or not. |
| VestingLaws.VestedMonotone | contracts/escrow/src/lib.rs:6206-6457 | The vested amount never goes down in time or in accelerated bps, also when the maximal acceleration exceeds the whole. |
| VestingLaws.NeverOverReleased | contracts/escrow/src/lib.rs:6527-6835 | Over every run mixing all the calls, what counts as released lies between nothing and the total, and so do the milestones. |
| VestingLaws.DrawnTotals | contracts/escrow/src/lib.rs:6362-6606 | Over runs of time, completed milestones and releases the returned amounts add up to the released amount, never to more than has vested, and after an attempt past the cliff to exactly what has vested. |
| VestingLaws.PathIndependent | contracts/escrow/src/lib.rs:6527-6606 | Two schedules of releases that end in a release at the same time and acceleration have returned the same total. |
| VestingLaws.ResetForgets | contracts/escrow/src/lib.rs:6335-6346 | Setting the acceleration again drops the vested amount to the schedule's own, which is less exactly when something had been brought forward. |
| VestingLaws.MarksSucceedIff | contracts/escrow/src/lib.rs:6362-6399 | From a new configuration on, whatever else is called, a mark succeeds exactly as long as fewer were made than go into the maximal acceleration, and the acceleration is the number of marks made, up to that many, times the part of each. |
| VestingLaws.MilestoneLedger | contracts/escrow/src/lib.rs:6615-6835 | Over runs of creating, adding, approving and releasing milestones the released amount is the sum of the released milestones and of all payments, all milestones stay within the total, and the overflow guard never fires. |
| VestingLaws.PayableIff | contracts/escrow/src/lib.rs:6124-6132 | Ids may repeat: the milestone at a position can be approved and paid exactly when it is unreleased and no earlier milestone has its id. |
| VestingContract.CheckMilestones | contracts/escrow/src/lib.rs:6060-6078 | The loop accepts exactly milestones within the schedule that sum to the amount. |
| VestingContract.IndexMilestones | contracts/escrow/src/lib.rs:6124-6132 | Milestones without an id get their position, counted from one. |
| VestingContract.VestingContract.GetBaseVestedAmount | contracts/escrow/src/lib.rs:6206-6253 | The loop over milestones adds exactly the unlocked ones, the linear branch gives the part of the total for the time passed since the cliff; nothing before the cliff and everything from the end on. |
| VestingContract.VestingContract.CalculateAcceleratedAmount | contracts/escrow/src/lib.rs:6431-6457 | The part of the unvested rest, in ten thousandths rounded down, that completed milestones bring forward. |
| VestingContract.VestingContract.GetVestedAmount | contracts/escrow/src/lib.rs:6266-6287 | Scheduled and accelerated amount together, capped at the total: the scheduled part and the accelerated part of the rest. |
| VestingContract.VestingContract.GetReleasableAmount | contracts/escrow/src/lib.rs:6496-6510 | What has vested less what was released; it may be negative. |
| VestingContract.VestingContract.ReleaseVestedAmount | contracts/escrow/src/lib.rs:6527-6606 | Succeeds exactly once the cliff is past and something differs; returns the difference between what has vested and what was released, records it, and marks exactly the unlocked milestones within it. |
| VestingContract.VestingContract.ApproveVestingMilestone | contracts/escrow/src/lib.rs:6615-6671 | Approves the first milestone with the id, if it is unreleased, and changes no other. |
| VestingContract.VestingContract.ReleaseVestingMilestone | contracts/escrow/src/lib.rs:6681-6752 | Pays the first milestone with the id its amount, if it is approved, unreleased and within the total, and marks it; a refused transfer is undone. |
| VestingContract.VestingContract.AddVestingMilestone | contracts/escrow/src/lib.rs:6784-6835 | Appends a milestone that fits into amount and schedule. |
| VestingContract.VestingContract.SetVestingAccelerationConfig | contracts/escrow/src/lib.rs:6303-6348 | Stores parts from 1 to 10000 within the maximum for an existing schedule, with nothing completed yet. |
| VestingContract.VestingContract.CreateVestingEscrow | contracts/escrow/src/lib.rs:6039-6132 | Stores the schedule exactly for a cliff from now on, an end after it and milestones within it that sum to the amount; milestones without an id get their position. |
| VestingCurve.BaseOnSchedule | contracts/escrow/src/lib.rs:6206-6253 | What a schedule by itself has vested: nothing before the cliff, everything from the end on, in between the amounts of the unlocked milestones, and without milestones the amount `v` with `v * (end - cliff) <= (now - cliff) * total < (v + 1) * (end - cliff)`. |
| VestingCurve.UnlockedAre | contracts/escrow/src/lib.rs:6225-6237 | The milestones that count as unlocked are exactly those whose unlock time has come, each as often as it is in the schedule. |
| VestingCurve.AcceleratedPart | contracts/escrow/src/lib.rs:6266-6287 | Acceleration brings forward the part `bps / 10000` of what has not vested by itself, rounded down, everything from 10000 on, and nothing at 0. |
| VestingCurve.RefusedAtTheCliff | contracts/escrow/src/lib.rs:6527-6565 | Over every run of a new schedule without milestones and marks, whatever was tried before: a release at the cliff finds nothing and is refused. |
| VestingCurve.ReturnedIsElapsed | contracts/escrow/src/lib.rs:6527-6606 | Over every run of a new schedule without milestones and marks that ends in a release between cliff and end: what all its releases have returned is the part of the total that corresponds to the part of the time that has passed, rounded down. |
| VestingOverdraw.InBalanceIff | contracts/escrow/src/lib.rs:6206-6835 | Over every run with ordinary amounts what was handed out stays within what has vested, in all storages, if and only if no call overdraws when it is made: no milestone paid beyond the releasable amount, no acceleration set again after accelerated money was drawn, no first milestone added to a linear schedule drawn beyond what it unlocks. |
| VestingOverdraw.NegativeReleaseIff | contracts/escrow/src/lib.rs:6547-6565 | As long as no call has overdrawn, the next call makes the release after it return a negative amount if and only if it overdraws. |
| VestingOverdraw.MilestonePaidEarly | contracts/escrow/src/lib.rs:6681-6752 | Concrete run: a milestone is paid before it unlocks, and the release past the cliff returns minus its amount. |
| VestingOverdraw.MilestoneAddedLate | contracts/escrow/src/lib.rs:6784-6835 | Concrete run: a linear schedule is drawn halfway, a milestone is added, and the next release returns minus what was drawn. |
| VestingOverdraw.AccelerationReset | contracts/escrow/src/lib.rs:6335-6346 | Concrete run: accelerated money is drawn, the configuration is set again, and the next release returns minus that money. |
| VestingPayouts.WithinAmountIff | contracts/escrow/src/lib.rs:6681-6752 | Over every joint run of escrow calls and schedules with ordinary amounts and a clean settlement: record and milestones of a vesting escrow together never pay more than its amount if and only if no milestone is paid after the record was settled and the record is not settled after a milestone was paid. |
| VestingPayouts.PaidOutIs | contracts/escrow/src/lib.rs:6681-6752 | At any time such an escrow has been paid its amount if the record is settled, nothing if not, and its milestones on top, which never exceed the amount. |
| VestingPayouts.TransferredIsReleased | contracts/escrow/src/lib.rs:6681-6752 | As long as nothing was drawn by time, what the milestones have paid is the stored released amount, so a caller can tell before settling whether it would overpay. |
| VestingPayouts.VestingPaidTwice | contracts/escrow/src/lib.rs:6681-6752 | Concrete run: the only milestone of a vesting escrow is paid and then its record is released; the amount has been paid twice. |
| VestingEscrows.VestingEscrows.CreateVestingEscrow | contracts/escrow/src/lib.rs:6039-6186 | Stores record and schedule under one new id, or refuses times or milestones with no change. |
| Merkle.HashKeccakPair | contracts/escrow/src/lib.rs:4159-4167 | The two values are copied into one buffer of 64 bytes, left before right, and hashed. |
| Merkle.VerifyKeccakMerkleProof | contracts/escrow/src/lib.rs:4136-4157 | The loop accepts exactly when folding the siblings into the leaf, by the bits of the index, gives the root. |
| Merkle.SiblingPathVerifies | contracts/escrow/src/lib.rs:4136-4157 | Completeness: in a tree of `2^k` leaves the sibling path of a leaf is accepted at every index that names it in its lowest `k` bits. |
| Merkle.AcceptedIsTheLeafOrCollision | contracts/escrow/src/lib.rs:4093-4157 | Soundness: an accepted proof of length `k` carries exactly leaf `i mod 2^k` and its sibling path, or two different inputs with the same hash have been found. |
| Merkle.CollisionOfBytes | contracts/escrow/src/lib.rs:4159-4167 | Such a pair is a collision of the hash itself: two different inputs of 64 bytes. |
| Merkle.AcceptedIff | contracts/escrow/src/lib.rs:4136-4157 | Unless two of the pairs hashed for the proof and for the tree collide, a proof of length `k` is accepted if and only if it is the leaf at its index with its sibling path. |
| Merkle.NodesAccepted | contracts/escrow/src/lib.rs:4136-4157 | The length is not checked: every node of every level is accepted in the place of a leaf, with its sibling path from there. |
| Merkle.ShortAcceptedIff | contracts/escrow/src/lib.rs:4136-4157 | Unless two of the pairs hashed collide, a proof no longer than the tree is high is accepted if and only if it is the node at its index in the level of its length, with the sibling path of that node. |
| Merkle.LongAcceptedIff | contracts/escrow/src/lib.rs:4136-4157 | Unless two of the pairs hashed collide, a longer proof is accepted if and only if its lower part folds to a leaf and its upper part is the sibling path of that leaf. |
| Codec.DecimalParses | contracts/escrow/src/lib.rs:6859-6877 | The numeral has no leading zero and parsing undoes it. |
| Codec.DecimalInjective | contracts/escrow/src/lib.rs:6859-6877 | Different numbers have different numerals. |
| Codec.ParseRendered | contracts/escrow/src/lib.rs:6859-6877 | Every numeral without superfluous zeros is the numeral of its value. |
| Codec.U64Digits | contracts/escrow/src/lib.rs:6863-6875 | No 64-bit number needs more than twenty digits. |
| Codec.U64ToString | contracts/escrow/src/lib.rs:6859-6877 | Terminates within its two buffers of twenty and returns the numeral. |
| Codec.ReadU64FromBytes | contracts/escrow/src/lib.rs:6879-6886 | Returns the big-endian value of the eight bytes, missing ones read as zero; no shift loses a bit. |
| Codec.ReadInvertsWrite | contracts/escrow/src/lib.rs:6879-6886 | Reading undoes eight-byte big-endian writing at any offset, and writing undoes reading. |
| AdminLaws.StepKeeps | contracts/escrow/src/lib.rs:1791-2333 | Every call keeps the quorum reachable and the proposals counted, and changes no closed proposal. |
| AdminLaws.QuorumAlwaysReachable | contracts/escrow/src/lib.rs:7103-7176 | In every reachable storage `1 <= required <= total <= |admins|` with distinct admins; the count falls behind by exactly the executed removals of somebody who was no admin. |
| AdminLaws.UnanimityExecutes | contracts/escrow/src/lib.rs:1929-1967 | Once every admin has approved an open proposal in time, it has the signatures it needs and its execution depends on its action alone. |
| AdminLaws.ProposalsNeverOverwritten | contracts/escrow/src/lib.rs:1791-1853 | The id of a new proposal is unused, has at most twenty digits, and its content and approvals are kept ever after. |
| AdminLaws.ExecutedAtMostOnce | contracts/escrow/src/lib.rs:1929-2019 | A proposal takes effect at most once, with as many distinct approvals as are required then, and is never both executed and rejected. |
| AdminLaws.OnlyAdminsApprove | contracts/escrow/src/lib.rs:1791-1916 | Every approval was given by somebody who was an admin at that moment. |
| AdminLaws.ApprovalOutlivesItsGiver | contracts/escrow/src/lib.rs:1929-1967 | Concrete input: a proposal is executed on the approval of an admin who has been removed since. |
| AdminBackers.ExecutionBackedIff | contracts/escrow/src/lib.rs:1929-1967 | An execution has as many current admins behind it as signatures are required if and only if that many of its approvers are still admins, and that if and only if no more approvers were removed after approving, and not taken back, than there are approvals in excess. |
| AdminBackers.RemovedIffLastWord | contracts/escrow/src/lib.rs:2033-2148 | Over every run an admin is one no more if and only if the last thing the run said about the membership was a removal, direct or by an executed proposal. |
| AdminLaws.ExecutesWhatWasEncoded | contracts/escrow/src/lib.rs:6888-7024 | A proposal whose data encodes an escrow id and a flag acts on exactly that escrow with that flag. |
| AdminLaws.RequiredIsTruncated | contracts/escrow/src/lib.rs:7145-7159 | The encoded number of signatures is set exactly when it fits 32 bits, and otherwise its remainder. |
| AdminEffects.ExecutionDoes | contracts/escrow/src/lib.rs:1929-1967 | An execution succeeds exactly for a proposal that is open, in time and signed, whose action finds what it asks for. Then the target has joined or left the admins, the number of signatures is the one in the proposal, or the escrow in the data is released to its merchant or resolved for the flagged side; nothing else changes but the mark on the proposal. |
| AdminContract.AdminContract.InitializeCouncil | contracts/escrow/src/lib.rs:1595-1617 | The first admin, once. |
| AdminContract.AdminContract.AddNewAdmin | contracts/escrow/src/lib.rs:2033-2056 | Adds an admin unless listed; invariants kept. |
| AdminContract.AdminContract.RemoveOneAdmin | contracts/escrow/src/lib.rs:2112-2148 | Removes a listed admin, exactly for an admin while more are counted than required; invariants kept. |
| AdminContract.AdminContract.ProposeAction | contracts/escrow/src/lib.rs:1791-1853 | Stores the proposal with its action, target and data, approved by its proposer, under the numeral of the counter, open until the time limit of the council from now; succeeds exactly for an admin while the counter lasts. |
| AdminContract.AdminContract.ApproveAction | contracts/escrow/src/lib.rs:1867-1916 | Succeeds exactly for an admin who has not approved, while the proposal is open and in time; adds this approval and counts it. |
| AdminContract.AdminContract.RejectAction | contracts/escrow/src/lib.rs:1981-2019 | Closes an open proposal as rejected, exactly for an admin; invariants kept. |
| AdminContract.AdminContract.DispatchToConfig | contracts/escrow/src/lib.rs:7103-7176 | The actions on the council itself, with their errors. |
| AdminContract.AdminContract.DispatchToEscrow | contracts/escrow/src/lib.rs:6888-7102 | The actions on the escrow that the data names. |
| AdminContract.AdminContract.ExecuteAction | contracts/escrow/src/lib.rs:1929-1967 | Marks, dispatches, and undoes both when the action fails; succeeds exactly for a proposal that is open, in time and signed and whose action is possible, and leaves council and escrows as the action says. |
| AdminContract.AdminContract.DesignateSuccessor | contracts/escrow/src/lib.rs:2186-2237 | One open plan at a time, which the named successor can take up after the given delay; succeeds exactly for an admin and another, non-zero address. |
| AdminContract.AdminContract.ActivateSuccession | contracts/escrow/src/lib.rs:2250-2296 | The successor joins the admins once, exactly from the planned time on; invariants kept. |
| AdminContract.AdminContract.RevokeSuccession | contracts/escrow/src/lib.rs:2309-2333 | Withdraws a plan that is not activated, exactly for an admin; invariants kept. |
| Appeals.OneAppealPerEscrow | contracts/escrow/src/lib.rs:4914-5311 | In every reachable storage no two appeals are for one escrow; the round is initial, in appeal or final exactly as none was filed, the one filed is open, or it is resolved; the linear scan says the same as the round. |
| Appeals.FilingIff | contracts/escrow/src/lib.rs:4914-5026 | Filing succeeds exactly for a party of an escrow for which nobody ever appealed, in time; and never again afterwards. |
| Appeals.ClosedForGood | contracts/escrow/src/lib.rs:5059-5311 | An appeal is closed at most once; afterwards neither resolving, nor expiring, nor filing again goes through, in any later storage. |
| AppealsContract.AppealsContract.HasOpenAppeal | contracts/escrow/src/lib.rs:4956-4972 | The scan over all appeals finds an open one for the escrow exactly when there is one. |
| AppealsContract.ResolvingEffect | contracts/escrow/src/lib.rs:5059-5210 | Resolving an appeal succeeds exactly for an open one in favour of a party whose transfer is not refused; it is closed, the escrow becomes resolved, and the favoured party is paid the amount on top of what was paid before. |
| AppealsContract.AppealsContract.FileDisputeAppeal | contracts/escrow/src/lib.rs:4914-5026 | Succeeds exactly for a party of an escrow without an appeal, up to three days after the dispute began; files the appeal with a deadline in three days and moves the round. |
| AppealsContract.AppealsContract.ResolveAppealBy | contracts/escrow/src/lib.rs:5059-5210 | Closes the appeal, resolves the escrow and pays the favoured party its amount; a refused transfer is undone. |
| AppealsContract.AppealsContract.ExpireAppealBy | contracts/escrow/src/lib.rs:5234-5311 | Closes an open appeal past its deadline; status and payments of the escrow stay. |
| Analytics.SumCredit | contracts/escrow/src/lib.rs:10361-10395 | Crediting one account adds exactly the posted figures to the sum over all accounts. |
| AnalyticsLaws.PostKeepsIff | contracts/escrow/src/lib.rs:10361-10395 | A posting, with its separate additions to the global ledger and to those of customer and merchant, keeps the ledgers balanced if and only if the three additions agree. |
| AnalyticsLaws.PostingsEven | contracts/escrow/src/lib.rs:6978-7094 | Whatever a call posts, at each of the places where the source writes three additions out, creation (2790-2810) and batch creation (9814-9834), release (3716-3750) and batch release, dispute (3921-3945), resolution (4825-4847) and both proposals, the three agree. |
| AnalyticsLaws.DoubleEntry | contracts/escrow/src/lib.rs:10361-10395 | Over every run without a reset each of six figures of the global ledger is its sum over customers and its sum over merchants, on direct, batch, proposal and appeal paths and across changes of beneficiary. |
| AnalyticsLaws.ResetBreaksIff | contracts/escrow/src/lib.rs:7500-7517 | With resets customers and merchants still agree; the global ledger agrees with them exactly when there was nothing on the accounts at the last reset. |
| AnalyticsCounts.FiguresMatchRecords | contracts/escrow/src/lib.rs:2790-2810 | Over every run without a reset, with a running clock: created plus the number of conditional and vesting escrows is the escrow counter; the disputes are exactly the escrows with a time of dispute, and stay within those created if and only if no more escrows off the books are disputed than escrows on the books are not; no more is released than is settled, and with nothing off the books no more than was created; the value locked is that of the escrows on the books, off by exactly what insurance and swaps have changed since their creation. |
| AnalyticsCounts.ConditionalUncounted | contracts/escrow/src/lib.rs:3921-3945 | Concrete input: conditional escrows are not counted when created but are when disputed. |
| AnalyticsCounts.VestingUncounted | contracts/escrow/src/lib.rs:6081-6122 | Concrete input: a vesting escrow takes an id from the same counter and posts nothing, so with no conditional escrow one dispute or one release is counted and no creation. |
| AnalyticsEffects.StepAdds | contracts/escrow/src/lib.rs:10361-10395 | Each call adds to each customer's and to each merchant's account exactly the figures of its event if the account's owner is that party of the escrow, and nothing to any other account. |
| AnalyticsEffects.AccountsAreTheCalls | contracts/escrow/src/lib.rs:10361-10395 | Over every run, resets included: each account says exactly what the successful calls of the run have to say about the escrows its owner was the customer, or the merchant, of. |
| AnalyticsContract.AnalyticsContract.CreateEscrow | contracts/escrow/src/lib.rs:2651-2825 | Exactly when the creation succeeds, one creation and the amount are added to the global ledger and to those of its customer and its merchant, and to nobody else's. |
| AnalyticsContract.AnalyticsContract.CreateEscrowBatch | contracts/escrow/src/lib.rs:9650-9713 | Each account gains one creation and the amount for each entry that is created and names it, and nothing for a refused one. |
| AnalyticsContract.AnalyticsContract.CreateVestingEscrow | contracts/escrow/src/lib.rs:6039-6186 | Stores the record of a vesting escrow and counts nothing; its id is off the books. |
| AnalyticsContract.AnalyticsContract.DisputeEscrow | contracts/escrow/src/lib.rs:3839-3954 | Exactly when a dispute is opened, one is added globally and for both parties of the escrow, and for nobody else. |
| AnalyticsContract.AnalyticsContract.ResolveDisputedEscrow | contracts/escrow/src/lib.rs:4718-4857 | Exactly when a dispute is resolved, one resolution is added globally and for both parties, and for nobody else. |
| AnalyticsContract.AnalyticsContract.ExecuteResolveProposal | contracts/escrow/src/lib.rs:7021-7102 | So it is when a dispute is resolved by proposal. |
| AnalyticsContract.AnalyticsContract.ReleaseEscrow | contracts/escrow/src/lib.rs:3535-3761 | Exactly when a release succeeds, one release and the amount are added globally and for both parties, and for nobody else. |
| AnalyticsContract.AnalyticsContract.ExecuteReleaseProposal | contracts/escrow/src/lib.rs:6890-7020 | So it is when an escrow is released by proposal. |
| AnalyticsContract.AnalyticsContract.BatchReleaseEscrows | contracts/escrow/src/lib.rs:10266-10307 | Each account gains one release and the amount for each escrow of the batch that is released and of which its owner is a party, and nothing for one that fails. |
| AnalyticsContract.AnalyticsContract.ResolveDisputeAppeal | contracts/escrow/src/lib.rs:5059-5210 | Exactly when an appeal is resolved, one resolution is added globally and for both parties of its escrow. |
| AnalyticsContract.AnalyticsContract.TransferEscrowBeneficiary | contracts/escrow/src/lib.rs:9176-9251 | Puts the new merchant into the record, exactly unless it is disputed or resolved or the merchant stays; nothing is moved between the ledgers. |
| AnalyticsContract.AnalyticsContract.OptIntoInsurance | contracts/escrow/src/lib.rs:8361-8395 | Takes the premium, the given ten thousandths of the amount, off the amount of a locked escrow and counts nothing. |
| AnalyticsContract.AnalyticsContract.ExecuteEscrowSwap | contracts/escrow/src/lib.rs:10887-10949 | Exchanges the amount of a locked escrow at the given rate, exactly when that gives the minimum, and counts nothing. |
| AnalyticsContract.AnalyticsContract.ExecuteClawback | contracts/escrow/src/lib.rs:2451-2499 | Pays the amount to the admin on top of earlier payments and resolves the record whatever its status, exactly when the transfer moves, and counts nothing. |
| AnalyticsContract.AnalyticsContract.ResetAnalytics | contracts/escrow/src/lib.rs:7500-7517 | Clears the global ledger and no other. |

## Left out

- LifecycleLaws.SettledAtMostOnce: appeals, clawbacks, sub-account releases, vesting payouts and changes of beneficiary are not among its calls, because the source pays or changes independently of the main settlement there; `AppealPayments.OnlyAnAppealPaysAgain` adds the appeals.
- LifecycleLaws.StepKeeps: is about the calls of the single-escrow machine; appeals, clawbacks, milestones, insurance, swaps, renewals and changes of beneficiary rewrite the same records and are not among them.
- LifecycleLaws.ReachableSound: the same calls are left out.
- Settlement.SettledInFull: the same calls are left out; `AppealPayments.PaidTwiceIffSettledBefore` and `VestingPayouts.PaidOutIs` say what appeals and milestones add.
- AppealPayments.OnlyAnAppealPaysAgain: is about runs of escrow calls and appeals; a clawback pays an admin and is not among them.
- VestingPayouts.WithinAmountIff: appeals, clawbacks, insurance and swaps are not among its calls.
- JointAccount.JointSolventIff: the token of a single escrow stays what it was at creation; swaps are not among its calls.
- LifecycleContract.EscrowContract.DisputeEscrow: does not model the collateral that the caller may have to deposit.
- LifecycleContract.EscrowContract.ResolveDisputedEscrow: does not model the distribution of dispute collateral.
- AppealsContract.AppealsContract.ResolveAppealBy: does not model the distribution of dispute collateral.
- HierarchySearch.ReleasedAfterDescendants: appeals and changes of beneficiary, which can alter a settled record later, are not among the later calls.
- AnalyticsCounts.FiguresMatchRecords: assumes that the ledger clock shows more than zero, because a dispute opened at zero leaves the same record as none.
- VestingLaws.MilestoneLedger: milestones must be supplied unreleased with amounts that are not negative, because the source stores the caller's flags and amounts unchecked.
- Events, authentication, error codes and the XDR and address encodings of the host.
- Real token, oracle, swap and foreign contract calls; accumulated fees and their withdrawal.
- The average duration and the dispute rate in the analytics, which are derived from the counted figures.
- Creation from templates, timelocked release queues and creation with release signers: they end in the creation and release that are modelled.
- Renewal (`extend_escrow_expiry`, lines 10035-10143), which rewrites the expiry and the activity time of a locked record.
- Timelocked releases post to the ledgers through the same internal release; only the release itself is modelled.
- Dispute collateral, reputation, tenure bonuses, evidence commitments and deadlines, and the record kept of an appeal for audit.
- The requests, delays and configurations of clawbacks, swaps and insurance, whose effect on a record is modelled; insurance claims; observers, sub-accounts, pausing, migration, health classification and plain getters.
- Customer and merchant lists: appending to them adds nothing that is hard.
- The admin contract and the payment contract are not part of this model.
- Machine overflow of sums and products, apart from the places named above.
