/** The single-escrow state machine: what each entry point does to the stored records, to the
    escalation queue and to the record of payments, as functions on the whole storage.

    A function named after an internal helper returns the storage as the helper leaves it, also
    when it ends in an error; `Commit` is the roll-back of a failing top-level call. */
module Lifecycle {
  import opened Common
  import opened EscalationQueue
  import Vesting

  datatype Favor = FavorCustomer | FavorMerchant | SplitEqual

  datatype Escrow = Escrow(
    customer: Address,
    merchant: Address,
    amount: int,
    status: Status,
    createdAt: nat,
    releaseTimestamp: nat,
    disputeStartedAt: nat,
    lastActivityAt: nat,
    escalationLevel: nat,
    minHoldPeriod: nat,
    feeBps: int,
    expiryTimestamp: nat,
    escalatedAt: Option<nat>,
    escalationTimeout: nat,
    favor: Favor)

  /** Which of the transfers of one settlement a payment is. */
  datatype Leg = Fee | Principal | OtherHalf

  datatype Payment = Payment(leg: Leg, to: Address, amount: int)

  /** How the token behind an address answers a transfer: it is no token contract and the call
      is skipped, the money moves, or the transfer fails. */
  datatype Reply = Synthetic | Moved | Refused

  /** The answers met during one call; nothing is assumed about them. */
  type Net = (nat, Leg) -> Reply

  /** `evaluated` and `result` of a conditional escrow. */
  datatype Condition = Condition(evaluated: bool, result: bool)

  /** The storage. `scheduled` holds the ids for which a vesting schedule is stored. */
  datatype State = State(
    escrows: map<nat, Escrow>,
    counter: nat,
    paid: map<nat, seq<Payment>>,
    conditions: map<nat, Condition>,
    scheduled: set<nat>,
    queue: Queue,
    now: nat)

  datatype Outcome = Outcome(state: State, result: Result<()>)

  const INITIAL := State(map[], 0, map[], map[], {}, EMPTY, 0)

  function Commit(s: State, o: Outcome): State {
    if o.result.Ok? then o.state else s
  }

  function Fail(s: State, e: Error): Outcome {
    Outcome(s, Err(e))
  }

  // ----- Settling -----

  /** Makes the payments in order until one is refused; a refused payment is not recorded. */
  function Pay(log: seq<Payment>, legs: seq<Payment>, id: nat, net: Net): (seq<Payment>, bool)
    decreases legs
  {
    if legs == [] then (log, true)
    else match net(id, legs[0].leg)
      case Refused => (log, false)
      case Synthetic => Pay(log, legs[1..], id, net)
      case Moved => Pay(log + [legs[0]], legs[1..], id, net)
  }

  /** The payments made so far for an escrow. */
  function PaidFor(s: State, id: nat): seq<Payment> {
    if id in s.paid then s.paid[id] else []
  }

  /** Stores the final status, then pays. */
  function Settle(s: State, id: nat, status: Status, legs: seq<Payment>, net: Net): Outcome
    requires id in s.escrows
  {
    var (log, ok) := Pay(PaidFor(s, id), legs, id, net);
    Outcome(s.(escrows := s.escrows[id := s.escrows[id].(status := status)], paid := s.paid[id := log]),
            if ok then Ok(()) else Err(InvalidStatus))
  }

  /** The platform fee of a released escrow. */
  function FeeOf(amount: int, feeBps: int): int {
    TruncDiv(amount * feeBps, 10000)
  }

  /** Fee, when positive, then the rest. */
  function FeeLegs(e: Escrow, recipient: Address, feeRecipient: Address): seq<Payment> {
    var fee := FeeOf(e.amount, e.feeBps);
    (if fee > 0 then [Payment(Fee, feeRecipient, fee)] else []) + [Payment(Principal, recipient, e.amount - fee)]
  }

  function TimeoutStatus(favor: Favor): Status {
    if favor == FavorMerchant then Released else Resolved
  }

  function TimeoutLegs(e: Escrow): seq<Payment> {
    match e.favor
    case FavorCustomer => [Payment(Principal, e.customer, e.amount)]
    case FavorMerchant => [Payment(Principal, e.merchant, e.amount)]
    case SplitEqual =>
      var half := TruncDiv(e.amount, 2);
      [Payment(Principal, e.customer, half), Payment(OtherHalf, e.merchant, e.amount - half)]
  }

  function DisputeStatus(toMerchant: bool): Status {
    if toMerchant then Released else Resolved
  }

  function DisputeLegs(e: Escrow, toMerchant: bool): seq<Payment> {
    [Payment(Principal, if toMerchant then e.merchant else e.customer, e.amount)]
  }

  // ----- Creation -----

  /** The terms of a new escrow, with the fee and escalation settings in force. */
  datatype Terms = Terms(
    customer: Address, merchant: Address, amount: int, feeBps: int,
    releaseTimestamp: nat, minHoldPeriod: nat, expiryTimestamp: nat,
    escalationTimeout: nat, favor: Favor)

  function NewEscrow(t: Terms, now: nat): Escrow {
    Escrow(t.customer, t.merchant, t.amount, Locked, now, t.releaseTimestamp, 0, now, 0,
           t.minHoldPeriod, t.feeBps, t.expiryTimestamp, None, t.escalationTimeout, t.favor)
  }

  function Stored(s: State, t: Terms): State {
    var id := s.counter + 1;
    s.(escrows := s.escrows[id := NewEscrow(t, s.now)], counter := id, paid := s.paid[id := []])
  }

  function Create(s: State, t: Terms): Outcome {
    if t.expiryTimestamp != 0 && t.expiryTimestamp <= t.releaseTimestamp then Fail(s, ExpiryBeforeRelease)
    else if t.expiryTimestamp != 0 && t.expiryTimestamp <= SaturatingAdd(s.now, t.minHoldPeriod) then
      Fail(s, EscrowAlreadyExpired)
    else Outcome(Stored(s, t), Ok(()))
  }

  /** A conditional escrow never reaches its release time by itself. */
  function ConditionalTerms(customer: Address, merchant: Address, amount: int, feeBps: int): Terms {
    Terms(customer, merchant, amount, feeBps, U64_MAX, 0, 0, 604800, FavorCustomer)
  }

  function CreateConditional(s: State, customer: Address, merchant: Address, amount: int, feeBps: int): Outcome {
    var s' := Stored(s, ConditionalTerms(customer, merchant, amount, feeBps));
    Outcome(s'.(conditions := s'.conditions[s'.counter := Condition(false, false)]), Ok(()))
  }

  /** The record beside a vesting schedule: locked until the schedule ends. */
  function VestingTerms(customer: Address, merchant: Address, amount: int, feeBps: int, end: nat): Terms {
    Terms(customer, merchant, amount, feeBps, end, 0, 0, 604800, FavorCustomer)
  }

  function CreateVesting(s: State, customer: Address, merchant: Address, amount: int, feeBps: int, cliff: nat, end: nat,
                         milestones: seq<Vesting.Milestone>): Outcome
  {
    if !Vesting.Admissible(s.now, amount, cliff, end, milestones) then Fail(s, InvalidVestingSchedule)
    else
      var s' := Stored(s, VestingTerms(customer, merchant, amount, feeBps, end));
      Outcome(s'.(scheduled := s'.scheduled + {s'.counter}), Ok(()))
  }

  /** One entry of a batch of new escrows. */
  datatype BatchEntry = BatchEntry(customer: Address, merchant: Address, amount: int, releaseTimestamp: nat)

  /** A batch charges no fee and knows neither hold nor expiry. */
  function BatchTerms(e: BatchEntry): Terms {
    Terms(e.customer, e.merchant, e.amount, 0, e.releaseTimestamp, 0, 0, 604800, FavorCustomer)
  }

  function CreateEntry(s: State, e: BatchEntry): Outcome {
    if e.amount <= 0 then Fail(s, InvalidStatus)
    else if e.releaseTimestamp <= s.now then Fail(s, ReleaseNotYetAvailable)
    else Outcome(Stored(s, BatchTerms(e)), Ok(()))
  }

  /** Creates one after the other; an entry that is refused leaves no trace. */
  function CreateAll(s: State, entries: seq<BatchEntry>): (State, seq<Result<nat>>)
    decreases |entries|
  {
    if entries == [] then (s, [])
    else
      var last := |entries| - 1;
      var (s1, results) := CreateAll(s, entries[..last]);
      var o := CreateEntry(s1, entries[last]);
      (o.state, results + [if o.result.Ok? then Ok(o.state.counter) else Err(o.result.error)])
  }

  // ----- Dispute -----

  function Dispute(s: State, caller: Address, id: nat): Outcome {
    if id !in s.escrows then Fail(s, NotFound)
    else
      var e := s.escrows[id];
      if caller != e.customer && caller != e.merchant then Fail(s, Unauthorized)
      else if !e.status.Locked? then Fail(s, AlreadyProcessed)
      else
        var e' := e.(status := Disputed, disputeStartedAt := s.now, lastActivityAt := s.now);
        Outcome(s.(escrows := s.escrows[id := e']), Ok(()))
  }

  function Escalate(s: State, caller: Address, id: nat): Outcome {
    if id !in s.escrows then Fail(s, NotFound)
    else
      var e := s.escrows[id];
      if !e.status.Disputed? then Fail(s, NotDisputed)
      else if caller != e.customer && caller != e.merchant then Fail(s, Unauthorized)
      else
        var e' := e.(escalationLevel := SaturatingAdd(e.escalationLevel, 1), escalatedAt := Some(s.now), lastActivityAt := s.now);
        Outcome(s.(escrows := s.escrows[id := e'],
                   queue := Enqueued(s.queue, id, SaturatingAdd(s.now, e.escalationTimeout))), Ok(()))
  }

  /** The evidence decides, nothing is transferred and the queue is left alone. */
  function AutoResolve(s: State, id: nat, toMerchant: bool): Outcome {
    if id !in s.escrows then Fail(s, NotFound)
    else
      var e := s.escrows[id];
      var last := if e.lastActivityAt == 0 then e.disputeStartedAt else e.lastActivityAt;
      if !e.status.Disputed? then Fail(s, NotDisputed)
      else if SaturatingSub(s.now, last) < 500 then Fail(s, TimeoutNotReached)
      else Outcome(s.(escrows := s.escrows[id := e.(status := DisputeStatus(toMerchant))]), Ok(()))
  }

  /** Why a timeout resolution would be turned down, if it would. */
  function TimeoutObstacle(s: State, id: nat): Option<Error> {
    if id !in s.escrows then Some(NotFound)
    else
      var e := s.escrows[id];
      if !e.status.Disputed? then Some(NotDisputed)
      else if e.escalatedAt.None? then Some(InvalidStatus)
      else if SaturatingSub(s.now, e.escalatedAt.value) < e.escalationTimeout then Some(TimeoutNotReached)
      else None
  }

  /** The escrow leaves the queue only when every transfer went through. */
  function Trigger(s: State, id: nat, net: Net): Outcome
  {
    var obstacle := TimeoutObstacle(s, id);
    if obstacle.Some? then Fail(s, obstacle.value)
    else
      var e := s.escrows[id];
      var o := Settle(s, id, TimeoutStatus(e.favor), TimeoutLegs(e), net);
      if o.result.Err? then o else o.(state := o.state.(queue := Dequeued(s.queue, id)))
  }

  /** Triggers one entry after the other, oldest deadline first, until the limit is reached or
      the rest is not due; errors are swallowed together with what the failing call had stored. */
  function Walk(s: State, es: seq<Entry>, limit: nat, done: nat, net: Net): (State, nat)
    decreases |es|
  {
    if es == [] || es[0].deadline > s.now || done >= limit then (s, done)
    else
      var o := Trigger(s, es[0].id, net);
      Walk(o.state, es[1..], limit, if o.result.Ok? then done + 1 else done, net)
  }

  function Process(s: State, limit: nat, net: Net): (State, nat)
  {
    Walk(s, Entries(s.queue), limit, 0, net)
  }

  function ResolveDispute(s: State, id: nat, toMerchant: bool, net: Net): Outcome
  {
    if id !in s.escrows then Fail(s, NotFound)
    else if !s.escrows[id].status.Disputed? then Fail(s, NotDisputed)
    else
      var o := Settle(s, id, DisputeStatus(toMerchant), DisputeLegs(s.escrows[id], toMerchant), net);
      o.(state := o.state.(queue := Dequeued(s.queue, id)))
  }

  /** The admin-proposal path does not take the escrow out of the queue. */
  function DispatchResolve(s: State, id: nat, toMerchant: bool, net: Net): Outcome
  {
    if id !in s.escrows then Fail(s, NotFound)
    else if !s.escrows[id].status.Disputed? then Fail(s, NotDisputed)
    else Settle(s, id, DisputeStatus(toMerchant), DisputeLegs(s.escrows[id], toMerchant), net)
  }

  // ----- Release, refund, expiry -----

  /** What the escrow's children, sub-accounts and release signers allow. */
  datatype Gate = Gate(childrenSettled: bool, subAccountsReleased: bool, approvalsMet: bool)

  /** The status and time checks of both release paths. */
  function ReleaseObstacle(s: State, id: nat, early: bool): Option<Error>
    requires id in s.escrows
  {
    var e := s.escrows[id];
    match e.status
    case Locked =>
      if !early && s.now < e.releaseTimestamp then Some(ReleaseNotYetAvailable)
      else if !early && s.now < e.createdAt + e.minHoldPeriod then Some(ReleaseOnHoldPeriod)
      else None
    case Disputed => Some(InvalidStatus)
    case _ => Some(AlreadyProcessed)
  }

  function Release(s: State, id: nat, early: bool, recipient: Option<Address>, gate: Gate,
                   feeRecipient: Address, net: Net): Outcome
  {
    if id !in s.escrows then Fail(s, NotFound)
    else if !gate.childrenSettled then Fail(s, ChildrenNotResolved)
    else if !gate.subAccountsReleased then Fail(s, InvalidStatus)
    else
      var obstacle := ReleaseObstacle(s, id, early);
      if obstacle.Some? then Fail(s, obstacle.value)
      else if !gate.approvalsMet then Fail(s, ApprovalsThresholdNotMet)
      else
        var to := if recipient.Some? then recipient.value else s.escrows[id].merchant;
        Settle(s, id, Released, FeeLegs(s.escrows[id], to, feeRecipient), net)
  }

  /** Releases one after the other; a failure is recorded with its error, not rolled back.
      `gates(i)` is what the gate says when the turn of the `i`-th escrow comes. */
  function ReleaseAll(s: State, ids: seq<nat>, recipient: Option<Address>, gates: nat -> Gate,
                      feeRecipient: Address, net: Net): (State, seq<nat>, seq<nat>, seq<Error>)
    decreases |ids|
  {
    if ids == [] then (s, [], [], [])
    else
      var last := |ids| - 1;
      var (s1, succeeded, failed, errors) := ReleaseAll(s, ids[..last], recipient, gates, feeRecipient, net);
      var o := Release(s1, ids[last], false, recipient, gates(last), feeRecipient, net);
      if o.result.Ok? then (o.state, succeeded + [ids[last]], failed, errors)
      else (o.state, succeeded, failed + [ids[last]], errors + [o.result.error])
  }

  function DispatchRelease(s: State, id: nat, early: bool, feeRecipient: Address, net: Net): Outcome
  {
    if id !in s.escrows then Fail(s, NotFound)
    else
      var obstacle := ReleaseObstacle(s, id, early);
      if obstacle.Some? then Fail(s, obstacle.value)
      else Settle(s, id, Released, FeeLegs(s.escrows[id], s.escrows[id].merchant, feeRecipient), net)
  }

  function Refund(s: State, caller: Address, id: nat, net: Net): Outcome
  {
    if id !in s.escrows then Fail(s, NotFound)
    else
      var e := s.escrows[id];
      if e.customer != caller && e.merchant != caller then Fail(s, Unauthorized)
      else if !e.status.Locked? && !e.status.Disputed? then Fail(s, AlreadyProcessed)
      else if e.status.Locked? && s.now < e.createdAt + e.minHoldPeriod then Fail(s, ReleaseOnHoldPeriod)
      else Settle(s, id, Resolved, [Payment(Principal, e.customer, e.amount)], net)
  }

  /** The watchdog configuration in force. */
  datatype Watchdog = Watchdog(enabled: bool, inactivitySeconds: nat, favorCustomer: bool)

  function WatchdogRelease(s: State, id: nat, w: Watchdog, net: Net): Outcome
  {
    if !w.enabled || id !in s.escrows || !s.escrows[id].status.Locked?
       || s.now < s.escrows[id].releaseTimestamp + w.inactivitySeconds then Fail(s, NotReady)
    else Settle(s, id, DisputeStatus(!w.favorCustomer), DisputeLegs(s.escrows[id], !w.favorCustomer), net)
  }

  function Evaluate(s: State, id: nat, met: bool, feeRecipient: Address, net: Net): Outcome
  {
    if id !in s.conditions then Fail(s, ConditionalEscrowNotFound)
    else if s.conditions[id].evaluated then Fail(s, ConditionAlreadyEvaluated)
    else if id !in s.escrows then Fail(s, NotFound)
    else if !s.escrows[id].status.Locked? then Fail(s, InvalidStatus)
    else
      var s' := s.(conditions := s.conditions[id := Condition(true, met)]);
      if met then Settle(s', id, Released, FeeLegs(s.escrows[id], s.escrows[id].merchant, feeRecipient), net)
      else Outcome(s', Ok(()))
  }

  function Expire(s: State, id: nat, net: Net): Outcome
  {
    if id !in s.escrows then Fail(s, NotFound)
    else
      var e := s.escrows[id];
      if e.status.Disputed? then Fail(s, InvalidStatus)
      else if !e.status.Locked? then Fail(s, EscrowAlreadyExpired)
      else if e.expiryTimestamp == 0 || s.now < e.expiryTimestamp then Fail(s, EscrowNotExpired)
      else Settle(s, id, Cancelled, [Payment(Principal, e.customer, e.amount)], net)
  }
}
