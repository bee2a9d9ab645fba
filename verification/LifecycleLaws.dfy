/** What every run of the single-escrow state machine keeps: the queue agrees with the records,
    an escrow is settled at most once, and it is never paid out beyond its amount. */
module LifecycleLaws {
  import opened Common
  import opened EscalationQueue
  import opened Lifecycle
  import Vesting

  // ----- Runs -----

  datatype Op =
    | Creating(terms: Terms)
    | CreatingConditional(customer: Address, merchant: Address, amount: int, feeBps: int)
    | CreatingVesting(customer: Address, merchant: Address, amount: int, feeBps: int, cliff: nat, end: nat,
                      milestones: seq<Vesting.Milestone>)
    | CreatingBatch(entries: seq<BatchEntry>, limit: nat)
    | Disputing(caller: Address, id: nat)
    | Escalating(caller: Address, id: nat)
    | AutoResolving(id: nat, toMerchant: bool)
    | Triggering(id: nat)
    | Processing(limit: nat)
    | Resolving(id: nat, toMerchant: bool)
    | DispatchingResolve(id: nat, toMerchant: bool)
    | Releasing(id: nat, early: bool, recipient: Option<Address>, gate: Gate, feeRecipient: Address)
    | BatchReleasing(ids: seq<nat>, recipient: Option<Address>, gates: nat -> Gate, feeRecipient: Address)
    | DispatchingRelease(id: nat, early: bool, feeRecipient: Address)
    | Refunding(caller: Address, id: nat)
    | WatchdogReleasing(id: nat, watchdog: Watchdog)
    | Evaluating(id: nat, met: bool, feeRecipient: Address)
    | Expiring(id: nat)
    | Ticking(seconds: nat)

  predicate CreationOp(op: Op) {
    op.Creating? || op.CreatingConditional? || op.CreatingVesting? || op.CreatingBatch?
  }

  /** A top-level call and the answers its transfers met. */
  datatype Call = Call(op: Op, net: Net)

  /** The storage after one top-level call; a failing call leaves it as it was. */
  function Step(s: State, c: Call): State {
    match c.op
    case Creating(t) => Commit(s, Create(s, t))
    case CreatingConditional(cu, m, a, f) => Commit(s, CreateConditional(s, cu, m, a, f))
    case CreatingVesting(cu, m, a, f, cliff, end, ms) => Commit(s, CreateVesting(s, cu, m, a, f, cliff, end, ms))
    case CreatingBatch(entries, limit) => if |entries| > limit then s else CreateAll(s, entries).0
    case Disputing(caller, id) => Commit(s, Dispute(s, caller, id))
    case Escalating(caller, id) => Commit(s, Escalate(s, caller, id))
    case AutoResolving(id, m) => Commit(s, AutoResolve(s, id, m))
    case Triggering(id) => Commit(s, Trigger(s, id, c.net))
    case Processing(limit) => Process(s, limit, c.net).0
    case Resolving(id, m) => Commit(s, ResolveDispute(s, id, m, c.net))
    case DispatchingResolve(id, m) => Commit(s, DispatchResolve(s, id, m, c.net))
    case Releasing(id, early, to, gate, fr) => Commit(s, Release(s, id, early, to, gate, fr, c.net))
    case BatchReleasing(ids, to, gates, fr) => if |ids| > 20 then s else ReleaseAll(s, ids, to, gates, fr, c.net).0
    case DispatchingRelease(id, early, fr) => Commit(s, DispatchRelease(s, id, early, fr, c.net))
    case Refunding(caller, id) => Commit(s, Refund(s, caller, id, c.net))
    case WatchdogReleasing(id, w) => Commit(s, WatchdogRelease(s, id, w, c.net))
    case Evaluating(id, met, fr) => Commit(s, Evaluate(s, id, met, fr, c.net))
    case Expiring(id) => Commit(s, Expire(s, id, c.net))
    case Ticking(seconds) => s.(now := SaturatingAdd(s.now, seconds))
  }

  function Run(s: State, calls: seq<Call>): State
    decreases |calls|
  {
    if calls == [] then s else Run(Step(s, calls[0]), calls[1..])
  }

  // ----- Invariants -----

  function Rank(status: Status): nat {
    match status
    case Locked => 0
    case Disputed => 1
    case _ => 2
  }

  predicate Settled(e: Escrow) {
    Rank(e.status) == 2
  }

  function Total(log: seq<Payment>): int {
    if log == [] then 0 else Total(log[..|log| - 1]) + log[|log| - 1].amount
  }

  /** Ordinary money: a non-negative principal and a fee rate between nothing and all of it. */
  predicate Sane(e: Escrow) {
    e.amount >= 0 && 0 <= e.feeBps <= 10000
  }

  /** The queue and the records tell the same story: every escalated dispute is queued, and what
      is queued is filed at the deadline its record implies. */
  ghost predicate QueueLive(s: State) {
    && (forall id :: id in s.escrows && s.escrows[id].status.Disputed? && s.escrows[id].escalatedAt.Some?
          ==> id in s.queue.deadlineOf)
    && (forall id :: id in s.queue.deadlineOf ==>
          && id in s.escrows && s.escrows[id].escalatedAt.Some?
          && s.queue.deadlineOf[id] == SaturatingAdd(s.escrows[id].escalatedAt.value, s.escrows[id].escalationTimeout))
  }

  ghost predicate RecordsSound(s: State) {
    && s.paid.Keys == s.escrows.Keys
    && s.now <= U64_MAX
    && (forall id :: id in s.escrows ==>
          && id <= s.counter
          && (s.escrows[id].escalatedAt.Some? ==> s.escrows[id].escalatedAt.value <= s.now)
          && (s.escrows[id].status.Locked? ==> s.escrows[id].escalatedAt.None?)
          && (!Settled(s.escrows[id]) ==> s.paid[id] == []))
  }

  ghost predicate Inv(s: State) {
    RecordsSound(s) && QueueLive(s) && WellFormed(s.queue)
  }

  /** No escrow with ordinary money has been paid out beyond its amount. */
  ghost predicate Accounted(s: State) {
    forall id :: id in s.escrows && Sane(s.escrows[id]) ==> Total(PaidFor(s, id)) <= s.escrows[id].amount
  }

  /** One escrow may move forward, and is paid for only as it settles; after that it is fixed. */
  ghost predicate EscrowStep(e: Escrow, log: seq<Payment>, e': Escrow, log': seq<Payment>) {
    && e'.amount == e.amount && e'.feeBps == e.feeBps
    && Rank(e.status) <= Rank(e'.status)
    && (Settled(e) ==> e' == e && log' == log)
    && (!Settled(e') ==> log' == log)
  }

  ghost predicate Advance(s: State, s': State) {
    && s.now <= s'.now
    && (forall id :: id in s.escrows ==>
          id in s'.escrows && EscrowStep(s.escrows[id], PaidFor(s, id), s'.escrows[id], PaidFor(s', id)))
  }

  /** What one (inner or top-level) call keeps. */
  ghost predicate Keeps(s: State, s': State) {
    Inv(s') && Advance(s, s') && (Accounted(s) ==> Accounted(s'))
  }

  /** Every transfer for this escrow goes through and moves money. */
  ghost predicate MovesFor(net: Net, id: nat) {
    forall leg :: net(id, leg).Moved?
  }

  lemma KeepsReflexive(s: State)
    requires Inv(s)
    ensures Keeps(s, s)
  {}

  lemma KeepsTransitive(a: State, b: State, c: State)
    requires Keeps(a, b) && Keeps(b, c)
    ensures Keeps(a, c)
  {
    forall id | id in a.escrows
      ensures id in c.escrows && EscrowStep(a.escrows[id], PaidFor(a, id), c.escrows[id], PaidFor(c, id))
    {
      assert id in b.escrows;
    }
  }

  // ----- Payments -----

  lemma {:induction false} TotalAppend(log: seq<Payment>, legs: seq<Payment>)
    ensures Total(log + legs) == Total(log) + Total(legs)
  {
    if legs == [] {
      assert log + legs == log;
    } else {
      var n := |legs| - 1;
      assert (log + legs)[..|log| + n] == log + legs[..n];
      TotalAppend(log, legs[..n]);
    }
  }

  /** Payments add at most the total of the legs. */
  lemma {:induction false} PayTotals(log: seq<Payment>, legs: seq<Payment>, id: nat, net: Net)
    requires forall i :: 0 <= i < |legs| ==> legs[i].amount >= 0
    ensures Total(Pay(log, legs, id, net).0) <= Total(log) + Total(legs)
    decreases legs
  {
    if legs != [] {
      assert legs == [legs[0]] + legs[1..];
      TotalAppend([legs[0]], legs[1..]);
      TotalAppend(log, [legs[0]]);
      assert [legs[0]][..0] == [];
      TotalNonNegative(legs[1..]);
      PayTotals(log, legs[1..], id, net);
      PayTotals(log + [legs[0]], legs[1..], id, net);
    }
  }

  lemma {:induction false} TotalNonNegative(legs: seq<Payment>)
    requires forall i :: 0 <= i < |legs| ==> legs[i].amount >= 0
    ensures Total(legs) >= 0
  {
    if legs != [] {
      TotalNonNegative(legs[..|legs| - 1]);
    }
  }

  lemma {:induction false} PayMoves(log: seq<Payment>, legs: seq<Payment>, id: nat, net: Net)
    requires MovesFor(net, id)
    ensures Pay(log, legs, id, net) == (log + legs, true)
    decreases legs
  {
    if legs == [] {
      assert log + legs == log;
    } else {
      PayMoves(log + [legs[0]], legs[1..], id, net);
      assert log + [legs[0]] + legs[1..] == log + legs;
    }
  }

  /** A plan of payments that hands out the principal, no more and in non-negative pieces. */
  ghost predicate FullPlan(legs: seq<Payment>, amount: int) {
    Total(legs) == amount && forall i :: 0 <= i < |legs| ==> legs[i].amount >= 0
  }

  lemma SingleTotal(p: Payment)
    ensures Total([p]) == p.amount
  {
    assert [p][..0] == [];
  }

  lemma PairTotal(p: Payment, q: Payment)
    ensures Total([p, q]) == p.amount + q.amount
  {
    assert [p, q][..1] == [p];
    SingleTotal(p);
  }

  lemma FeeRange(amount: int, feeBps: int)
    requires amount >= 0 && 0 <= feeBps <= 10000
    ensures 0 <= FeeOf(amount, feeBps) <= amount
  {
    assert 0 <= amount * feeBps <= amount * 10000;
  }

  lemma FeePlan(e: Escrow, to: Address, feeRecipient: Address)
    requires Sane(e)
    ensures FullPlan(FeeLegs(e, to, feeRecipient), e.amount)
  {
    FeeRange(e.amount, e.feeBps);
    FeeLegsTotal(e, to, feeRecipient);
  }

  lemma FeeLegsTotal(e: Escrow, to: Address, feeRecipient: Address)
    ensures Total(FeeLegs(e, to, feeRecipient)) ==
            if FeeOf(e.amount, e.feeBps) >= 0 then e.amount else e.amount - FeeOf(e.amount, e.feeBps)
  {
    var fee := FeeOf(e.amount, e.feeBps);
    var rest := Payment(Principal, to, e.amount - fee);
    SingleTotal(rest);
    PairTotal(Payment(Fee, feeRecipient, fee), rest);
    assert fee > 0 ==> FeeLegs(e, to, feeRecipient) == [Payment(Fee, feeRecipient, fee), rest];
    assert fee <= 0 ==> FeeLegs(e, to, feeRecipient) == [rest];
  }

  /** Nothing checks the fee rate when it is stored. For any amount and rate, a release whose
      transfers all go through pays out exactly the amount if and only if the product of amount
      and rate stays above minus one unit of fee; otherwise it pays out more. */
  lemma ReleasePaysExactlyIff(e: Escrow, to: Address, feeRecipient: Address, id: nat, net: Net)
    requires MovesFor(net, id)
    ensures var log := Pay([], FeeLegs(e, to, feeRecipient), id, net).0;
            && (Total(log) == e.amount <==> e.amount * e.feeBps > -10000)
            && Total(log) >= e.amount
  {
    PayMoves([], FeeLegs(e, to, feeRecipient), id, net);
    assert [] + FeeLegs(e, to, feeRecipient) == FeeLegs(e, to, feeRecipient);
    FeeLegsTotal(e, to, feeRecipient);
  }

  /** Both halves of an equal split together are the amount, whatever its parity. */
  lemma TimeoutPlan(e: Escrow)
    ensures Total(TimeoutLegs(e)) == e.amount
    ensures e.amount >= 0 ==> FullPlan(TimeoutLegs(e), e.amount)
  {
    var half := TruncDiv(e.amount, 2);
    SingleTotal(Payment(Principal, e.customer, e.amount));
    SingleTotal(Payment(Principal, e.merchant, e.amount));
    PairTotal(Payment(Principal, e.customer, half), Payment(OtherHalf, e.merchant, e.amount - half));
  }

  // ----- One escrow changes -----

  lemma SingleQueue(s: State, s': State, id: nat, e': Escrow)
    requires QueueLive(s) && WellFormed(s.queue) && id in s.escrows
    requires s'.escrows == s.escrows[id := e']
    requires s'.queue == s.queue || (s'.queue == Dequeued(s.queue, id) && !e'.status.Disputed?)
    requires e'.escalatedAt == s.escrows[id].escalatedAt && e'.escalationTimeout == s.escrows[id].escalationTimeout
    requires e'.status.Disputed? && e'.escalatedAt.Some? ==> s.escrows[id].status.Disputed?
    ensures QueueLive(s') && WellFormed(s'.queue)
  {
    DequeuedWellFormed(s.queue, id);
  }

  lemma SingleRecords(s: State, s': State, id: nat, e': Escrow, log': seq<Payment>)
    requires RecordsSound(s) && id in s.escrows
    requires s'.escrows == s.escrows[id := e'] && s'.paid == s.paid[id := log'] && s'.counter == s.counter && s'.now == s.now
    requires EscrowStep(s.escrows[id], s.paid[id], e', log')
    requires e'.escalatedAt == s.escrows[id].escalatedAt
    ensures RecordsSound(s') && Advance(s, s')
  {
    assert forall x :: x in s.escrows && x != id ==> s'.escrows[x] == s.escrows[x] && s'.paid[x] == s.paid[x];
  }

  /** A change of a single record, with the queue left alone or rid of the settled escrow. */
  lemma SingleChange(s: State, s': State, id: nat, e': Escrow, log': seq<Payment>)
    requires Inv(s) && id in s.escrows
    requires s' == s.(escrows := s.escrows[id := e'], paid := s.paid[id := log'], queue := s'.queue, conditions := s'.conditions)
    requires s'.queue == s.queue || (s'.queue == Dequeued(s.queue, id) && Settled(e'))
    requires EscrowStep(s.escrows[id], s.paid[id], e', log')
    requires e'.escalatedAt == s.escrows[id].escalatedAt && e'.escalationTimeout == s.escrows[id].escalationTimeout
    requires e'.status.Disputed? && e'.escalatedAt.Some? ==> s.escrows[id].status.Disputed?
    ensures Inv(s') && Advance(s, s')
  {
    SingleQueue(s, s', id, e');
    SingleRecords(s, s', id, e', log');
  }

  /** The account of one settlement. */
  lemma SettleMoney(e: Escrow, legs: seq<Payment>, id: nat, net: Net)
    requires Sane(e) ==> FullPlan(legs, e.amount)
    ensures Sane(e) ==> Total(Pay([], legs, id, net).0) <= e.amount
  {
    if Sane(e) {
      PayTotals([], legs, id, net);
    }
  }

  lemma SettleKeeps(s: State, id: nat, status: Status, legs: seq<Payment>, net: Net, s': State)
    requires Inv(s) && id in s.escrows && !Settled(s.escrows[id]) && Rank(status) == 2
    requires Sane(s.escrows[id]) ==> FullPlan(legs, s.escrows[id].amount)
    requires var o := Settle(s, id, status, legs, net).state;
             s' == o.(queue := s'.queue, conditions := s'.conditions) && (s'.queue == s.queue || s'.queue == Dequeued(s.queue, id))
    ensures Keeps(s, s')
  {
    var e := s.escrows[id];
    var log' := Pay([], legs, id, net).0;
    SingleChange(s, s', id, e.(status := status), log');
    SettleMoney(e, legs, id, net);
    MoneyElsewhere(s, s', id, e.(status := status), log');
  }

  /** Only one escrow's payments differ. */
  lemma MoneyElsewhere(s: State, s': State, id: nat, e': Escrow, log': seq<Payment>)
    requires id in s.escrows && s'.escrows == s.escrows[id := e'] && s'.paid == s.paid[id := log']
    ensures Accounted(s) && (Sane(e') ==> Total(log') <= e'.amount) ==> Accounted(s')
  {
    assert forall x :: x != id ==> PaidFor(s', x) == PaidFor(s, x);
  }

  // ----- The entry points -----

  lemma StoredQueue(s: State, s': State, id: nat, e: Escrow)
    requires QueueLive(s) && id !in s.escrows && e.status.Locked?
    requires s'.escrows == s.escrows[id := e] && s'.queue == s.queue
    ensures QueueLive(s')
  {
    assert id !in s.queue.deadlineOf;
  }

  lemma StoredRecords(s: State, s': State, id: nat, e: Escrow)
    requires RecordsSound(s) && id == s.counter + 1 && e.status.Locked? && e.escalatedAt.None?
    requires s'.escrows == s.escrows[id := e] && s'.paid == s.paid[id := []] && s'.counter == id && s'.now == s.now
    ensures RecordsSound(s') && Advance(s, s')
  {
    assert id !in s.escrows;
    assert forall x :: x in s.escrows ==> s'.escrows[x] == s.escrows[x] && s'.paid[x] == s.paid[x];
  }

  lemma StoredMoney(s: State, s': State, id: nat, e: Escrow)
    requires id !in s.escrows && e.status.Locked?
    requires s'.escrows == s.escrows[id := e] && s'.paid == s.paid[id := []]
    ensures Accounted(s) ==> Accounted(s')
  {
    assert PaidFor(s', id) == [];
    assert forall x :: x != id ==> PaidFor(s', x) == PaidFor(s, x);
  }

  lemma StoredKeeps(s: State, t: Terms, s': State)
    requires Inv(s) && s' == Stored(s, t).(conditions := s'.conditions, scheduled := s'.scheduled)
    ensures Keeps(s, s')
  {
    var id, e := s.counter + 1, NewEscrow(t, s.now);
    assert s'.queue == s.queue;
    StoredRecords(s, s', id, e);
    StoredQueue(s, s', id, e);
    StoredMoney(s, s', id, e);
  }

  lemma ConditionalKeeps(s: State, customer: Address, merchant: Address, amount: int, feeBps: int)
    requires Inv(s)
    ensures Keeps(s, CreateConditional(s, customer, merchant, amount, feeBps).state)
  {
    StoredKeeps(s, ConditionalTerms(customer, merchant, amount, feeBps), CreateConditional(s, customer, merchant, amount, feeBps).state);
  }

  lemma VestingKeeps(s: State, customer: Address, merchant: Address, amount: int, feeBps: int, cliff: nat, end: nat,
                     milestones: seq<Vesting.Milestone>)
    requires Inv(s)
    ensures Keeps(s, CreateVesting(s, customer, merchant, amount, feeBps, cliff, end, milestones).state)
  {
    hide Keeps, Inv, VestingTerms, NewEscrow, Vesting.Admissible;
    KeepsReflexive(s);
    var s' := CreateVesting(s, customer, merchant, amount, feeBps, cliff, end, milestones).state;
    if s' != s {
      StoredKeeps(s, VestingTerms(customer, merchant, amount, feeBps, end), s');
    }
  }

  lemma CreateEntryKeeps(s: State, e: BatchEntry)
    requires Inv(s)
    ensures Keeps(s, CreateEntry(s, e).state)
  {
    hide Keeps, Inv, Stored, BatchTerms;
    KeepsReflexive(s);
    StoredKeeps(s, BatchTerms(e), Stored(s, BatchTerms(e)));
  }

  lemma {:induction false} CreateAllKeeps(s: State, entries: seq<BatchEntry>)
    requires Inv(s)
    ensures Keeps(s, CreateAll(s, entries).0)
    decreases |entries|
  {
    hide Inv, Advance, Accounted, CreateEntry;
    KeepsReflexive(s);
    if entries != [] {
      var last := |entries| - 1;
      var s1 := CreateAll(s, entries[..last]).0;
      CreateAllKeeps(s, entries[..last]);
      CreateEntryKeeps(s1, entries[last]);
      KeepsTransitive(s, s1, CreateEntry(s1, entries[last]).state);
    }
  }

  /** Not paying anybody leaves the account of the money as it is. */
  lemma UnpaidChange(s: State, s': State, id: nat, e': Escrow)
    requires Inv(s) && id in s.escrows
    requires s' == s.(escrows := s.escrows[id := e'], queue := s'.queue)
    requires e'.amount == s.escrows[id].amount && e'.feeBps == s.escrows[id].feeBps
    ensures Accounted(s) ==> Accounted(s')
  {
    assert forall x :: PaidFor(s', x) == PaidFor(s, x);
  }

  lemma DisputeKeeps(s: State, caller: Address, id: nat)
    requires Inv(s)
    ensures Keeps(s, Dispute(s, caller, id).state)
  {
    var s' := Dispute(s, caller, id).state;
    if s' != s {
      assert s.paid[id := s.paid[id]] == s.paid;
      SingleChange(s, s', id, s'.escrows[id], s.paid[id]);
      UnpaidChange(s, s', id, s'.escrows[id]);
    }
  }

  lemma EscalateKeeps(s: State, caller: Address, id: nat)
    requires Inv(s)
    ensures Keeps(s, Escalate(s, caller, id).state)
  {
    var s' := Escalate(s, caller, id).state;
    if s' != s {
      var e, e' := s.escrows[id], s'.escrows[id];
      UnpaidChange(s, s', id, e');
      EscalateQueue(s, s', id, e');
      EscalateRecords(s, s', id, e');
    }
  }

  lemma EscalateRecords(s: State, s': State, id: nat, e': Escrow)
    requires RecordsSound(s) && id in s.escrows && s.escrows[id].status.Disputed?
    requires s'.escrows == s.escrows[id := e'] && s'.paid == s.paid && s'.counter == s.counter && s'.now == s.now
    requires EscrowStep(s.escrows[id], s.paid[id], e', s.paid[id]) && e'.status.Disputed?
    requires e'.escalatedAt == Some(s.now)
    ensures RecordsSound(s') && Advance(s, s')
  {
    assert forall x :: x in s.escrows && x != id ==> s'.escrows[x] == s.escrows[x] && s'.paid[x] == s.paid[x];
  }

  lemma EscalateQueue(s: State, s': State, id: nat, e': Escrow)
    requires QueueLive(s) && WellFormed(s.queue) && id in s.escrows
    requires s'.escrows == s.escrows[id := e'] && e'.escalatedAt.Some?
    requires s'.queue == Enqueued(s.queue, id, SaturatingAdd(e'.escalatedAt.value, e'.escalationTimeout))
    ensures QueueLive(s') && WellFormed(s'.queue)
  {
    EnqueuedWellFormed(s.queue, id, SaturatingAdd(e'.escalatedAt.value, e'.escalationTimeout));
  }

  lemma AutoResolveKeeps(s: State, id: nat, toMerchant: bool)
    requires Inv(s)
    ensures Keeps(s, AutoResolve(s, id, toMerchant).state)
  {
    var s' := AutoResolve(s, id, toMerchant).state;
    if s' != s {
      assert s.paid[id := s.paid[id]] == s.paid;
      SingleChange(s, s', id, s'.escrows[id], s.paid[id]);
      UnpaidChange(s, s', id, s'.escrows[id]);
    }
  }

  lemma TriggerKeeps(s: State, id: nat, net: Net)
    requires Inv(s)
    ensures Keeps(s, Trigger(s, id, net).state)
  {
    if TimeoutObstacle(s, id).None? {
      var e := s.escrows[id];
      TimeoutPlan(e);
      SettleKeeps(s, id, TimeoutStatus(e.favor), TimeoutLegs(e), net, Trigger(s, id, net).state);
    }
  }

  lemma {:induction false} WalkKeeps(s: State, es: seq<Entry>, limit: nat, done: nat, net: Net)
    requires Inv(s)
    ensures Keeps(s, Walk(s, es, limit, done, net).0)
    decreases |es|
  {
    if es != [] && es[0].deadline <= s.now && done < limit {
      var o := Trigger(s, es[0].id, net);
      TriggerKeeps(s, es[0].id, net);
      var done' := if o.result.Ok? then done + 1 else done;
      WalkKeeps(o.state, es[1..], limit, done', net);
      KeepsTransitive(s, o.state, Walk(o.state, es[1..], limit, done', net).0);
    }
  }

  lemma DisputePlan(e: Escrow, toMerchant: bool)
    ensures e.amount >= 0 ==> FullPlan(DisputeLegs(e, toMerchant), e.amount)
  {
    SingleTotal(DisputeLegs(e, toMerchant)[0]);
  }

  lemma ResolveKeeps(s: State, id: nat, toMerchant: bool, net: Net)
    requires Inv(s)
    ensures Keeps(s, ResolveDispute(s, id, toMerchant, net).state)
    ensures Keeps(s, DispatchResolve(s, id, toMerchant, net).state)
  {
    if id in s.escrows && s.escrows[id].status.Disputed? {
      var e := s.escrows[id];
      DisputePlan(e, toMerchant);
      SettleKeeps(s, id, DisputeStatus(toMerchant), DisputeLegs(e, toMerchant), net, ResolveDispute(s, id, toMerchant, net).state);
      SettleKeeps(s, id, DisputeStatus(toMerchant), DisputeLegs(e, toMerchant), net, DispatchResolve(s, id, toMerchant, net).state);
    }
  }

  lemma FeeReleaseKeeps(s: State, id: nat, to: Address, feeRecipient: Address, net: Net, s': State)
    requires Inv(s) && id in s.escrows && s.escrows[id].status.Locked?
    requires s' == Settle(s, id, Released, FeeLegs(s.escrows[id], to, feeRecipient), net).state.(conditions := s'.conditions)
    ensures Keeps(s, s')
  {
    if Sane(s.escrows[id]) {
      FeePlan(s.escrows[id], to, feeRecipient);
    }
    SettleKeeps(s, id, Released, FeeLegs(s.escrows[id], to, feeRecipient), net, s');
  }

  lemma ReleaseKeeps(s: State, id: nat, early: bool, recipient: Option<Address>, gate: Gate, feeRecipient: Address, net: Net)
    requires Inv(s)
    ensures Keeps(s, Release(s, id, early, recipient, gate, feeRecipient, net).state)
  {
    var s' := Release(s, id, early, recipient, gate, feeRecipient, net).state;
    if s' != s {
      var to := if recipient.Some? then recipient.value else s.escrows[id].merchant;
      FeeReleaseKeeps(s, id, to, feeRecipient, net, s');
    }
  }

  lemma {:induction false} ReleaseAllKeeps(s: State, ids: seq<nat>, recipient: Option<Address>, gates: nat -> Gate,
                                           feeRecipient: Address, net: Net)
    requires Inv(s)
    ensures Keeps(s, ReleaseAll(s, ids, recipient, gates, feeRecipient, net).0)
    decreases |ids|
  {
    if ids != [] {
      var last := |ids| - 1;
      var s1 := ReleaseAll(s, ids[..last], recipient, gates, feeRecipient, net).0;
      ReleaseAllKeeps(s, ids[..last], recipient, gates, feeRecipient, net);
      ReleaseKeeps(s1, ids[last], false, recipient, gates(last), feeRecipient, net);
      KeepsTransitive(s, s1, Release(s1, ids[last], false, recipient, gates(last), feeRecipient, net).state);
    }
  }

  lemma DispatchReleaseKeeps(s: State, id: nat, early: bool, feeRecipient: Address, net: Net)
    requires Inv(s)
    ensures Keeps(s, DispatchRelease(s, id, early, feeRecipient, net).state)
  {
    var s' := DispatchRelease(s, id, early, feeRecipient, net).state;
    if s' != s {
      FeeReleaseKeeps(s, id, s.escrows[id].merchant, feeRecipient, net, s');
    }
  }

  lemma RefundKeeps(s: State, caller: Address, id: nat, net: Net)
    requires Inv(s)
    ensures Keeps(s, Refund(s, caller, id, net).state)
  {
    var s' := Refund(s, caller, id, net).state;
    if s' != s {
      var legs := [Payment(Principal, s.escrows[id].customer, s.escrows[id].amount)];
      SingleTotal(legs[0]);
      SettleKeeps(s, id, Resolved, legs, net, s');
    }
  }

  lemma WatchdogKeeps(s: State, id: nat, w: Watchdog, net: Net)
    requires Inv(s)
    ensures Keeps(s, WatchdogRelease(s, id, w, net).state)
  {
    var s' := WatchdogRelease(s, id, w, net).state;
    if s' != s {
      DisputePlan(s.escrows[id], !w.favorCustomer);
      SettleKeeps(s, id, DisputeStatus(!w.favorCustomer), DisputeLegs(s.escrows[id], !w.favorCustomer), net, s');
    }
  }

  lemma EvaluateKeeps(s: State, id: nat, met: bool, feeRecipient: Address, net: Net)
    requires Inv(s)
    ensures Keeps(s, Evaluate(s, id, met, feeRecipient, net).state)
  {
    hide WellFormed, Total, FeeLegs, Pay;
    var s' := Evaluate(s, id, met, feeRecipient, net).state;
    if s' != s {
      if met {
        FeeReleaseKeeps(s, id, s.escrows[id].merchant, feeRecipient, net, s');
      } else {
        assert forall x :: PaidFor(s', x) == PaidFor(s, x);
      }
    }
  }

  lemma ExpireKeeps(s: State, id: nat, net: Net)
    requires Inv(s)
    ensures Keeps(s, Expire(s, id, net).state)
  {
    var s' := Expire(s, id, net).state;
    if s' != s {
      var legs := [Payment(Principal, s.escrows[id].customer, s.escrows[id].amount)];
      SingleTotal(legs[0]);
      SettleKeeps(s, id, Cancelled, legs, net, s');
    }
  }

  lemma TickKeeps(s: State, seconds: nat)
    requires Inv(s)
    ensures Keeps(s, s.(now := SaturatingAdd(s.now, seconds)))
  {
    assert forall x :: PaidFor(s.(now := SaturatingAdd(s.now, seconds)), x) == PaidFor(s, x);
  }

  lemma CreationStep(s: State, c: Call)
    requires Inv(s) && (CreationOp(c.op) || c.op.Ticking?)
    ensures Keeps(s, Step(s, c))
  {
    hide Keeps, Inv, Stored, CreateConditional, CreateVesting, CreateAll;
    KeepsReflexive(s);
    match c.op
    case Creating(t) => StoredKeeps(s, t, Stored(s, t));
    case CreatingConditional(cu, m, a, f) => ConditionalKeeps(s, cu, m, a, f);
    case CreatingVesting(cu, m, a, f, cliff, end, ms) => VestingKeeps(s, cu, m, a, f, cliff, end, ms);
    case CreatingBatch(entries, limit) => CreateAllKeeps(s, entries);
    case Ticking(seconds) => TickKeeps(s, seconds);
  }

  lemma OpeningStep(s: State, c: Call)
    requires Inv(s) && (c.op.Disputing? || c.op.Escalating? || c.op.AutoResolving?)
    ensures Keeps(s, Step(s, c))
  {
    hide Keeps, Inv, Dispute, Escalate, AutoResolve;
    KeepsReflexive(s);
    match c.op
    case Disputing(caller, id) => DisputeKeeps(s, caller, id);
    case Escalating(caller, id) => EscalateKeeps(s, caller, id);
    case AutoResolving(id, m) => AutoResolveKeeps(s, id, m);
  }

  lemma BatchingStep(s: State, c: Call)
    requires Inv(s) && (c.op.Processing? || c.op.BatchReleasing?)
    ensures Keeps(s, Step(s, c))
  {
    hide Keeps, Inv, Walk, Entries, ReleaseAll;
    KeepsReflexive(s);
    match c.op
    case Processing(limit) => WalkKeeps(s, Entries(s.queue), limit, 0, c.net);
    case BatchReleasing(ids, to, gates, fr) => ReleaseAllKeeps(s, ids, to, gates, fr, c.net);
  }

  lemma ArbitrationStep(s: State, c: Call)
    requires Inv(s) && (c.op.Triggering? || c.op.Resolving? || c.op.DispatchingResolve?)
    ensures Keeps(s, Step(s, c))
  {
    hide Keeps, Inv, Trigger, ResolveDispute, DispatchResolve;
    KeepsReflexive(s);
    match c.op
    case Triggering(id) => TriggerKeeps(s, id, c.net);
    case Resolving(id, m) => ResolveKeeps(s, id, m, c.net);
    case DispatchingResolve(id, m) => ResolveKeeps(s, id, m, c.net);
  }

  lemma ReleaseStep(s: State, c: Call)
    requires Inv(s) && (c.op.Releasing? || c.op.DispatchingRelease? || c.op.Evaluating?)
    ensures Keeps(s, Step(s, c))
  {
    hide Keeps, Inv, Release, DispatchRelease, Evaluate;
    KeepsReflexive(s);
    match c.op
    case Releasing(id, early, to, gate, fr) => ReleaseKeeps(s, id, early, to, gate, fr, c.net);
    case DispatchingRelease(id, early, fr) => DispatchReleaseKeeps(s, id, early, fr, c.net);
    case Evaluating(id, met, fr) => EvaluateKeeps(s, id, met, fr, c.net);
  }

  lemma RefundStep(s: State, c: Call)
    requires Inv(s) && (c.op.Refunding? || c.op.WatchdogReleasing? || c.op.Expiring?)
    ensures Keeps(s, Step(s, c))
  {
    hide Keeps, Inv, Refund, WatchdogRelease, Expire;
    KeepsReflexive(s);
    match c.op
    case Refunding(caller, id) => RefundKeeps(s, caller, id, c.net);
    case WatchdogReleasing(id, w) => WatchdogKeeps(s, id, w, c.net);
    case Expiring(id) => ExpireKeeps(s, id, c.net);
  }

  /** Every top-level call keeps the invariants, moves every escrow only forward and pays none beyond
      its amount. */
  lemma StepKeeps(s: State, c: Call)
    requires Inv(s)
    ensures Keeps(s, Step(s, c))
  {
    var op := c.op;
    if CreationOp(op) || op.Ticking? {
      CreationStep(s, c);
    } else if op.Disputing? || op.Escalating? || op.AutoResolving? {
      OpeningStep(s, c);
    } else if op.Processing? || op.BatchReleasing? {
      BatchingStep(s, c);
    } else if op.Triggering? || op.Resolving? || op.DispatchingResolve? {
      ArbitrationStep(s, c);
    } else if op.Releasing? || op.DispatchingRelease? || op.Evaluating? {
      ReleaseStep(s, c);
    } else {
      RefundStep(s, c);
    }
  }

  // ----- Whole runs -----

  lemma {:induction false} RunKeeps(s: State, calls: seq<Call>)
    requires Inv(s)
    ensures Keeps(s, Run(s, calls))
    decreases |calls|
  {
    if calls != [] {
      StepKeeps(s, calls[0]);
      RunKeeps(Step(s, calls[0]), calls[1..]);
      KeepsTransitive(s, Step(s, calls[0]), Run(Step(s, calls[0]), calls[1..]));
    }
  }

  /** In every reachable storage, failed transfers swallowed in the middle of a batch included,
      the queue is well formed and agrees with the records, and no escrow with ordinary money
      has been paid beyond its amount. */
  lemma ReachableSound(calls: seq<Call>)
    ensures var s := Run(INITIAL, calls);
            WellFormed(s.queue) && QueueLive(s) && RecordsSound(s) && Accounted(s)
  {
    RunKeeps(INITIAL, calls);
  }

  /** Settled at most once: whatever is called after an escrow was settled, its record and the
      payments made for it stay what they were; until it is settled nothing is paid. */
  lemma SettledAtMostOnce(before: seq<Call>, after: seq<Call>, id: nat)
    requires id in Run(INITIAL, before).escrows
    ensures var s, s' := Run(INITIAL, before), Run(INITIAL, before + after);
            && id in s'.escrows
            && Rank(s.escrows[id].status) <= Rank(s'.escrows[id].status)
            && (Settled(s.escrows[id]) ==> s'.escrows[id] == s.escrows[id] && PaidFor(s', id) == PaidFor(s, id))
            && (!Settled(s'.escrows[id]) ==> PaidFor(s', id) == [])
  {
    RunKeeps(INITIAL, before);
    RunAppend(INITIAL, before, after);
    RunKeeps(Run(INITIAL, before), after);
  }

  lemma {:induction false} RunAppend(s: State, a: seq<Call>, b: seq<Call>)
    ensures Run(s, a + b) == Run(Run(s, a), b)
    decreases |a|
  {
    if a == [] {
      assert a + b == b;
    } else {
      assert (a + b)[1..] == a[1..] + b;
      RunAppend(Step(s, a[0]), a[1..], b);
    }
  }
}
