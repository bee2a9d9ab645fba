/** The single-escrow entry points as the contract runs them: records are loaded, changed and
    stored one at a time, and a failing top-level call is rolled back. */
module LifecycleContract {
  import opened Common
  import opened EscalationQueue
  import opened Lifecycle
  import opened LifecycleLaws
  import opened Settlement
  import opened Recipients
  import EscalationScan
  import Vesting
  import VestingContract

  // ----- Dequeuing from the bucket that is being walked -----

  lemma WithoutMiddle(before: seq<nat>, x: nat, after: seq<nat>)
    requires Distinct(before + [x] + after)
    ensures Without(before + [x] + after, x) == before + after
  {
    var s := before + [x] + after;
    assert x !in before by {
      forall i | 0 <= i < |before| ensures before[i] != x { assert s[i] == before[i] && s[|before|] == x; }
    }
    assert x !in after by {
      forall i | 0 <= i < |after| ensures after[i] != x { assert s[|before| + 1 + i] == after[i] && s[|before|] == x; }
    }
    WithoutAppend(before + [x], after, x);
    WithoutAppend(before, [x], x);
    WithoutAbsent(before, x);
    WithoutAbsent(after, x);
  }

  /** Taking out an escrow from the bucket of deadline `d` only shortens that bucket; the deadline
      leaves the index when the bucket becomes empty. */
  lemma DequeueMiddle(q: Queue, d: nat, earlier: seq<nat>, later: seq<nat>, before: seq<nat>, id: nat, after: seq<nat>)
    requires WellFormed(q) && q.index == earlier + [d] + later
    requires Bucket(q.buckets, d) == before + [id] + after
    ensures var q' := Dequeued(q, id);
            && Bucket(q'.buckets, d) == before + after
            && q'.index == earlier + (if before + after == [] then [] else [d]) + later
            && (forall x :: x != d ==> Bucket(q'.buckets, x) == Bucket(q.buckets, x))
  {
    InMiddle(before, id, after);
    Recorded(q, d, id);
    assert Distinct(Bucket(q.buckets, d)) && Distinct(q.index);
    WithoutMiddle(before, id, after);
    WithoutMiddle(earlier, d, later);
    hide WellFormed, Without, Distinct;
    assert Dequeued(q, id).buckets == if before + after == [] then q.buckets - {d} else q.buckets[d := before + after];
  }

  lemma InMiddle(before: seq<nat>, x: nat, after: seq<nat>)
    ensures x in before + [x] + after
  {}

  lemma EnqueuedAt(q: Queue, id: nat, d: nat)
    ensures id in Enqueued(q, id, d).deadlineOf && Enqueued(q, id, d).deadlineOf[id] == d
  {}

  lemma PayOne(log: seq<Payment>, p: Payment, id: nat, net: Net)
    ensures Pay(log, [p], id, net) ==
            match net(id, p.leg) case Refused => (log, false) case Synthetic => (log, true) case Moved => (log + [p], true)
  {
    assert [p][1..] == [];
  }

  lemma PayTwo(log: seq<Payment>, p: Payment, q: Payment, id: nat, net: Net)
    ensures Pay(log, [p, q], id, net) ==
            match net(id, p.leg)
            case Refused => (log, false)
            case Synthetic => Pay(log, [q], id, net)
            case Moved => Pay(log + [p], [q], id, net)
    ensures Pay(log, [q], id, net) ==
            match net(id, q.leg) case Refused => (log, false) case Synthetic => (log, true) case Moved => (log + [q], true)
    ensures Pay(log + [p], [q], id, net) ==
            match net(id, q.leg) case Refused => (log + [p], false) case Synthetic => (log + [p], true) case Moved => (log + [p] + [q], true)
  {
    assert [p, q][1..] == [q];
    PayOne(log, q, id, net);
    PayOne(log + [p], q, id, net);
  }

  lemma SameFeeLegs(e: Escrow, e': Escrow, to: Address, feeRecipient: Address)
    requires e.amount == e'.amount && e.feeBps == e'.feeBps
    ensures FeeLegs(e, to, feeRecipient) == FeeLegs(e', to, feeRecipient)
  {}

  lemma PaidKeys(s: State)
    requires Inv(s)
    ensures s.paid.Keys == s.escrows.Keys && s.counter + 1 !in s.escrows
  {}

  /** A record as it is first stored: locked, neither disputed nor escalated, created now. */
  predicate OpenedFor(e: Escrow, customer: Address, merchant: Address, amount: int, feeBps: int, now: nat) {
    && e.customer == customer && e.merchant == merchant && e.amount == amount && e.feeBps == feeBps
    && e.status.Locked? && e.createdAt == now && e.lastActivityAt == now
    && e.disputeStartedAt == 0 && e.escalationLevel == 0 && e.escalatedAt.None?
  }

  lemma NewIsOpened(t: Terms, now: nat)
    ensures var e := NewEscrow(t, now);
            && OpenedFor(e, t.customer, t.merchant, t.amount, t.feeBps, now)
            && e.releaseTimestamp == t.releaseTimestamp && e.minHoldPeriod == t.minHoldPeriod && e.expiryTimestamp == t.expiryTimestamp
            && e.escalationTimeout == t.escalationTimeout && e.favor == t.favor
  {}

  /** What becomes of one entry of a batch: without a positive amount or a later release it is refused,
      otherwise there is a new record for it, without fee, hold and expiry. */
  predicate EntryStored(s: State, t: State, e: BatchEntry, r: Result<nat>) {
    && (e.amount <= 0 ==> r == Err(InvalidStatus))
    && (e.amount > 0 && e.releaseTimestamp <= s.now ==> r == Err(ReleaseNotYetAvailable))
    && (e.amount > 0 && e.releaseTimestamp > s.now ==> (
          && r.Ok? && r.value !in s.escrows && r.value in t.escrows && r.value <= t.counter
          && OpenedFor(t.escrows[r.value], e.customer, e.merchant, e.amount, 0, s.now)
          && t.escrows[r.value].releaseTimestamp == e.releaseTimestamp
          && t.escrows[r.value].minHoldPeriod == 0 && t.escrows[r.value].expiryTimestamp == 0))
  }

  /** Each entry of a batch is stored or refused on its own; the new ids ascend, and no escrow that was
      there before is touched. */
  predicate BatchStored(s: State, t: State, entries: seq<BatchEntry>, results: seq<Result<nat>>) {
    && |results| == |entries|
    && (forall i :: 0 <= i < |entries| ==> EntryStored(s, t, entries[i], results[i]))
    && (forall i, j :: 0 <= i < j < |entries| && results[i].Ok? && results[j].Ok? ==> results[i].value < results[j].value)
    && (forall x :: x in s.escrows ==> x in t.escrows && t.escrows[x] == s.escrows[x])
  }

  lemma {:induction false} BatchCreates(s: State, entries: seq<BatchEntry>)
    requires Inv(s)
    ensures var (t, results) := CreateAll(s, entries);
            t.now == s.now && s.counter <= t.counter && BatchStored(s, t, entries, results)
    decreases |entries|
  {
    hide Inv, Accounted, Advance, CreateEntry, EntryStored;
    if entries != [] {
      var last := |entries| - 1;
      var (s1, results) := CreateAll(s, entries[..last]);
      var o := CreateEntry(s1, entries[last]);
      BatchCreates(s, entries[..last]);
      CreateAllKeeps(s, entries[..last]);
      NoneAbove(s);
      EntryCreates(s1, entries[last]);
      forall i | 0 <= i < last
        ensures EntryStored(s, o.state, entries[i], results[i]) && (results[i].Ok? ==> results[i].value <= s1.counter)
      {
        assert EntryStored(s, s1, entries[..last][i], results[i]);
        StoredStays(s, s1, o.state, entries[i], results[i]);
      }
      SameClock(s, s1, o.state, entries[last], if o.result.Ok? then Ok(o.state.counter) else Err(o.result.error));
    }
  }

  lemma StoredStays(s: State, s1: State, t: State, e: BatchEntry, r: Result<nat>)
    requires EntryStored(s, s1, e, r) && s1.counter <= t.counter
    requires forall x :: x in s1.escrows ==> x in t.escrows && t.escrows[x] == s1.escrows[x]
    ensures EntryStored(s, t, e, r) && (r.Ok? ==> r.value <= s1.counter)
  {
    hide OpenedFor;
  }

  lemma SameClock(s: State, s1: State, t: State, e: BatchEntry, r: Result<nat>)
    requires EntryStored(s1, t, e, r) && s1.now == s.now && forall x :: x in s.escrows ==> x in s1.escrows
    ensures EntryStored(s, t, e, r)
  {
    hide OpenedFor;
  }

  lemma EntryCreates(s: State, e: BatchEntry)
    requires Inv(s)
    ensures var o := CreateEntry(s, e);
            && EntryStored(s, o.state, e, if o.result.Ok? then Ok(o.state.counter) else Err(o.result.error))
            && o.state.now == s.now && (if o.result.Ok? then o.state.counter == s.counter + 1 else o.state == s)
            && (forall x :: x in s.escrows ==> x in o.state.escrows && o.state.escrows[x] == s.escrows[x])
  {
    PaidKeys(s);
    NewIsOpened(BatchTerms(e), s.now);
    hide Inv, NewEscrow, OpenedFor;
  }

  lemma NoneAbove(s: State)
    requires Inv(s)
    ensures forall x :: x in s.escrows ==> x <= s.counter
  {}

  // ----- Walking, entry by entry -----

  lemma WalkExhausted(s: State, es: seq<Entry>, limit: nat, done: nat, net: Net)
    requires es == [] || es[0].deadline > s.now || done >= limit
    ensures Walk(s, es, limit, done, net) == (s, done)
  {}

  lemma WalkNext(s: State, e: Entry, rest: seq<Entry>, limit: nat, done: nat, net: Net)
    requires e.deadline <= s.now && done < limit
    ensures var o := Trigger(s, e.id, net);
            Walk(s, [e] + rest, limit, done, net) == Walk(o.state, rest, limit, if o.result.Ok? then done + 1 else done, net)
  {
    assert ([e] + rest)[1..] == rest;
  }

  lemma TriggerQueue(s: State, id: nat, net: Net)
    ensures var o := Trigger(s, id, net);
            o.state.now == s.now && o.state.queue == if o.result.Ok? then Dequeued(s.queue, id) else s.queue
  {}

  lemma Uncons(s: seq<nat>, i: nat)
    requires i < |s|
    ensures s[i..] == [s[i]] + s[i + 1..]
  {}

  lemma BucketEntriesCons(d: nat, id: nat, ids: seq<nat>, rest: seq<Entry>)
    ensures BucketEntries(d, [id] + ids) + rest == [Entry(d, id)] + (BucketEntries(d, ids) + rest)
  {
    assert ([id] + ids)[1..] == ids;
  }

  lemma FlattenCons(d: nat, index: seq<nat>, buckets: map<nat, seq<nat>>)
    ensures Flatten([d] + index, buckets) == BucketEntries(d, Bucket(buckets, d)) + Flatten(index, buckets)
  {
    assert ([d] + index)[1..] == index;
  }

  /** The buckets of these deadlines have not changed. */
  ghost predicate SameOn(index: seq<nat>, b: map<nat, seq<nat>>, b': map<nat, seq<nat>>) {
    forall d :: d in index ==> Bucket(b, d) == Bucket(b', d)
  }

  lemma SameOnTail(d: nat, later: seq<nat>, b: map<nat, seq<nat>>, b1: map<nat, seq<nat>>, b0: map<nat, seq<nat>>)
    requires SameOn([d] + later, b, b0) && d !in later
    requires forall x :: x != d ==> Bucket(b1, x) == Bucket(b, x)
    ensures SameOn(later, b1, b0)
  {}

  lemma StartWalk(s: State, limit: nat, net: Net)
    ensures Process(s, limit, net) == Walk(s, Flatten(s.queue.index, s.queue.buckets), limit, 0, net)
    ensures SameOn(s.queue.index, s.queue.buckets, s.queue.buckets)
  {}

  /** The deadline at the front of what is pending: it has a bucket and does not come again. */
  lemma HeadInQueue(s: State, earlier: seq<nat>, d: nat, later: seq<nat>, buckets: map<nat, seq<nat>>)
    requires Inv(s) && s.queue.index == earlier + ([d] + later) && SameOn([d] + later, s.queue.buckets, buckets)
    ensures d !in later && s.queue.index == earlier + [d] + later && Bucket(s.queue.buckets, d) == Bucket(buckets, d)
    ensures Flatten([d] + later, buckets) != [] && Flatten([d] + later, buckets)[0].deadline == d
  {
    assert d in s.queue.index;
    HeadBucket(s, d);
    IndexDistinct(s);
    assert s.queue.index == earlier + [d] + later;
    TailDistinct(s.queue.index, earlier, d, later);
    FlattenCons(d, later, buckets);
  }

  lemma HeadBucket(s: State, d: nat)
    requires Inv(s) && d in s.queue.index
    ensures Bucket(s.queue.buckets, d) != []
    ensures forall rest :: |BucketEntries(d, Bucket(s.queue.buckets, d)) + rest| > 0 &&
              (BucketEntries(d, Bucket(s.queue.buckets, d)) + rest)[0].deadline == d
  {}

  lemma IndexDistinct(s: State)
    requires Inv(s)
    ensures Distinct(s.queue.index) && WellFormed(s.queue)
  {}

  lemma NoEntries(d: nat, rest: seq<Entry>)
    ensures BucketEntries(d, []) + rest == rest
  {}

  lemma NoBuckets(buckets: map<nat, seq<nat>>)
    ensures Flatten([], buckets) == []
  {}

  lemma TailDistinct(s: seq<nat>, before: seq<nat>, x: nat, after: seq<nat>)
    requires Distinct(s) && s == before + [x] + after
    ensures x !in after
  {
    forall i | 0 <= i < |after| ensures after[i] != x {
      assert s[|before| + 1 + i] == after[i] && s[|before|] == x;
    }
  }

  lemma DropMissing(m: map<nat, seq<nat>>, d: nat)
    requires d !in m
    ensures m - {d} == m
  {}

  lemma DrainedAbsent(s: State, d: nat)
    requires Inv(s) && Bucket(s.queue.buckets, d) == []
    ensures d !in s.queue.buckets
  {}

  class EscrowContract {
    var escrows: map<nat, Escrow>
    var counter: nat
    var paid: map<nat, seq<Payment>>
    var conditions: map<nat, Condition>
    var scheduled: set<nat>
    var now: nat
    const queue: QueueStorage

    constructor ()
      ensures Valid() && fresh(queue) && State() == INITIAL
    {
      escrows, counter, paid, conditions, scheduled, now := map[], 0, map[], map[], {}, 0;
      queue := new QueueStorage();
    }

    function State(): State
      reads this, queue
    {
      Lifecycle.State(escrows, counter, paid, conditions, scheduled, Queue(queue.index, queue.buckets, queue.deadlineOf), now)
    }

    ghost predicate Valid()
      reads this, queue
    {
      Inv(State())
    }

    method Restore(s: State)
      modifies this, queue
      ensures State() == s
    {
      escrows, counter, paid, conditions, scheduled, now := s.escrows, s.counter, s.paid, s.conditions, s.scheduled, s.now;
      queue.index, queue.buckets, queue.deadlineOf := s.queue.index, s.queue.buckets, s.queue.deadlineOf;
    }

    // ----- Transfers -----

    /** Skipped for an address that is no token contract; a failing transfer is reported. */
    method TransferIfTokenContract(id: nat, leg: Leg, to: Address, amount: int, net: Net) returns (ok: bool)
      requires id in paid
      modifies this`paid
      ensures ok == !net(id, leg).Refused?
      ensures paid == if net(id, leg).Moved? then old(paid)[id := old(paid)[id] + [Payment(leg, to, amount)]] else old(paid)
    {
      match net(id, leg)
      case Synthetic => ok := true;
      case Refused => ok := false;
      case Moved =>
        paid := paid[id := paid[id] + [Payment(leg, to, amount)]];
        ok := true;
    }

    /** One payment of the whole principal. */
    method PayPrincipal(id: nat, to: Address, net: Net) returns (r: Result<()>)
      requires id in paid && id in escrows
      modifies this`paid
      ensures var (log, ok) := Pay(old(paid)[id], [Payment(Principal, to, escrows[id].amount)], id, net);
              paid == old(paid)[id := log] && r == if ok then Ok(()) else Err(InvalidStatus)
    {
      var ok := TransferIfTokenContract(id, Principal, to, escrows[id].amount, net);
      r := if ok then Ok(()) else Err(InvalidStatus);
      assert [Payment(Principal, to, escrows[id].amount)][1..] == [];
      assert paid == paid[id := paid[id]];
    }

    /** The platform fee, when there is one, and then the rest. */
    method PayWithFee(id: nat, recipient: Address, feeRecipient: Address, net: Net) returns (r: Result<()>)
      requires id in paid && id in escrows
      modifies this`paid
      ensures var (log, ok) := Pay(old(paid)[id], FeeLegs(escrows[id], recipient, feeRecipient), id, net);
              paid == old(paid)[id := log] && r == if ok then Ok(()) else Err(InvalidStatus)
    {
      var feeAmount := FeeOf(escrows[id].amount, escrows[id].feeBps);
      var merchantAmount := escrows[id].amount - feeAmount;
      ghost var rest := Payment(Principal, recipient, merchantAmount);
      PayOne(paid[id], rest, id, net);
      PayTwo(paid[id], Payment(Fee, feeRecipient, feeAmount), rest, id, net);
      hide Pay, FeeOf;
      if feeAmount > 0 {
        assert FeeLegs(escrows[id], recipient, feeRecipient) == [Payment(Fee, feeRecipient, feeAmount), rest];
        var sent := TransferIfTokenContract(id, Fee, feeRecipient, feeAmount, net);
        if !sent {
          assert paid == paid[id := paid[id]];
          return Err(InvalidStatus);
        }
      }
      var ok := TransferIfTokenContract(id, Principal, recipient, merchantAmount, net);
      r := if ok then Ok(()) else Err(InvalidStatus);
      assert paid == paid[id := paid[id]];
    }

    /** Half of the principal to the customer, the rest to the merchant. */
    method PayHalves(id: nat, net: Net) returns (r: Result<()>)
      requires id in paid && id in escrows && escrows[id].favor.SplitEqual?
      modifies this`paid
      ensures var (log, ok) := Pay(old(paid)[id], TimeoutLegs(escrows[id]), id, net);
              paid == old(paid)[id := log] && r == if ok then Ok(()) else Err(InvalidStatus)
    {
      var half := TruncDiv(escrows[id].amount, 2);
      var remainder := escrows[id].amount - half;
      PayTwo(paid[id], Payment(Principal, escrows[id].customer, half), Payment(OtherHalf, escrows[id].merchant, remainder), id, net);
      hide Pay, TruncDiv;
      assert paid == paid[id := paid[id]];
      var ok := TransferIfTokenContract(id, Principal, escrows[id].customer, half, net);
      if !ok {
        return Err(InvalidStatus);
      }
      ok := TransferIfTokenContract(id, OtherHalf, escrows[id].merchant, remainder, net);
      r := if ok then Ok(()) else Err(InvalidStatus);
    }

    // ----- Creation -----

    method Store(e: Escrow) returns (id: nat)
      modifies this
      ensures id == old(counter) + 1
      ensures State() == old(State()).(escrows := old(escrows)[id := e], counter := id, paid := old(paid)[id := []])
    {
      id := counter + 1;
      escrows := escrows[id := e];
      paid := paid[id := []];
      counter := id;
    }

    method CreateEscrow(t: Terms) returns (r: Result<nat>)
      requires Valid()
      modifies this
      ensures Valid() && State() == Commit(old(State()), Create(old(State()), t))
      ensures var o := Create(old(State()), t); r == if o.result.Ok? then Ok(old(counter) + 1) else Err(o.result.error)
      ensures r.Ok? ==> r.value !in old(escrows) && r.value in escrows && escrows[r.value] == NewEscrow(t, now)
      ensures r.Ok? <==> t.expiryTimestamp == 0
                         || (t.expiryTimestamp > t.releaseTimestamp && t.expiryTimestamp > SaturatingAdd(now, t.minHoldPeriod))
      ensures r.Ok? ==> OpenedFor(escrows[r.value], t.customer, t.merchant, t.amount, t.feeBps, now)
      ensures r.Ok? ==> escrows[r.value].releaseTimestamp == t.releaseTimestamp && escrows[r.value].minHoldPeriod == t.minHoldPeriod
                        && escrows[r.value].expiryTimestamp == t.expiryTimestamp && escrows[r.value].favor == t.favor
                        && escrows[r.value].escalationTimeout == t.escalationTimeout
    {
      hide Inv, Accounted, Advance, NewEscrow, OpenedFor;
      NewIsOpened(t, now);
      PaidKeys(State());
      StoredKeeps(State(), t, Stored(State(), t));
      if t.expiryTimestamp != 0 && t.expiryTimestamp <= t.releaseTimestamp {
        return Err(ExpiryBeforeRelease);
      }
      if t.expiryTimestamp != 0 && t.expiryTimestamp <= SaturatingAdd(now, t.minHoldPeriod) {
        return Err(EscrowAlreadyExpired);
      }
      var id := Store(NewEscrow(t, now));
      r := Ok(id);
    }

    method CreateConditionalEscrow(customer: Address, merchant: Address, amount: int, feeBps: int) returns (id: nat)
      requires Valid()
      modifies this
      ensures Valid() && id !in old(escrows) && id in conditions && !conditions[id].evaluated
      ensures State() == CreateConditional(old(State()), customer, merchant, amount, feeBps).state
      ensures id in escrows && OpenedFor(escrows[id], customer, merchant, amount, feeBps, now)
      ensures escrows[id].releaseTimestamp == U64_MAX && escrows[id].minHoldPeriod == 0 && escrows[id].expiryTimestamp == 0
    {
      hide Inv, Accounted, Advance, NewEscrow, OpenedFor;
      NewIsOpened(ConditionalTerms(customer, merchant, amount, feeBps), now);
      PaidKeys(State());
      ConditionalKeeps(State(), customer, merchant, amount, feeBps);
      id := Store(NewEscrow(ConditionalTerms(customer, merchant, amount, feeBps), now));
      conditions := conditions[id := Condition(false, false)];
    }

    /** The record and the id of a vesting escrow; its schedule is kept by the vesting contract. */
    method CreateVestingRecord(customer: Address, merchant: Address, amount: int, feeBps: int, cliff: nat, end: nat,
                               milestones: seq<Vesting.Milestone>) returns (r: Result<nat>)
      requires Valid()
      modifies this
      ensures Valid()
      ensures var o := CreateVesting(old(State()), customer, merchant, amount, feeBps, cliff, end, milestones);
              State() == o.state && r == if o.result.Ok? then Ok(old(counter) + 1) else Err(o.result.error)
      ensures r.Ok? ==> r.value !in old(escrows) && r.value in escrows && r.value in scheduled
      ensures r.Ok? ==> OpenedFor(escrows[r.value], customer, merchant, amount, feeBps, now)
      ensures r.Ok? ==> escrows[r.value].releaseTimestamp == end && escrows[r.value].minHoldPeriod == 0 && escrows[r.value].expiryTimestamp == 0
    {
      hide Inv, Accounted, Advance, NewEscrow, OpenedFor;
      PaidKeys(State());
      VestingKeeps(State(), customer, merchant, amount, feeBps, cliff, end, milestones);
      NewIsOpened(VestingTerms(customer, merchant, amount, feeBps, end), now);
      if cliff < now {
        return Err(InvalidVestingSchedule);
      }
      if end <= cliff {
        return Err(InvalidVestingSchedule);
      }
      if milestones != [] {
        var ok := VestingContract.CheckMilestones(milestones, amount, cliff, end);
        if !ok {
          return Err(InvalidVestingSchedule);
        }
      }
      var id := Store(NewEscrow(VestingTerms(customer, merchant, amount, feeBps, end), now));
      scheduled := scheduled + {id};
      r := Ok(id);
    }

    /** One entry of a batch; the two refusals change nothing. */
    method TryCreateSingleEscrow(entry: BatchEntry) returns (r: Result<nat>)
      requires Valid()
      modifies this
      ensures Valid()
      ensures State() == CreateEntry(old(State()), entry).state
      ensures var o := CreateEntry(old(State()), entry); r == if o.result.Ok? then Ok(counter) else Err(o.result.error)
      ensures r.Ok? <==> entry.amount > 0 && entry.releaseTimestamp > now
      ensures r.Ok? ==> r.value !in old(escrows) && r.value in escrows && escrows[r.value].releaseTimestamp == entry.releaseTimestamp
      ensures r.Ok? ==> OpenedFor(escrows[r.value], entry.customer, entry.merchant, entry.amount, 0, now)
      ensures r.Ok? ==> escrows[r.value].minHoldPeriod == 0 && escrows[r.value].expiryTimestamp == 0
    {
      hide Inv, Accounted, Advance, NewEscrow, OpenedFor;
      NewIsOpened(BatchTerms(entry), now);
      PaidKeys(State());
      CreateEntryKeeps(State(), entry);
      if entry.amount <= 0 {
        return Err(InvalidStatus);
      }
      if entry.releaseTimestamp <= now {
        return Err(ReleaseNotYetAvailable);
      }
      var id := Store(NewEscrow(BatchTerms(entry), now));
      r := Ok(id);
    }

    /** Creates what can be created; each entry has its own result. */
    method CreateEscrowBatch(entries: seq<BatchEntry>, limit: nat) returns (results: Option<seq<Result<nat>>>)
      requires Valid()
      modifies this
      ensures Valid()
      ensures |entries| > limit ==> results == None && State() == old(State())
      ensures |entries| <= limit ==> results.Some? && (State(), results.value) == CreateAll(old(State()), entries)
      ensures results.Some? ==> BatchStored(old(State()), State(), entries, results.value)
    {
      hide Inv, CreateEntry, BatchStored;
      BatchCreates(State(), entries);
      if |entries| > limit {
        return None;
      }
      var made: seq<Result<nat>> := [];
      for i := 0 to |entries|
        invariant Valid()
        invariant (State(), made) == CreateAll(old(State()), entries[..i])
      {
        assert entries[..i + 1][..i] == entries[..i];
        var r := TryCreateSingleEscrow(entries[i]);
        made := made + [r];
      }
      assert entries[..|entries|] == entries;
      results := Some(made);
    }

    // ----- Dispute -----

    method DisputeEscrow(caller: Address, id: nat) returns (r: Result<()>)
      requires Valid()
      modifies this
      ensures Valid() && r == Dispute(old(State()), caller, id).result
      ensures State() == Commit(old(State()), Dispute(old(State()), caller, id))
      ensures r.Ok? <==> id in old(escrows) && old(escrows)[id].status.Locked?
                         && (caller == old(escrows)[id].customer || caller == old(escrows)[id].merchant)
      ensures r.Ok? ==> id in escrows && OthersUntouched(old(State()), State(), id)
                        && escrows[id] == old(escrows)[id].(status := Disputed, disputeStartedAt := now, lastActivityAt := now)
    {
      hide Inv, Accounted, Advance;
      DisputeKeeps(State(), caller, id);
      if id !in escrows {
        return Err(NotFound);
      }
      var escrow := escrows[id];
      if caller != escrow.customer && caller != escrow.merchant {
        return Err(Unauthorized);
      }
      match escrow.status {
        case Locked =>
          escrow := escrow.(status := Disputed, disputeStartedAt := now);
          escrow := escrow.(lastActivityAt := escrow.disputeStartedAt);
        case _ =>
          return Err(AlreadyProcessed);
      }
      escrows := escrows[id := escrow];
      r := Ok(());
    }

    method EscalateDispute(caller: Address, id: nat) returns (r: Result<()>)
      requires Valid()
      modifies this, queue
      ensures Valid() && r == Escalate(old(State()), caller, id).result
      ensures State() == Commit(old(State()), Escalate(old(State()), caller, id))
      ensures r.Ok? <==> id in old(escrows) && old(escrows)[id].status.Disputed?
                         && (caller == old(escrows)[id].customer || caller == old(escrows)[id].merchant)
      ensures r.Ok? ==> id in queue.deadlineOf && queue.deadlineOf[id] == SaturatingAdd(now, old(escrows)[id].escalationTimeout)
      ensures r.Ok? ==> id in escrows && OthersUntouched(old(State()), State(), id)
                        && escrows[id] == old(escrows)[id].(escalationLevel := SaturatingAdd(old(escrows)[id].escalationLevel, 1),
                                                            escalatedAt := Some(now), lastActivityAt := now)
    {
      hide Inv, Accounted, Advance, Enqueued;
      EscalateKeeps(State(), caller, id);
      if id !in escrows {
        return Err(NotFound);
      }
      var escrow := escrows[id];
      if !escrow.status.Disputed? {
        return Err(NotDisputed);
      }
      if escrow.customer != caller && escrow.merchant != caller {
        return Err(Unauthorized);
      }
      escrow := escrow.(escalationLevel := SaturatingAdd(escrow.escalationLevel, 1));
      escrow := escrow.(escalatedAt := Some(now), lastActivityAt := now);
      escrows := escrows[id := escrow];
      EnqueuedAt(Queue(queue.index, queue.buckets, queue.deadlineOf), id, SaturatingAdd(now, escrow.escalationTimeout));
      queue.Enqueue(id, SaturatingAdd(now, escrow.escalationTimeout));
      r := Ok(());
    }

    /** `toMerchant` is the side that the weighed evidence favours. */
    method AutoResolveDispute(id: nat, toMerchant: bool) returns (r: Result<()>)
      requires Valid()
      modifies this
      ensures Valid() && r == AutoResolve(old(State()), id, toMerchant).result
      ensures State() == Commit(old(State()), AutoResolve(old(State()), id, toMerchant))
      ensures r.Ok? <==> id in old(escrows) && old(escrows)[id].status.Disputed?
                         && 500 + (if old(escrows)[id].lastActivityAt == 0 then old(escrows)[id].disputeStartedAt
                                   else old(escrows)[id].lastActivityAt) <= now
      ensures r.Ok? ==> id in escrows && escrows[id] == old(escrows)[id].(status := if toMerchant then Released else Resolved)
      ensures r.Ok? ==> paid == old(paid) && OthersUntouched(old(State()), State(), id)
    {
      hide Inv, Accounted, Advance;
      AutoResolveKeeps(State(), id, toMerchant);
      if id !in escrows {
        return Err(NotFound);
      }
      var escrow := escrows[id];
      if !escrow.status.Disputed? {
        return Err(NotDisputed);
      }
      var last := if escrow.lastActivityAt == 0 then escrow.disputeStartedAt else escrow.lastActivityAt;
      if SaturatingSub(now, last) < 500 {
        return Err(TimeoutNotReached);
      }
      escrow := escrow.(status := if toMerchant then Released else Resolved);
      escrows := escrows[id := escrow];
      r := Ok(());
    }

    /** The body of the timeout resolution; after an error the changes made so far are still there. */
    method InternalTrigger(id: nat, net: Net) returns (r: Result<()>)
      requires Valid()
      modifies this, queue
      ensures Valid()
      ensures r == Trigger(old(State()), id, net).result && State() == Trigger(old(State()), id, net).state
    {
      hide Inv, Accounted, Advance, Dequeued;
      TriggerKeeps(State(), id, net);
      PaidKeys(State());
      if id !in escrows {
        return Err(NotFound);
      }
      var escrow := escrows[id];
      if !escrow.status.Disputed? {
        return Err(NotDisputed);
      }
      if escrow.escalatedAt.None? {
        return Err(InvalidStatus);
      }
      if SaturatingSub(now, escrow.escalatedAt.value) < escrow.escalationTimeout {
        return Err(TimeoutNotReached);
      }
      match escrow.favor {
        case FavorCustomer =>
          escrows := escrows[id := escrow.(status := Resolved)];
          r := PayPrincipal(id, escrow.customer, net);
        case FavorMerchant =>
          escrows := escrows[id := escrow.(status := Released)];
          r := PayPrincipal(id, escrow.merchant, net);
        case SplitEqual =>
          escrows := escrows[id := escrow.(status := Resolved)];
          r := PayHalves(id, net);
      }
      if r.Err? {
        return;
      }
      queue.Dequeue(id);
    }

    method TriggerTimeoutResolution(id: nat, net: Net) returns (r: Result<()>)
      requires Valid()
      modifies this, queue
      ensures Valid() && r == Trigger(old(State()), id, net).result
      ensures State() == Commit(old(State()), Trigger(old(State()), id, net))
      ensures r.Ok? <==> EscalationScan.Due(old(State()), id) && FavorUnrefused(old(escrows)[id], id, net)
      ensures r.Ok? ==> id in escrows && id !in queue.deadlineOf
                        && PaidByFavor(old(escrows)[id], escrows[id], PaidFor(State(), id), id, net)
      ensures r.Ok? ==> OthersUntouched(old(State()), State(), id)
    {
      hide Inv, Trigger, EscalationScan.Due, FavorUnrefused, PaidByFavor;
      var saved := State();
      TimeoutPays(saved, id, net);
      r := InternalTrigger(id, net);
      if r.Err? {
        Restore(saved);
      }
    }

    /** Tries the escrows of one due bucket and returns those that stay in it. */
    method DrainBucket(deadline: nat, ids: seq<nat>, limit: nat, done: nat, net: Net,
                       ghost earlier: seq<nat>, ghost later: seq<nat>, ghost rest: seq<Entry>)
      returns (remainingIds: seq<nat>, processed: nat)
      requires Valid() && deadline <= now
      requires queue.index == earlier + [deadline] + later && ids == Bucket(queue.buckets, deadline) && ids != []
      modifies this, queue
      ensures Valid() && now == old(now)
      ensures Walk(State(), rest, limit, processed, net) ==
              Walk(old(State()), BucketEntries(deadline, ids) + rest, limit, done, net)
      ensures Bucket(queue.buckets, deadline) == remainingIds
      ensures queue.index == earlier + (if remainingIds == [] then [] else [deadline]) + later
      ensures forall d :: d != deadline ==> Bucket(queue.buckets, d) == Bucket(old(queue.buckets), d)
    {
      hide Inv, Walk, Trigger, Dequeued, BucketEntries, WellFormed;
      ghost var goal := Walk(State(), BucketEntries(deadline, ids) + rest, limit, done, net);
      remainingIds := [];
      processed := done;
      var j := 0;
      ghost var pending := ids;
      while j < |ids|
        invariant j <= |ids| && pending == ids[j..] && Valid() && now == old(now)
        invariant Bucket(queue.buckets, deadline) == remainingIds + pending
        invariant queue.index == earlier + (if remainingIds + pending == [] then [] else [deadline]) + later
        invariant forall d :: d != deadline ==> Bucket(queue.buckets, d) == Bucket(old(queue.buckets), d)
        invariant Walk(State(), BucketEntries(deadline, pending) + rest, limit, processed, net) == goal
      {
        var id := ids[j];
        Uncons(ids, j);
        ghost var after := ids[j + 1..];
        ghost var tail := BucketEntries(deadline, after) + rest;
        BucketEntriesCons(deadline, id, after, rest);
        assert remainingIds + pending == remainingIds + [id] + after;
        if processed >= limit {
          WalkExhausted(State(), BucketEntries(deadline, pending) + rest, limit, processed, net);
          WalkExhausted(State(), tail, limit, processed, net);
          remainingIds := remainingIds + [id];
        } else {
          WalkNext(State(), Entry(deadline, id), tail, limit, processed, net);
          TriggerQueue(State(), id, net);
          IndexDistinct(State());
          DequeueMiddle(State().queue, deadline, earlier, later, remainingIds, id, after);
          var r := InternalTrigger(id, net);
          if r.Ok? {
            processed := processed + 1;
          } else {
            remainingIds := remainingIds + [id];
          }
        }
        pending := after;
        j := j + 1;
      }
      assert pending == [];
      NoEntries(deadline, rest);
      assert remainingIds + pending == remainingIds;
    }

    /** Copies the deadlines that are not due yet. */
    static method AppendFrom(kept: seq<nat>, index: seq<nat>, start: nat) returns (r: seq<nat>)
      requires start <= |index|
      ensures r == kept + index[start..]
    {
      r := kept;
      var i := start;
      while i < |index|
        invariant start <= i <= |index| && r + index[i..] == kept + index[start..]
      {
        assert index[i..] == [index[i]] + index[i + 1..];
        r := r + [index[i]];
        i := i + 1;
      }
    }

    /** One due bucket, written back at the end: nothing is left to be changed by that. The
        deadline joins the remaining index when its bucket is not empty. */
    method ProcessBucket(deadline: nat, limit: nat, done: nat, net: Net, remaining: seq<nat>,
                         ghost later: seq<nat>, ghost rest: seq<Entry>)
      returns (remainingIndex: seq<nat>, processed: nat)
      requires Valid() && deadline <= now
      requires queue.index == remaining + ([deadline] + later)
      modifies this, queue
      ensures Valid() && now == old(now)
      ensures Walk(State(), rest, limit, processed, net) ==
              Walk(old(State()), BucketEntries(deadline, Bucket(old(queue.buckets), deadline)) + rest, limit, done, net)
      ensures queue.index == remainingIndex + later
      ensures forall d :: d != deadline ==> Bucket(queue.buckets, d) == Bucket(old(queue.buckets), d)
    {
      hide Inv, Walk, BucketEntries, WellFormed;
      assert deadline in queue.index;
      assert queue.index == remaining + [deadline] + later;
      HeadBucket(State(), deadline);
      var ids := if deadline in queue.buckets then queue.buckets[deadline] else [];
      var remainingIds: seq<nat>;
      remainingIds, processed := DrainBucket(deadline, ids, limit, done, net, remaining, later, rest);
      ghost var left := State();
      if remainingIds != [] {
        assert queue.buckets[deadline := remainingIds] == queue.buckets;
        queue.buckets := queue.buckets[deadline := remainingIds];
        remainingIndex := remaining + [deadline];
      } else {
        DrainedAbsent(State(), deadline);
        DropMissing(queue.buckets, deadline);
        queue.buckets := queue.buckets - {deadline};
        remainingIndex := remaining;
        assert queue.index == remaining + later;
      }
      assert State() == left;
    }

    /** Walks copies of the index and of each due bucket while the resolutions change the stored
        ones. What it writes back is what the resolutions left: the outcome is that of triggering
        one entry after the other. */
    method ProcessEscalationTimeouts(limit: nat, net: Net) returns (processed: nat)
      requires Valid()
      modifies this, queue
      ensures Valid() && (State(), processed) == Process(old(State()), limit, net)
      ensures AttemptsPaid(old(State()), State(), EscalationScan.Chosen(old(State()), Entries(old(State()).queue), limit, net), net)
    {
      hide Inv, Walk, Flatten, BucketEntries, WellFormed, Bucket, Distinct, SameOn, Process, EscalationScan.Chosen, AttemptsPaid;
      ProcessPays(State(), limit, net);
      StartWalk(State(), limit, net);
      var index := queue.index;
      ghost var buckets := queue.buckets;
      ghost var goal := Process(State(), limit, net);
      ghost var pending := index;
      processed := 0;
      var remainingIndex: seq<nat> := [];
      var i := 0;
      while i < |index|
        invariant i <= |index| && pending == index[i..] && Valid() && now == old(now)
        invariant queue.index == remainingIndex + pending
        invariant SameOn(pending, queue.buckets, buckets)
        invariant Walk(State(), Flatten(pending, buckets), limit, processed, net) == goal
      {
        var deadline := index[i];
        Uncons(index, i);
        ghost var later := index[i + 1..];
        FlattenCons(deadline, later, buckets);
        HeadInQueue(State(), remainingIndex, deadline, later, buckets);
        if deadline > now {
          WalkExhausted(State(), Flatten(pending, buckets), limit, processed, net);
          remainingIndex := AppendFrom(remainingIndex, index, i);
          assert remainingIndex == queue.index;
          queue.index := remainingIndex;
          return;
        }
        ghost var before := queue.buckets;
        remainingIndex, processed := ProcessBucket(deadline, limit, processed, net, remainingIndex, later, Flatten(later, buckets));
        SameOnTail(deadline, later, before, queue.buckets, buckets);
        pending := later;
        i := i + 1;
      }
      assert pending == [];
      NoBuckets(buckets);
      WalkExhausted(State(), [], limit, processed, net);
      assert remainingIndex == queue.index;
      queue.index := remainingIndex;
    }

    // ----- Settling by decision, release, refund and expiry -----

    method InternalResolveDispute(id: nat, toMerchant: bool, net: Net) returns (r: Result<()>)
      requires Valid()
      modifies this, queue
      ensures Valid()
      ensures r == ResolveDispute(old(State()), id, toMerchant, net).result && State() == ResolveDispute(old(State()), id, toMerchant, net).state
    {
      hide Inv, Accounted, Advance, Dequeued, FeeLegs;
      ResolveKeeps(State(), id, toMerchant, net);
      PaidKeys(State());
      if id !in escrows {
        return Err(NotFound);
      }
      var escrow := escrows[id];
      match escrow.status {
        case Disputed => escrow := escrow.(status := if toMerchant then Released else Resolved);
        case _ => return Err(NotDisputed);
      }
      escrows := escrows[id := escrow];
      queue.Dequeue(id);
      r := PayPrincipal(id, if toMerchant then escrow.merchant else escrow.customer, net);
    }

    method ResolveDisputedEscrow(id: nat, toMerchant: bool, net: Net) returns (r: Result<()>)
      requires Valid()
      modifies this, queue
      ensures Valid() && r == ResolveDispute(old(State()), id, toMerchant, net).result
      ensures State() == Commit(old(State()), ResolveDispute(old(State()), id, toMerchant, net))
      ensures r.Err? ==> State() == old(State())
      ensures r.Ok? ==> id in old(escrows) && id !in queue.deadlineOf
      ensures r.Ok? <==> id in old(escrows) && old(escrows)[id].status.Disputed? && !net(id, Principal).Refused?
      ensures r.Ok? ==> id in escrows && PaidToSide(old(escrows)[id], escrows[id], PaidFor(State(), id), toMerchant, id, net)
      ensures r.Ok? ==> OthersUntouched(old(State()), State(), id)
    {
      hide Inv, ResolveDispute, DisputeLegs, DisputeStatus, Landed, PaidToSide;
      var saved := State();
      ResolveEffect(saved, id, toMerchant, net);
      DecisionPays(saved, id, toMerchant, net);
      r := InternalResolveDispute(id, toMerchant, net);
      if r.Err? {
        Restore(saved);
      }
    }

    /** The dispute resolution of an executed admin proposal: it leaves the queue alone. */
    method InternalDispatchResolve(id: nat, toMerchant: bool, net: Net) returns (r: Result<()>)
      requires Valid()
      modifies this, queue
      ensures Valid()
      ensures r == DispatchResolve(old(State()), id, toMerchant, net).result && State() == DispatchResolve(old(State()), id, toMerchant, net).state
    {
      hide Inv, Accounted, Advance, Dequeued, FeeLegs;
      ResolveKeeps(State(), id, toMerchant, net);
      PaidKeys(State());
      if id !in escrows {
        return Err(NotFound);
      }
      var escrow := escrows[id];
      match escrow.status {
        case Disputed => escrow := escrow.(status := if toMerchant then Released else Resolved);
        case _ => return Err(NotDisputed);
      }
      escrows := escrows[id := escrow];
      if toMerchant {
        r := PayPrincipal(id, escrow.merchant, net);
      } else {
        r := PayPrincipal(id, escrow.customer, net);
      }
    }

    method ExecuteResolveProposal(id: nat, toMerchant: bool, net: Net) returns (r: Result<()>)
      requires Valid()
      modifies this, queue
      ensures Valid() && r == DispatchResolve(old(State()), id, toMerchant, net).result
      ensures State() == Commit(old(State()), DispatchResolve(old(State()), id, toMerchant, net))
      ensures r.Err? ==> State() == old(State())
      ensures r.Ok? ==> id in old(escrows) && queue.deadlineOf == old(queue.deadlineOf)
      ensures r.Ok? <==> id in old(escrows) && old(escrows)[id].status.Disputed? && !net(id, Principal).Refused?
      ensures r.Ok? ==> id in escrows && PaidToSide(old(escrows)[id], escrows[id], PaidFor(State(), id), toMerchant, id, net)
      ensures r.Ok? ==> OthersUntouched(old(State()), State(), id)
    {
      hide Inv, DispatchResolve, DisputeLegs, DisputeStatus, Landed, PaidToSide;
      var saved := State();
      DispatchResolveEffect(saved, id, toMerchant, net);
      DecisionPays(saved, id, toMerchant, net);
      r := InternalDispatchResolve(id, toMerchant, net);
      if r.Err? {
        Restore(saved);
      }
    }

    /** The checks that come before any change. They let through exactly the locked escrows whose time
        has come and whose children and sub-accounts are content; and whatever they refuse, every
        release refuses with the same error and without a change. */
    method CanRelease(id: nat, early: bool, gate: Gate) returns (r: Result<()>)
      ensures r.Ok? <==> id in escrows && escrows[id].status.Locked? && TimeHasCome(State(), id, early)
                         && gate.childrenSettled && gate.subAccountsReleased
      ensures r.Err? ==> forall to, fr, net :: Release(State(), id, early, to, gate, fr, net) == Fail(State(), r.error)
    {
      hide FeeLegs, Settle;
      if id !in escrows {
        return Err(NotFound);
      }
      var escrow := escrows[id];
      if !gate.childrenSettled {
        return Err(ChildrenNotResolved);
      }
      if !gate.subAccountsReleased {
        return Err(InvalidStatus);
      }
      match escrow.status
      case Locked =>
        if !early {
          if now < escrow.releaseTimestamp {
            return Err(ReleaseNotYetAvailable);
          }
          if now < escrow.createdAt + escrow.minHoldPeriod {
            return Err(ReleaseOnHoldPeriod);
          }
        }
        r := Ok(());
      case Disputed => r := Err(InvalidStatus);
      case Released => r := Err(AlreadyProcessed);
      case Resolved => r := Err(AlreadyProcessed);
      case Cancelled => r := Err(AlreadyProcessed);
    }

    method InternalRelease(id: nat, early: bool, recipient: Option<Address>, gate: Gate, feeRecipient: Address, net: Net) returns (r: Result<()>)
      requires Valid()
      modifies this, queue
      ensures Valid()
      ensures r == Release(old(State()), id, early, recipient, gate, feeRecipient, net).result && State() == Release(old(State()), id, early, recipient, gate, feeRecipient, net).state
    {
      hide Inv, Accounted, Advance, Dequeued, FeeLegs;
      ReleaseKeeps(State(), id, early, recipient, gate, feeRecipient, net);
      PaidKeys(State());
      r := CanRelease(id, early, gate);
      if r.Err? {
        return;
      }
      if !gate.approvalsMet {
        return Err(ApprovalsThresholdNotMet);
      }
      var escrow := escrows[id].(status := Released);
      escrows := escrows[id := escrow];
      r := PayWithFee(id, if recipient.Some? then recipient.value else escrow.merchant, feeRecipient, net);
      SameFeeLegs(old(escrows[id]), escrow, if recipient.Some? then recipient.value else escrow.merchant, feeRecipient);
    }

    method ReleaseEscrow(id: nat, early: bool, recipient: Option<Address>, gate: Gate, feeRecipient: Address, net: Net) returns (r: Result<()>)
      requires Valid()
      modifies this, queue
      ensures Valid() && r == Release(old(State()), id, early, recipient, gate, feeRecipient, net).result
      ensures State() == Commit(old(State()), Release(old(State()), id, early, recipient, gate, feeRecipient, net))
      ensures r.Err? ==> State() == old(State())
      ensures r.Ok? <==> id in old(escrows) && old(escrows)[id].status.Locked? && TimeHasCome(old(State()), id, early)
                         && gate.childrenSettled && gate.subAccountsReleased && gate.approvalsMet && FeeUnrefused(old(escrows)[id], id, net)
      ensures r.Ok? ==> id in escrows && PaidLessFee(old(escrows)[id], escrows[id], PaidFor(State(), id),
                if recipient.Some? then recipient.value else old(escrows)[id].merchant, feeRecipient, id, net)
      ensures r.Ok? ==> OthersUntouched(old(State()), State(), id)
    {
      hide Inv, Release, PaidLessFee, FeeUnrefused, TimeHasCome;
      var saved := State();
      ReleasePays(saved, id, early, recipient, gate, feeRecipient, net);
      r := InternalRelease(id, early, recipient, gate, feeRecipient, net);
      if r.Err? {
        Restore(saved);
      }
    }

    /** Releases up to twenty escrows; a failure is reported with its error and what it stored stays. */
    method BatchReleaseEscrows(ids: seq<nat>, recipient: Option<Address>, gates: nat -> Gate, feeRecipient: Address, net: Net)
      returns (r: Result<(seq<nat>, seq<nat>, seq<Error>)>)
      requires Valid()
      modifies this, queue
      ensures Valid()
      ensures |ids| > 20 ==> r == Err(BatchReleaseSizeLimitExceeded) && State() == old(State())
      ensures |ids| <= 20 ==> r.Ok?
      ensures r.Ok? ==> (State(), r.value.0, r.value.1, r.value.2) == ReleaseAll(old(State()), ids, recipient, gates, feeRecipient, net)
      ensures r.Ok? ==> forall id :: BatchOutcome(old(State()), State(), r.value.0, id, recipient, feeRecipient, net)
    {
      hide Inv, Release, BatchOutcome;
      if |ids| > 20 {
        return Err(BatchReleaseSizeLimitExceeded);
      }
      var succeeded: seq<nat>, failed: seq<nat>, errors: seq<Error> := [], [], [];
      for i := 0 to |ids|
        invariant Valid()
        invariant (State(), succeeded, failed, errors) == ReleaseAll(old(State()), ids[..i], recipient, gates, feeRecipient, net)
      {
        assert ids[..i + 1][..i] == ids[..i];
        var released := InternalRelease(ids[i], false, recipient, gates(i), feeRecipient, net);
        if released.Ok? {
          succeeded := succeeded + [ids[i]];
        } else {
          failed := failed + [ids[i]];
          errors := errors + [released.error];
        }
      }
      assert ids[..|ids|] == ids;
      forall id ensures BatchOutcome(old(State()), State(), succeeded, id, recipient, feeRecipient, net) {
        BatchPays(old(State()), ids, recipient, gates, feeRecipient, net, id);
      }
      r := Ok((succeeded, failed, errors));
    }

    /** The release of an executed admin proposal: neither children nor signers are asked. */
    method InternalDispatchRelease(id: nat, early: bool, feeRecipient: Address, net: Net) returns (r: Result<()>)
      requires Valid()
      modifies this, queue
      ensures Valid()
      ensures r == DispatchRelease(old(State()), id, early, feeRecipient, net).result && State() == DispatchRelease(old(State()), id, early, feeRecipient, net).state
    {
      hide Inv, Accounted, Advance, Dequeued, FeeLegs;
      DispatchReleaseKeeps(State(), id, early, feeRecipient, net);
      PaidKeys(State());
      if id !in escrows {
        return Err(NotFound);
      }
      var escrow := escrows[id];
      match escrow.status {
        case Locked =>
          if !early {
            if now < escrow.releaseTimestamp {
              return Err(ReleaseNotYetAvailable);
            }
            if now < escrow.createdAt + escrow.minHoldPeriod {
              return Err(ReleaseOnHoldPeriod);
            }
          }
          escrow := escrow.(status := Released);
        case Disputed => return Err(InvalidStatus);
        case _ => return Err(AlreadyProcessed);
      }
      escrows := escrows[id := escrow];
      r := PayWithFee(id, escrow.merchant, feeRecipient, net);
      SameFeeLegs(old(escrows[id]), escrow, escrow.merchant, feeRecipient);
    }

    method ExecuteReleaseProposal(id: nat, early: bool, feeRecipient: Address, net: Net) returns (r: Result<()>)
      requires Valid()
      modifies this, queue
      ensures Valid() && r == DispatchRelease(old(State()), id, early, feeRecipient, net).result
      ensures State() == Commit(old(State()), DispatchRelease(old(State()), id, early, feeRecipient, net))
      ensures r.Err? ==> State() == old(State())
      ensures r.Ok? <==> id in old(escrows) && old(escrows)[id].status.Locked? && TimeHasCome(old(State()), id, early)
                         && FeeUnrefused(old(escrows)[id], id, net)
      ensures r.Ok? ==> id in escrows && PaidLessFee(old(escrows)[id], escrows[id], PaidFor(State(), id),
                old(escrows)[id].merchant, feeRecipient, id, net)
      ensures r.Ok? ==> OthersUntouched(old(State()), State(), id)
    {
      hide Inv, DispatchRelease, PaidLessFee, FeeUnrefused, TimeHasCome;
      var saved := State();
      DispatchReleasePays(saved, id, early, feeRecipient, net);
      r := InternalDispatchRelease(id, early, feeRecipient, net);
      if r.Err? {
        Restore(saved);
      }
    }

    method InternalRefund(caller: Address, id: nat, net: Net) returns (r: Result<()>)
      requires Valid()
      modifies this, queue
      ensures Valid()
      ensures r == Refund(old(State()), caller, id, net).result && State() == Refund(old(State()), caller, id, net).state
    {
      hide Inv, Accounted, Advance, Dequeued, FeeLegs;
      RefundKeeps(State(), caller, id, net);
      PaidKeys(State());
      if id !in escrows {
        return Err(NotFound);
      }
      var escrow := escrows[id];
      if escrow.customer != caller && escrow.merchant != caller {
        return Err(Unauthorized);
      }
      match escrow.status {
        case Locked =>
          if now < escrow.createdAt + escrow.minHoldPeriod {
            return Err(ReleaseOnHoldPeriod);
          }
          escrow := escrow.(status := Resolved);
        case Disputed => escrow := escrow.(status := Resolved);
        case _ => return Err(AlreadyProcessed);
      }
      escrows := escrows[id := escrow];
      r := PayPrincipal(id, escrow.customer, net);
    }

    method RefundEscrow(caller: Address, id: nat, net: Net) returns (r: Result<()>)
      requires Valid()
      modifies this, queue
      ensures Valid() && r == Refund(old(State()), caller, id, net).result
      ensures State() == Commit(old(State()), Refund(old(State()), caller, id, net))
      ensures r.Err? ==> State() == old(State())
      ensures r.Ok? <==> id in old(escrows) && (caller == old(escrows)[id].customer || caller == old(escrows)[id].merchant)
                         && (old(escrows)[id].status.Disputed?
                             || (old(escrows)[id].status.Locked? && old(escrows)[id].createdAt + old(escrows)[id].minHoldPeriod <= old(now)))
                         && !net(id, Principal).Refused?
      ensures r.Ok? ==> id in escrows && escrows[id] == old(escrows)[id].(status := Resolved)
                        && WholeTo(old(escrows)[id], PaidFor(State(), id), old(escrows)[id].customer, id, net)
      ensures r.Ok? ==> OthersUntouched(old(State()), State(), id)
    {
      hide Inv, Refund, WholeTo, BackLegs, Landed;
      var saved := State();
      RefundEffect(saved, caller, id, net);
      BackPays(saved, caller, id, net);
      r := InternalRefund(caller, id, net);
      if r.Err? {
        Restore(saved);
      }
    }

    method InternalWatchdogRelease(id: nat, w: Watchdog, net: Net) returns (r: Result<()>)
      requires Valid()
      modifies this, queue
      ensures Valid()
      ensures r == WatchdogRelease(old(State()), id, w, net).result && State() == WatchdogRelease(old(State()), id, w, net).state
    {
      hide Inv, Accounted, Advance, Dequeued, FeeLegs;
      WatchdogKeeps(State(), id, w, net);
      PaidKeys(State());
      if !w.enabled || id !in escrows || !escrows[id].status.Locked? {
        return Err(NotReady);
      }
      var escrow := escrows[id];
      if now < escrow.releaseTimestamp + w.inactivitySeconds {
        return Err(NotReady);
      }
      var releasedTo := if w.favorCustomer then escrow.customer else escrow.merchant;
      escrow := escrow.(status := if w.favorCustomer then Resolved else Released);
      escrows := escrows[id := escrow];
      r := PayPrincipal(id, releasedTo, net);
    }

    method TriggerWatchdogRelease(id: nat, w: Watchdog, net: Net) returns (r: Result<()>)
      requires Valid()
      modifies this, queue
      ensures Valid() && r == WatchdogRelease(old(State()), id, w, net).result
      ensures State() == Commit(old(State()), WatchdogRelease(old(State()), id, w, net))
      ensures r.Err? ==> State() == old(State())
      ensures r.Ok? <==> w.enabled && id in old(escrows) && old(escrows)[id].status.Locked?
                         && old(escrows)[id].releaseTimestamp + w.inactivitySeconds <= old(now) && !net(id, Principal).Refused?
      ensures r.Ok? ==> id in escrows && PaidToSide(old(escrows)[id], escrows[id], PaidFor(State(), id), !w.favorCustomer, id, net)
      ensures r.Ok? ==> OthersUntouched(old(State()), State(), id)
    {
      hide Inv, WatchdogRelease, DisputeLegs, DisputeStatus, Landed, PaidToSide;
      var saved := State();
      WatchdogEffect(saved, id, w, net);
      WatchdogPays(saved, id, w, net);
      r := InternalWatchdogRelease(id, w, net);
      if r.Err? {
        Restore(saved);
      }
    }

    /** `met` is whether the foreign contract's state has the expected value. */
    method InternalEvaluate(id: nat, met: bool, feeRecipient: Address, net: Net) returns (r: Result<()>)
      requires Valid()
      modifies this, queue
      ensures Valid()
      ensures r == Evaluate(old(State()), id, met, feeRecipient, net).result && State() == Evaluate(old(State()), id, met, feeRecipient, net).state
    {
      hide Inv, Accounted, Advance, Dequeued, FeeLegs;
      EvaluateKeeps(State(), id, met, feeRecipient, net);
      PaidKeys(State());
      if id !in conditions {
        return Err(ConditionalEscrowNotFound);
      }
      if conditions[id].evaluated {
        return Err(ConditionAlreadyEvaluated);
      }
      if id !in escrows {
        return Err(NotFound);
      }
      var escrow := escrows[id];
      if !escrow.status.Locked? {
        return Err(InvalidStatus);
      }
      conditions := conditions[id := Condition(true, met)];
      r := Ok(());
      if met {
        escrow := escrow.(status := Released);
        escrows := escrows[id := escrow];
        r := PayWithFee(id, escrow.merchant, feeRecipient, net);
        SameFeeLegs(old(escrows[id]), escrow, escrow.merchant, feeRecipient);
      }
    }

    /** Returns whether the condition was met. */
    method EvaluateAndRelease(id: nat, met: bool, feeRecipient: Address, net: Net) returns (r: Result<bool>)
      requires Valid()
      modifies this, queue
      ensures Valid() && State() == Commit(old(State()), Evaluate(old(State()), id, met, feeRecipient, net))
      ensures var o := Evaluate(old(State()), id, met, feeRecipient, net); r == if o.result.Ok? then Ok(met) else Err(o.result.error)
      ensures r.Err? ==> State() == old(State())
      ensures r.Ok? ==> id in old(escrows) && id in conditions && conditions[id] == Condition(true, met)
      ensures r.Ok? <==> id in old(conditions) && !old(conditions)[id].evaluated && id in old(escrows) && old(escrows)[id].status.Locked?
                         && (met ==> FeeUnrefused(old(escrows)[id], id, net))
      ensures r == Ok(true) ==> id in escrows && OthersUntouched(old(State()), State(), id)
                                && PaidLessFee(old(escrows)[id], escrows[id], PaidFor(State(), id), old(escrows)[id].merchant, feeRecipient, id, net)
      ensures r == Ok(false) ==> escrows == old(escrows) && paid == old(paid)
    {
      hide Inv, Evaluate, PaidLessFee, FeeUnrefused;
      var saved := State();
      EvaluationPays(saved, id, met, feeRecipient, net);
      var done := InternalEvaluate(id, met, feeRecipient, net);
      if done.Err? {
        Restore(saved);
        return Err(done.error);
      }
      r := Ok(met);
    }

    method InternalExpire(id: nat, net: Net) returns (r: Result<()>)
      requires Valid()
      modifies this, queue
      ensures Valid()
      ensures r == Expire(old(State()), id, net).result && State() == Expire(old(State()), id, net).state
    {
      hide Inv, Accounted, Advance, Dequeued, FeeLegs;
      ExpireKeeps(State(), id, net);
      PaidKeys(State());
      if id !in escrows {
        return Err(NotFound);
      }
      var escrow := escrows[id];
      match escrow.status {
        case Locked =>
        case Disputed => return Err(InvalidStatus);
        case _ => return Err(EscrowAlreadyExpired);
      }
      if escrow.expiryTimestamp == 0 || now < escrow.expiryTimestamp {
        return Err(EscrowNotExpired);
      }
      escrow := escrow.(status := Cancelled);
      escrows := escrows[id := escrow];
      r := PayPrincipal(id, escrow.customer, net);
    }

    method ExpireEscrow(id: nat, net: Net) returns (r: Result<()>)
      requires Valid()
      modifies this, queue
      ensures Valid() && r == Expire(old(State()), id, net).result
      ensures State() == Commit(old(State()), Expire(old(State()), id, net))
      ensures r.Err? ==> State() == old(State())
      ensures r.Ok? <==> id in old(escrows) && old(escrows)[id].status.Locked?
                         && old(escrows)[id].expiryTimestamp != 0 && old(escrows)[id].expiryTimestamp <= old(now) && !net(id, Principal).Refused?
      ensures r.Ok? ==> id in escrows && escrows[id] == old(escrows)[id].(status := Cancelled)
                        && WholeTo(old(escrows)[id], PaidFor(State(), id), old(escrows)[id].customer, id, net)
      ensures r.Ok? ==> OthersUntouched(old(State()), State(), id)
    {
      hide Inv, Expire, WholeTo, BackLegs, Landed;
      var saved := State();
      ExpireEffect(saved, id, net);
      BackPays(saved, Address(0), id, net);
      r := InternalExpire(id, net);
      if r.Err? {
        Restore(saved);
      }
    }
  }
}
