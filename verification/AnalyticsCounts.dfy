/** The global ledger against the escrow records themselves. */
module AnalyticsCounts {
  import opened Common
  import EscalationQueue
  import opened Lifecycle
  import LifecycleLaws
  import Appeals
  import Vesting
  import opened Analytics

  /** What one escrow justifies in the global ledger. */
  function Standing(e: Escrow, offBook: bool): Ledger {
    var settled := LifecycleLaws.Settled(e);
    Ledger(if offBook then 0 else 1, if offBook then 0 else e.amount,
           if settled then 1 else 0, if settled then e.amount else 0, if e.disputeStartedAt != 0 then 1 else 0, 0)
  }

  function Justified(core: Lifecycle.State, n: nat): Ledger {
    if n == 0 then ZERO
    else Add(Justified(core, n - 1), if n in core.escrows then Standing(core.escrows[n], n in OffBookIds(core)) else ZERO)
  }

  ghost predicate NonNegativeAmounts(escrows: map<nat, Escrow>) {
    forall id :: id in escrows ==> escrows[id].amount >= 0
  }

  ghost predicate SettledNonNegative(escrows: map<nat, Escrow>) {
    forall id :: id in escrows && LifecycleLaws.Settled(escrows[id]) ==> escrows[id].amount >= 0
  }

  /** Creations and disputes are counted exactly, and no release that the records do not show. */
  ghost predicate Covered(g: Ledger, core: Lifecycle.State) {
    var j := Justified(core, core.counter);
    && g.created == j.created && g.valueLocked == j.valueLocked && g.disputes == j.disputes
    && g.released <= j.released && (SettledNonNegative(core.escrows) ==> g.valueReleased <= j.valueReleased)
  }

  /** Ids are given out without gaps, ids off the books belong to escrows, and the clock is running. */
  ghost predicate Dense(core: Lifecycle.State) {
    && (forall id: nat :: id in core.escrows <==> 1 <= id <= core.counter)
    && OffBookIds(core) <= core.escrows.Keys
    && core.now > 0
  }

  // ----- Records that change -----

  /** Escrows only move forward: none is added, and amounts, disputes and what is off the books stay. */
  ghost predicate Onward(core: Lifecycle.State, core': Lifecycle.State) {
    && core'.counter == core.counter && core'.escrows.Keys == core.escrows.Keys && OffBookIds(core') == OffBookIds(core)
    && core.now <= core'.now
    && forall id :: id in core.escrows ==>
         && core'.escrows[id].amount == core.escrows[id].amount
         && core'.escrows[id].disputeStartedAt == core.escrows[id].disputeStartedAt
         && LifecycleLaws.Rank(core.escrows[id].status) <= LifecycleLaws.Rank(core'.escrows[id].status)
  }

  lemma OnwardReflexive(core: Lifecycle.State)
    ensures Onward(core, core)
  {}

  lemma OnwardTransitive(a: Lifecycle.State, b: Lifecycle.State, c: Lifecycle.State)
    requires Onward(a, b) && Onward(b, c)
    ensures Onward(a, c)
  {
    forall id | id in a.escrows
      ensures && c.escrows[id].amount == a.escrows[id].amount && c.escrows[id].disputeStartedAt == a.escrows[id].disputeStartedAt
              && LifecycleLaws.Rank(a.escrows[id].status) <= LifecycleLaws.Rank(c.escrows[id].status)
    {
      assert id in b.escrows.Keys;
    }
  }

  lemma {:induction false} JustifiedOnward(core: Lifecycle.State, core': Lifecycle.State, n: nat)
    requires Onward(core, core')
    ensures var j, j' := Justified(core, n), Justified(core', n);
            && j'.created == j.created && j'.valueLocked == j.valueLocked && j'.disputes == j.disputes && j'.released >= j.released
            && (SettledNonNegative(core'.escrows) ==> j'.valueReleased >= j.valueReleased)
  {
    hide Standing;
    if n > 0 {
      JustifiedOnward(core, core', n - 1);
      assert n in core.escrows.Keys <==> n in core'.escrows.Keys;
      if n in core.escrows {
        StandingOnward(core.escrows[n], core'.escrows[n], n in OffBookIds(core));
      }
    }
  }

  lemma StandingOnward(e: Escrow, e': Escrow, offBook: bool)
    requires e.amount == e'.amount && e.disputeStartedAt == e'.disputeStartedAt
    requires LifecycleLaws.Rank(e.status) <= LifecycleLaws.Rank(e'.status)
    ensures var j, j' := Standing(e, offBook), Standing(e', offBook);
            && j'.created == j.created && j'.valueLocked == j.valueLocked && j'.disputes == j.disputes && j'.released >= j.released
            && ((LifecycleLaws.Settled(e') ==> e'.amount >= 0) ==> j'.valueReleased >= j.valueReleased)
  {}

  lemma OnwardCovered(g: Ledger, core: Lifecycle.State, core': Lifecycle.State)
    requires Covered(g, core) && Onward(core, core') && Dense(core)
    ensures Covered(g, core') && Dense(core')
  {
    JustifiedOnward(core, core', core.counter);
    assert forall id: nat :: id in core.escrows.Keys <==> id in core'.escrows.Keys;
    if SettledNonNegative(core'.escrows) {
      SettledStays(core, core');
    }
  }

  lemma SettledStays(core: Lifecycle.State, core': Lifecycle.State)
    requires Onward(core, core') && SettledNonNegative(core'.escrows)
    ensures SettledNonNegative(core.escrows)
  {
    forall id | id in core.escrows && LifecycleLaws.Settled(core.escrows[id]) ensures core.escrows[id].amount >= 0 {
      assert id in core'.escrows.Keys;
    }
  }

  /** One record changes, and what is off the books stays off them. */
  lemma {:induction false} JustifiedUpdate(core: Lifecycle.State, core': Lifecycle.State, id: nat, e: Escrow, n: nat)
    requires id in core.escrows && core'.escrows == core.escrows[id := e] && OffBookIds(core') == OffBookIds(core)
    ensures var j, j', c := Justified(core, n), Justified(core', n), id in OffBookIds(core);
            Add(j', if 1 <= id <= n then Standing(core.escrows[id], c) else ZERO) == Add(j, if 1 <= id <= n then Standing(e, c) else ZERO)
  {
    hide Standing;
    if n > 0 {
      JustifiedUpdate(core, core', id, e, n - 1);
    }
  }

  lemma UpdateDense(core: Lifecycle.State, core': Lifecycle.State, id: nat, e: Escrow)
    requires Dense(core) && id in core.escrows && core'.escrows == core.escrows[id := e] && core'.counter == core.counter
    requires OffBookIds(core') == OffBookIds(core) && core'.now == core.now
    ensures Dense(core')
    ensures (LifecycleLaws.Settled(core.escrows[id]) ==> e == core.escrows[id]) && SettledNonNegative(core'.escrows) ==>
              SettledNonNegative(core.escrows)
    ensures LifecycleLaws.Settled(e) && SettledNonNegative(core'.escrows) ==> e.amount >= 0
  {
    if (LifecycleLaws.Settled(core.escrows[id]) ==> e == core.escrows[id]) && SettledNonNegative(core'.escrows) {
      forall x | x in core.escrows && LifecycleLaws.Settled(core.escrows[x]) ensures core.escrows[x].amount >= 0 {
        assert x in core'.escrows;
      }
    }
    assert id in core'.escrows && core'.escrows[id] == e;
  }

  /** Settling an unsettled escrow justifies one more release of its amount. */
  lemma SettlingCovers(g: Ledger, core: Lifecycle.State, core': Lifecycle.State, id: nat, status: Status)
    requires Covered(g, core) && Dense(core) && id in core.escrows
    requires !LifecycleLaws.Settled(core.escrows[id]) && LifecycleLaws.Rank(status) == 2
    requires core'.escrows == core.escrows[id := core.escrows[id].(status := status)] && core'.counter == core.counter
    requires OffBookIds(core') == OffBookIds(core) && core'.now == core.now
    ensures Covered(Add(g, ReleasePosting(core.escrows[id]).global), core') && Dense(core')
  {
    var e := core.escrows[id].(status := status);
    JustifiedUpdate(core, core', id, e, core.counter);
    UpdateDense(core, core', id, e);
  }

  lemma DisputingCovers(g: Ledger, core: Lifecycle.State, core': Lifecycle.State, id: nat, e: Escrow)
    requires Covered(g, core) && Dense(core) && id in core.escrows
    requires core.escrows[id].disputeStartedAt == 0 && !LifecycleLaws.Settled(core.escrows[id])
    requires e.disputeStartedAt != 0 && e.amount == core.escrows[id].amount && !LifecycleLaws.Settled(e)
    requires core' == core.(escrows := core.escrows[id := e])
    ensures Covered(Add(g, DisputePosting(core.escrows[id]).global), core') && Dense(core')
  {
    JustifiedUpdate(core, core', id, e, core.counter);
    UpdateDense(core, core', id, e);
  }

  /** Changing the amount of a locked escrow changes what is locked on the books by as much. */
  lemma AmendingCovers(g: Ledger, core: Lifecycle.State, core': Lifecycle.State, id: nat, e: Escrow)
    requires Covered(g, core) && Dense(core) && id in core.escrows
    requires core.escrows[id].status.Locked? && e.status.Locked? && e.disputeStartedAt == core.escrows[id].disputeStartedAt
    requires core' == core.(escrows := core.escrows[id := e])
    ensures Covered(g.(valueLocked := g.valueLocked + DriftOf(core, core', id)), core') && Dense(core')
  {
    JustifiedUpdate(core, core', id, e, core.counter);
    UpdateDense(core, core', id, e);
  }

  /** A new record comes after all others. */
  lemma {:induction false} JustifiedBeyond(core: Lifecycle.State, core': Lifecycle.State, id: nat, e: Escrow, n: nat)
    requires id > n && core'.escrows == core.escrows[id := e]
    requires OffBookIds(core') == OffBookIds(core) || OffBookIds(core') == OffBookIds(core) + {id}
    ensures Justified(core', n) == Justified(core, n)
  {
    if n > 0 {
      JustifiedBeyond(core, core', id, e, n - 1);
    }
  }

  /** A new record is stored, on the books or off them. */
  ghost predicate Stores(core: Lifecycle.State, t: Terms, offBook: bool, core': Lifecycle.State) {
    && core' == Stored(core, t).(conditions := core'.conditions, scheduled := core'.scheduled)
    && OffBookIds(core') == OffBookIds(core) + if offBook then {core.counter + 1} else {}
  }

  lemma StoringDense(core: Lifecycle.State, t: Terms, offBook: bool, core': Lifecycle.State)
    requires Dense(core) && Stores(core, t, offBook, core')
    ensures Dense(core') && core.counter + 1 !in core.escrows && core.counter + 1 !in OffBookIds(core)
    ensures SettledNonNegative(core'.escrows) ==> SettledNonNegative(core.escrows)
  {
    if SettledNonNegative(core'.escrows) {
      forall x | x in core.escrows && LifecycleLaws.Settled(core.escrows[x]) ensures core.escrows[x].amount >= 0 {
        assert x in core'.escrows;
      }
    }
  }

  lemma JustifiedLast(core: Lifecycle.State, n: nat, e: Escrow)
    requires n > 0 && n in core.escrows && core.escrows[n] == e
    ensures Justified(core, n) == Add(Justified(core, n - 1), Standing(e, n in OffBookIds(core)))
  {}

  lemma NewStanding(t: Terms, now: nat, offBook: bool, j: Ledger)
    ensures Add(j, Standing(NewEscrow(t, now), offBook)) == if offBook then j else Add(j, CreationPosting(t).global)
  {}

  lemma StoringJustifies(core: Lifecycle.State, t: Terms, offBook: bool, core': Lifecycle.State)
    requires Dense(core) && Stores(core, t, offBook, core')
    ensures Justified(core', core'.counter) ==
            if offBook then Justified(core, core.counter) else Add(Justified(core, core.counter), CreationPosting(t).global)
  {
    var id := core.counter + 1;
    StoringDense(core, t, offBook, core');
    hide Dense, SettledNonNegative, Justified, NewEscrow, Standing, CreationPosting, OffBookIds;
    JustifiedBeyond(core, core', id, NewEscrow(t, core.now), core.counter);
    JustifiedLast(core', id, NewEscrow(t, core.now));
    NewStanding(t, core.now, offBook, Justified(core, core.counter));
  }

  lemma StoringCovers(g: Ledger, core: Lifecycle.State, t: Terms, offBook: bool, core': Lifecycle.State)
    requires Covered(g, core) && Dense(core) && Stores(core, t, offBook, core')
    ensures Covered(if offBook then g else Add(g, CreationPosting(t).global), core') && Dense(core')
  {
    StoringDense(core, t, offBook, core');
    StoringJustifies(core, t, offBook, core');
    hide Dense, SettledNonNegative, Justified, Stored, OffBookIds;
  }

  // ----- Calls that add no record -----

  lemma {:induction false} WalkOnward(core: Lifecycle.State, es: seq<EscalationQueue.Entry>, limit: nat, done: nat, net: Net)
    ensures Onward(core, Walk(core, es, limit, done, net).0)
    decreases |es|
  {
    hide TimeoutLegs, Pay;
    if !(es == [] || es[0].deadline > core.now || done >= limit) {
      var o := Trigger(core, es[0].id, net);
      assert Onward(core, o.state);
      WalkOnward(o.state, es[1..], limit, if o.result.Ok? then done + 1 else done, net);
      OnwardTransitive(core, o.state, Walk(core, es, limit, done, net).0);
    }
  }

  lemma {:induction false} ReleaseAllOnward(core: Lifecycle.State, ids: seq<nat>, to: Option<Address>, gates: nat -> Gate, fr: Address, net: Net)
    ensures Onward(core, ReleaseAll(core, ids, to, gates, fr, net).0)
    decreases |ids|
  {
    if ids != [] {
      var last := |ids| - 1;
      var s1 := ReleaseAll(core, ids[..last], to, gates, fr, net).0;
      ReleaseAllOnward(core, ids[..last], to, gates, fr, net);
      ReleaseOnward(s1, ids[last], false, to, gates(last), fr, net);
      hide Onward, Release;
      OnwardTransitive(core, s1, ReleaseAll(core, ids, to, gates, fr, net).0);
    }
  }

  lemma ReleaseOnward(core: Lifecycle.State, id: nat, early: bool, to: Option<Address>, gate: Gate, fr: Address, net: Net)
    ensures Onward(core, Release(core, id, early, to, gate, fr, net).state)
  {
    hide FeeLegs, Pay;
  }

  /** Apart from creations and disputes no call adds an escrow or a dispute or takes one back. */
  lemma CallOnward(core: Lifecycle.State, c: LifecycleLaws.Call)
    requires !LifecycleLaws.CreationOp(c.op) && !c.op.Disputing?
    requires LifecycleLaws.RecordsSound(core)
    ensures Onward(core, LifecycleLaws.Step(core, c))
  {
    hide Onward, Release, ReleaseAll, Walk, LifecycleLaws.RecordsSound;
    OnwardReflexive(core);
    match c.op {
      case Processing(limit) => WalkOnward(core, EscalationQueue.Entries(core.queue), limit, 0, c.net);
      case BatchReleasing(ids, to, gates, fr) => ReleaseAllOnward(core, ids, to, gates, fr, c.net);
      case Releasing(id, early, to, gate, fr) => CommittedRelease(core, id, early, to, gate, fr, c.net);
      case Ticking(seconds) => TickOnward(core, seconds);
      case Evaluating(id, met, fr) => EvaluateOnward(core, id, met, fr, c.net);
      case _ =>
        if c.op.DispatchingRelease? || c.op.Triggering? {
          PayingOnward(core, c);
        } else {
          OtherOnward(core, c);
        }
    }
  }

  lemma TickOnward(core: Lifecycle.State, seconds: nat)
    requires LifecycleLaws.RecordsSound(core)
    ensures Onward(core, core.(now := SaturatingAdd(core.now, seconds)))
  {}

  lemma EvaluateOnward(core: Lifecycle.State, id: nat, met: bool, fr: Address, net: Net)
    ensures Onward(core, Commit(core, Evaluate(core, id, met, fr, net)))
  {
    hide FeeLegs, Pay;
    var o := Evaluate(core, id, met, fr, net);
    if o.result.Ok? {
      assert core.conditions[id := Condition(true, met)].Keys == core.conditions.Keys;
    }
  }

  lemma CommittedRelease(core: Lifecycle.State, id: nat, early: bool, to: Option<Address>, gate: Gate, fr: Address, net: Net)
    ensures Onward(core, Commit(core, Release(core, id, early, to, gate, fr, net)))
  {
    hide Release;
    ReleaseOnward(core, id, early, to, gate, fr, net);
  }

  lemma PayingOnward(core: Lifecycle.State, c: LifecycleLaws.Call)
    requires c.op.DispatchingRelease? || c.op.Triggering?
    ensures Onward(core, LifecycleLaws.Step(core, c))
  {
    hide FeeLegs, TimeoutLegs, Pay, EscalationQueue.Dequeued;
  }

  lemma OtherOnward(core: Lifecycle.State, c: LifecycleLaws.Call)
    requires c.op.Escalating? || c.op.AutoResolving? || c.op.Resolving? || c.op.DispatchingResolve?
             || c.op.Refunding? || c.op.WatchdogReleasing? || c.op.Expiring?
    ensures Onward(core, LifecycleLaws.Step(core, c))
  {
    hide DisputeLegs, Pay, EscalationQueue.Enqueued, EscalationQueue.Dequeued;
  }

  // ----- Postings against the records -----

  function DeltaSum(ps: seq<Posting>): Ledger {
    if ps == [] then ZERO else Add(DeltaSum(ps[..|ps| - 1]), ps[|ps| - 1].global)
  }

  lemma {:induction false} PostAllGlobal(s: Books, ps: seq<Posting>)
    ensures PostAll(s, ps).global == Add(s.global, DeltaSum(ps)) && PostAll(s, ps).court == s.court
    decreases |ps|
  {
    if ps != [] {
      PostAllGlobal(s, ps[..|ps| - 1]);
    }
  }

  lemma OnePosting(p: Posting)
    ensures DeltaSum([p]) == p.global
  {
    assert [p][..0] == [];
  }

  lemma NoPostings(g: Ledger)
    ensures DeltaSum([]) == ZERO && Add(g, ZERO) == g
  {}

  lemma OneMoreDelta(ps: seq<Posting>, p: Posting, g: Ledger)
    ensures Add(g, DeltaSum(ps + [p])) == Add(Add(g, DeltaSum(ps)), p.global)
  {
    assert (ps + [p])[..|ps|] == ps;
  }

  // ----- Creations -----

  lemma {:induction false} BatchCreationCovered(g: Ledger, core: Lifecycle.State, entries: seq<BatchEntry>)
    requires Covered(g, core) && Dense(core)
    ensures Covered(Add(g, DeltaSum(PostCreations(core, entries))), CreateAll(core, entries).0) && Dense(CreateAll(core, entries).0)
    decreases |entries|
  {
    hide Covered, Dense, Stored, DeltaSum, BatchTerms;
    NoPostings(g);
    if entries != [] {
      var last := |entries| - 1;
      var core1 := CreateAll(core, entries[..last]).0;
      var ps := PostCreations(core, entries[..last]);
      BatchCreationCovered(g, core, entries[..last]);
      EntryCovers(Add(g, DeltaSum(ps)), core1, entries[last]);
      OneMoreDelta(ps, BatchCreationPosting(entries[last]), g);
      assert ps + [] == ps;
    }
  }

  lemma OnBook(core: Lifecycle.State, t: Terms)
    ensures Stores(core, t, false, Stored(core, t))
  {}

  lemma EntryCovers(g: Ledger, core: Lifecycle.State, entry: BatchEntry)
    requires Covered(g, core) && Dense(core)
    ensures var o := CreateEntry(core, entry);
            && Covered(if o.result.Ok? then Add(g, BatchCreationPosting(entry).global) else g, o.state) && Dense(o.state)
  {
    hide Covered, Dense;
    OnBook(core, BatchTerms(entry));
    StoringCovers(g, core, BatchTerms(entry), false, Stored(core, BatchTerms(entry)));
  }

  lemma CreationCovered(g: Ledger, core: Lifecycle.State, c: LifecycleLaws.Call)
    requires Covered(g, core) && Dense(core) && LifecycleLaws.CreationOp(c.op)
    ensures var core' := LifecycleLaws.Step(core, c);
            Covered(Add(g, DeltaSum(Postings(core, c))), core') && Dense(core')
  {
    hide Covered, Dense, DeltaSum, PostCreations;
    NoPostings(g);
    var core' := LifecycleLaws.Step(core, c);
    match c.op {
      case Creating(t) =>
        OnePosting(CreationPosting(t));
        OnBook(core, t);
        StoringCovers(g, core, t, false, Stored(core, t));
      case CreatingConditional(customer, merchant, amount, feeBps) =>
        ConditionalCovers(g, core, customer, merchant, amount, feeBps);
      case CreatingVesting(_, _, _, _, _, _, _) => VestingCovers(g, core, c);
      case CreatingBatch(entries, limit) => BatchCreationCovered(g, core, entries);
    }
  }

  lemma ConditionalCovers(g: Ledger, core: Lifecycle.State, customer: Address, merchant: Address, amount: int, feeBps: int)
    requires Covered(g, core) && Dense(core)
    ensures var core' := CreateConditional(core, customer, merchant, amount, feeBps).state; Covered(g, core') && Dense(core')
  {
    var core' := CreateConditional(core, customer, merchant, amount, feeBps).state;
    var t := ConditionalTerms(customer, merchant, amount, feeBps);
    assert Stores(core, t, true, core') by {
      assert core'.conditions.Keys == core.conditions.Keys + {core.counter + 1};
    }
    hide Covered, Dense, Stores;
    StoringCovers(g, core, t, true, core');
  }

  lemma VestingCovers(g: Ledger, core: Lifecycle.State, c: LifecycleLaws.Call)
    requires Covered(g, core) && Dense(core) && c.op.CreatingVesting?
    ensures var core' := LifecycleLaws.Step(core, c); Covered(g, core') && Dense(core')
  {
    var core' := LifecycleLaws.Step(core, c);
    if core' != core {
      var t := VestingTerms(c.op.customer, c.op.merchant, c.op.amount, c.op.feeBps, c.op.end);
      assert Stores(core, t, true, core') by {
        assert core'.scheduled == core.scheduled + {core.counter + 1};
      }
      hide Covered, Dense, Stores;
      StoringCovers(g, core, t, true, core');
    }
  }

  // ----- Disputes, releases and resolutions -----

  lemma DisputeCovered(g: Ledger, core: Lifecycle.State, c: LifecycleLaws.Call)
    requires Covered(g, core) && Dense(core) && c.op.Disputing? && NotDisputedBefore(core)
    ensures var core' := LifecycleLaws.Step(core, c);
            Covered(Add(g, DeltaSum(Postings(core, c))), core') && Dense(core')
  {
    var now := core.now;
    assert now > 0;
    hide Covered, Dense, DeltaSum;
    NoPostings(g);
    var id := c.op.id;
    if Dispute(core, c.op.caller, id).result.Ok? {
      DisputingCovers(g, core, LifecycleLaws.Step(core, c), id, LifecycleLaws.Step(core, c).escrows[id]);
      OnePosting(DisputePosting(core.escrows[id]));
    }
  }

  /** A locked escrow has not been disputed yet. */
  ghost predicate NotDisputedBefore(core: Lifecycle.State) {
    forall id :: id in core.escrows && core.escrows[id].status.Locked? ==> core.escrows[id].disputeStartedAt == 0
  }

  lemma NotDisputedOnward(core: Lifecycle.State, core': Lifecycle.State)
    requires Onward(core, core') && NotDisputedBefore(core)
    ensures NotDisputedBefore(core')
  {
    assert forall id :: id in core'.escrows.Keys ==> id in core.escrows;
  }

  lemma {:induction false} BatchNotDisputed(core: Lifecycle.State, entries: seq<BatchEntry>)
    requires NotDisputedBefore(core)
    ensures NotDisputedBefore(CreateAll(core, entries).0)
    decreases |entries|
  {
    if entries != [] {
      BatchNotDisputed(core, entries[..|entries| - 1]);
    }
  }

  lemma CallNotDisputed(core: Lifecycle.State, c: LifecycleLaws.Call)
    requires NotDisputedBefore(core) && LifecycleLaws.RecordsSound(core)
    ensures NotDisputedBefore(LifecycleLaws.Step(core, c))
  {
    match c.op {
      case Creating(_) => hide LifecycleLaws.RecordsSound;
      case CreatingConditional(_, _, _, _) => hide LifecycleLaws.RecordsSound;
      case CreatingVesting(_, _, _, _, _, _, _) => hide LifecycleLaws.RecordsSound, Vesting.Admissible;
      case CreatingBatch(entries, limit) => BatchNotDisputed(core, entries);
      case Disputing(_, _) => hide LifecycleLaws.RecordsSound;
      case _ =>
        hide LifecycleLaws.Step, NotDisputedBefore, LifecycleLaws.RecordsSound;
        CallOnward(core, c);
        NotDisputedOnward(core, LifecycleLaws.Step(core, c));
    }
  }

  /** A release that succeeds settles one locked escrow and touches no other record. */
  ghost predicate OnlyReleases(core: Lifecycle.State, core': Lifecycle.State, id: nat) {
    && id in core.escrows && core.escrows[id].status.Locked?
    && core'.escrows == core.escrows[id := core.escrows[id].(status := Released)] && core'.counter == core.counter
    && core'.conditions == core.conditions && core'.scheduled == core.scheduled && core'.now == core.now
  }

  lemma ReleaseSettles(core: Lifecycle.State, id: nat, early: bool, to: Option<Address>, gate: Gate, fr: Address, net: Net)
    requires Release(core, id, early, to, gate, fr, net).result.Ok?
    ensures OnlyReleases(core, Release(core, id, early, to, gate, fr, net).state, id)
  {
    hide FeeLegs, Pay;
  }

  lemma DispatchSettles(core: Lifecycle.State, id: nat, early: bool, fr: Address, net: Net)
    requires DispatchRelease(core, id, early, fr, net).result.Ok?
    ensures OnlyReleases(core, DispatchRelease(core, id, early, fr, net).state, id)
  {
    hide FeeLegs, Pay;
  }

  lemma ReleaseCovered(g: Ledger, core: Lifecycle.State, core': Lifecycle.State, id: nat, p: Posting)
    requires Covered(g, core) && Dense(core) && OnlyReleases(core, core', id) && p.global == ReleasePosting(core.escrows[id]).global
    ensures Covered(Add(g, DeltaSum([p])), core') && Dense(core')
  {
    hide Covered, Dense, DeltaSum;
    SettlingCovers(g, core, core', id, Released);
    OnePosting(p);
  }

  lemma {:induction false} BatchCovered(g: Ledger, core: Lifecycle.State, ids: seq<nat>, to: Option<Address>, gates: nat -> Gate, fr: Address, net: Net)
    requires Covered(g, core) && Dense(core)
    ensures var (core', succeeded, _, _) := ReleaseAll(core, ids, to, gates, fr, net);
            Covered(Add(g, DeltaSum(PostReleases(core.escrows, succeeded))), core') && Dense(core')
    decreases |ids|
  {
    hide Covered, Dense, Release, Onward;
    if ids == [] {
      NoPostings(g);
    } else {
      var last := |ids| - 1;
      var (s1, succeeded, _, _) := ReleaseAll(core, ids[..last], to, gates, fr, net);
      BatchCovered(g, core, ids[..last], to, gates, fr, net);
      ReleaseAllOnward(core, ids[..last], to, gates, fr, net);
      OneMoreRelease(g, core, s1, succeeded, ids[last], to, gates(last), fr, net);
    }
  }

  lemma OneMoreRelease(g: Ledger, core: Lifecycle.State, s1: Lifecycle.State, succeeded: seq<nat>, id: nat,
                       to: Option<Address>, gate: Gate, fr: Address, net: Net)
    requires Covered(Add(g, DeltaSum(PostReleases(core.escrows, succeeded))), s1) && Onward(core, s1) && Dense(s1)
    ensures var o := Release(s1, id, false, to, gate, fr, net);
            && Covered(Add(g, DeltaSum(PostReleases(core.escrows, if o.result.Ok? then succeeded + [id] else succeeded))), o.state)
            && Dense(o.state)
  {
    hide Covered, Dense, Release, DeltaSum, Standing;
    var o := Release(s1, id, false, to, gate, fr, net);
    var ps := PostReleases(core.escrows, succeeded);
    ReleaseOnward(s1, id, false, to, gate, fr, net);
    if o.result.Ok? {
      ReleaseSettles(s1, id, false, to, gate, fr, net);
      SettlingCovers(Add(g, DeltaSum(ps)), s1, o.state, id, Released);
      assert id in s1.escrows.Keys;
      assert (succeeded + [id])[..|succeeded|] == succeeded;
      OneMoreDelta(ps, ReleasePosting(core.escrows[id]), g);
    } else {
      OnwardCovered(Add(g, DeltaSum(ps)), s1, o.state);
    }
  }

  lemma ReleasesCovered(g: Ledger, core: Lifecycle.State, c: LifecycleLaws.Call)
    requires Covered(g, core) && Dense(core)
    requires c.op.Releasing? || c.op.DispatchingRelease? || c.op.BatchReleasing?
    ensures var core' := LifecycleLaws.Step(core, c);
            Covered(Add(g, DeltaSum(Postings(core, c))), core') && Dense(core')
  {
    hide Covered, Dense, Release, DispatchRelease, ReleaseAll, DeltaSum;
    NoPostings(g);
    match c.op {
      case Releasing(id, early, to, gate, fr) =>
        if Release(core, id, early, to, gate, fr, c.net).result.Ok? {
          ReleaseSettles(core, id, early, to, gate, fr, c.net);
          ReleaseCovered(g, core, Release(core, id, early, to, gate, fr, c.net).state, id, ReleasePosting(core.escrows[id]));
        }
      case DispatchingRelease(id, early, fr) =>
        if DispatchRelease(core, id, early, fr, c.net).result.Ok? {
          DispatchSettles(core, id, early, fr, c.net);
          ReleaseCovered(g, core, DispatchRelease(core, id, early, fr, c.net).state, id, ReleaseProposalPosting(core.escrows[id]));
        }
      case BatchReleasing(ids, to, gates, fr) =>
        if |ids| <= 20 {
          BatchCovered(g, core, ids, to, gates, fr, c.net);
        }
    }
  }

  /** A posting of nothing but a resolution. */
  lemma ResolutionCovers(g: Ledger, p: Posting, core: Lifecycle.State)
    requires Covered(g, core) && p.global == ZERO.(resolutions := 1)
    ensures Covered(Add(g, p.global), core)
  {}

  lemma ResolutionsCovered(g: Ledger, core: Lifecycle.State, c: LifecycleLaws.Call, core': Lifecycle.State)
    requires (c.op.Resolving? || c.op.DispatchingResolve?) && Covered(g, core')
    ensures Covered(Add(g, DeltaSum(Postings(core, c))), core')
  {
    hide Covered, ResolveDispute, DispatchResolve, DeltaSum;
    NoPostings(g);
    if c.op.id in core.escrows {
      var e := core.escrows[c.op.id];
      OnePosting(ResolutionPosting(e));
      OnePosting(ResolveProposalPosting(e));
      ResolutionCovers(g, ResolutionPosting(e), core');
    }
  }

  // ----- Whole runs -----

  /** What a call posts is covered by what it does to the records. */
  lemma CallCovered(g: Ledger, core: Lifecycle.State, c: LifecycleLaws.Call)
    requires Covered(g, core) && Dense(core) && NotDisputedBefore(core) && LifecycleLaws.RecordsSound(core)
    ensures var core' := LifecycleLaws.Step(core, c);
            Covered(Add(g, DeltaSum(Postings(core, c))), core') && Dense(core')
  {
    var core' := LifecycleLaws.Step(core, c);
    hide Covered, Dense, DeltaSum, LifecycleLaws.Step, LifecycleLaws.RecordsSound, NotDisputedBefore, Onward;
    if LifecycleLaws.CreationOp(c.op) {
      CreationCovered(g, core, c);
    } else if c.op.Disputing? {
      DisputeCovered(g, core, c);
    } else if c.op.Releasing? || c.op.DispatchingRelease? || c.op.BatchReleasing? {
      ReleasesCovered(g, core, c);
    } else {
      CallOnward(core, c);
      OnwardCovered(g, core, core');
      if c.op.Resolving? || c.op.DispatchingResolve? {
        ResolutionsCovered(g, core, c, core');
      } else {
        NoPostings(g);
        assert Postings(core, c) == [];
      }
    }
  }

  lemma AppealOnward(s: Appeals.Court, op: Appeals.Op)
    requires !op.Calling?
    ensures Onward(s.core, Appeals.Step(s, op).core)
  {
    hide Pay, Appeals.OpenAmong;
  }

  lemma TransferOnward(core: Lifecycle.State, id: nat, newMerchant: Address)
    ensures Onward(core, TransferBeneficiary(core, id, newMerchant).0)
  {}

  lemma AppealCovered(g: Ledger, court: Appeals.Court, op: Appeals.Op, core': Lifecycle.State)
    requires Covered(g, core')
    ensures Covered(Add(g, DeltaSum(AppealPostings(court, op))), core')
  {
    hide Covered, Appeals.ResolveAppeal, DeltaSum;
    NoPostings(g);
    if op.ResolvingAppeal? && op.i in court.appeals && court.appeals[op.i].escrowId in court.core.escrows {
      var e := court.core.escrows[court.appeals[op.i].escrowId];
      OnePosting(AppealPosting(e));
      ResolutionCovers(g, AppealPosting(e), core');
    }
  }

  /** The ledger as it would read if changed amounts were posted. */
  function Adjusted(g: Ledger, drift: int): Ledger {
    g.(valueLocked := g.valueLocked + drift)
  }

  ghost predicate Kept(s: Books) {
    && Appeals.Inv(s.court) && Dense(s.court.core) && NotDisputedBefore(s.court.core)
    && Covered(Adjusted(s.global, s.drift), s.court.core)
  }

  lemma AdjustedAdd(g: Ledger, d: Ledger, drift: int)
    ensures Adjusted(Add(g, d), drift) == Add(Adjusted(g, drift), d)
  {}

  lemma {:induction false} PostAllDrift(s: Books, ps: seq<Posting>)
    ensures PostAll(s, ps).drift == s.drift
    decreases |ps|
  {
    if ps != [] {
      PostAllDrift(s, ps[..|ps| - 1]);
    }
  }

  lemma CallKept(s: Books, call: LifecycleLaws.Call)
    requires Kept(s)
    ensures Kept(Step(s, Calling(call)))
  {
    CourtRecords(s.court);
    hide Covered, Dense, NotDisputedBefore, LifecycleLaws.Step, Postings, Add, DeltaSum, PostAll, LifecycleLaws.RecordsSound, Appeals.Inv, Adjusted;
    CallCovered(Adjusted(s.global, s.drift), s.court.core, call);
    CallNotDisputed(s.court.core, call);
    Appeals.StepKeeps(s.court, Appeals.Calling(call));
    PostAllGlobal(s.(court := Appeals.Step(s.court, Appeals.Calling(call))), Postings(s.court.core, call));
    PostAllDrift(s.(court := Appeals.Step(s.court, Appeals.Calling(call))), Postings(s.court.core, call));
    AdjustedAdd(s.global, DeltaSum(Postings(s.court.core, call)), s.drift);
  }

  lemma CourtRecords(s: Appeals.Court)
    requires Appeals.Inv(s)
    ensures LifecycleLaws.RecordsSound(s.core) && LifecycleLaws.Inv(s.core)
  {}

  lemma AppealKept(s: Books, aop: Appeals.Op)
    requires Kept(s) && !aop.Calling?
    ensures Kept(Step(s, Appealing(aop)))
  {
    hide Covered, Dense, NotDisputedBefore, Appeals.Step, AppealPostings, Add, DeltaSum, PostAll, Appeals.Inv, Onward, Adjusted;
    var court' := Appeals.Step(s.court, aop);
    Appeals.StepKeeps(s.court, aop);
    AppealOnward(s.court, aop);
    OnwardCovered(Adjusted(s.global, s.drift), s.court.core, court'.core);
    NotDisputedOnward(s.court.core, court'.core);
    PostAllGlobal(s.(court := court'), AppealPostings(s.court, aop));
    PostAllDrift(s.(court := court'), AppealPostings(s.court, aop));
    AppealCovered(Adjusted(s.global, s.drift), s.court, aop, court'.core);
    AdjustedAdd(s.global, DeltaSum(AppealPostings(s.court, aop)), s.drift);
  }

  lemma TransferKept(s: Books, id: nat, newMerchant: Address)
    requires Kept(s)
    ensures Kept(Step(s, TransferringBeneficiary(id, newMerchant)))
  {
    hide Covered, Dense, NotDisputedBefore, Appeals.Inv, Onward, TransferBeneficiary;
    var core' := TransferBeneficiary(s.court.core, id, newMerchant).0;
    TransferOnward(s.court.core, id, newMerchant);
    OnwardCovered(Adjusted(s.global, s.drift), s.court.core, core');
    NotDisputedOnward(s.court.core, core');
    TransferKeeps(s.court, id, newMerchant);
  }

  lemma TransferKeeps(s: Appeals.Court, id: nat, newMerchant: Address)
    requires Appeals.Inv(s)
    ensures Appeals.Inv(s.(core := TransferBeneficiary(s.core, id, newMerchant).0))
    ensures LifecycleLaws.Inv(TransferBeneficiary(s.core, id, newMerchant).0)
  {
    hide Appeals.AppealsSound, Appeals.RoundsSound, LifecycleLaws.QueueLive;
    var core' := TransferBeneficiary(s.core, id, newMerchant).0;
    if core' != s.core {
      assert id in s.core.paid.Keys;
      assert s.core.paid[id := s.core.paid[id]] == s.core.paid;
      Appeals.TouchedCore(s.core, core', id, core'.escrows[id], s.core.paid[id]);
    }
    Appeals.OtherCore(s, core');
  }

  /** One record is rewritten outside the escrow machine. */
  lemma RewriteKeeps(s: Appeals.Court, core': Lifecycle.State, id: nat, e: Escrow, log: seq<Payment>)
    requires Appeals.Inv(s) && id in s.core.escrows
    requires core' == s.core.(escrows := s.core.escrows[id := e], paid := s.core.paid[id := log])
    requires e.escalatedAt == s.core.escrows[id].escalatedAt && e.escalationTimeout == s.core.escrows[id].escalationTimeout
    requires e.status.Resolved? || (e.status == s.core.escrows[id].status && log == PaidFor(s.core, id))
    ensures Appeals.Inv(s.(core := core')) && LifecycleLaws.Inv(core')
  {
    assert id in s.core.paid.Keys;
    hide Appeals.AppealsSound, Appeals.RoundsSound, LifecycleLaws.QueueLive;
    Appeals.TouchedCore(s.core, core', id, e, log);
    Appeals.OtherCore(s, core');
  }

  lemma SameLog(core: Lifecycle.State, id: nat)
    requires LifecycleLaws.Inv(core) && id in core.escrows
    ensures core.paid[id := PaidFor(core, id)] == core.paid
  {
    assert id in core.paid.Keys;
  }

  /** A locked record with another amount. */
  lemma AmendKept(s: Books, core': Lifecycle.State, id: nat, e: Escrow)
    requires Kept(s) && id in s.court.core.escrows && core' == s.court.core.(escrows := s.court.core.escrows[id := e])
    requires s.court.core.escrows[id].status.Locked? && e.status.Locked? && e.disputeStartedAt == s.court.core.escrows[id].disputeStartedAt
    requires e.escalatedAt == s.court.core.escrows[id].escalatedAt && e.escalationTimeout == s.court.core.escrows[id].escalationTimeout
    ensures Kept(Amended(s, core', id))
  {
    var core := s.court.core;
    CourtRecords(s.court);
    hide LifecycleLaws.Inv, LifecycleLaws.RecordsSound, Appeals.Inv, Covered, Dense, DriftOf;
    SameLog(core, id);
    RewriteKeeps(s.court, core', id, e, PaidFor(core, id));
    AmendingCovers(Adjusted(s.global, s.drift), core, core', id, e);
  }

  lemma NoDrift(s: Books, id: nat)
    ensures Amended(s, s.court.core, id) == s
  {}

  lemma InsuranceKept(s: Books, id: nat, premiumBps: nat)
    requires Kept(s)
    ensures Kept(Step(s, Insuring(id, premiumBps)))
  {
    hide Kept, Amended, TruncDiv;
    var core' := OptIntoInsurance(s.court.core, id, premiumBps).0;
    if core' != s.court.core {
      AmendKept(s, core', id, core'.escrows[id]);
    } else {
      NoDrift(s, id);
    }
  }

  lemma SwapKept(s: Books, id: nat, rate: int, minOutput: int)
    requires Kept(s)
    ensures Kept(Step(s, Swapping(id, rate, minOutput)))
  {
    hide Kept, Amended, TruncDiv;
    var core' := SwapEscrow(s.court.core, id, rate, minOutput).0;
    if core' != s.court.core {
      AmendKept(s, core', id, core'.escrows[id]);
    } else {
      NoDrift(s, id);
    }
  }

  lemma ClawBackOnward(core: Lifecycle.State, id: nat, admin: Address, net: Net)
    ensures Onward(core, ClawBack(core, id, admin, net).0)
  {}

  lemma ClawBackKept(s: Books, id: nat, admin: Address, net: Net)
    requires Kept(s)
    ensures Kept(Step(s, ClawingBack(id, admin, net)))
  {
    var core' := ClawBack(s.court.core, id, admin, net).0;
    hide Covered, Dense, NotDisputedBefore, Appeals.Inv, Onward;
    ClawBackOnward(s.court.core, id, admin, net);
    OnwardCovered(Adjusted(s.global, s.drift), s.court.core, core');
    NotDisputedOnward(s.court.core, core');
    if core' != s.court.core {
      RewriteKeeps(s.court, core', id, core'.escrows[id], core'.paid[id]);
    }
  }

  lemma StepKept(s: Books, op: Op)
    requires Kept(s) && !op.Resetting?
    ensures Kept(Step(s, op))
  {
    hide Kept, Step;
    match op
    case Calling(call) => CallKept(s, call);
    case Appealing(aop) => if aop.Calling? { SameBooks(s, aop); } else { AppealKept(s, aop); }
    case TransferringBeneficiary(id, newMerchant) => TransferKept(s, id, newMerchant);
    case Insuring(id, premiumBps) => InsuranceKept(s, id, premiumBps);
    case Swapping(id, rate, minOutput) => SwapKept(s, id, rate, minOutput);
    case ClawingBack(id, admin, net) => ClawBackKept(s, id, admin, net);
  }

  lemma SameBooks(s: Books, aop: Appeals.Op)
    requires aop.Calling?
    ensures Step(s, Appealing(aop)) == s
  {}

  lemma {:induction false} RunKept(s: Books, ops: seq<Op>)
    requires Kept(s) && forall i :: 0 <= i < |ops| ==> !ops[i].Resetting?
    ensures Kept(Run(s, ops))
    decreases |ops|
  {
    hide Kept, Step;
    if ops != [] {
      StepKept(s, ops[0]);
      RunKept(Step(s, ops[0]), ops[1..]);
    }
  }

  lemma BlankKept(seconds: nat)
    requires 0 < seconds <= U64_MAX
    ensures Kept(BlankAt(seconds))
  {
    Appeals.OpenedInv();
    var court := BlankAt(seconds).court;
    assert LifecycleLaws.Inv(court.core);
    Appeals.OtherCore(Appeals.OPENED, court.core);
  }

  // ----- Counting -----

  function OnBookIds(core: Lifecycle.State): set<nat> {
    set id | id in core.escrows && id !in OffBookIds(core)
  }

  function DisputedIds(core: Lifecycle.State): set<nat> {
    set id | id in core.escrows && core.escrows[id].disputeStartedAt != 0
  }

  function SettledIds(core: Lifecycle.State): set<nat> {
    set id | id in core.escrows && LifecycleLaws.Settled(core.escrows[id])
  }

  function UpTo(ids: set<nat>, n: nat): set<nat> {
    set id | id in ids && id <= n
  }

  lemma OneMoreId(ids: set<nat>, n: nat)
    requires n > 0
    ensures |UpTo(ids, n)| == |UpTo(ids, n - 1)| + if n in ids then 1 else 0
  {
    if n in ids {
      assert UpTo(ids, n) == UpTo(ids, n - 1) + {n};
    } else {
      assert UpTo(ids, n) == UpTo(ids, n - 1);
    }
  }

  lemma StandingCounts(core: Lifecycle.State, n: nat)
    requires n in core.escrows
    ensures var j := Standing(core.escrows[n], n in OffBookIds(core));
            && j.created == (if n in OnBookIds(core) then 1 else 0) && j.disputes == (if n in DisputedIds(core) then 1 else 0)
            && j.released == (if n in SettledIds(core) then 1 else 0)
  {}

  lemma UpToEnds(core: Lifecycle.State, ids: set<nat>)
    requires Dense(core) && ids <= core.escrows.Keys
    ensures UpTo(ids, 0) == {} && UpTo(ids, core.counter) == ids
  {}

  lemma {:induction false} JustifiedCounts(core: Lifecycle.State, n: nat)
    requires Dense(core) && n <= core.counter
    ensures var j := Justified(core, n);
            && j.created == |UpTo(OnBookIds(core), n)| && j.disputes == |UpTo(DisputedIds(core), n)|
            && j.released == |UpTo(SettledIds(core), n)|
    ensures |UpTo(core.escrows.Keys, n)| == n
  {
    if n == 0 {
      UpToEnds(core, OnBookIds(core));
      UpToEnds(core, DisputedIds(core));
      UpToEnds(core, SettledIds(core));
      UpToEnds(core, core.escrows.Keys);
    } else {
      JustifiedCounts(core, n - 1);
      assert n in core.escrows;
      StandingCounts(core, n);
      hide Dense, Standing, OnBookIds, DisputedIds, SettledIds, UpTo;
      OneMoreId(OnBookIds(core), n);
      OneMoreId(DisputedIds(core), n);
      OneMoreId(SettledIds(core), n);
      OneMoreId(core.escrows.Keys, n);
    }
  }

  lemma Counts(core: Lifecycle.State)
    requires Dense(core)
    ensures var j := Justified(core, core.counter);
            j.created == |OnBookIds(core)| && j.disputes == |DisputedIds(core)| && j.released == |SettledIds(core)|
    ensures |OnBookIds(core)| + |OffBookIds(core)| == core.counter
  {
    JustifiedCounts(core, core.counter);
    UpToEnds(core, OnBookIds(core));
    UpToEnds(core, DisputedIds(core));
    UpToEnds(core, SettledIds(core));
    UpToEnds(core, core.escrows.Keys);
    assert OnBookIds(core) == core.escrows.Keys - OffBookIds(core);
  }

  /** Disputes against creations, as sets of escrows. */
  lemma DisputesWithin(core: Lifecycle.State)
    ensures |DisputedIds(core)| <= |OnBookIds(core)| <==>
            |DisputedIds(core) - OnBookIds(core)| <= |OnBookIds(core) - DisputedIds(core)|
  {
    var d, o := DisputedIds(core), OnBookIds(core);
    assert d == (d - o) + (d * o) && o == (o - d) + (d * o);
    assert |d| == |d - o| + |d * o| && |o| == |o - d| + |d * o|;
  }

  lemma {:induction false} ValuesWithin(core: Lifecycle.State, n: nat)
    requires NonNegativeAmounts(core.escrows) && OffBookIds(core) == {}
    ensures Justified(core, n).valueReleased <= Justified(core, n).valueLocked
  {
    if n > 0 {
      ValuesWithin(core, n - 1);
    }
  }

  /** What the figures say. Created are all escrows but the conditional and the vesting ones, and
      disputed exactly the escrows whose record names a time of dispute. So disputes stay within the
      escrows created, and the dispute rate within the whole, if and only if no more escrows off the
      books are disputed than escrows on the books are not. No more is released than is settled; with
      nothing off the books that is within creations. The value locked is that of the escrows on the
      books as they were created: it is off by what insurance and swaps have changed since. */
  ghost predicate MatchesRecords(g: Ledger, drift: int, core: Lifecycle.State) {
    var j := Justified(core, core.counter);
    && g.created + |OffBookIds(core)| == core.counter
    && g.disputes == |DisputedIds(core)|
    && (g.disputes <= g.created <==> |DisputedIds(core) - OnBookIds(core)| <= |OnBookIds(core) - DisputedIds(core)|)
    && g.released <= |SettledIds(core)|
    && (OffBookIds(core) == {} ==> g.released <= g.created)
    && g.valueLocked + drift == j.valueLocked
    && (g.valueLocked == j.valueLocked <==> drift == 0)
    && (SettledNonNegative(core.escrows) ==> g.valueReleased <= j.valueReleased)
    && (OffBookIds(core) == {} && NonNegativeAmounts(core.escrows) ==> g.valueReleased <= g.valueLocked + drift)
  }

  /** The figures match the records after every run without a reset that starts with a running clock. */
  lemma FiguresMatchRecords(seconds: nat, ops: seq<Op>)
    requires 0 < seconds <= U64_MAX && forall i :: 0 <= i < |ops| ==> !ops[i].Resetting?
    ensures var s := Run(BlankAt(seconds), ops); MatchesRecords(s.global, s.drift, s.court.core)
  {
    BlankKept(seconds);
    RunKept(BlankAt(seconds), ops);
    hide Run;
    FiguresOf(Run(BlankAt(seconds), ops));
  }

  lemma FiguresOf(s: Books)
    requires Kept(s)
    ensures MatchesRecords(s.global, s.drift, s.court.core)
  {
    hide Dense, NotDisputedBefore, Appeals.Inv, DisputedIds, OnBookIds;
    var core := s.court.core;
    Counts(core);
    DisputesWithin(core);
    if OffBookIds(core) == {} {
      SettledOnBook(core);
      if NonNegativeAmounts(core.escrows) {
        ValuesWithin(core, core.counter);
      }
    }
  }

  lemma SettledOnBook(core: Lifecycle.State)
    requires OffBookIds(core) == {}
    ensures |SettledIds(core)| <= |OnBookIds(core)|
  {
    Subset(SettledIds(core), OnBookIds(core));
  }

  lemma {:induction false} Subset(a: set<nat>, b: set<nat>)
    requires a <= b
    ensures |a| <= |b|
  {
    assert b == a + (b - a);
  }

  /** Conditional escrows are created off the books but disputed on them: with one of them, more
      disputes are counted than escrows. */
  lemma ConditionalUncounted(seconds: nat, customer: Address, merchant: Address, amount: int, net: Net)
    ensures var s := Step(Step(BlankAt(seconds), Calling(LifecycleLaws.Call(LifecycleLaws.CreatingConditional(customer, merchant, amount, 0), net))),
                          Calling(LifecycleLaws.Call(LifecycleLaws.Disputing(customer, 1), net)));
            s.global.created == 0 && s.global.disputes == 1
  {
    var s1 := Step(BlankAt(seconds), Calling(LifecycleLaws.Call(LifecycleLaws.CreatingConditional(customer, merchant, amount, 0), net)));
    assert s1.global == ZERO;
    var e := s1.court.core.escrows[1];
    var c := LifecycleLaws.Call(LifecycleLaws.Disputing(customer, 1), net);
    assert Postings(s1.court.core, c) == [DisputePosting(e)];
    PostAllGlobal(s1.(court := Appeals.Step(s1.court, Appeals.Calling(c))), [DisputePosting(e)]);
    OnePosting(DisputePosting(e));
  }

  /** The same with a vesting escrow, and no conditional one: it is released at the end of its schedule,
      so one release is counted and no creation. */
  lemma VestingUncounted(seconds: nat, customer: Address, merchant: Address, amount: int, end: nat, net: Net, feeRecipient: Address)
    requires seconds < end <= U64_MAX && LifecycleLaws.MovesFor(net, 1)
    ensures var create := LifecycleLaws.Call(LifecycleLaws.CreatingVesting(customer, merchant, amount, 0, seconds, end, []), net);
            var tick := LifecycleLaws.Call(LifecycleLaws.Ticking(end - seconds), net);
            var dispute := LifecycleLaws.Call(LifecycleLaws.Disputing(customer, 1), net);
            var release := LifecycleLaws.Call(LifecycleLaws.Releasing(1, false, None, Gate(true, true, true), feeRecipient), net);
            var s := Step(BlankAt(seconds), Calling(create));
            var disputed := Step(s, Calling(dispute));
            var released := Step(Step(s, Calling(tick)), Calling(release));
            && s.court.core.counter == 1 && s.court.core.conditions == map[]
            && disputed.global.created == 0 && disputed.global.disputes == 1
            && released.global.created == 0 && released.global.released == 1
  {
    var create := LifecycleLaws.Call(LifecycleLaws.CreatingVesting(customer, merchant, amount, 0, seconds, end, []), net);
    var s := Step(BlankAt(seconds), Calling(create));
    VestingStored(seconds, customer, merchant, amount, end, net);
    var e := s.court.core.escrows[1];
    var dispute := LifecycleLaws.Call(LifecycleLaws.Disputing(customer, 1), net);
    assert Postings(s.court.core, dispute) == [DisputePosting(e)];
    PostAllGlobal(s.(court := Appeals.Step(s.court, Appeals.Calling(dispute))), [DisputePosting(e)]);
    OnePosting(DisputePosting(e));
    var t := Step(s, Calling(LifecycleLaws.Call(LifecycleLaws.Ticking(end - seconds), net)));
    assert t.court.core == s.court.core.(now := end) && t.global == ZERO;
    VestingReleased(t, net, feeRecipient);
  }

  lemma VestingStored(seconds: nat, customer: Address, merchant: Address, amount: int, end: nat, net: Net)
    requires seconds < end
    ensures var create := LifecycleLaws.Call(LifecycleLaws.CreatingVesting(customer, merchant, amount, 0, seconds, end, []), net);
            var s := Step(BlankAt(seconds), Calling(create));
            && s.global == ZERO && s.court.core.counter == 1 && s.court.core.conditions == map[] && s.court.core.now == seconds
            && 1 in s.court.core.escrows && s.court.core.escrows[1] == NewEscrow(VestingTerms(customer, merchant, amount, 0, end), seconds)
  {}

  lemma VestingReleased(s: Books, net: Net, feeRecipient: Address)
    requires 1 in s.court.core.escrows && LifecycleLaws.MovesFor(net, 1) && s.global == ZERO
    requires var e := s.court.core.escrows[1];
             e.status.Locked? && s.court.core.now >= e.releaseTimestamp && e.minHoldPeriod == 0 && s.court.core.now >= e.createdAt
    ensures var c := LifecycleLaws.Call(LifecycleLaws.Releasing(1, false, None, Gate(true, true, true), feeRecipient), net);
            var s' := Step(s, Calling(c)); s'.global.created == 0 && s'.global.released == 1
  {
    var c := LifecycleLaws.Call(LifecycleLaws.Releasing(1, false, None, Gate(true, true, true), feeRecipient), net);
    var core := s.court.core;
    var p := ReleasePosting(core.escrows[1]);
    LifecycleLaws.PayMoves(PaidFor(core, 1), FeeLegs(core.escrows[1], core.escrows[1].merchant, feeRecipient), 1, net);
    assert Release(core, 1, false, None, Gate(true, true, true), feeRecipient, net).result.Ok? by {
      hide FeeLegs, Pay;
    }
    hide Release;
    assert Postings(core, c) == [p];
    PostAllGlobal(s.(court := Appeals.Step(s.court, Appeals.Calling(c))), [p]);
    OnePosting(p);
  }
}
