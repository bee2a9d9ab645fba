/** The ledgers as the contract keeps them: every entry point that counts loads the global, the
    customer's and the merchant's ledger, adds to each and stores it. */
module AnalyticsContract {
  import opened Common
  import opened Lifecycle
  import LifecycleLaws
  import LifecycleContract
  import Appeals
  import AppealsContract
  import opened Analytics
  import Vesting
  import opened AnalyticsCounts
  import opened AnalyticsEffects

  /** For calls that transfer nothing. */
  const NO_TRANSFERS: Net := (id, leg) => Refused

  lemma PostOne(s: Books, p: Posting)
    ensures PostAll(s, [p]) == Post(s, p)
  {
    assert [p][..0] == [];
    assert PostAll(s, []) == s;
  }

  /** What an event adds, seen from before its call. */
  lemma EntersAfter(before: Books, after: Books, p: Posting, d: Ledger)
    requires EntersNothing(before, after) && p.global == p.ofCustomer == p.ofMerchant == d
    ensures Enters(before, Post(after, p), p.customer, p.merchant, d)
  {
    PostEnters(after, p, d);
    hide Credit;
  }

  lemma PostNone(s: Books)
    ensures PostAll(s, []) == s
  {}

  lemma {:induction false} PostElsewhere(s: Books, court: Appeals.Court, ps: seq<Posting>)
    ensures PostAll(s.(court := court), ps) == PostAll(s, ps).(court := court)
    decreases |ps|
  {
    if ps != [] {
      PostElsewhere(s, court, ps[..|ps| - 1]);
    }
  }

  /** Amount and parties of every escrow are what they were before. */
  ghost predicate SameParties(core: Lifecycle.State, core': Lifecycle.State) {
    core.escrows.Keys == core'.escrows.Keys && forall id :: id in core.escrows ==>
      && core'.escrows[id].amount == core.escrows[id].amount
      && core'.escrows[id].customer == core.escrows[id].customer
      && core'.escrows[id].merchant == core.escrows[id].merchant
  }

  lemma ReleaseSameParties(core: Lifecycle.State, id: nat, early: bool, to: Option<Address>, gate: Gate, fr: Address, net: Net)
    ensures SameParties(core, Release(core, id, early, to, gate, fr, net).state)
    ensures Release(core, id, early, to, gate, fr, net).result.Ok? ==> id in core.escrows
  {
    hide FeeLegs, Pay;
  }

  lemma SamePartiesTransitive(a: Lifecycle.State, b: Lifecycle.State, c: Lifecycle.State)
    requires SameParties(a, b) && SameParties(b, c)
    ensures SameParties(a, c)
  {
    assert forall id :: id in a.escrows ==> id in b.escrows.Keys;
  }

  lemma OneMoreEntry(escrows: map<nat, Escrow>, ids: seq<nat>, id: nat, s: Books)
    requires id in escrows
    ensures PostAll(s, PostReleases(escrows, ids + [id])) == Post(PostAll(s, PostReleases(escrows, ids)), ReleasePosting(escrows[id]))
  {
    assert (ids + [id])[..|ids|] == ids;
    var before, p := PostReleases(escrows, ids), ReleasePosting(escrows[id]);
    assert (before + [p])[..|before|] == before;
  }

  class AnalyticsContract {
    const court: AppealsContract.AppealsContract
    var global: Ledger
    var customers: map<Address, Ledger>
    var merchants: map<Address, Ledger>
    ghost var base: Ledger
    ghost var drift: int

    constructor (seconds: nat)
      requires 0 < seconds <= U64_MAX
      ensures Valid() && fresh(court) && fresh(court.core) && fresh(court.core.queue) && State() == BlankAt(seconds)
    {
      court := new AppealsContract.AppealsContract();
      global, customers, merchants, base, drift := ZERO, map[], map[], ZERO, 0;
      new;
      BlankKept(seconds);
      court.core.now := seconds;
      CourtRecords(court.State());
    }

    ghost function State(): Books
      reads this, court, court.core, court.core.queue
    {
      Books(court.State(), global, customers, merchants, base, drift)
    }

    ghost predicate Valid()
      reads this, court, court.core, court.core.queue
    {
      court.Valid()
    }

    // ----- Posting -----

    method UpdateCustomerAnalytics(customer: Address, update: Ledger -> Ledger)
      modifies this`customers
      ensures customers == old(customers)[customer := update(LedgerOf(old(customers), customer))]
    {
      var ledger := if customer in customers then customers[customer] else ZERO;
      customers := customers[customer := update(ledger)];
    }

    method UpdateMerchantAnalytics(merchant: Address, update: Ledger -> Ledger)
      modifies this`merchants
      ensures merchants == old(merchants)[merchant := update(LedgerOf(old(merchants), merchant))]
    {
      var ledger := if merchant in merchants then merchants[merchant] else ZERO;
      merchants := merchants[merchant := update(ledger)];
    }

    /** What `create_escrow` adds. */
    method CountCreation(t: Terms)
      modifies this`global, this`customers, this`merchants
      ensures var p := CreationPosting(t);
              && global == Add(old(global), p.global) && customers == Credit(old(customers), p.customer, p.ofCustomer)
              && merchants == Credit(old(merchants), p.merchant, p.ofMerchant)
    {
      global := global.(created := global.created + 1, valueLocked := global.valueLocked + t.amount);
      UpdateCustomerAnalytics(t.customer, (a: Ledger) => a.(created := a.created + 1, valueLocked := a.valueLocked + t.amount));
      UpdateMerchantAnalytics(t.merchant, (a: Ledger) => a.(created := a.created + 1, valueLocked := a.valueLocked + t.amount));
    }

    /** What each created entry of a batch adds. */
    method CountBatchCreation(entry: BatchEntry)
      modifies this`global, this`customers, this`merchants
      ensures var p := BatchCreationPosting(entry);
              && global == Add(old(global), p.global) && customers == Credit(old(customers), p.customer, p.ofCustomer)
              && merchants == Credit(old(merchants), p.merchant, p.ofMerchant)
    {
      global := global.(created := global.created + 1, valueLocked := global.valueLocked + entry.amount);
      UpdateCustomerAnalytics(entry.customer, (a: Ledger) => a.(created := a.created + 1, valueLocked := a.valueLocked + entry.amount));
      UpdateMerchantAnalytics(entry.merchant, (a: Ledger) => a.(created := a.created + 1, valueLocked := a.valueLocked + entry.amount));
    }

    /** What every release through `release_escrow` or a batch adds. */
    method CountRelease(escrow: Escrow)
      modifies this`global, this`customers, this`merchants
      ensures var p := ReleasePosting(escrow);
              && global == Add(old(global), p.global) && customers == Credit(old(customers), p.customer, p.ofCustomer)
              && merchants == Credit(old(merchants), p.merchant, p.ofMerchant)
    {
      global := global.(released := global.released + 1, valueReleased := global.valueReleased + escrow.amount);
      UpdateCustomerAnalytics(escrow.customer, (a: Ledger) => a.(released := a.released + 1, valueReleased := a.valueReleased + escrow.amount));
      UpdateMerchantAnalytics(escrow.merchant, (a: Ledger) => a.(released := a.released + 1, valueReleased := a.valueReleased + escrow.amount));
    }

    /** What an executed release proposal adds. */
    method CountReleaseProposal(escrow: Escrow)
      modifies this`global, this`customers, this`merchants
      ensures var p := ReleaseProposalPosting(escrow);
              && global == Add(old(global), p.global) && customers == Credit(old(customers), p.customer, p.ofCustomer)
              && merchants == Credit(old(merchants), p.merchant, p.ofMerchant)
    {
      global := global.(released := global.released + 1, valueReleased := global.valueReleased + escrow.amount);
      UpdateMerchantAnalytics(escrow.merchant, (a: Ledger) => a.(released := a.released + 1, valueReleased := a.valueReleased + escrow.amount));
      UpdateCustomerAnalytics(escrow.customer, (a: Ledger) => a.(released := a.released + 1, valueReleased := a.valueReleased + escrow.amount));
    }

    /** What opening a dispute adds. */
    method CountDispute(escrow: Escrow)
      modifies this`global, this`customers, this`merchants
      ensures var p := DisputePosting(escrow);
              && global == Add(old(global), p.global) && customers == Credit(old(customers), p.customer, p.ofCustomer)
              && merchants == Credit(old(merchants), p.merchant, p.ofMerchant)
    {
      global := global.(disputes := global.disputes + 1);
      UpdateCustomerAnalytics(escrow.customer, (a: Ledger) => a.(disputes := a.disputes + 1));
      UpdateMerchantAnalytics(escrow.merchant, (a: Ledger) => a.(disputes := a.disputes + 1));
    }

    /** What resolving a dispute adds. */
    method CountResolution(escrow: Escrow)
      modifies this`global, this`customers, this`merchants
      ensures var p := ResolutionPosting(escrow);
              && global == Add(old(global), p.global) && customers == Credit(old(customers), p.customer, p.ofCustomer)
              && merchants == Credit(old(merchants), p.merchant, p.ofMerchant)
    {
      global := global.(resolutions := global.resolutions + 1);
      UpdateCustomerAnalytics(escrow.customer, (a: Ledger) => a.(resolutions := a.resolutions + 1));
      UpdateMerchantAnalytics(escrow.merchant, (a: Ledger) => a.(resolutions := a.resolutions + 1));
    }

    /** What an executed resolution proposal adds. */
    method CountResolveProposal(escrow: Escrow)
      modifies this`global, this`customers, this`merchants
      ensures var p := ResolveProposalPosting(escrow);
              && global == Add(old(global), p.global) && customers == Credit(old(customers), p.customer, p.ofCustomer)
              && merchants == Credit(old(merchants), p.merchant, p.ofMerchant)
    {
      global := global.(resolutions := global.resolutions + 1);
      UpdateMerchantAnalytics(escrow.merchant, (a: Ledger) => a.(resolutions := a.resolutions + 1));
      UpdateCustomerAnalytics(escrow.customer, (a: Ledger) => a.(resolutions := a.resolutions + 1));
    }

    /** What resolving an appeal adds. */
    method CountAppeal(escrow: Escrow)
      modifies this`global, this`customers, this`merchants
      ensures var p := AppealPosting(escrow);
              && global == Add(old(global), p.global) && customers == Credit(old(customers), p.customer, p.ofCustomer)
              && merchants == Credit(old(merchants), p.merchant, p.ofMerchant)
    {
      global := global.(resolutions := global.resolutions + 1);
      UpdateCustomerAnalytics(escrow.customer, (a: Ledger) => a.(resolutions := a.resolutions + 1));
      UpdateMerchantAnalytics(escrow.merchant, (a: Ledger) => a.(resolutions := a.resolutions + 1));
    }

    // ----- Entry points -----

    lemma CourtStep(before: Appeals.Court, call: LifecycleLaws.Call)
      requires Appeals.Inv(before)
      ensures Appeals.Inv(Appeals.Step(before, Appeals.Calling(call)))
    {
      Appeals.StepKeeps(before, Appeals.Calling(call));
    }

    method CreateEscrow(t: Terms) returns (r: Result<nat>)
      requires Valid()
      modifies this, court.core
      ensures Valid()
      ensures State() == Step(old(State()), Calling(LifecycleLaws.Call(LifecycleLaws.Creating(t), NO_TRANSFERS)))
      ensures r.Ok? ==> Enters(old(State()), State(), t.customer, t.merchant, CreationOf(t.amount))
      ensures r.Err? ==> EntersNothing(old(State()), State())
    {
      hide Appeals.Inv, LifecycleLaws.Inv, PostAll, Create, Credit, Enters;
      ghost var call := LifecycleLaws.Call(LifecycleLaws.Creating(t), NO_TRANSFERS);
      CourtStep(court.State(), call);
      ghost var before := State();
      r := court.core.CreateEscrow(t);
      ghost var after := before.(court := court.State());
      PostNone(after);
      PostOne(after, CreationPosting(t));
      EntersAfter(before, after, CreationPosting(t), CreationOf(t.amount));
      if r.Ok? {
        CountCreation(t);
      }
    }

    /** Each entry of the batch counts as it is created; a refused one counts nothing. */
    method CreateEscrowBatch(entries: seq<BatchEntry>, limit: nat) returns (results: Option<seq<Result<nat>>>)
      requires Valid()
      modifies this, court.core
      ensures Valid()
      ensures State() == Step(old(State()), Calling(LifecycleLaws.Call(LifecycleLaws.CreatingBatch(entries, limit), NO_TRANSFERS)))
      ensures results == if |entries| > limit then None else Some(CreateAll(old(State()).court.core, entries).1)
      ensures results.Some? ==> EntersCreations(old(State()), State(), entries, old(court.core.now))
      ensures results.None? ==> State() == old(State())
    {
      hide EntersCreations, Appeals.Inv, LifecycleLaws.Inv, PostAll, CreateEntry, PostCreations, Credit;
      ghost var before := State();
      ghost var core0 := before.court.core;
      CourtStep(before.court, LifecycleLaws.Call(LifecycleLaws.CreatingBatch(entries, limit), NO_TRANSFERS));
      PostNone(before);
      if |entries| > limit {
        return None;
      }
      var made: seq<Result<nat>> := [];
      NothingCreated(core0, before);
      assert entries[..0] == [];
      for i := 0 to |entries|
        invariant court.core.Valid()
        invariant (court.core.State(), made) == CreateAll(core0, entries[..i])
        invariant State() == PostAll(before, PostCreations(core0, entries[..i])).(court := court.State())
        invariant court.State() == before.court.(core := court.core.State())
      {
        assert entries[..i + 1][..i] == entries[..i];
        OneMoreCreation(core0, entries, i, before);
        var entry := entries[i];
        var r := court.core.TryCreateSingleEscrow(entry);
        if r.Ok? {
          CountBatchCreation(entry);
        }
        made := made + [r];
      }
      assert entries[..|entries|] == entries;
      CreationsEnter(before, State(), core0, entries);
      PostElsewhere(before, court.State(), PostCreations(core0, entries));
      results := Some(made);
    }

    /** A vesting escrow is stored without counting. */
    method CreateVestingEscrow(customer: Address, merchant: Address, amount: int, feeBps: int, cliff: nat, end: nat,
                               milestones: seq<Vesting.Milestone>) returns (r: Result<nat>)
      requires Valid()
      modifies court.core
      ensures Valid()
      ensures State() == Step(old(State()), Calling(LifecycleLaws.Call(
                LifecycleLaws.CreatingVesting(customer, merchant, amount, feeBps, cliff, end, milestones), NO_TRANSFERS)))
      ensures r.Ok? ==> r.value in OffBookIds(court.core.State())
      ensures EntersNothing(old(State()), State())
    {
      hide Appeals.Inv, LifecycleLaws.Inv, PostAll, CreateVesting;
      ghost var call := LifecycleLaws.Call(LifecycleLaws.CreatingVesting(customer, merchant, amount, feeBps, cliff, end, milestones), NO_TRANSFERS);
      CourtStep(court.State(), call);
      PostNone(State().(court := Appeals.Step(court.State(), Appeals.Calling(call))));
      FailedVesting(court.core.State(), customer, merchant, amount, feeBps, cliff, end, milestones);
      r := court.core.CreateVestingRecord(customer, merchant, amount, feeBps, cliff, end, milestones);
    }

    method DisputeEscrow(caller: Address, id: nat) returns (r: Result<()>)
      requires Valid()
      modifies this, court.core
      ensures Valid()
      ensures State() == Step(old(State()), Calling(LifecycleLaws.Call(LifecycleLaws.Disputing(caller, id), NO_TRANSFERS)))
      ensures r.Ok? ==> id in old(court.core.escrows) && Enters(old(State()), State(), old(court.core.escrows)[id].customer,
                old(court.core.escrows)[id].merchant, DISPUTED)
      ensures r.Err? ==> EntersNothing(old(State()), State())
    {
      hide Appeals.Inv, LifecycleLaws.Inv, PostAll, Credit, Enters;
      ghost var call := LifecycleLaws.Call(LifecycleLaws.Disputing(caller, id), NO_TRANSFERS);
      CourtStep(court.State(), call);
      ghost var before := State();
      r := court.core.DisputeEscrow(caller, id);
      ghost var after := before.(court := court.State());
      PostNone(after);
      if r.Ok? {
        var escrow := court.core.escrows[id];
        PostOne(after, DisputePosting(escrow));
        EntersAfter(before, after, DisputePosting(escrow), DISPUTED);
        assert DisputePosting(escrow) == DisputePosting(before.court.core.escrows[id]);
        CountDispute(escrow);
      }
    }

    method ResolveDisputedEscrow(id: nat, toMerchant: bool, net: Net) returns (r: Result<()>)
      requires Valid()
      modifies this, court.core, court.core.queue
      ensures Valid()
      ensures State() == Step(old(State()), Calling(LifecycleLaws.Call(LifecycleLaws.Resolving(id, toMerchant), net)))
      ensures r.Ok? ==> id in old(court.core.escrows) && Enters(old(State()), State(), old(court.core.escrows)[id].customer,
                old(court.core.escrows)[id].merchant, RESOLVED)
      ensures r.Err? ==> EntersNothing(old(State()), State())
    {
      hide Appeals.Inv, LifecycleLaws.Inv, PostAll, ResolveDispute, Credit, Enters;
      ghost var call := LifecycleLaws.Call(LifecycleLaws.Resolving(id, toMerchant), net);
      CourtStep(court.State(), call);
      ghost var before := State();
      r := court.core.ResolveDisputedEscrow(id, toMerchant, net);
      ghost var after := before.(court := court.State());
      PostNone(after);
      if r.Ok? {
        ResolveSameParties(before.court.core, id, toMerchant, net);
        var escrow := court.core.escrows[id];
        PostOne(after, ResolutionPosting(escrow));
        EntersAfter(before, after, ResolutionPosting(escrow), RESOLVED);
        CountResolution(escrow);
      }
    }

    method ExecuteResolveProposal(id: nat, toMerchant: bool, net: Net) returns (r: Result<()>)
      requires Valid()
      modifies this, court.core, court.core.queue
      ensures Valid()
      ensures State() == Step(old(State()), Calling(LifecycleLaws.Call(LifecycleLaws.DispatchingResolve(id, toMerchant), net)))
      ensures r.Ok? ==> id in old(court.core.escrows) && Enters(old(State()), State(), old(court.core.escrows)[id].customer,
                old(court.core.escrows)[id].merchant, RESOLVED)
      ensures r.Err? ==> EntersNothing(old(State()), State())
    {
      hide Appeals.Inv, LifecycleLaws.Inv, PostAll, DispatchResolve, Credit, Enters;
      ghost var call := LifecycleLaws.Call(LifecycleLaws.DispatchingResolve(id, toMerchant), net);
      CourtStep(court.State(), call);
      ghost var before := State();
      r := court.core.ExecuteResolveProposal(id, toMerchant, net);
      ghost var after := before.(court := court.State());
      PostNone(after);
      if r.Ok? {
        DispatchResolveSameParties(before.court.core, id, toMerchant, net);
        var escrow := court.core.escrows[id];
        PostOne(after, ResolveProposalPosting(escrow));
        EntersAfter(before, after, ResolveProposalPosting(escrow), RESOLVED);
        CountResolveProposal(escrow);
      }
    }

    method ReleaseEscrow(id: nat, early: bool, recipient: Option<Address>, gate: Gate, feeRecipient: Address, net: Net) returns (r: Result<()>)
      requires Valid()
      modifies this, court.core, court.core.queue
      ensures Valid()
      ensures State() == Step(old(State()), Calling(LifecycleLaws.Call(LifecycleLaws.Releasing(id, early, recipient, gate, feeRecipient), net)))
      ensures r.Ok? ==> id in old(court.core.escrows) && Enters(old(State()), State(), old(court.core.escrows)[id].customer,
                old(court.core.escrows)[id].merchant, ReleaseOf(old(court.core.escrows)[id].amount))
      ensures r.Err? ==> EntersNothing(old(State()), State())
    {
      hide Appeals.Inv, LifecycleLaws.Inv, PostAll, Credit, Release, Enters;
      ghost var call := LifecycleLaws.Call(LifecycleLaws.Releasing(id, early, recipient, gate, feeRecipient), net);
      CourtStep(court.State(), call);
      ghost var before := State();
      r := court.core.ReleaseEscrow(id, early, recipient, gate, feeRecipient, net);
      ghost var after := before.(court := court.State());
      PostNone(after);
      if r.Ok? {
        ReleaseSameParties(before.court.core, id, early, recipient, gate, feeRecipient, net);
        var escrow := court.core.escrows[id];
        PostOne(after, ReleasePosting(escrow));
        EntersAfter(before, after, ReleasePosting(escrow), ReleaseOf(escrow.amount));
        assert ReleasePosting(escrow) == ReleasePosting(before.court.core.escrows[id]);
        CountRelease(escrow);
      }
    }

    method ExecuteReleaseProposal(id: nat, early: bool, feeRecipient: Address, net: Net) returns (r: Result<()>)
      requires Valid()
      modifies this, court.core, court.core.queue
      ensures Valid()
      ensures State() == Step(old(State()), Calling(LifecycleLaws.Call(LifecycleLaws.DispatchingRelease(id, early, feeRecipient), net)))
      ensures r.Ok? ==> id in old(court.core.escrows) && Enters(old(State()), State(), old(court.core.escrows)[id].customer,
                old(court.core.escrows)[id].merchant, ReleaseOf(old(court.core.escrows)[id].amount))
      ensures r.Err? ==> EntersNothing(old(State()), State())
    {
      hide Appeals.Inv, LifecycleLaws.Inv, PostAll, DispatchRelease, Credit, Enters;
      ghost var call := LifecycleLaws.Call(LifecycleLaws.DispatchingRelease(id, early, feeRecipient), net);
      CourtStep(court.State(), call);
      ghost var before := State();
      r := court.core.ExecuteReleaseProposal(id, early, feeRecipient, net);
      ghost var after := before.(court := court.State());
      PostNone(after);
      if r.Ok? {
        DispatchReleaseSameParties(before.court.core, id, early, feeRecipient, net);
        var escrow := court.core.escrows[id];
        PostOne(after, ReleaseProposalPosting(escrow));
        EntersAfter(before, after, ReleaseProposalPosting(escrow), ReleaseOf(escrow.amount));
        CountReleaseProposal(escrow);
      }
    }

    /** Each release of the batch counts as it succeeds; a failed one counts nothing. */
    method BatchReleaseEscrows(ids: seq<nat>, recipient: Option<Address>, gates: nat -> Gate, feeRecipient: Address, net: Net)
      returns (r: Result<(seq<nat>, seq<nat>, seq<Error>)>)
      requires Valid()
      modifies this, court.core, court.core.queue
      ensures Valid()
      ensures State() == Step(old(State()), Calling(LifecycleLaws.Call(LifecycleLaws.BatchReleasing(ids, recipient, gates, feeRecipient), net)))
      ensures r.Ok? ==> EntersReleases(old(State()), State(), old(court.core.escrows), r.value.0)
      ensures r.Err? ==> State() == old(State())
    {
      hide EntersReleases, Appeals.Inv, LifecycleLaws.Inv, PostAll, Credit, Release, SameParties, PostReleases;
      ghost var before := State();
      ghost var core0 := before.court.core;
      ghost var call := LifecycleLaws.Call(LifecycleLaws.BatchReleasing(ids, recipient, gates, feeRecipient), net);
      CourtStep(before.court, call);
      PostNone(before);
      if |ids| > 20 {
        return Err(BatchReleaseSizeLimitExceeded);
      }
      var succeeded: seq<nat>, failed: seq<nat>, errors: seq<Error> := [], [], [];
      NothingPosted(core0, before);
      for i := 0 to |ids|
        invariant court.core.Valid()
        invariant (court.core.State(), succeeded, failed, errors) == ReleaseAll(core0, ids[..i], recipient, gates, feeRecipient, net)
        invariant State() == PostAll(before, PostReleases(core0.escrows, succeeded)).(court := court.State())
        invariant court.State() == before.court.(core := court.core.State())
        invariant SameParties(core0, court.core.State())
      {
        assert ids[..i + 1][..i] == ids[..i];
        ghost var core1 := court.core.State();
        ReleaseSameParties(core1, ids[i], false, recipient, gates(i), feeRecipient, net);
        var released := court.core.InternalRelease(ids[i], false, recipient, gates(i), feeRecipient, net);
        SamePartiesTransitive(core0, core1, court.core.State());
        if released.Ok? {
          SettledPosting(core0, core1, court.core.State(), ids[i]);
          OneMoreEntry(core0.escrows, succeeded, ids[i], before);
          CountRelease(court.core.escrows[ids[i]]);
          succeeded := succeeded + [ids[i]];
        } else {
          failed := failed + [ids[i]];
          errors := errors + [released.error];
        }
      }
      assert ids[..|ids|] == ids;
      ReleasesEnter(before, State(), core0.escrows, succeeded);
      PostElsewhere(before, court.State(), PostReleases(core0.escrows, succeeded));
      r := Ok((succeeded, failed, errors));
    }

    method ResolveDisputeAppeal(appealId: nat, inFavourOf: Address, net: Net) returns (r: Result<()>)
      requires Valid()
      modifies this, court, court.core, court.core.queue
      ensures Valid()
      ensures State() == Step(old(State()), Appealing(Appeals.ResolvingAppeal(appealId, inFavourOf, net)))
      ensures r.Ok? ==> appealId in old(court.appeals) && old(court.appeals)[appealId].escrowId in old(court.core.escrows)
                        && var e := old(court.core.escrows)[old(court.appeals)[appealId].escrowId];
                        Enters(old(State()), State(), e.customer, e.merchant, RESOLVED)
      ensures r.Err? ==> EntersNothing(old(State()), State())
    {
      hide Appeals.Inv, LifecycleLaws.Inv, PostAll, Appeals.ResolveAppeal, Credit, Enters;
      ghost var before := State();
      r := court.ResolveAppealBy(appealId, inFavourOf, net);
      ghost var after := before.(court := court.State());
      PostNone(after);
      if r.Ok? {
        AppealSameParties(before.court, appealId, inFavourOf, net);
        var escrow := court.core.escrows[court.appeals[appealId].escrowId];
        PostOne(after, AppealPosting(escrow));
        EntersAfter(before, after, AppealPosting(escrow), RESOLVED);
        CountAppeal(escrow);
      }
    }

    method TransferEscrowBeneficiary(id: nat, newMerchant: Address) returns (r: Result<()>)
      requires Valid()
      modifies court.core
      ensures Valid() && State() == Step(old(State()), TransferringBeneficiary(id, newMerchant))
      ensures r == TransferBeneficiary(old(court.core.State()), id, newMerchant).1
      ensures r.Ok? <==> id in old(court.core.escrows) && !old(court.core.escrows)[id].status.Disputed?
                         && !old(court.core.escrows)[id].status.Resolved? && newMerchant != old(court.core.escrows)[id].merchant
      ensures r.Ok? ==> court.core.escrows == old(court.core.escrows)[id := old(court.core.escrows)[id].(merchant := newMerchant)]
    {
      hide Appeals.Inv, LifecycleLaws.Inv;
      TransferKeeps(court.State(), id, newMerchant);
      if id !in court.core.escrows {
        return Err(NotFound);
      }
      var escrow := court.core.escrows[id];
      match escrow.status {
        case Disputed => return Err(TransferNotAllowed);
        case Resolved => return Err(TransferNotAllowed);
        case _ =>
      }
      if newMerchant == escrow.merchant {
        return Err(SameBeneficiary);
      }
      escrow := escrow.(merchant := newMerchant);
      court.core.escrows := court.core.escrows[id := escrow];
      r := Ok(());
    }

    /** The premium leaves the amount of a locked escrow; nothing is counted. */
    method OptIntoInsurance(id: nat, premiumBps: nat) returns (r: Result<()>)
      requires Valid()
      modifies this`drift, court.core
      ensures Valid() && State() == Step(old(State()), Insuring(id, premiumBps))
      ensures r == Analytics.OptIntoInsurance(old(court.core.State()), id, premiumBps).1
      ensures r.Ok? <==> id in old(court.core.escrows) && old(court.core.escrows)[id].status.Locked?
      ensures r.Ok? ==> court.core.escrows == old(court.core.escrows)[id := old(court.core.escrows)[id].(amount :=
                          old(court.core.escrows)[id].amount - TruncDiv(old(court.core.escrows)[id].amount * premiumBps, 10000))]
    {
      hide Appeals.Inv, LifecycleLaws.Inv;
      InsuranceKeeps(court.State(), id, premiumBps);
      drift := drift + DriftOf(court.core.State(), Analytics.OptIntoInsurance(court.core.State(), id, premiumBps).0, id);
      if id !in court.core.escrows {
        return Err(NotFound);
      }
      var escrow := court.core.escrows[id];
      if !escrow.status.Locked? {
        return Err(InvalidStatus);
      }
      var premium := TruncDiv(escrow.amount * premiumBps, 10000);
      if premium == 0 {
        return Ok(());
      }
      escrow := escrow.(amount := escrow.amount - premium);
      court.core.escrows := court.core.escrows[id := escrow];
      r := Ok(());
    }

    /** The amount of a locked escrow becomes what the oracle's rate makes of it; nothing is counted. */
    method ExecuteEscrowSwap(id: nat, rate: int, minOutput: int) returns (r: Result<int>)
      requires Valid()
      modifies this`drift, court.core
      ensures Valid() && State() == Step(old(State()), Swapping(id, rate, minOutput))
      ensures r == SwapEscrow(old(court.core.State()), id, rate, minOutput).1
      ensures r.Ok? <==> id in old(court.core.escrows) && old(court.core.escrows)[id].status.Locked?
                         && minOutput <= TruncDiv(old(court.core.escrows)[id].amount * rate, 10000000)
      ensures r.Ok? ==> r.value == TruncDiv(old(court.core.escrows)[id].amount * rate, 10000000)
                        && court.core.escrows == old(court.core.escrows)[id := old(court.core.escrows)[id].(amount := r.value,
                             lastActivityAt := court.core.now)]
    {
      hide Appeals.Inv, LifecycleLaws.Inv;
      SwapKeeps(court.State(), id, rate, minOutput);
      drift := drift + DriftOf(court.core.State(), SwapEscrow(court.core.State(), id, rate, minOutput).0, id);
      if id !in court.core.escrows {
        return Err(NotFound);
      }
      var escrow := court.core.escrows[id];
      if !escrow.status.Locked? {
        return Err(InvalidStatus);
      }
      var output := TruncDiv(escrow.amount * rate, 10000000);
      if output < minOutput {
        return Err(SwapOutputBelowMinimum);
      }
      escrow := escrow.(amount := output, lastActivityAt := court.core.now);
      court.core.escrows := court.core.escrows[id := escrow];
      r := Ok(output);
    }

    /** An admin takes the amount, whatever the status; nothing is counted. */
    method ExecuteClawback(id: nat, admin: Address, net: Net) returns (r: Result<()>)
      requires Valid()
      modifies court.core
      ensures Valid() && State() == Step(old(State()), ClawingBack(id, admin, net))
      ensures r == ClawBack(old(court.core.State()), id, admin, net).1
      ensures r.Ok? <==> id in old(court.core.escrows) && net(id, Principal).Moved?
      ensures r.Ok? ==> court.core.escrows == old(court.core.escrows)[id := old(court.core.escrows)[id].(status := Resolved)]
                        && id in court.core.paid && court.core.paid[id] == PaidFor(old(court.core.State()), id)
                             + [Payment(Principal, admin, old(court.core.escrows)[id].amount)]
    {
      hide Appeals.Inv, LifecycleLaws.Inv;
      ClawBackKeeps(court.State(), id, admin, net);
      if id !in court.core.escrows {
        return Err(NotFound);
      }
      var escrow := court.core.escrows[id];
      if !net(id, Principal).Moved? {
        return Err(TransferFailed);
      }
      var log := if id in court.core.paid then court.core.paid[id] else [];
      court.core.paid := court.core.paid[id := log + [Payment(Principal, admin, escrow.amount)]];
      escrow := escrow.(status := Resolved);
      court.core.escrows := court.core.escrows[id := escrow];
      r := Ok(());
    }

    method ResetAnalytics()
      modifies this
      ensures State() == Step(old(State()), Resetting)
    {
      global := ZERO;
      base := Sum(customers);
    }
  }

  lemma NothingPosted(core: Lifecycle.State, s: Books)
    ensures PostAll(s, PostReleases(core.escrows, [])) == s
    ensures SameParties(core, core)
  {}

  lemma NothingCreated(core: Lifecycle.State, s: Books)
    ensures PostAll(s, PostCreations(core, [])) == s
  {}

  lemma SettledPosting(core0: Lifecycle.State, core1: Lifecycle.State, core2: Lifecycle.State, id: nat)
    requires SameParties(core0, core1) && SameParties(core0, core2) && id in core1.escrows
    ensures id in core0.escrows && id in core2.escrows
    ensures ReleasePosting(core2.escrows[id]) == ReleasePosting(core0.escrows[id])
  {
    assert id in core1.escrows.Keys && id in core0.escrows.Keys && id in core2.escrows.Keys;
  }

  lemma ResolveSameParties(core: Lifecycle.State, id: nat, toMerchant: bool, net: Net)
    requires ResolveDispute(core, id, toMerchant, net).result.Ok?
    ensures id in core.escrows && id in ResolveDispute(core, id, toMerchant, net).state.escrows
    ensures ResolutionPosting(ResolveDispute(core, id, toMerchant, net).state.escrows[id]) == ResolutionPosting(core.escrows[id])
  {
    hide Pay, DisputeLegs;
  }

  lemma DispatchReleaseSameParties(core: Lifecycle.State, id: nat, early: bool, fr: Address, net: Net)
    requires DispatchRelease(core, id, early, fr, net).result.Ok?
    ensures id in core.escrows && id in DispatchRelease(core, id, early, fr, net).state.escrows
    ensures ReleaseProposalPosting(DispatchRelease(core, id, early, fr, net).state.escrows[id]) == ReleaseProposalPosting(core.escrows[id])
  {
    hide Pay, FeeLegs;
  }

  lemma DispatchResolveSameParties(core: Lifecycle.State, id: nat, toMerchant: bool, net: Net)
    requires DispatchResolve(core, id, toMerchant, net).result.Ok?
    ensures id in core.escrows && id in DispatchResolve(core, id, toMerchant, net).state.escrows
    ensures ResolveProposalPosting(DispatchResolve(core, id, toMerchant, net).state.escrows[id]) == ResolveProposalPosting(core.escrows[id])
  {
    hide Pay, DisputeLegs;
  }

  lemma AppealSameParties(s: Appeals.Court, i: nat, favour: Address, net: Net)
    requires Appeals.ResolveAppeal(s, i, favour, net).1.Ok?
    ensures i in s.appeals && i in Appeals.ResolveAppeal(s, i, favour, net).0.appeals
    ensures var id := s.appeals[i].escrowId;
            var s' := Appeals.ResolveAppeal(s, i, favour, net).0;
            && s'.appeals[i].escrowId == id && id in s.core.escrows && id in s'.core.escrows
            && AppealPosting(s'.core.escrows[id]) == AppealPosting(s.core.escrows[id])
  {
    hide Pay;
  }

  lemma {:induction false} OneMoreCreation(core: Lifecycle.State, entries: seq<BatchEntry>, i: nat, s: Books)
    requires i < |entries|
    ensures var ps := PostCreations(core, entries[..i]);
            PostAll(s, PostCreations(core, entries[..i + 1])) ==
            if CreateEntry(CreateAll(core, entries[..i]).0, entries[i]).result.Ok? then Post(PostAll(s, ps), BatchCreationPosting(entries[i]))
            else PostAll(s, ps)
  {
    hide CreateEntry, Post;
    assert entries[..i + 1][..i] == entries[..i];
    var before, p := PostCreations(core, entries[..i]), BatchCreationPosting(entries[i]);
    assert (before + [p])[..|before|] == before && before + [] == before;
  }

  lemma FailedVesting(core: Lifecycle.State, customer: Address, merchant: Address, amount: int, feeBps: int, cliff: nat, end: nat,
                      milestones: seq<Vesting.Milestone>)
    ensures var o := CreateVesting(core, customer, merchant, amount, feeBps, cliff, end, milestones);
            (o.result.Err? ==> o.state == core) && (o.result.Ok? ==> core.counter + 1 in o.state.scheduled)
  {
    hide Vesting.Admissible;
  }

  lemma InsuranceKeeps(s: Appeals.Court, id: nat, premiumBps: nat)
    requires Appeals.Inv(s)
    ensures var core' := OptIntoInsurance(s.core, id, premiumBps).0; Appeals.Inv(s.(core := core')) && LifecycleLaws.Inv(core')
  {
    CourtRecords(s);
    hide Appeals.Inv, LifecycleLaws.Inv, LifecycleLaws.RecordsSound, TruncDiv;
    var core' := OptIntoInsurance(s.core, id, premiumBps).0;
    if core' != s.core {
      SameLog(s.core, id);
      RewriteKeeps(s, core', id, core'.escrows[id], PaidFor(s.core, id));
    }
  }

  lemma SwapKeeps(s: Appeals.Court, id: nat, rate: int, minOutput: int)
    requires Appeals.Inv(s)
    ensures var core' := SwapEscrow(s.core, id, rate, minOutput).0; Appeals.Inv(s.(core := core')) && LifecycleLaws.Inv(core')
  {
    CourtRecords(s);
    hide Appeals.Inv, LifecycleLaws.Inv, LifecycleLaws.RecordsSound, TruncDiv;
    var core' := SwapEscrow(s.core, id, rate, minOutput).0;
    if core' != s.core {
      SameLog(s.core, id);
      RewriteKeeps(s, core', id, core'.escrows[id], PaidFor(s.core, id));
    }
  }

  lemma ClawBackKeeps(s: Appeals.Court, id: nat, admin: Address, net: Net)
    requires Appeals.Inv(s)
    ensures var core' := ClawBack(s.core, id, admin, net).0; Appeals.Inv(s.(core := core')) && LifecycleLaws.Inv(core')
  {
    CourtRecords(s);
    hide Appeals.Inv, LifecycleLaws.Inv, LifecycleLaws.RecordsSound;
    var core' := ClawBack(s.core, id, admin, net).0;
    if core' != s.core {
      RewriteKeeps(s, core', id, core'.escrows[id], core'.paid[id]);
    }
  }
}
