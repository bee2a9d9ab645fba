/** What each call adds to each account: the figures of its event to the two parties of the escrow and
    to the global ledger, and nothing to anybody else. */
module AnalyticsEffects {
  import opened Common
  import opened Lifecycle
  import LifecycleLaws
  import Appeals
  import opened Analytics

  // ----- The events -----

  /** An escrow of this amount is created. */
  function CreationOf(amount: int): Ledger {
    Ledger(1, amount, 0, 0, 0, 0)
  }

  /** An escrow of this amount is released. */
  function ReleaseOf(amount: int): Ledger {
    Ledger(0, 0, 1, amount, 0, 0)
  }

  const DISPUTED := Ledger(0, 0, 0, 0, 1, 0)
  const RESOLVED := Ledger(0, 0, 0, 0, 0, 1)

  /** The same figures have been added to the global ledger and to the two parties' own, and no other
      account has changed. */
  ghost predicate Enters(s: Books, s': Books, customer: Address, merchant: Address, d: Ledger) {
    && s'.global == Add(s.global, d)
    && (forall a :: LedgerOf(s'.customers, a) == if a == customer then Add(LedgerOf(s.customers, a), d) else LedgerOf(s.customers, a))
    && (forall a :: LedgerOf(s'.merchants, a) == if a == merchant then Add(LedgerOf(s.merchants, a), d) else LedgerOf(s.merchants, a))
  }

  ghost predicate EntersNothing(s: Books, s': Books) {
    s'.global == s.global && s'.customers == s.customers && s'.merchants == s.merchants
  }

  // ----- What a call adds to an account -----

  /** The two kinds of account beside the global ledger. */
  datatype Side = AsCustomer | AsMerchant

  /** `a` is this side's party. */
  predicate Concerns(customer: Address, merchant: Address, a: Address, side: Side) {
    a == if side.AsCustomer? then customer else merchant
  }

  function For(customer: Address, merchant: Address, a: Address, side: Side, d: Ledger): Ledger {
    if Concerns(customer, merchant, a, side) then d else ZERO
  }

  /** Each entry of a batch with a positive amount and a later release is created. */
  function ForEntries(entries: seq<BatchEntry>, now: nat, a: Address, side: Side): Ledger {
    if entries == [] then ZERO
    else
      var e := entries[|entries| - 1];
      Add(ForEntries(entries[..|entries| - 1], now, a, side),
          if e.amount > 0 && e.releaseTimestamp > now then For(e.customer, e.merchant, a, side, CreationOf(e.amount)) else ZERO)
  }

  function ForReleased(escrows: map<nat, Escrow>, ids: seq<nat>, a: Address, side: Side): Ledger {
    if ids == [] then ZERO
    else
      var id := ids[|ids| - 1];
      Add(ForReleased(escrows, ids[..|ids| - 1], a, side),
          if id in escrows then For(escrows[id].customer, escrows[id].merchant, a, side, ReleaseOf(escrows[id].amount)) else ZERO)
  }

  /** When a call about one escrow succeeds, its two parties get the figures. */
  function ForOne(core: Lifecycle.State, id: nat, o: Outcome, a: Address, side: Side, d: Ledger): Ledger {
    if id in core.escrows && o.result.Ok? then For(core.escrows[id].customer, core.escrows[id].merchant, a, side, d) else ZERO
  }

  function AmountOf(core: Lifecycle.State, id: nat): int {
    if id in core.escrows then core.escrows[id].amount else 0
  }

  function ForCall(core: Lifecycle.State, c: LifecycleLaws.Call, a: Address, side: Side): Ledger {
    match c.op
    case Creating(t) => if Create(core, t).result.Ok? then For(t.customer, t.merchant, a, side, CreationOf(t.amount)) else ZERO
    case CreatingBatch(entries, limit) => if |entries| > limit then ZERO else ForEntries(entries, core.now, a, side)
    case Disputing(caller, id) => ForOne(core, id, Dispute(core, caller, id), a, side, DISPUTED)
    case Resolving(id, m) => ForOne(core, id, ResolveDispute(core, id, m, c.net), a, side, RESOLVED)
    case DispatchingResolve(id, m) => ForOne(core, id, DispatchResolve(core, id, m, c.net), a, side, RESOLVED)
    case Releasing(id, early, to, gate, fr) =>
      ForOne(core, id, Release(core, id, early, to, gate, fr, c.net), a, side, ReleaseOf(AmountOf(core, id)))
    case DispatchingRelease(id, early, fr) =>
      ForOne(core, id, DispatchRelease(core, id, early, fr, c.net), a, side, ReleaseOf(AmountOf(core, id)))
    case BatchReleasing(ids, to, gates, fr) =>
      if |ids| > 20 then ZERO else ForReleased(core.escrows, ReleaseAll(core, ids, to, gates, fr, c.net).1, a, side)
    case _ => ZERO
  }

  /** The resolution of an appeal counts as one more resolution for the parties of its escrow. */
  function ForOp(s: Books, op: Op, a: Address, side: Side): Ledger {
    match op
    case Calling(call) => ForCall(s.court.core, call, a, side)
    case Appealing(ResolvingAppeal(i, favour, net)) =>
      if Appeals.ResolveAppeal(s.court, i, favour, net).1.Ok? && i in s.court.appeals && s.court.appeals[i].escrowId in s.court.core.escrows then
        var e := s.court.core.escrows[s.court.appeals[i].escrowId];
        For(e.customer, e.merchant, a, side, RESOLVED)
      else ZERO
    case _ => ZERO
  }

  // ----- Postings and accounts -----

  function AccountOf(s: Books, a: Address, side: Side): Ledger {
    LedgerOf(if side.AsCustomer? then s.customers else s.merchants, a)
  }

  lemma AddZero(d: Ledger)
    ensures Add(d, ZERO) == d && Add(ZERO, d) == d
  {}

  lemma AddAssociative(x: Ledger, y: Ledger, z: Ledger)
    ensures Add(Add(x, y), z) == Add(x, Add(y, z))
  {}

  /** An event whose three additions are the same adds them to its parties and to nobody else. */
  lemma PostEnters(s: Books, p: Posting, d: Ledger)
    requires p.global == p.ofCustomer == p.ofMerchant == d
    ensures Enters(s, Post(s, p), p.customer, p.merchant, d)
  {}

  function PostedTo(p: Posting, a: Address, side: Side): Ledger {
    if side.AsCustomer? then (if a == p.customer then p.ofCustomer else ZERO) else if a == p.merchant then p.ofMerchant else ZERO
  }

  function AllPostedTo(ps: seq<Posting>, a: Address, side: Side): Ledger {
    if ps == [] then ZERO else Add(AllPostedTo(ps[..|ps| - 1], a, side), PostedTo(ps[|ps| - 1], a, side))
  }

  lemma PostAdds(s: Books, p: Posting, a: Address, side: Side)
    ensures AccountOf(Post(s, p), a, side) == Add(AccountOf(s, a, side), PostedTo(p, a, side))
  {
    AddZero(AccountOf(s, a, side));
    hide Add;
  }

  lemma {:induction false} PostAllAdds(s: Books, ps: seq<Posting>, a: Address, side: Side)
    ensures AccountOf(PostAll(s, ps), a, side) == Add(AccountOf(s, a, side), AllPostedTo(ps, a, side))
    decreases |ps|
  {
    hide Add, Post, PostedTo, AccountOf;
    if ps == [] {
      AddZero(AccountOf(s, a, side));
    } else {
      var before, p := ps[..|ps| - 1], ps[|ps| - 1];
      PostAllAdds(s, before, a, side);
      PostAdds(PostAll(s, before), p, a, side);
      AddAssociative(AccountOf(s, a, side), AllPostedTo(before, a, side), PostedTo(p, a, side));
    }
  }

  lemma NonePosted(a: Address, side: Side)
    ensures AllPostedTo([], a, side) == ZERO
  {}

  lemma MorePosted(ps: seq<Posting>, p: Posting, a: Address, side: Side)
    ensures AllPostedTo(ps + [p], a, side) == Add(AllPostedTo(ps, a, side), PostedTo(p, a, side))
  {
    hide Add, PostedTo;
    assert (ps + [p])[..|ps|] == ps;
  }

  lemma OnePosted(ps: seq<Posting>, p: Posting, a: Address, side: Side)
    requires ps == [p]
    ensures AllPostedTo(ps, a, side) == PostedTo(p, a, side)
  {
    hide Add, PostedTo, AllPostedTo;
    MorePosted([], p, a, side);
    assert [] + [p] == ps;
    NonePosted(a, side);
    AddZero(PostedTo(p, a, side));
  }

  lemma {:induction false} ReleasesPosted(escrows: map<nat, Escrow>, ids: seq<nat>, a: Address, side: Side)
    ensures AllPostedTo(PostReleases(escrows, ids), a, side) == ForReleased(escrows, ids, a, side)
  {
    hide Add, AllPostedTo, PostedTo, For;
    if ids == [] {
      NonePosted(a, side);
    } else {
      var rest, id := ids[..|ids| - 1], ids[|ids| - 1];
      var before := PostReleases(escrows, rest);
      ReleasesPosted(escrows, rest, a, side);
      if id in escrows {
        var e := escrows[id];
        MorePosted(before, ReleasePosting(e), a, side);
        ReleasePosted(e, a, side);
      } else {
        assert before + [] == before;
        AddZero(ForReleased(escrows, rest, a, side));
      }
    }
  }

  lemma ReleasePosted(e: Escrow, a: Address, side: Side)
    ensures PostedTo(ReleasePosting(e), a, side) == For(e.customer, e.merchant, a, side, ReleaseOf(e.amount))
  {}

  lemma CreationPosted(e: BatchEntry, a: Address, side: Side)
    ensures PostedTo(BatchCreationPosting(e), a, side) == For(e.customer, e.merchant, a, side, CreationOf(e.amount))
  {}

  lemma EntryCreated(s: Lifecycle.State, e: BatchEntry)
    ensures CreateEntry(s, e).result.Ok? <==> e.amount > 0 && e.releaseTimestamp > s.now
    ensures CreateEntry(s, e).state.now == s.now
  {
    hide NewEscrow;
  }

  lemma {:induction false} CreationsPosted(core: Lifecycle.State, entries: seq<BatchEntry>, a: Address, side: Side)
    ensures AllPostedTo(PostCreations(core, entries), a, side) == ForEntries(entries, core.now, a, side)
    ensures CreateAll(core, entries).0.now == core.now
    decreases |entries|
  {
    hide Add, AllPostedTo, PostedTo, For, CreateEntry;
    if entries == [] {
      NonePosted(a, side);
    } else {
      var rest, e := entries[..|entries| - 1], entries[|entries| - 1];
      var before := PostCreations(core, rest);
      CreationsPosted(core, rest, a, side);
      EntryCreated(CreateAll(core, rest).0, e);
      MorePosted(before, BatchCreationPosting(e), a, side);
      CreationPosted(e, a, side);
      assert before + [] == before;
      AddZero(ForEntries(rest, core.now, a, side));
    }
  }

  /** Each account has gained what the entries that can be created have to say about it. */
  ghost predicate EntersCreations(s: Books, s': Books, entries: seq<BatchEntry>, now: nat) {
    forall a, side :: AccountOf(s', a, side) == Add(AccountOf(s, a, side), ForEntries(entries, now, a, side))
  }

  /** Each account has gained what the released escrows have to say about it. */
  ghost predicate EntersReleases(s: Books, s': Books, escrows: map<nat, Escrow>, ids: seq<nat>) {
    forall a, side :: AccountOf(s', a, side) == Add(AccountOf(s, a, side), ForReleased(escrows, ids, a, side))
  }

  lemma CreationsEnter(s: Books, s': Books, core: Lifecycle.State, entries: seq<BatchEntry>)
    requires s' == PostAll(s, PostCreations(core, entries)).(court := s'.court)
    ensures EntersCreations(s, s', entries, core.now)
  {
    hide AllPostedTo, ForEntries, PostAll, PostCreations, Add;
    forall a, side ensures AccountOf(s', a, side) == Add(AccountOf(s, a, side), ForEntries(entries, core.now, a, side)) {
      PostAllAdds(s, PostCreations(core, entries), a, side);
      CreationsPosted(core, entries, a, side);
    }
  }

  lemma ReleasesEnter(s: Books, s': Books, escrows: map<nat, Escrow>, ids: seq<nat>)
    requires s' == PostAll(s, PostReleases(escrows, ids)).(court := s'.court)
    ensures EntersReleases(s, s', escrows, ids)
  {
    hide AllPostedTo, ForReleased, PostAll, PostReleases, Add;
    forall a, side ensures AccountOf(s', a, side) == Add(AccountOf(s, a, side), ForReleased(escrows, ids, a, side)) {
      PostAllAdds(s, PostReleases(escrows, ids), a, side);
      ReleasesPosted(escrows, ids, a, side);
    }
  }

  /** A call about one escrow posts once when it succeeds, to the two parties. */
  lemma SinglePosted(core: Lifecycle.State, c: LifecycleLaws.Call, a: Address, side: Side)
    requires !c.op.CreatingBatch? && !c.op.BatchReleasing?
    ensures AllPostedTo(Postings(core, c), a, side) == ForCall(core, c, a, side)
  {
    hide Create, Dispute, ResolveDispute, DispatchResolve, Release, DispatchRelease, AllPostedTo;
    var ps := Postings(core, c);
    if ps == [] {
      NonePosted(a, side);
    } else {
      OnePosted(ps, ps[0], a, side);
    }
  }

  lemma CallPosts(core: Lifecycle.State, c: LifecycleLaws.Call, a: Address, side: Side)
    ensures AllPostedTo(Postings(core, c), a, side) == ForCall(core, c, a, side)
  {
    match c.op {
      case CreatingBatch(entries, limit) =>
        hide AllPostedTo, PostCreations, ForEntries;
        CreationsPosted(core, entries, a, side);
        NonePosted(a, side);
      case BatchReleasing(ids, to, gates, fr) =>
        hide AllPostedTo, PostReleases, ForReleased, ReleaseAll;
        ReleasesPosted(core.escrows, ReleaseAll(core, ids, to, gates, fr, c.net).1, a, side);
        NonePosted(a, side);
      case _ =>
        hide AllPostedTo, Postings, ForCall;
        SinglePosted(core, c, a, side);
    }
  }

  lemma AppealPosted(s: Books, aop: Appeals.Op, a: Address, side: Side)
    ensures AllPostedTo(AppealPostings(s.court, aop), a, side) == ForOp(s, Appealing(aop), a, side)
  {
    hide Appeals.ResolveAppeal, AllPostedTo;
    var ps := AppealPostings(s.court, aop);
    if ps == [] {
      NonePosted(a, side);
    } else {
      OnePosted(ps, ps[0], a, side);
    }
  }

  /** A call adds to each account what it is to add, and keeps the other accounts. */
  lemma StepAdds(s: Books, op: Op, a: Address, side: Side)
    ensures AccountOf(Step(s, op), a, side) == Add(AccountOf(s, a, side), ForOp(s, op, a, side))
  {
    hide Appeals.Step, Postings, AppealPostings, PostAll, AllPostedTo, ForCall, Appeals.ResolveAppeal, Add, Sum, DriftOf,
      TransferBeneficiary, OptIntoInsurance, SwapEscrow, ClawBack;
    AddZero(AccountOf(s, a, side));
    match op {
      case Calling(call) =>
        PostAllAdds(s.(court := Appeals.Step(s.court, Appeals.Calling(call))), Postings(s.court.core, call), a, side);
        CallPosts(s.court.core, call, a, side);
      case Appealing(aop) =>
        PostAllAdds(s.(court := Appeals.Step(s.court, aop)), AppealPostings(s.court, aop), a, side);
        AppealPosted(s, aop, a, side);
      case _ =>
    }
  }

  // ----- Whole runs -----

  ghost function ForRun(s: Books, ops: seq<Op>, a: Address, side: Side): Ledger
    decreases |ops|
  {
    if ops == [] then ZERO else Add(ForOp(s, ops[0], a, side), ForRun(Step(s, ops[0]), ops[1..], a, side))
  }

  lemma {:induction false} RunAdds(s: Books, ops: seq<Op>, a: Address, side: Side)
    ensures AccountOf(Run(s, ops), a, side) == Add(AccountOf(s, a, side), ForRun(s, ops, a, side))
    decreases |ops|
  {
    hide Step, ForOp;
    if ops == [] {
      AddZero(AccountOf(s, a, side));
    } else {
      StepAdds(s, ops[0], a, side);
      RunAdds(Step(s, ops[0]), ops[1..], a, side);
      AddAssociative(AccountOf(s, a, side), ForOp(s, ops[0], a, side), ForRun(Step(s, ops[0]), ops[1..], a, side));
    }
  }

  /** After any run, resets included, each customer's and each merchant's account says exactly what the
      successful calls of the run have to say about the escrows it was the customer or the merchant of. */
  lemma AccountsAreTheCalls(seconds: nat, ops: seq<Op>, a: Address, side: Side)
    ensures AccountOf(Run(BlankAt(seconds), ops), a, side) == ForRun(BlankAt(seconds), ops, a, side)
  {
    hide Run, ForRun;
    RunAdds(BlankAt(seconds), ops, a, side);
    AddZero(ForRun(BlankAt(seconds), ops, a, side));
  }
}
