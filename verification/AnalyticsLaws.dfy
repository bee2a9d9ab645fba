/** Double entry: what the global ledger says against the sums over customers and merchants. */
module AnalyticsLaws {
  import opened Common
  import opened Lifecycle
  import LifecycleLaws
  import Appeals
  import opened Analytics

  // ----- The three ledgers against each other -----

  /** The global ledger, with what it said before the last reset, is the sum over all customers and
      the sum over all merchants. */
  ghost predicate Balanced(s: Books) {
    Add(s.global, s.base) == Sum(s.customers) == Sum(s.merchants)
  }

  /** The same is added to the global ledger and to those of both parties. */
  predicate Even(p: Posting) {
    p.global == p.ofCustomer == p.ofMerchant
  }

  /** A posting keeps the ledgers balanced if and only if it is even. */
  lemma PostKeepsIff(s: Books, p: Posting)
    requires Balanced(s)
    ensures Balanced(Post(s, p)) <==> Even(p)
  {
    SumCredit(s.customers, p.customer, p.ofCustomer);
    SumCredit(s.merchants, p.merchant, p.ofMerchant);
    hide Sum, Credit;
  }

  ghost predicate AllEven(ps: seq<Posting>) {
    forall i :: 0 <= i < |ps| ==> Even(ps[i])
  }

  lemma {:induction false} PostAllKeeps(s: Books, ps: seq<Posting>)
    requires Balanced(s)
    ensures AllEven(ps) ==> Balanced(PostAll(s, ps))
    ensures PostAll(s, ps).court == s.court && PostAll(s, ps).base == s.base
    decreases |ps|
  {
    hide Balanced, Even;
    if ps != [] {
      PostAllKeeps(s, ps[..|ps| - 1]);
      if AllEven(ps) {
        assert AllEven(ps[..|ps| - 1]);
        PostKeepsIff(PostAll(s, ps[..|ps| - 1]), ps[|ps| - 1]);
      }
    }
  }

  lemma {:induction false} ReleasesEven(escrows: map<nat, Escrow>, ids: seq<nat>)
    ensures AllEven(PostReleases(escrows, ids))
  {
    if ids != [] {
      ReleasesEven(escrows, ids[..|ids| - 1]);
    }
  }

  lemma {:induction false} CreationsEven(core: Lifecycle.State, entries: seq<BatchEntry>)
    ensures AllEven(PostCreations(core, entries))
    decreases |entries|
  {
    hide CreateEntry, CreateAll;
    if entries != [] {
      CreationsEven(core, entries[..|entries| - 1]);
    }
  }

  /** All that any call posts, at any of the eight places, is even. */
  lemma PostingsEven(core: Lifecycle.State, c: LifecycleLaws.Call)
    ensures AllEven(Postings(core, c))
  {
    hide Create, Dispute, ResolveDispute, DispatchResolve, Release, DispatchRelease, ReleaseAll, PostReleases, PostCreations;
    match c.op
    case CreatingBatch(entries, limit) => CreationsEven(core, entries);
    case BatchReleasing(ids, to, gates, fr) => ReleasesEven(core.escrows, ReleaseAll(core, ids, to, gates, fr, c.net).1);
    case _ =>
  }

  lemma AppealPostingsEven(s: Appeals.Court, op: Appeals.Op)
    ensures AllEven(AppealPostings(s, op))
  {
    hide Appeals.ResolveAppeal;
  }

  lemma StepBalanced(s: Books, op: Op)
    requires Balanced(s)
    ensures Balanced(Step(s, op))
    ensures op.Resetting? || Step(s, op).base == s.base
  {
    hide Appeals.Step, Postings, AppealPostings, PostAll, TransferBeneficiary, OptIntoInsurance, SwapEscrow, ClawBack, DriftOf, Sum, AllEven;
    match op
    case Calling(call) =>
      PostingsEven(s.court.core, call);
      PostAllKeeps(s.(court := Appeals.Step(s.court, Appeals.Calling(call))), Postings(s.court.core, call));
    case Appealing(aop) =>
      AppealPostingsEven(s.court, aop);
      PostAllKeeps(s.(court := Appeals.Step(s.court, aop)), AppealPostings(s.court, aop));
    case _ =>
  }

  lemma {:induction false} RunBalanced(s: Books, ops: seq<Op>)
    requires Balanced(s)
    ensures Balanced(Run(s, ops))
    ensures (forall i :: 0 <= i < |ops| ==> !ops[i].Resetting?) ==> Run(s, ops).base == s.base
    decreases |ops|
  {
    hide Balanced, Step;
    if ops != [] {
      StepBalanced(s, ops[0]);
      RunBalanced(Step(s, ops[0]), ops[1..]);
    }
  }

  /** Double entry: over every run without a reset, whatever paths it takes and whoever becomes the
      beneficiary, each of the six figures of the global ledger is the sum of that figure over all
      customers and its sum over all merchants. */
  lemma DoubleEntry(seconds: nat, ops: seq<Op>)
    requires forall i :: 0 <= i < |ops| ==> !ops[i].Resetting?
    ensures var s := Run(BlankAt(seconds), ops); s.global == Sum(s.customers) == Sum(s.merchants)
  {
    BalancedFromBlank(seconds, ops);
    hide Run, Sum;
    NoBase(Run(BlankAt(seconds), ops));
  }

  lemma NoBase(s: Books)
    requires Balanced(s)
    ensures s.global == Sum(s.customers) <==> s.base == ZERO
    ensures Sum(s.customers) == Sum(s.merchants)
  {
    hide Sum;
  }

  lemma BalancedFromBlank(seconds: nat, ops: seq<Op>)
    ensures Balanced(Run(BlankAt(seconds), ops))
    ensures (forall i :: 0 <= i < |ops| ==> !ops[i].Resetting?) ==> Run(BlankAt(seconds), ops).base == ZERO
  {
    hide Run, Balanced;
    BlankBalanced(seconds);
    RunBalanced(BlankAt(seconds), ops);
  }

  lemma BlankBalanced(seconds: nat)
    ensures Balanced(BlankAt(seconds))
  {
    hide Sum;
    NothingSums(BlankAt(seconds).customers);
    NothingSums(BlankAt(seconds).merchants);
  }

  lemma NothingSums(m: map<Address, Ledger>)
    requires m == map[]
    ensures Sum(m) == ZERO
  {}

  /** A reset clears the global ledger alone. With any resets in a run customers and merchants still
      agree, and the global ledger agrees with them exactly when there was nothing on the customers'
      accounts at the last reset. */
  lemma ResetBreaksIff(seconds: nat, ops: seq<Op>)
    ensures var s := Run(BlankAt(seconds), ops);
            && Sum(s.customers) == Sum(s.merchants)
            && (s.global == Sum(s.customers) <==> s.base == ZERO)
            && (var r := Step(s, Resetting); r.global == Sum(r.customers) <==> Sum(s.customers) == ZERO)
  {
    hide Run, Sum;
    BalancedFromBlank(seconds, ops);
    NoBase(Run(BlankAt(seconds), ops));
    ResetEffect(Run(BlankAt(seconds), ops));
    hide Balanced, Step;
  }

  lemma ResetEffect(s: Books)
    ensures var r := Step(s, Resetting); r.global == ZERO && r.customers == s.customers
  {}
}
