/** The three analytics ledgers: one for the whole contract, one per customer and one per merchant,
    posted to by the entry points of the escrow machine and of the appeals. */
module Analytics {
  import opened Common
  import opened Lifecycle
  import LifecycleLaws
  import Appeals

  datatype Ledger = Ledger(
    created: int, valueLocked: int, released: int, valueReleased: int, disputes: int, resolutions: int)

  const ZERO := Ledger(0, 0, 0, 0, 0, 0)

  function Add(a: Ledger, b: Ledger): Ledger {
    Ledger(a.created + b.created, a.valueLocked + b.valueLocked, a.released + b.released,
           a.valueReleased + b.valueReleased, a.disputes + b.disputes, a.resolutions + b.resolutions)
  }

  /** One event: what is added to the global ledger and to those of the two parties. The source
      writes the three additions out at each place. */
  datatype Posting = Posting(global: Ledger, customer: Address, ofCustomer: Ledger, merchant: Address, ofMerchant: Ledger)

  // ----- What each place posts -----

  function CreationPosting(t: Terms): Posting {
    Posting(ZERO.(created := 1, valueLocked := t.amount),
            t.customer, ZERO.(created := 1, valueLocked := t.amount),
            t.merchant, ZERO.(created := 1, valueLocked := t.amount))
  }

  function BatchCreationPosting(e: BatchEntry): Posting {
    Posting(ZERO.(created := 1, valueLocked := e.amount),
            e.customer, ZERO.(created := 1, valueLocked := e.amount),
            e.merchant, ZERO.(created := 1, valueLocked := e.amount))
  }

  function ReleasePosting(e: Escrow): Posting {
    Posting(ZERO.(released := 1, valueReleased := e.amount),
            e.customer, ZERO.(released := 1, valueReleased := e.amount),
            e.merchant, ZERO.(released := 1, valueReleased := e.amount))
  }

  function ReleaseProposalPosting(e: Escrow): Posting {
    Posting(ZERO.(released := 1, valueReleased := e.amount),
            e.customer, ZERO.(released := 1, valueReleased := e.amount),
            e.merchant, ZERO.(released := 1, valueReleased := e.amount))
  }

  function DisputePosting(e: Escrow): Posting {
    Posting(ZERO.(disputes := 1), e.customer, ZERO.(disputes := 1), e.merchant, ZERO.(disputes := 1))
  }

  function ResolutionPosting(e: Escrow): Posting {
    Posting(ZERO.(resolutions := 1), e.customer, ZERO.(resolutions := 1), e.merchant, ZERO.(resolutions := 1))
  }

  function ResolveProposalPosting(e: Escrow): Posting {
    Posting(ZERO.(resolutions := 1), e.customer, ZERO.(resolutions := 1), e.merchant, ZERO.(resolutions := 1))
  }

  function AppealPosting(e: Escrow): Posting {
    Posting(ZERO.(resolutions := 1), e.customer, ZERO.(resolutions := 1), e.merchant, ZERO.(resolutions := 1))
  }

  /** `base` and `drift` are not stored: they are what the per-customer ledgers added up to at the last
      reset, and by how much insurance and swaps have changed the amounts of escrows on the books. */
  datatype Books = Books(
    court: Appeals.Court, global: Ledger, customers: map<Address, Ledger>, merchants: map<Address, Ledger>,
    base: Ledger, drift: int)

  /** Nothing is stored, and the clock shows `seconds`. */
  function BlankAt(seconds: nat): Books {
    Books(Appeals.OPENED.(core := INITIAL.(now := seconds)), ZERO, map[], map[], ZERO, 0)
  }

  // ----- Posting -----

  /** A ledger that has not been stored says nothing. */
  function LedgerOf(m: map<Address, Ledger>, a: Address): Ledger {
    if a in m then m[a] else ZERO
  }

  function Credit(m: map<Address, Ledger>, a: Address, delta: Ledger): map<Address, Ledger> {
    m[a := Add(LedgerOf(m, a), delta)]
  }

  function Post(s: Books, p: Posting): Books {
    s.(global := Add(s.global, p.global),
       customers := Credit(s.customers, p.customer, p.ofCustomer),
       merchants := Credit(s.merchants, p.merchant, p.ofMerchant))
  }

  function PostAll(s: Books, ps: seq<Posting>): Books
    decreases |ps|
  {
    if ps == [] then s else Post(PostAll(s, ps[..|ps| - 1]), ps[|ps| - 1])
  }

  function PostReleases(escrows: map<nat, Escrow>, ids: seq<nat>): seq<Posting> {
    if ids == [] then []
    else
      PostReleases(escrows, ids[..|ids| - 1]) +
      if ids[|ids| - 1] in escrows then [ReleasePosting(escrows[ids[|ids| - 1]])] else []
  }

  /** Each entry of a batch that is created is posted. */
  function PostCreations(core: Lifecycle.State, entries: seq<BatchEntry>): seq<Posting>
    decreases |entries|
  {
    if entries == [] then []
    else
      var last := |entries| - 1;
      PostCreations(core, entries[..last]) +
      if CreateEntry(CreateAll(core, entries[..last]).0, entries[last]).result.Ok? then [BatchCreationPosting(entries[last])] else []
  }

  /** What a call of the escrow machine posts: nothing when it fails, and nothing at all for the
      creation of conditional and vesting escrows, the evaluation of conditions, timeouts, refunds,
      expiry, the watchdog and evidence. */
  function Postings(core: Lifecycle.State, c: LifecycleLaws.Call): seq<Posting> {
    match c.op
    case Creating(t) => if Create(core, t).result.Ok? then [CreationPosting(t)] else []
    case CreatingBatch(entries, limit) => if |entries| > limit then [] else PostCreations(core, entries)
    case Disputing(caller, id) =>
      if Dispute(core, caller, id).result.Ok? && id in core.escrows then [DisputePosting(core.escrows[id])] else []
    case Resolving(id, m) =>
      if ResolveDispute(core, id, m, c.net).result.Ok? && id in core.escrows then [ResolutionPosting(core.escrows[id])] else []
    case DispatchingResolve(id, m) =>
      if DispatchResolve(core, id, m, c.net).result.Ok? && id in core.escrows then [ResolveProposalPosting(core.escrows[id])] else []
    case Releasing(id, early, to, gate, fr) =>
      if Release(core, id, early, to, gate, fr, c.net).result.Ok? && id in core.escrows then [ReleasePosting(core.escrows[id])] else []
    case DispatchingRelease(id, early, fr) =>
      if DispatchRelease(core, id, early, fr, c.net).result.Ok? && id in core.escrows then [ReleaseProposalPosting(core.escrows[id])] else []
    case BatchReleasing(ids, to, gates, fr) =>
      if |ids| > 20 then [] else PostReleases(core.escrows, ReleaseAll(core, ids, to, gates, fr, c.net).1)
    case _ => []
  }

  function AppealPostings(s: Appeals.Court, op: Appeals.Op): seq<Posting> {
    match op
    case ResolvingAppeal(i, favour, net) =>
      if Appeals.ResolveAppeal(s, i, favour, net).1.Ok? && i in s.appeals && s.appeals[i].escrowId in s.core.escrows then
        [AppealPosting(s.core.escrows[s.appeals[i].escrowId])]
      else []
    case _ => []
  }

  // ----- The other entry points -----

  /** The caller is the merchant or an admin. */
  function TransferBeneficiary(core: Lifecycle.State, id: nat, newMerchant: Address): (Lifecycle.State, Result<()>) {
    if id !in core.escrows then (core, Err(NotFound))
    else
      var e := core.escrows[id];
      if e.status.Disputed? || e.status.Resolved? then (core, Err(TransferNotAllowed))
      else if newMerchant == e.merchant then (core, Err(SameBeneficiary))
      else (core.(escrows := core.escrows[id := e.(merchant := newMerchant)]), Ok(()))
  }

  /** A premium is taken off the amount of a locked escrow. */
  function OptIntoInsurance(core: Lifecycle.State, id: nat, premiumBps: nat): (Lifecycle.State, Result<()>) {
    if id !in core.escrows then (core, Err(NotFound))
    else
      var e := core.escrows[id];
      var premium := TruncDiv(e.amount * premiumBps, 10000);
      if !e.status.Locked? then (core, Err(InvalidStatus))
      else if premium == 0 then (core, Ok(()))
      else (core.(escrows := core.escrows[id := e.(amount := e.amount - premium)]), Ok(()))
  }

  /** The amount of a locked escrow is exchanged at the oracle's rate; the caller may do so and has
      configured it, and it was not done before. */
  function SwapEscrow(core: Lifecycle.State, id: nat, rate: int, minOutput: int): (Lifecycle.State, Result<int>) {
    if id !in core.escrows then (core, Err(NotFound))
    else
      var e := core.escrows[id];
      var output := TruncDiv(e.amount * rate, 10000000);
      if !e.status.Locked? then (core, Err(InvalidStatus))
      else if output < minOutput then (core, Err(SwapOutputBelowMinimum))
      else (core.(escrows := core.escrows[id := e.(amount := output, lastActivityAt := core.now)]), Ok(output))
  }

  /** The request of an admin is due and open. Whatever the status, the amount goes to the admin. */
  function ClawBack(core: Lifecycle.State, id: nat, admin: Address, net: Net): (Lifecycle.State, Result<()>) {
    if id !in core.escrows then (core, Err(NotFound))
    else if !net(id, Principal).Moved? then (core, Err(TransferFailed))
    else
      var e := core.escrows[id];
      (core.(escrows := core.escrows[id := e.(status := Resolved)],
             paid := core.paid[id := PaidFor(core, id) + [Payment(Principal, admin, e.amount)]]), Ok(()))
  }

  // ----- On and off the books -----

  /** Conditional and vesting escrows are created without a posting. */
  function OffBookIds(core: Lifecycle.State): set<nat> {
    core.conditions.Keys + core.scheduled
  }

  /** By how much the amount of an escrow on the books differs between two storages. */
  function DriftOf(core: Lifecycle.State, core': Lifecycle.State, id: nat): int {
    if id in core.escrows && id in core'.escrows && id !in OffBookIds(core) then core'.escrows[id].amount - core.escrows[id].amount else 0
  }

  // ----- Runs -----

  datatype Op =
    | Calling(call: LifecycleLaws.Call)
    | Appealing(op: Appeals.Op)
    | TransferringBeneficiary(id: nat, newMerchant: Address)
    | Insuring(id: nat, premiumBps: nat)
    | Swapping(id: nat, rate: int, minOutput: int)
    | ClawingBack(id: nat, admin: Address, net: Net)
    | Resetting

  function Amended(s: Books, core': Lifecycle.State, id: nat): Books {
    s.(court := s.court.(core := core'), drift := s.drift + DriftOf(s.court.core, core', id))
  }

  ghost function Step(s: Books, op: Op): Books {
    match op
    case Calling(call) =>
      PostAll(s.(court := Appeals.Step(s.court, Appeals.Calling(call))), Postings(s.court.core, call))
    case Appealing(aop) =>
      if aop.Calling? then s
      else PostAll(s.(court := Appeals.Step(s.court, aop)), AppealPostings(s.court, aop))
    case TransferringBeneficiary(id, newMerchant) =>
      s.(court := s.court.(core := TransferBeneficiary(s.court.core, id, newMerchant).0))
    case Insuring(id, premiumBps) => Amended(s, OptIntoInsurance(s.court.core, id, premiumBps).0, id)
    case Swapping(id, rate, minOutput) => Amended(s, SwapEscrow(s.court.core, id, rate, minOutput).0, id)
    case ClawingBack(id, admin, net) => s.(court := s.court.(core := ClawBack(s.court.core, id, admin, net).0))
    case Resetting => s.(global := ZERO, base := Sum(s.customers))
  }

  ghost function Run(s: Books, ops: seq<Op>): Books
    decreases |ops|
  {
    if ops == [] then s else Run(Step(s, ops[0]), ops[1..])
  }

  // ----- Sums over accounts -----

  /** Some key of a map; which one does not matter, because sums do not depend on it. */
  ghost function AnyKey(m: map<Address, Ledger>): (a: Address)
    requires m != map[]
    ensures a in m
  {
    assert exists a :: a in m by {
      if !exists a :: a in m {
        NoKeys(m);
      }
    }
    var a :| a in m;
    a
  }

  lemma NoKeys(m: map<Address, Ledger>)
    requires !exists a :: a in m
    ensures m == map[]
  {}

  ghost function Sum(m: map<Address, Ledger>): Ledger
    decreases |m|
  {
    if m == map[] then ZERO
    else
      var a := AnyKey(m);
      assert |m - {a}| < |m| by { Smaller(m, a); }
      Add(m[a], Sum(m - {a}))
  }

  lemma Smaller(m: map<Address, Ledger>, a: Address)
    requires a in m
    ensures |m - {a}| == |m| - 1
  {
    assert (m - {a}).Keys == m.Keys - {a};
    assert |m.Keys| == |m| && |(m - {a}).Keys| == |m - {a}|;
  }

  lemma {:induction false} SumWithout(m: map<Address, Ledger>, a: Address)
    requires a in m
    ensures Sum(m) == Add(m[a], Sum(m - {a}))
    decreases |m|
  {
    var b := AnyKey(m);
    if a != b {
      Smaller(m, b);
      Smaller(m, a);
      SumWithout(m - {b}, a);
      SumWithout(m - {a}, b);
      assert m - {b} - {a} == m - {a} - {b};
    }
  }

  /** Crediting one account adds exactly the posted amounts to the sum of all accounts. */
  lemma SumCredit(m: map<Address, Ledger>, a: Address, delta: Ledger)
    ensures Sum(Credit(m, a, delta)) == Add(Sum(m), delta)
  {
    var m' := Credit(m, a, delta);
    SumWithout(m', a);
    if a in m {
      SumWithout(m, a);
      assert m' - {a} == m - {a};
    } else {
      assert m' - {a} == m;
    }
  }
}
