/** Single escrows bring nothing into the contract's account and are paid out of it: what that does to
    the pooled escrows whose principal lies there. */
module SharedAccount {
  import opened Common
  import Lifecycle
  import LifecycleLaws
  import opened PooledEscrow
  import opened PooledMoney
  import opened PooledLaws

  /** The payments of a single escrow, as payouts from the account. */
  function Payouts(token: Address, log: seq<Lifecycle.Payment>): seq<Op> {
    seq(|log|, i requires 0 <= i < |log| => PayingOut(token, log[i].to, log[i].amount))
  }

  /** Anybody creates a single escrow as its customer and refunds it. */
  function CreateAndRefund(caller: Address, merchant: Address, amount: int, net: Lifecycle.Net): seq<LifecycleLaws.Call> {
    [LifecycleLaws.Call(LifecycleLaws.Creating(Lifecycle.Terms(caller, merchant, amount, 0, 0, 0, 0, 0, Lifecycle.FavorCustomer)), net),
     LifecycleLaws.Call(LifecycleLaws.Refunding(caller, 1), net)]
  }

  lemma RefundPays(caller: Address, merchant: Address, amount: int, net: Lifecycle.Net)
    requires net(1, Lifecycle.Principal).Moved?
    ensures var s := LifecycleLaws.Run(Lifecycle.INITIAL, CreateAndRefund(caller, merchant, amount, net));
            Lifecycle.PaidFor(s, 1) == [Lifecycle.Payment(Lifecycle.Principal, caller, amount)]
  {
    var calls := CreateAndRefund(caller, merchant, amount, net);
    var s1 := LifecycleLaws.Step(Lifecycle.INITIAL, calls[0]);
    var p := Lifecycle.Payment(Lifecycle.Principal, caller, amount);
    assert s1.escrows[1].status.Locked? && Lifecycle.PaidFor(s1, 1) == [];
    assert [p][1..] == [] && [] + [p] == [p];
    assert Lifecycle.Pay([], [p], 1, net) == ([p], true) by {
      assert Lifecycle.Pay([p], [], 1, net) == ([p], true);
    }
    var s2 := LifecycleLaws.Step(s1, calls[1]);
    assert Lifecycle.PaidFor(s2, 1) == [p];
    assert calls[1..] == [calls[1]] && calls[1..][1..] == [];
    assert LifecycleLaws.Run(s2, []) == s2;
    assert LifecycleLaws.Run(s1, [calls[1]]) == s2;
  }

  lemma OnePayout(token: Address, p: Lifecycle.Payment)
    ensures Payouts(token, [p]) == [PayingOut(token, p.to, p.amount)]
  {}

  lemma {:induction false} RunAppend(s: State, a: seq<Op>, b: seq<Op>)
    ensures Run(s, a + b) == Run(Run(s, a), b)
    decreases |a|
  {
    hide Step;
    if a == [] {
      assert a + b == b;
    } else {
      assert (a + b)[1..] == a[1..] + b;
      RunAppend(Step(s, a[0]), a[1..], b);
    }
  }

  lemma RunTwo(s: State, a: Op, b: Op)
    ensures Run(s, [a, b]) == Step(Step(s, a), b)
  {
    hide Step;
    assert [a, b][1..] == [b] && [b][1..] == [];
    assert Run(Step(Step(s, a), b), []) == Step(Step(s, a), b);
    assert Run(Step(s, a), [b]) == Step(Step(s, a), b);
  }

  /** The account holds nothing of the token, although escrow 1 is live and worth an amount. */
  ghost predicate DrainedParty(s: State, a: Address, b: Address, amount: int, token: Address) {
    && 1 in s.parties && s.parties[1].token == token && s.parties[1].total == amount
    && |s.parties[1].participants| == 2
    && s.parties[1].participants[0].address == a && s.parties[1].participants[0].role.CustomerRole?
    && s.parties[1].participants[1].address == b
    && Balance(s.bank, token, SELF) == 0
  }

  function Two(a: Address, b: Address): seq<Participant> {
    [Participant(a, CustomerRole, 5000, 5000, false, None), Participant(b, MerchantRole, 5000, 5000, false, None)]
  }

  lemma TwoSums(a: Address, b: Address)
    ensures ShareSum(Two(a, b)) == 10000 && WeightSum(Two(a, b)) == 10000
  {
    var ps := Two(a, b);
    assert ps[..1] == [ps[0]] && [ps[0]][..0] == [];
    assert ShareSum([ps[0]]) == 5000 && WeightSum([ps[0]]) == 5000;
  }

  lemma PartyDrained(bank: Bank, customer: Address, a: Address, b: Address, caller: Address, token: Address, amount: int)
    requires customer != SELF && caller != SELF && a != b && amount > 0
    requires Balance(bank, token, SELF) == 0 && Balance(bank, token, customer) >= amount
    ensures var s := Step(Step(Initial(bank), CreatingParty(customer, Two(a, b), amount, token, 0)), PayingOut(token, caller, amount));
            DrainedParty(s, a, b, amount, token) && s.parties[1].status.Locked? && s.now == 0 && Owed(s, token) == amount
  {
    hide ShareSum, WeightSum, SeedWeights, Transfer, Balance;
    TwoSums(a, b);
    var s1 := Step(Initial(bank), CreatingParty(customer, Two(a, b), amount, token, 0));
    assert Transfer(bank, token, customer, SELF, amount).Some? by { Affordable(bank, token, customer, SELF, amount); }
    TransferEffect(bank, token, customer, SELF, amount, token, SELF);
    Affordable(s1.bank, token, SELF, caller, amount);
    TransferEffect(s1.bank, token, SELF, caller, amount, token, SELF);
    var s := Step(s1, PayingOut(token, caller, amount));
    assert s.parties == s1.parties && s.partyCounter == 1 && s.bundleCounter == 0;
    assert PartiesOwe(s.parties, token, 0) == 0;
    assert PartiesOwe(s.parties, token, 1) == amount;
    assert BundlesOwe(s.bundles, token, 0) == 0;
  }

  lemma Affordable(b: Bank, token: Address, from: Address, to: Address, amount: int)
    requires 0 <= amount <= Balance(b, token, from)
    ensures Transfer(b, token, from, to, amount).Some?
  {}

  const WEEK := 7 * 24 * 3600

  /** The drained escrow is disputed, nobody votes, and the refund after the deadline fails. */
  lemma RefundRefused(s: State, a: Address, b: Address, amount: int, token: Address)
    requires DrainedParty(s, a, b, amount, token) && s.parties[1].status.Locked? && s.now == 0 && amount > 0
    ensures var t := Step(Step(s, DisputingParty(a, 1)), Ticking(WEEK + 1));
            t.parties[1].status.Disputed? && Balance(t.bank, token, SELF) == 0 && ResolveParty(t, 1).1 == Err(TransferFailed)
  {
    hide PayShares, Balance;
    var e := s.parties[1];
    assert Participates(e.participants, a);
    var d := PartyDispute([], [], 2, WEEK, false);
    var t := Step(Step(s, DisputingParty(a, 1)), Ticking(WEEK + 1));
    assert t.disputes[1] == d && t.now == WEEK + 1 && t.bank == s.bank;
    assert Verdict(d, WEEK + 1) == Some(false);
    assert FirstCustomer(e.participants) == Some(a);
  }

  /** A multi-party escrow of some amount is created, and then anybody creates a single escrow of the
      same amount and token and refunds it. Nothing but the principal was in the account, so it is empty
      while the whole amount is owed, and the refund that the expired vote decides on fails. */
  lemma CreateAndRefundStrandsParty(bank: Bank, customer: Address, a: Address, b: Address, caller: Address, merchant: Address,
                                    token: Address, amount: int, net: Lifecycle.Net)
    requires customer != SELF && caller != SELF && a != b && amount > 0 && net(1, Lifecycle.Principal).Moved?
    requires Balance(bank, token, SELF) == 0 && Balance(bank, token, customer) >= amount
    ensures var log := Lifecycle.PaidFor(LifecycleLaws.Run(Lifecycle.INITIAL, CreateAndRefund(caller, merchant, amount, net)), 1);
            var s := Run(Initial(bank), [CreatingParty(customer, Two(a, b), amount, token, 0)] + Payouts(token, log));
            var t := Run(s, [DisputingParty(a, 1), Ticking(WEEK + 1)]);
            && Balance(s.bank, token, SELF) == 0 && Owed(s, token) == amount
            && 1 in t.parties && t.parties[1].status.Disputed? && ResolveParty(t, 1).1 == Err(TransferFailed)
  {
    hide Step, Owed, Balance, ResolveParty, LifecycleLaws.Run, CreateAndRefund, Payouts, DrainedParty;
    RefundPays(caller, merchant, amount, net);
    OnePayout(token, Lifecycle.Payment(Lifecycle.Principal, caller, amount));
    var create, pay := CreatingParty(customer, Two(a, b), amount, token, 0), PayingOut(token, caller, amount);
    assert [create] + [pay] == [create, pay];
    RunTwo(Initial(bank), create, pay);
    PartyDrained(bank, customer, a, b, caller, token, amount);
    DrainedBalance(Step(Step(Initial(bank), create), pay), a, b, amount, token);
    RunTwo(Step(Step(Initial(bank), create), pay), DisputingParty(a, 1), Ticking(WEEK + 1));
    RefundRefused(Step(Step(Initial(bank), create), pay), a, b, amount, token);
    StillThere(Step(Step(Initial(bank), create), pay), a);
  }

  lemma DrainedBalance(s: State, a: Address, b: Address, amount: int, token: Address)
    requires DrainedParty(s, a, b, amount, token)
    ensures Balance(s.bank, token, SELF) == 0 && 1 in s.parties
  {}

  lemma StillThere(s: State, a: Address)
    requires 1 in s.parties
    ensures 1 in Step(Step(s, DisputingParty(a, 1)), Ticking(WEEK + 1)).parties
  {}

  /** The same with a bundle of one token: its time has come, it is locked, and the check of balances
      turns the release down. */
  lemma CreateAndRefundStrandsBundle(bank: Bank, customer: Address, to: Address, caller: Address, merchant: Address,
                                     token: Address, amount: int, net: Lifecycle.Net)
    requires customer != SELF && caller != SELF && amount > 0 && net(1, Lifecycle.Principal).Moved?
    requires Balance(bank, token, SELF) == 0 && Balance(bank, token, customer) >= amount
    ensures var log := Lifecycle.PaidFor(LifecycleLaws.Run(Lifecycle.INITIAL, CreateAndRefund(caller, merchant, amount, net)), 1);
            var s := Run(Initial(bank), [CreatingBundle(customer, to, [TokenEntry(token, amount)], 0)] + Payouts(token, log));
            && 1 in s.bundles && s.bundles[1].status.Locked? && s.bundles[1].releaseTimestamp <= s.now
            && Balance(s.bank, token, SELF) == 0 && ReleaseBundle(s, 1).1 == Err(InvalidStatus)
  {
    hide Step, ReleaseBundle, LifecycleLaws.Run, CreateAndRefund, Payouts, Balance;
    RefundPays(caller, merchant, amount, net);
    OnePayout(token, Lifecycle.Payment(Lifecycle.Principal, caller, amount));
    var create, pay := CreatingBundle(customer, to, [TokenEntry(token, amount)], 0), PayingOut(token, caller, amount);
    assert [create] + [pay] == [create, pay];
    RunTwo(Initial(bank), create, pay);
    BundleDrained(bank, customer, to, caller, token, amount);
  }

  lemma BundleDrained(bank: Bank, customer: Address, to: Address, caller: Address, token: Address, amount: int)
    requires customer != SELF && caller != SELF && amount > 0
    requires Balance(bank, token, SELF) == 0 && Balance(bank, token, customer) >= amount
    ensures var s := Step(Step(Initial(bank), CreatingBundle(customer, to, [TokenEntry(token, amount)], 0)), PayingOut(token, caller, amount));
            && 1 in s.bundles && s.bundles[1].status.Locked? && s.bundles[1].releaseTimestamp <= s.now
            && Balance(s.bank, token, SELF) == 0 && ReleaseBundle(s, 1).1 == Err(InvalidStatus)
  {
    hide Transfer, Balance;
    var tokens := [TokenEntry(token, amount)];
    Affordable(bank, token, customer, SELF, amount);
    assert tokens[..0] == [];
    assert MoveEntries(bank, tokens, customer, SELF) == Transfer(bank, token, customer, SELF, amount) by {
      assert MoveEntries(bank, tokens[..0], customer, SELF) == Some(bank);
    }
    var s1 := Step(Initial(bank), CreatingBundle(customer, to, tokens, 0));
    TransferEffect(bank, token, customer, SELF, amount, token, SELF);
    Affordable(s1.bank, token, SELF, caller, amount);
    TransferEffect(s1.bank, token, SELF, caller, amount, token, SELF);
    var s := Step(s1, PayingOut(token, caller, amount));
    assert s.bundles[1].tokens == tokens && tokens[0].amount > Balance(s.bank, tokens[0].token, SELF);
    hide MoveEntries;
  }
}
