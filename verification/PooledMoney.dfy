/** The money side of pooled escrows: floor-rounded payouts and sequences of transfers. */
module PooledMoney {
  import opened Common
  import opened PooledEscrow

  // ----- One transfer -----

  /** What a transfer that goes through does to any account. */
  lemma TransferEffect(b: Bank, token: Address, from: Address, to: Address, amount: int, t: Address, h: Address)
    requires Transfer(b, token, from, to, amount).Some?
    ensures amount >= 0
    ensures Balance(Transfer(b, token, from, to, amount).value, t, h) ==
            Balance(b, t, h) + (if t == token && h == to then amount else 0) - (if t == token && h == from then amount else 0)
  {}

  // ----- Pro-rata payouts -----

  /** What the loops pay out altogether. */
  function PayoutTotal(ps: seq<Participant>, total: int): int {
    if ps == [] then 0 else PayoutTotal(ps[..|ps| - 1], total) + ShareOf(total, ps[|ps| - 1])
  }

  function PositiveShares(ps: seq<Participant>): nat {
    if ps == [] then 0 else PositiveShares(ps[..|ps| - 1]) + if ps[|ps| - 1].shareBps > 0 then 1 else 0
  }

  lemma ShareRange(total: int, p: Participant)
    requires total >= 0
    ensures ShareOf(total, p) >= 0
    ensures 10000 * ShareOf(total, p) <= total * p.shareBps
    ensures total * p.shareBps <= 10000 * ShareOf(total, p) + if p.shareBps > 0 then 9999 else 0
  {
    assert total * p.shareBps >= 0;
  }

  lemma {:induction false} PayoutScaled(ps: seq<Participant>, total: int)
    requires total >= 0
    ensures PayoutTotal(ps, total) >= 0
    ensures 10000 * PayoutTotal(ps, total) <= total * ShareSum(ps) <= 10000 * PayoutTotal(ps, total) + 9999 * PositiveShares(ps)
  {
    if ps != [] {
      var before, p := ps[..|ps| - 1], ps[|ps| - 1];
      PayoutScaled(before, total);
      ShareRange(total, p);
      Distribute(total, ShareSum(before), p.shareBps);
    }
  }

  lemma Distribute(a: int, b: int, c: int)
    ensures a * (b + c) == a * b + a * c
  {}

  /** Pro-rata bound: shares that sum to the whole pay out at most the total, and what rounding
      leaves behind is less than one unit per participant with a positive share. */
  lemma ProRataBound(ps: seq<Participant>, total: int)
    requires total >= 0 && ShareSum(ps) == 10000
    ensures 0 <= PayoutTotal(ps, total) <= total
    ensures total - PayoutTotal(ps, total) < PositiveShares(ps)
  {
    PayoutScaled(ps, total);
    SomePositiveShare(ps);
  }

  lemma {:induction false} SomePositiveShare(ps: seq<Participant>)
    ensures ShareSum(ps) > 0 ==> PositiveShares(ps) > 0
  {
    if ps != [] {
      SomePositiveShare(ps[..|ps| - 1]);
    }
  }

  /** What the loop hands to one address. */
  function Credit(ps: seq<Participant>, total: int, h: Address): int {
    if ps == [] then 0
    else Credit(ps[..|ps| - 1], total, h) + if ps[|ps| - 1].address == h then ShareOf(total, ps[|ps| - 1]) else 0
  }

  lemma ZeroShare(total: int, p: Participant)
    requires p.shareBps == 0
    ensures ShareOf(total, p) == 0
  {}

  /** With enough money in the contract's account every payment of the loop goes through; each
      account gains what the loop owes it, the contract's account pays for all of it, and no other
      token is touched. */
  lemma {:induction false} PaySharesEffect(b: Bank, token: Address, ps: seq<Participant>, total: int, t: Address, h: Address)
    requires total >= 0 && PayoutTotal(ps, total) <= Balance(b, token, SELF)
    ensures PayShares(b, token, ps, total).Some?
    ensures var b' := PayShares(b, token, ps, total).value;
            Balance(b', t, h) == Balance(b, t, h) + (if t == token then Credit(ps, total, h) else 0)
                                 - (if t == token && h == SELF then PayoutTotal(ps, total) else 0)
  {
    if ps != [] {
      var before, p := ps[..|ps| - 1], ps[|ps| - 1];
      ShareRange(total, p);
      PayoutScaled(before, total);
      PaySharesEffect(b, token, before, total, t, h);
      PaySharesEffect(b, token, before, total, token, SELF);
      CreditNonNegative(before, total, SELF);
      var b1 := PayShares(b, token, before, total).value;
      if p.shareBps == 0 {
        ZeroShare(total, p);
      }
      if ShareOf(total, p) > 0 {
        hide ShareOf, PayoutTotal, Credit;
        assert Transfer(b1, token, SELF, p.address, ShareOf(total, p)).Some? by { LastPayout(ps, total); }
        TransferEffect(b1, token, SELF, p.address, ShareOf(total, p), t, h);
      }
      LastPayout(ps, total);
    }
  }

  lemma LastPayout(ps: seq<Participant>, total: int)
    requires ps != []
    ensures PayoutTotal(ps, total) == PayoutTotal(ps[..|ps| - 1], total) + ShareOf(total, ps[|ps| - 1])
  {}

  lemma {:induction false} CreditNonNegative(ps: seq<Participant>, total: int, h: Address)
    requires total >= 0
    ensures Credit(ps, total, h) >= 0
  {
    if ps != [] {
      ShareRange(total, ps[|ps| - 1]);
      CreditNonNegative(ps[..|ps| - 1], total, h);
    }
  }

  /** With distinct addresses every participant receives its own floored share and nothing else. */
  lemma {:induction false} EveryoneGetsTheirShare(ps: seq<Participant>, total: int, i: nat)
    requires DistinctAddresses(ps) && i < |ps|
    ensures Credit(ps, total, ps[i].address) == ShareOf(total, ps[i])
  {
    var n := |ps| - 1;
    if i == n {
      NoCredit(ps[..n], total, ps[n].address);
    } else {
      EveryoneGetsTheirShare(ps[..n], total, i);
    }
  }

  lemma {:induction false} NoCredit(ps: seq<Participant>, total: int, h: Address)
    requires forall i :: 0 <= i < |ps| ==> ps[i].address != h
    ensures Credit(ps, total, h) == 0
  {
    if ps != [] {
      NoCredit(ps[..|ps| - 1], total, h);
    }
  }

  /** A refund takes at most the total out of the contract's account; when somebody has the
      customer's role, that participant gets all of it. */
  lemma RefundEffect(b: Bank, e: Party, t: Address)
    requires e.total >= 0 && ShareSum(e.participants) == 10000 && e.total <= Balance(b, e.token, SELF)
    ensures PayRefund(b, e).Some?
    ensures Balance(PayRefund(b, e).value, t, SELF) >= Balance(b, t, SELF) - if t == e.token then e.total else 0
    ensures FirstCustomer(e.participants).Some? && FirstCustomer(e.participants).value != SELF ==>
              Balance(PayRefund(b, e).value, e.token, FirstCustomer(e.participants).value) ==
              Balance(b, e.token, FirstCustomer(e.participants).value) + e.total
  {
    var customer := FirstCustomer(e.participants);
    if customer.Some? {
      TransferEffect(b, e.token, SELF, customer.value, e.total, t, SELF);
      TransferEffect(b, e.token, SELF, customer.value, e.total, e.token, customer.value);
    } else {
      SharesEffect(b, e, t);
    }
  }

  /** Paying by share takes at most the total out of the contract's account. */
  lemma SharesEffect(b: Bank, e: Party, t: Address)
    requires e.total >= 0 && ShareSum(e.participants) == 10000 && e.total <= Balance(b, e.token, SELF)
    ensures PayShares(b, e.token, e.participants, e.total).Some?
    ensures Balance(PayShares(b, e.token, e.participants, e.total).value, t, SELF)
            >= Balance(b, t, SELF) - if t == e.token then e.total else 0
  {
    ProRataBound(e.participants, e.total);
    PaySharesEffect(b, e.token, e.participants, e.total, t, SELF);
    CreditNonNegative(e.participants, e.total, SELF);
  }

  // ----- What a payout needs -----

  /** What the loop takes out of the account: a part paid to the account itself stays there. */
  function Spent(ps: seq<Participant>, total: int): int {
    if ps == [] then 0
    else Spent(ps[..|ps| - 1], total) + if ps[|ps| - 1].address == SELF then 0 else ShareOf(total, ps[|ps| - 1])
  }

  function Max(a: int, b: int): int {
    if a >= b then a else b
  }

  /** The balance with which every payment of the loop goes through. */
  function Needed(ps: seq<Participant>, total: int): int {
    if ps == [] then 0
    else Max(Needed(ps[..|ps| - 1], total), Spent(ps[..|ps| - 1], total) + ShareOf(total, ps[|ps| - 1]))
  }

  lemma NeededLast(ps: seq<Participant>, total: int)
    requires ps != []
    ensures var before, p := ps[..|ps| - 1], ps[|ps| - 1];
            && Needed(ps, total) == Max(Needed(before, total), Spent(before, total) + ShareOf(total, p))
            && Spent(ps, total) == Spent(before, total) + if p.address == SELF then 0 else ShareOf(total, p)
  {}

  lemma {:induction false} SpentWithinNeeded(ps: seq<Participant>, total: int)
    requires total >= 0
    ensures 0 <= Spent(ps, total) <= Needed(ps, total) <= PayoutTotal(ps, total)
    ensures Spent(ps, total) <= PayoutTotal(ps, total)
  {
    if ps != [] {
      ShareRange(total, ps[|ps| - 1]);
      SpentWithinNeeded(ps[..|ps| - 1], total);
    }
  }

  /** When nobody is the account itself, a payout needs what it hands out. */
  lemma {:induction false} NeededIsTotal(ps: seq<Participant>, total: int)
    requires total >= 0 && forall i :: 0 <= i < |ps| ==> ps[i].address != SELF
    ensures Needed(ps, total) == Spent(ps, total) == PayoutTotal(ps, total)
  {
    if ps != [] {
      ShareRange(total, ps[|ps| - 1]);
      NeededIsTotal(ps[..|ps| - 1], total);
    }
  }

  /** The loop goes through if and only if the balance is what it needs. */
  lemma {:induction false} PaySharesIff(b: Bank, token: Address, ps: seq<Participant>, total: int)
    requires total >= 0
    ensures PayShares(b, token, ps, total).Some? <==> Needed(ps, total) <= Balance(b, token, SELF)
    ensures PayShares(b, token, ps, total).Some? ==>
              Balance(PayShares(b, token, ps, total).value, token, SELF) == Balance(b, token, SELF) - Spent(ps, total)
  {
    if ps != [] {
      var before, p := ps[..|ps| - 1], ps[|ps| - 1];
      PaySharesIff(b, token, before, total);
      NeededLast(ps, total);
      ShareRange(total, p);
      SpentWithinNeeded(before, total);
      if p.shareBps == 0 {
        ZeroShare(total, p);
      }
      hide Needed, Spent, ShareOf;
      var paid := PayShares(b, token, before, total);
      if paid.Some? && Transfer(paid.value, token, SELF, p.address, ShareOf(total, p)).Some? {
        TransferEffect(paid.value, token, SELF, p.address, ShareOf(total, p), token, SELF);
      }
    }
  }

  /** The balance that a payout of this escrow needs: to the customer everything, by share what the loop
      needs. */
  function PayoutNeeds(e: Party, refund: bool): int {
    if refund && FirstCustomer(e.participants).Some? then e.total else Needed(e.participants, e.total)
  }

  lemma PayoutIff(b: Bank, e: Party)
    requires e.total >= 0
    ensures PayShares(b, e.token, e.participants, e.total).Some? <==> PayoutNeeds(e, false) <= Balance(b, e.token, SELF)
    ensures PayRefund(b, e).Some? <==> PayoutNeeds(e, true) <= Balance(b, e.token, SELF)
  {
    PaySharesIff(b, e.token, e.participants, e.total);
  }

  // ----- Bundles of tokens -----

  /** What a list of entries holds of one token. */
  function EntryTotal(tokens: seq<TokenEntry>, t: Address): int {
    if tokens == [] then 0
    else EntryTotal(tokens[..|tokens| - 1], t) + if tokens[|tokens| - 1].token == t then tokens[|tokens| - 1].amount else 0
  }

  predicate NonNegative(tokens: seq<TokenEntry>) {
    forall i :: 0 <= i < |tokens| ==> tokens[i].amount >= 0
  }

  /** When all entries move, each was non-negative and every account changes by its token's entry. */
  lemma {:induction false} MoveEntriesEffect(b: Bank, tokens: seq<TokenEntry>, from: Address, to: Address, t: Address, h: Address)
    requires MoveEntries(b, tokens, from, to).Some?
    ensures NonNegative(tokens)
    ensures Balance(MoveEntries(b, tokens, from, to).value, t, h) ==
            Balance(b, t, h) + (if h == to then EntryTotal(tokens, t) else 0) - (if h == from then EntryTotal(tokens, t) else 0)
  {
    if tokens != [] {
      var before, last := tokens[..|tokens| - 1], tokens[|tokens| - 1];
      MoveEntriesEffect(b, before, from, to, t, h);
      TransferEffect(MoveEntries(b, before, from, to).value, last.token, from, to, last.amount, t, h);
    }
  }

  lemma {:induction false} EntryTotalNonNegative(tokens: seq<TokenEntry>, t: Address)
    requires NonNegative(tokens)
    ensures EntryTotal(tokens, t) >= 0
  {
    if tokens != [] {
      EntryTotalNonNegative(tokens[..|tokens| - 1], t);
    }
  }

  lemma {:induction false} DistinctEntryTotal(tokens: seq<TokenEntry>, i: nat)
    requires DistinctTokens(tokens) && i < |tokens|
    ensures EntryTotal(tokens, tokens[i].token) == tokens[i].amount
  {
    var n := |tokens| - 1;
    if i == n {
      AbsentEntryTotal(tokens[..n], tokens[n].token);
    } else {
      DistinctEntryTotal(tokens[..n], i);
    }
  }

  lemma {:induction false} AbsentEntryTotal(tokens: seq<TokenEntry>, t: Address)
    requires forall i :: 0 <= i < |tokens| ==> tokens[i].token != t
    ensures EntryTotal(tokens, t) == 0
  {
    if tokens != [] {
      AbsentEntryTotal(tokens[..|tokens| - 1], t);
    }
  }

  /** Because the tokens are distinct, a bundle that passes the check of balances moves entirely:
      no transfer fails after it. */
  lemma {:induction false} CoveredMoves(b: Bank, tokens: seq<TokenEntry>, to: Address)
    requires DistinctTokens(tokens) && NonNegative(tokens) && Covered(b, tokens)
    ensures MoveEntries(b, tokens, SELF, to).Some?
  {
    if tokens != [] {
      var before, last := tokens[..|tokens| - 1], tokens[|tokens| - 1];
      CoveredMoves(b, before, to);
      MoveEntriesEffect(b, before, SELF, to, last.token, SELF);
      AbsentEntryTotal(before, last.token);
    }
  }
}
