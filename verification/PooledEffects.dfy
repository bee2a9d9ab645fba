/** What the calls on pooled escrows do to balances, records and votes, in terms of the balances before
    and of the shares. */
module PooledEffects {
  import opened Common
  import opened PooledEscrow
  import opened PooledMoney
  import opened PooledLaws
  import PooledWeights

  // ----- Payments by share -----

  /** What participants other than the contract itself hold more than before. */
  function Gains(b: Bank, b': Bank, token: Address, ps: seq<Participant>): int {
    if ps == [] then 0
    else
      var a := ps[|ps| - 1].address;
      Gains(b, b', token, ps[..|ps| - 1]) + if a == SELF then 0 else Balance(b', token, a) - Balance(b, token, a)
  }

  /** Every participant but the contract itself has its part of the total more, rounded down; the
      contract has less by exactly what they gained; no other balance has changed. */
  ghost predicate PaidByShare(b: Bank, b': Bank, e: Party) {
    && (forall i :: 0 <= i < |e.participants| && e.participants[i].address != SELF ==>
          Balance(b', e.token, e.participants[i].address) ==
          Balance(b, e.token, e.participants[i].address) + e.total * e.participants[i].shareBps / 10000)
    && Balance(b', e.token, SELF) == Balance(b, e.token, SELF) - Gains(b, b', e.token, e.participants)
    && (forall t, h :: t != e.token || (h != SELF && !Participates(e.participants, h)) ==> Balance(b', t, h) == Balance(b, t, h))
  }

  /** The whole amount has moved from one account to another. */
  ghost predicate Moved(b: Bank, b': Bank, token: Address, from: Address, to: Address, amount: int) {
    forall t, h :: Balance(b', t, h) == Balance(b, t, h) + (if t == token && h == to then amount else 0)
                                        - if t == token && h == from then amount else 0
  }

  /** The first participant in the customer's role has the whole total; when nobody has that role,
      everybody is paid by share. */
  ghost predicate PaidBack(b: Bank, b': Bank, e: Party) {
    var ps := e.participants;
    && (forall i :: 0 <= i < |ps| && ps[i].role.CustomerRole? && (forall j :: 0 <= j < i ==> !ps[j].role.CustomerRole?) ==>
          Moved(b, b', e.token, SELF, ps[i].address, e.total))
    && ((forall i :: 0 <= i < |ps| ==> !ps[i].role.CustomerRole?) ==> PaidByShare(b, b', e))
  }

  lemma {:induction false} SharesMove(b: Bank, token: Address, ps: seq<Participant>, total: int, t: Address, h: Address)
    requires total >= 0 && PayShares(b, token, ps, total).Some?
    ensures var b' := PayShares(b, token, ps, total).value;
            Balance(b', t, h) == Balance(b, t, h) + (if t == token && h != SELF then Credit(ps, total, h) else 0)
                                 - if t == token && h == SELF then Spent(ps, total) else 0
  {
    if ps != [] {
      var before, p := ps[..|ps| - 1], ps[|ps| - 1];
      SharesMove(b, token, before, total, t, h);
      ShareRange(total, p);
      if p.shareBps == 0 {
        ZeroShare(total, p);
      }
      hide ShareOf;
      var b1 := PayShares(b, token, before, total).value;
      if ShareOf(total, p) > 0 {
        TransferEffect(b1, token, SELF, p.address, ShareOf(total, p), t, h);
      }
    }
  }

  lemma {:induction false} GainsAreSpent(b: Bank, b': Bank, token: Address, ps: seq<Participant>, total: int)
    requires forall i :: 0 <= i < |ps| && ps[i].address != SELF ==>
               Balance(b', token, ps[i].address) - Balance(b, token, ps[i].address) == ShareOf(total, ps[i])
    ensures Gains(b, b', token, ps) == Spent(ps, total)
  {
    if ps != [] {
      GainsAreSpent(b, b', token, ps[..|ps| - 1], total);
    }
  }

  lemma SharePlain(total: int, p: Participant)
    requires total >= 0
    ensures ShareOf(total, p) == total * p.shareBps / 10000
  {
    assert total * p.shareBps >= 0;
  }

  lemma SharesPaid(b: Bank, e: Party)
    requires e.total >= 0 && DistinctAddresses(e.participants)
    requires PayShares(b, e.token, e.participants, e.total).Some?
    ensures PaidByShare(b, PayShares(b, e.token, e.participants, e.total).value, e)
  {
    hide PayShares, ShareOf, Credit, Spent, Balance;
    var ps := e.participants;
    var b' := PayShares(b, e.token, ps, e.total).value;
    forall i | 0 <= i < |ps| && ps[i].address != SELF
      ensures Balance(b', e.token, ps[i].address) - Balance(b, e.token, ps[i].address) == ShareOf(e.total, ps[i])
              == e.total * ps[i].shareBps / 10000
    {
      SharesMove(b, e.token, ps, e.total, e.token, ps[i].address);
      EveryoneGetsTheirShare(ps, e.total, i);
      SharePlain(e.total, ps[i]);
    }
    GainsAreSpent(b, b', e.token, ps, e.total);
    SharesMove(b, e.token, ps, e.total, e.token, SELF);
    forall t, h | t != e.token || (h != SELF && !Participates(ps, h)) ensures Balance(b', t, h) == Balance(b, t, h) {
      SharesMove(b, e.token, ps, e.total, t, h);
      if t == e.token {
        NoCredit(ps, e.total, h);
      }
    }
  }

  lemma TransferMoves(b: Bank, token: Address, from: Address, to: Address, amount: int)
    requires Transfer(b, token, from, to, amount).Some?
    ensures Moved(b, Transfer(b, token, from, to, amount).value, token, from, to, amount)
  {
    forall t, h {:trigger Balance(b, t, h)}
      ensures Balance(Transfer(b, token, from, to, amount).value, t, h) ==
              Balance(b, t, h) + (if t == token && h == to then amount else 0) - if t == token && h == from then amount else 0
    {
      TransferEffect(b, token, from, to, amount, t, h);
    }
  }

  lemma {:induction false} FirstCustomerIs(ps: seq<Participant>, i: nat)
    requires i < |ps| && ps[i].role.CustomerRole? && forall j :: 0 <= j < i ==> !ps[j].role.CustomerRole?
    ensures FirstCustomer(ps) == Some(ps[i].address)
  {
    if i > 0 {
      FirstCustomerIs(ps[1..], i - 1);
    }
  }

  lemma {:induction false} NoCustomer(ps: seq<Participant>)
    requires forall i :: 0 <= i < |ps| ==> !ps[i].role.CustomerRole?
    ensures FirstCustomer(ps).None?
  {
    if ps != [] {
      NoCustomer(ps[1..]);
    }
  }

  lemma RefundPaid(b: Bank, e: Party)
    requires e.total >= 0 && DistinctAddresses(e.participants) && PayRefund(b, e).Some?
    ensures PaidBack(b, PayRefund(b, e).value, e)
  {
    hide PaidByShare, Moved, PayShares, Transfer, FirstCustomer;
    var ps := e.participants;
    var b' := PayRefund(b, e).value;
    forall i | 0 <= i < |ps| && ps[i].role.CustomerRole? && forall j :: 0 <= j < i ==> !ps[j].role.CustomerRole?
      ensures Moved(b, b', e.token, SELF, ps[i].address, e.total)
    {
      FirstCustomerIs(ps, i);
      TransferMoves(b, e.token, SELF, ps[i].address, e.total);
    }
    if forall i :: 0 <= i < |ps| ==> !ps[i].role.CustomerRole? {
      NoCustomer(ps);
      SharesPaid(b, e);
    }
  }

  // ----- Release and resolution -----

  lemma Recorded(s: State, id: nat)
    requires Inv(s) && id in s.parties
    ensures var e := s.parties[id]; e.total >= 0 && DistinctAddresses(e.participants) && |e.participants| >= 2
    ensures id in s.disputes ==> VotesSound(s.disputes[id], s.parties[id].participants)
  {
    assert PartySound(s.parties[id]) && DisputeSound(s, id);
  }

  /** A release that succeeds marks the escrow released and pays everybody by share. It succeeds exactly
      for a locked escrow with enough weight behind it whose time has come, when the contract has what
      the payments need. */
  lemma ReleasePaysShares(s: State, id: nat)
    requires Inv(s)
    ensures var (s', r) := ReleaseParty(s, id);
            && (r.Ok? <==>
                  && id in s.parties && s.parties[id].status.Locked? && s.parties[id].releaseTimestamp <= s.now
                  && ThresholdOf(s, id) <= ApprovedWeight(s.voteWeight, id, s.parties[id].participants)
                  && Needed(s.parties[id].participants, s.parties[id].total) <= Balance(s.bank, s.parties[id].token, SELF))
            && (r.Ok? ==> (s' == s.(bank := s'.bank, parties := s.parties[id := s.parties[id].(status := Released)], payouts := s'.payouts)
                           && PaidByShare(s.bank, s'.bank, s.parties[id])))
  {
    hide Inv, PayShares, PaidByShare, Needed, ThresholdOf, ApprovedWeight;
    if id in s.parties {
      var e := s.parties[id];
      Recorded(s, id);
      PaySharesIff(s.bank, e.token, e.participants, e.total);
      if PayShares(s.bank, e.token, e.participants, e.total).Some? {
        SharesPaid(s.bank, e);
      }
    }
  }

  /** More than half of so many. */
  predicate Majority(votes: nat, of: nat) {
    2 * votes > of
  }

  /** What the resolution of a dispute leaves: with a majority for the merchant the escrow is released
      and everybody is paid by share; otherwise there is a majority for the customer or the deadline is
      over, and the escrow is resolved and paid back. The dispute is closed either way. */
  ghost predicate ResolvedRightly(s: State, s': State, id: nat)
    requires id in s.parties && id in s.disputes
  {
    var e, d := s.parties[id], s.disputes[id];
    && s' == s.(bank := s'.bank, parties := s'.parties, disputes := s.disputes[id := d.(resolved := true)], payouts := s'.payouts)
    && if Majority(|d.votesForMerchant|, |e.participants|) then
         s'.parties == s.parties[id := e.(status := Released)] && PaidByShare(s.bank, s'.bank, e)
       else
         && (Majority(|d.votesForCustomer|, |e.participants|) || d.deadline < s.now)
         && s'.parties == s.parties[id := e.(status := Resolved)] && PaidBack(s.bank, s'.bank, e)
  }

  lemma ResolutionPays(s: State, id: nat)
    requires Inv(s)
    ensures var (s', r) := ResolveParty(s, id);
            r.Ok? ==> (id in s.parties && id in s.disputes && !s.disputes[id].resolved && ResolvedRightly(s, s', id))
  {
    hide Inv, PayShares, PayRefund, PaidByShare, PaidBack;
    if ResolveParty(s, id).1.Ok? {
      var e := s.parties[id];
      Recorded(s, id);
      hide DistinctAddresses, Participates;
      if PayShares(s.bank, e.token, e.participants, e.total).Some? {
        SharesPaid(s.bank, e);
      }
      if PayRefund(s.bank, e).Some? {
        RefundPaid(s.bank, e);
      }
    }
  }

  // ----- Votes -----

  /** The votes recorded for one side of a dispute. */
  function VotesFor(s: State, id: nat, forMerchant: bool): seq<Address> {
    if id !in s.disputes then [] else if forMerchant then s.disputes[id].votesForMerchant else s.disputes[id].votesForCustomer
  }

  /** A vote that succeeds is entered for the side it names and nowhere else. It succeeds exactly for a
      participant of an open dispute who has not voted. */
  lemma VoteCounts(s: State, voter: Address, id: nat, favorMerchant: bool)
    ensures var (s', r) := Vote(s, voter, id, favorMerchant);
            && (r.Ok? <==>
                  && id in s.parties && id in s.disputes && !s.disputes[id].resolved && Participates(s.parties[id].participants, voter)
                  && voter !in VotesFor(s, id, true) && voter !in VotesFor(s, id, false))
            && (r.Err? ==> s' == s)
            && (r.Ok? ==> (s' == s.(disputes := s.disputes[id := s'.disputes[id]])
                           && s'.disputes[id].quorum == s.disputes[id].quorum && s'.disputes[id].deadline == s.disputes[id].deadline
                           && !s'.disputes[id].resolved
                           && VotesFor(s', id, favorMerchant) == VotesFor(s, id, favorMerchant) + [voter]
                           && VotesFor(s', id, !favorMerchant) == VotesFor(s, id, !favorMerchant)))
  {
    hide Participates;
  }

  // ----- Creation and approval -----

  /** A multi-party escrow as it is first stored: locked and unapproved, with the given participants; each
      one's counting weight is its share, and all of the weight is needed. */
  ghost predicate PartyOpened(s: State, id: nat, ps: seq<Participant>, total: int, token: Address, releaseTimestamp: nat, now: nat) {
    && id in s.parties && id in s.threshold && s.threshold[id] == 10000
    && var e := s.parties[id];
    && e.total == total && e.token == token && e.status.Locked? && e.approvals == [] && e.thresholdBps == 10000
    && e.createdAt == now && e.releaseTimestamp == releaseTimestamp && |e.participants| == |ps|
    && (forall i :: 0 <= i < |ps| ==>
          && e.participants[i] == Participant(ps[i].address, ps[i].role, ps[i].shareBps, ps[i].weightBps, false, None)
          && (id, ps[i].address) in s.voteWeight && s.voteWeight[(id, ps[i].address)] == ps[i].shareBps)
  }

  /** A creation succeeds exactly for two to ten participants with different addresses whose shares and
      whose weights are each the whole, when the customer, who is not the contract itself, has the
      total; then the total has moved into the contract's account. */
  ghost predicate PartyCreated(s: State, s': State, r: Result<nat>, customer: Address, ps: seq<Participant>, total: int,
                               token: Address, releaseTimestamp: nat)
  {
    && (r.Ok? <==>
          && customer != SELF && 2 <= |ps| <= 10 && DistinctAddresses(ps) && ShareSum(ps) == WeightSum(ps) == 10000
          && 0 <= total <= Balance(s.bank, token, customer))
    && (r.Err? ==> s' == s)
    && (r.Ok? ==> (r.value !in s.parties && PartyOpened(s', r.value, ps, total, token, releaseTimestamp, s.now)
                   && s'.parties == s.parties[r.value := s'.parties[r.value]]
                   && Moved(s.bank, s'.bank, token, customer, SELF, total)))
  }

  lemma CreationPulls(s: State, customer: Address, ps: seq<Participant>, total: int, token: Address, releaseTimestamp: nat)
    requires Inv(s)
    ensures var (s', r) := CreateParty(s, customer, ps, total, token, releaseTimestamp);
            PartyCreated(s, s', r, customer, ps, total, token, releaseTimestamp)
  {
    hide DistinctAddresses, ShareSum, WeightSum, SeedWeights, Moved, PartySound, DisputesSound, BundlesSound;
    var (s', r) := CreateParty(s, customer, ps, total, token, releaseTimestamp);
    if r.Ok? {
      forall i | 0 <= i < |ps|
        ensures (r.value, ps[i].address) in s'.voteWeight && s'.voteWeight[(r.value, ps[i].address)] == ps[i].shareBps
      {
        PooledWeights.Seeded(s.voteWeight, r.value, ps, i);
      }
      TransferMoves(s.bank, token, customer, SELF, total);
    }
  }

  /** An approval succeeds exactly for a participant of a locked escrow who has not approved and whose
      counting weight is positive. It marks that participant, records its counting weight and adds it
      to the list of approvals; nothing else changes. */
  lemma ApprovalMarks(s: State, caller: Address, id: nat)
    requires Inv(s)
    ensures var (s', r) := Approve(s, caller, id);
            && (r.Ok? <==>
                  && id in s.parties && s.parties[id].status.Locked? && caller !in s.parties[id].approvals
                  && exists i :: 0 <= i < |s.parties[id].participants| && s.parties[id].participants[i].address == caller
                                 && WeightOf(s.voteWeight, id, s.parties[id].participants[i]) > 0)
            && (r.Err? ==> s' == s)
            && (r.Ok? ==> (id in s'.parties && s' == s.(parties := s.parties[id := s'.parties[id]])
                           && MarkedBy(s, s.parties[id], s'.parties[id], caller, id)))
  {
    if id in s.parties {
      Recorded(s, id);
      var ps := s.parties[id].participants;
      var i := IndexOf(ps, caller);
      assert ApprovalsMatch(s.parties[id]) by { assert PartySound(s.parties[id]); }
      hide Inv, DistinctAddresses, VotesSound, WeightOf;
      if i.Some? {
        forall j | 0 <= j < |ps| && ps[j].address == caller ensures j == i.value {
          OnlyOne(ps, i.value, j);
        }
      } else {
        assert !Participates(ps, caller);
      }
    }
    hide Inv, WeightOf, IndexOf;
  }

  lemma OnlyOne(ps: seq<Participant>, i: nat, j: nat)
    requires DistinctAddresses(ps) && i < |ps| && j < |ps| && ps[i].address == ps[j].address
    ensures i == j
  {}

  /** The caller's approval and nothing else. */
  predicate MarkedBy(s: State, e: Party, e': Party, caller: Address, id: nat) {
    && e' == e.(participants := e'.participants, approvals := e.approvals + [caller])
    && |e'.participants| == |e.participants|
    && forall i :: 0 <= i < |e.participants| ==>
         e'.participants[i] ==
         if e.participants[i].address != caller then e.participants[i]
         else e.participants[i].(approved := true, approvedAt := Some(s.now), weightBps := WeightOf(s.voteWeight, id, e.participants[i]))
  }

  // ----- Bundles -----

  /** Each entry has moved from one account to the other, and no other balance has changed. */
  ghost predicate EntriesMoved(b: Bank, b': Bank, tokens: seq<TokenEntry>, from: Address, to: Address) {
    && (forall i :: 0 <= i < |tokens| && from != to ==>
          && Balance(b', tokens[i].token, to) == Balance(b, tokens[i].token, to) + tokens[i].amount
          && Balance(b', tokens[i].token, from) == Balance(b, tokens[i].token, from) - tokens[i].amount)
    && (forall t, h :: from == to || (h != from && h != to) || (forall i :: 0 <= i < |tokens| ==> tokens[i].token != t) ==>
          Balance(b', t, h) == Balance(b, t, h))
  }

  lemma EntriesMove(b: Bank, tokens: seq<TokenEntry>, from: Address, to: Address)
    requires DistinctTokens(tokens) && MoveEntries(b, tokens, from, to).Some?
    ensures EntriesMoved(b, MoveEntries(b, tokens, from, to).value, tokens, from, to)
  {
    hide MoveEntries, EntryTotal, DistinctTokens, Balance;
    var b' := MoveEntries(b, tokens, from, to).value;
    forall i | 0 <= i < |tokens| && from != to
      ensures Balance(b', tokens[i].token, to) == Balance(b, tokens[i].token, to) + tokens[i].amount
      ensures Balance(b', tokens[i].token, from) == Balance(b, tokens[i].token, from) - tokens[i].amount
    {
      DistinctEntryTotal(tokens, i);
      MoveEntriesEffect(b, tokens, from, to, tokens[i].token, to);
      MoveEntriesEffect(b, tokens, from, to, tokens[i].token, from);
    }
    forall t, h | from == to || (h != from && h != to) || forall i :: 0 <= i < |tokens| ==> tokens[i].token != t
      ensures Balance(b', t, h) == Balance(b, t, h)
    {
      MoveEntriesEffect(b, tokens, from, to, t, h);
      if forall i :: 0 <= i < |tokens| ==> tokens[i].token != t {
        AbsentEntryTotal(tokens, t);
      }
    }
  }

  /** A bundle is stored when every entry has moved from the customer into the contract's account. */
  ghost predicate BundleCreated(s: State, s': State, r: Result<nat>, customer: Address, merchant: Address, tokens: seq<TokenEntry>,
                                releaseTimestamp: nat)
  {
    && (r.Err? ==> s' == s)
    && (r.Ok? ==> (customer != SELF && 1 <= |tokens| <= 10 && DistinctTokens(tokens) && NonNegative(tokens)
                   && r.value !in s.bundles && s'.parties == s.parties
                   && s'.bundles == s.bundles[r.value := Bundle(customer, merchant, tokens, Locked, s.now, releaseTimestamp)]
                   && EntriesMoved(s.bank, s'.bank, tokens, customer, SELF)))
  }

  /** A bundle's creation moves every entry from the customer into the contract's account, and its release
      moves every entry on to the merchant. A release succeeds exactly for a locked bundle whose time has
      come and whose every entry is covered. */
  lemma BundlesMove(s: State, customer: Address, merchant: Address, tokens: seq<TokenEntry>, releaseTimestamp: nat, id: nat)
    requires Inv(s)
    ensures var (s', r) := CreateBundle(s, customer, merchant, tokens, releaseTimestamp);
            BundleCreated(s, s', r, customer, merchant, tokens, releaseTimestamp)
    ensures var (s', r) := ReleaseBundle(s, id);
            && (r.Ok? <==>
                  && id in s.bundles && s.bundles[id].status.Locked? && s.bundles[id].releaseTimestamp <= s.now
                  && forall i :: 0 <= i < |s.bundles[id].tokens| ==>
                       s.bundles[id].tokens[i].amount <= Balance(s.bank, s.bundles[id].tokens[i].token, SELF))
            && (r.Ok? ==> (s' == s.(bank := s'.bank, bundles := s.bundles[id := s.bundles[id].(status := Released)])
                           && EntriesMoved(s.bank, s'.bank, s.bundles[id].tokens, SELF, s.bundles[id].merchant)))
  {
    hide EntriesMoved, MoveEntries, PartiesSound, DisputesSound;
    if CreateBundle(s, customer, merchant, tokens, releaseTimestamp).1.Ok? {
      EntriesMove(s.bank, tokens, customer, SELF);
      MoveEntriesEffect(s.bank, tokens, customer, SELF, SELF, SELF);
    }
    if id in s.bundles {
      var e := s.bundles[id];
      if Covered(s.bank, e.tokens) {
        CoveredMoves(s.bank, e.tokens, e.merchant);
        EntriesMove(s.bank, e.tokens, SELF, e.merchant);
      }
    }
  }
}
