/** The pooled escrows as the contract runs them: loops over participants, entries and votes,
    records stored one at a time, and a failing call rolled back. */
module PooledContract {
  import opened Common
  import opened PooledEscrow
  import opened PooledLaws
  import PooledMoney
  import opened PooledEffects

  // ----- Loops that only look -----

  method HasDuplicateAddress(ps: seq<Participant>) returns (duplicate: bool)
    ensures duplicate <==> !DistinctAddresses(ps)
  {
    for i := 0 to |ps|
      invariant forall x, y :: 0 <= x < i && x < y < |ps| ==> ps[x].address != ps[y].address
    {
      for j := i + 1 to |ps|
        invariant forall y :: i < y < j ==> ps[i].address != ps[y].address
      {
        if ps[j].address == ps[i].address {
          return true;
        }
      }
    }
    return false;
  }

  method HasDuplicateToken(tokens: seq<TokenEntry>) returns (duplicate: bool)
    ensures duplicate <==> !DistinctTokens(tokens)
  {
    for i := 0 to |tokens|
      invariant forall x, y :: 0 <= x < i && x < y < |tokens| ==> tokens[x].token != tokens[y].token
    {
      for j := i + 1 to |tokens|
        invariant forall y :: i < y < j ==> tokens[i].token != tokens[y].token
      {
        if tokens[i].token == tokens[j].token {
          return true;
        }
      }
    }
    return false;
  }

  method Totals(ps: seq<Participant>) returns (shares: nat, weights: nat)
    ensures shares == ShareSum(ps) && weights == WeightSum(ps)
  {
    shares, weights := 0, 0;
    for i := 0 to |ps|
      invariant shares == ShareSum(ps[..i]) && weights == WeightSum(ps[..i])
    {
      shares, weights := shares + ps[i].shareBps, weights + ps[i].weightBps;
      assert ps[..i + 1][..i] == ps[..i];
    }
    assert ps[..|ps|] == ps;
  }

  method CheckParticipants(ps: seq<Participant>) returns (r: Result<()>)
    ensures r == if |ps| < 2 || |ps| > 10 then Err(InvalidStatus)
                 else if !DistinctAddresses(ps) then Err(DuplicateApproval)
                 else if ShareSum(ps) != 10000 || WeightSum(ps) != 10000 then Err(InvalidStatus)
                 else Ok(())
  {
    if |ps| < 2 || |ps| > 10 {
      return Err(InvalidStatus);
    }
    var duplicate := HasDuplicateAddress(ps);
    if duplicate {
      return Err(DuplicateApproval);
    }
    var shares, weights := Totals(ps);
    if shares != 10000 || weights != 10000 {
      return Err(InvalidStatus);
    }
    return Ok(());
  }

  method Normalize(ps: seq<Participant>) returns (normalized: seq<Participant>)
    ensures normalized == FreshParticipants(ps)
  {
    normalized := [];
    for i := 0 to |ps|
      invariant normalized == FreshParticipants(ps)[..i]
    {
      normalized := normalized + [Participant(ps[i].address, ps[i].role, ps[i].shareBps, ps[i].weightBps, false, None)];
    }
  }

  method IsParticipant(ps: seq<Participant>, a: Address) returns (found: bool)
    ensures found <==> Participates(ps, a)
  {
    found := false;
    for i := 0 to |ps|
      invariant found <==> exists j :: 0 <= j < i && ps[j].address == a
    {
      if ps[i].address == a {
        return true;
      }
    }
  }

  method HasVoted(votes: seq<Address>, voter: Address) returns (found: bool)
    ensures found <==> voter in votes
  {
    found := false;
    for i := 0 to |votes|
      invariant voter !in votes[..i]
    {
      if votes[i] == voter {
        return true;
      }
    }
  }

  lemma {:induction false} FirstCustomerNone(ps: seq<Participant>, i: nat)
    requires i <= |ps| && forall j :: 0 <= j < i ==> !ps[j].role.CustomerRole?
    ensures FirstCustomer(ps) == FirstCustomer(ps[i..])
  {
    if i > 0 {
      assert ps[1..][i - 1..] == ps[i..];
      FirstCustomerNone(ps[1..], i - 1);
    }
  }

  method FindCustomer(ps: seq<Participant>) returns (customer: Option<Address>)
    ensures customer == FirstCustomer(ps)
  {
    for i := 0 to |ps|
      invariant forall j :: 0 <= j < i ==> !ps[j].role.CustomerRole?
    {
      if ps[i].role.CustomerRole? {
        FirstCustomerNone(ps, i);
        return Some(ps[i].address);
      }
    }
    FirstCustomerNone(ps, |ps|);
    return None;
  }

  lemma {:induction false} OnlyIndex(ps: seq<Participant>, i: nat)
    requires DistinctAddresses(ps) && i < |ps|
    ensures IndexOf(ps, ps[i].address) == Some(i)
  {
    if i < |ps| - 1 {
      OnlyIndex(ps[..|ps| - 1], i);
    }
  }

  lemma NoIndex(ps: seq<Participant>, a: Address)
    requires forall i :: 0 <= i < |ps| ==> ps[i].address != a
    ensures IndexOf(ps, a) == None
  {}

  class PooledContract {
    var bank: Bank
    var parties: map<nat, Party>
    var partyCounter: nat
    var disputes: map<nat, PartyDispute>
    var voteWeight: map<(nat, Address), nat>
    var threshold: map<nat, nat>
    var bundles: map<nat, Bundle>
    var bundleCounter: nat
    var payouts: map<nat, nat>
    var now: nat

    constructor (ledger: Bank)
      ensures Valid() && State() == Initial(ledger)
    {
      bank, now := ledger, 0;
      parties, partyCounter, disputes, voteWeight, threshold := map[], 0, map[], map[], map[];
      bundles, bundleCounter, payouts := map[], 0, map[];
      new;
      InitialInv(ledger);
    }

    function State(): State
      reads this
    {
      PooledEscrow.State(bank, parties, partyCounter, disputes, voteWeight, threshold, bundles, bundleCounter, payouts, now)
    }

    ghost predicate Valid()
      reads this
    {
      Inv(State())
    }

    /** Undoes a failed call. */
    method Restore(s: State)
      modifies this
      ensures State() == s
    {
      bank, now := s.bank, s.now;
      parties, partyCounter, disputes, voteWeight, threshold := s.parties, s.partyCounter, s.disputes, s.voteWeight, s.threshold;
      bundles, bundleCounter, payouts := s.bundles, s.bundleCounter, s.payouts;
    }

    // ----- Token transfers -----

    method TokenTransfer(token: Address, from: Address, to: Address, amount: int) returns (ok: bool)
      modifies this`bank
      ensures var b := Transfer(old(bank), token, from, to, amount); ok == b.Some? && bank == if ok then b.value else old(bank)
    {
      ok := amount >= 0 && Balance(bank, token, from) >= amount;
      if ok {
        bank := bank[Account(token, from) := Balance(bank, token, from) - amount];
        bank := bank[Account(token, to) := Balance(bank, token, to) + amount];
      }
    }

    /** The payout loop shared by the release and both outcomes of a dispute. */
    method PayEveryone(ps: seq<Participant>, token: Address, total: int) returns (ok: bool)
      modifies this`bank
      ensures var b := PayShares(old(bank), token, ps, total); ok == b.Some? && (ok ==> bank == b.value)
    {
      for i := 0 to |ps|
        invariant PayShares(old(bank), token, ps[..i], total) == Some(bank)
      {
        assert ps[..i + 1][..i] == ps[..i];
        if ps[i].shareBps > 0 {
          var amount := TruncDiv(total * ps[i].shareBps, 10000);
          if amount > 0 {
            var moved := TokenTransfer(token, SELF, ps[i].address, amount);
            if !moved {
              PayStops(old(bank), token, ps, total, i + 1);
              return false;
            }
          }
        }
      }
      assert ps[..|ps|] == ps;
      return true;
    }

    method MoveAll(tokens: seq<TokenEntry>, from: Address, to: Address) returns (ok: bool)
      modifies this`bank
      ensures var b := MoveEntries(old(bank), tokens, from, to); ok == b.Some? && (ok ==> bank == b.value)
    {
      for i := 0 to |tokens|
        invariant MoveEntries(old(bank), tokens[..i], from, to) == Some(bank)
      {
        assert tokens[..i + 1][..i] == tokens[..i];
        var moved := TokenTransfer(tokens[i].token, from, to, tokens[i].amount);
        if !moved {
          MoveStops(old(bank), tokens, from, to, i + 1);
          return false;
        }
      }
      assert tokens[..|tokens|] == tokens;
      return true;
    }

    method PreFlight(tokens: seq<TokenEntry>) returns (ok: bool)
      ensures ok == Covered(bank, tokens)
    {
      for i := 0 to |tokens|
        invariant forall j :: 0 <= j < i ==> tokens[j].amount <= Balance(bank, tokens[j].token, SELF)
      {
        if Balance(bank, tokens[i].token, SELF) < tokens[i].amount {
          return false;
        }
      }
      return true;
    }

    method SumApprovedWeight(id: nat, ps: seq<Participant>) returns (sum: nat)
      ensures sum == ApprovedWeight(voteWeight, id, ps)
    {
      sum := 0;
      for i := 0 to |ps|
        invariant sum == ApprovedWeight(voteWeight, id, ps[..i])
      {
        if ps[i].approved {
          sum := sum + if (id, ps[i].address) in voteWeight then voteWeight[(id, ps[i].address)] else ps[i].weightBps;
        }
        assert ps[..i + 1][..i] == ps[..i];
      }
      assert ps[..|ps|] == ps;
    }

    // ----- Multi-party escrows -----

    method CreateMultiPartyEscrow(customer: Address, participants: seq<Participant>, total: int, token: Address, releaseTimestamp: nat)
      returns (r: Result<nat>)
      requires Valid()
      modifies this
      ensures (State(), r) == CreateParty(old(State()), customer, participants, total, token, releaseTimestamp)
      ensures Valid()
      ensures PartyCreated(old(State()), State(), r, customer, participants, total, token, releaseTimestamp)
    {
      hide Inv, Solvent, ShareSum, WeightSum, DistinctAddresses, SeedWeights, NewParty, Transfer, PartyCreated;
      CreationPulls(State(), customer, participants, total, token, releaseTimestamp);
      CreatePartyKeeps(State(), customer, participants, total, token, releaseTimestamp);
      if customer == SELF {
        return Err(Unauthorized);
      }
      var checked := CheckParticipants(participants);
      if checked.Err? {
        return Err(checked.error);
      }
      r := PullIn(customer, participants, total, token, releaseTimestamp);
    }

    /** Takes the principal into the account and stores the escrow. */
    method PullIn(customer: Address, participants: seq<Participant>, total: int, token: Address, releaseTimestamp: nat)
      returns (r: Result<nat>)
      modifies this
      ensures var b := Transfer(old(bank), token, customer, SELF, total);
              var id := old(partyCounter) + 1;
              r == (if b.None? then Err(TransferFailed) else Ok(id)) &&
              State() == if b.None? then old(State()) else old(State()).(
                bank := b.value, parties := old(parties)[id := NewParty(participants, total, token, releaseTimestamp, now)],
                partyCounter := id, voteWeight := SeedWeights(old(voteWeight), id, participants),
                threshold := old(threshold)[id := 10000], payouts := old(payouts)[id := 0])
    {
      hide SeedWeights, FreshParticipants, Transfer;
      var normalized := Normalize(participants);
      var ok := TokenTransfer(token, customer, SELF, total);
      if !ok {
        return Err(TransferFailed);
      }
      var id := partyCounter + 1;
      StoreNew(id, Party(normalized, total, token, Locked, [], 10000, now, releaseTimestamp));
      SameSeeds(old(voteWeight), id, participants);
      return Ok(id);
    }

    method StoreNew(id: nat, e: Party)
      modifies this
      ensures State() == old(State()).(parties := old(parties)[id := e], partyCounter := id, payouts := old(payouts)[id := 0],
                           voteWeight := SeedWeights(old(voteWeight), id, e.participants), threshold := old(threshold)[id := 10000])
    {
      parties := parties[id := e];
      partyCounter := id;
      payouts := payouts[id := 0];
      SeedVoteWeights(id, e.participants);
      threshold := threshold[id := 10000];
    }

    method SeedVoteWeights(id: nat, ps: seq<Participant>)
      modifies this`voteWeight
      ensures voteWeight == SeedWeights(old(voteWeight), id, ps)
    {
      for i := 0 to |ps|
        invariant voteWeight == SeedWeights(old(voteWeight), id, ps[..i])
      {
        voteWeight := voteWeight[(id, ps[i].address) := ps[i].shareBps];
        assert ps[..i + 1][..i] == ps[..i];
      }
      assert ps[..|ps|] == ps;
    }

    /** The search for the caller among the participants, which builds the updated list on the way. */
    method MarkApproved(id: nat, ps: seq<Participant>, caller: Address) returns (r: Result<Option<seq<Participant>>>)
      requires DistinctAddresses(ps)
      ensures var i := IndexOf(ps, caller);
              r == if i.None? then Ok(None)
                   else if WeightOf(voteWeight, id, ps[i.value]) == 0 then Err(Unauthorized)
                   else if ps[i.value].approved then Err(DuplicateApproval)
                   else Ok(Some(PooledEscrow.Approving(ps, caller, WeightOf(voteWeight, id, ps[i.value]), now)))
    {
      var updated: seq<Participant> := [];
      var found := false;
      var weight: nat := 0;
      for i := 0 to |ps|
        invariant found <==> exists j :: 0 <= j < i && ps[j].address == caller
        invariant found ==> IndexOf(ps, caller).Some? && !ps[IndexOf(ps, caller).value].approved
                            && weight == WeightOf(voteWeight, id, ps[IndexOf(ps, caller).value]) && weight > 0
        invariant updated == PooledEscrow.Approving(ps[..i], caller, weight, now)
      {
        if ps[i].address == caller {
          OnlyIndex(ps, i);
          weight := if (id, caller) in voteWeight then voteWeight[(id, caller)] else ps[i].weightBps;
          if weight == 0 {
            return Err(Unauthorized);
          }
          if ps[i].approved {
            return Err(DuplicateApproval);
          }
          found := true;
          updated := updated + [ps[i].(weightBps := weight, approved := true, approvedAt := Some(now))];
        } else {
          updated := updated + [ps[i]];
        }
      }
      assert ps[..|ps|] == ps;
      if found {
        return Ok(Some(updated));
      }
      NoIndex(ps, caller);
      return Ok(None);
    }

    method ApproveRelease(caller: Address, id: nat) returns (r: Result<()>)
      requires Valid()
      modifies this
      ensures (State(), r) == Approve(old(State()), caller, id)
      ensures Valid()
      ensures r.Ok? ==> id in old(parties) && old(parties)[id].status.Locked? && caller !in old(parties)[id].approvals && id in parties
                        && State() == old(State()).(parties := old(parties)[id := parties[id]])
                        && MarkedBy(old(State()), old(parties)[id], parties[id], caller, id)
      ensures r.Err? ==> State() == old(State())
    {
      hide Inv, Solvent, PooledEscrow.Approving, IndexOf, WeightOf, DistinctAddresses, MarkedBy;
      ApprovalMarks(State(), caller, id);
      ApproveKeeps(State(), caller, id);
      SoundRecord(State(), id);
      if id !in parties {
        return Err(NotFound);
      }
      var e := parties[id];
      if !e.status.Locked? {
        return Err(InvalidStatus);
      }
      if caller in e.approvals {
        return Err(DuplicateApproval);
      }
      var marked := MarkApproved(id, e.participants, caller);
      match marked {
        case Err(error) =>
          return Err(error);
        case Ok(None) =>
          return Err(Unauthorized);
        case Ok(Some(updated)) =>
          parties := parties[id := e.(participants := updated, approvals := e.approvals + [caller])];
          return Ok(());
      }
    }

    method MarkPaidOut(id: nat, status: Status)
      requires id in parties
      modifies this`parties, this`payouts
      ensures parties == old(parties)[id := old(parties)[id].(status := status)] && payouts == PaidOut(old(payouts), id)
    {
      parties := parties[id := parties[id].(status := status)];
      payouts := payouts[id := (if id in payouts then payouts[id] else 0) + 1];
    }

    method ReleaseMultiPartyEscrow(id: nat) returns (r: Result<()>)
      requires Valid()
      modifies this
      ensures (State(), r) == ReleaseParty(old(State()), id)
      ensures Valid()
      ensures r.Ok? <==> id in old(parties) && old(parties)[id].status.Locked? && old(parties)[id].releaseTimestamp <= old(now)
                         && old(ThresholdOf(State(), id) <= ApprovedWeight(voteWeight, id, parties[id].participants))
                         && old(PooledMoney.Needed(parties[id].participants, parties[id].total) <= Balance(bank, parties[id].token, SELF))
      ensures r.Ok? ==> parties == old(parties)[id := old(parties)[id].(status := Released)]
                        && PaidByShare(old(bank), bank, old(parties)[id])
    {
      hide Inv, Solvent, PayShares, ApprovedWeight, PaidOut, PaidByShare, PooledMoney.Needed;
      ReleasePaysShares(State(), id);
      ReleasePartyKeeps(State(), id);
      var before := State();
      if id !in parties {
        return Err(NotFound);
      }
      var e := parties[id];
      if !e.status.Locked? {
        return Err(InvalidStatus);
      }
      var approvedWeight := SumApprovedWeight(id, e.participants);
      var required := if id in threshold then threshold[id] else e.thresholdBps;
      if approvedWeight < required {
        return Err(ApprovalsThresholdNotMet);
      }
      if now < e.releaseTimestamp {
        return Err(ReleaseNotYetAvailable);
      }
      var ok := PayEveryone(e.participants, e.token, e.total);
      if !ok {
        Restore(before);
        return Err(TransferFailed);
      }
      MarkPaidOut(id, Released);
      return Ok(());
    }

    method SetParticipantWeight(id: nat, participant: Address, weightBps: nat) returns (r: Result<()>)
      requires Valid()
      modifies this
      ensures (State(), r) == SetWeight(old(State()), id, participant, weightBps)
      ensures Valid()
      ensures r.Ok? ==> id in parties && voteWeight == old(voteWeight)[(id, participant) := weightBps]
                        && WeightSum(parties[id].participants) == 10000 && Participates(old(parties)[id].participants, participant)
                        && State() == old(State()).(voteWeight := voteWeight, parties := old(parties)[id := parties[id]])
    {
      hide Inv, Solvent;
      SetWeightKeeps(State(), id, participant, weightBps);
      if id !in parties {
        return Err(NotFound);
      }
      var e := parties[id];
      if !e.status.Locked? {
        return Err(InvalidStatus);
      }
      var ps := e.participants;
      for i := 0 to |ps|
        invariant forall j :: 0 <= j < i ==> !ps[j].approved
        invariant State() == old(State())
      {
        if ps[i].approved {
          return Err(InvalidStatus);
        }
      }
      var updated, found, total := Reweigh(ps, participant, weightBps);
      if !found {
        return Err(ParticipantNotFound);
      }
      if total != 10000 {
        return Err(InvalidStatus);
      }
      parties := parties[id := e.(participants := updated)];
      voteWeight := voteWeight[(id, participant) := weightBps];
      return Ok(());
    }

    method UpdateApprovalThresholdBps(id: nat, thresholdBps: nat) returns (r: Result<()>)
      requires Valid()
      modifies this
      ensures (State(), r) == UpdateThreshold(old(State()), id, thresholdBps)
      ensures Valid()
      ensures r.Ok? <==> 1 <= thresholdBps <= 10000 && id in old(parties) && old(parties)[id].status.Locked?
      ensures r.Ok? ==> parties == old(parties)[id := old(parties)[id].(thresholdBps := thresholdBps)]
                        && threshold == old(threshold)[id := thresholdBps]
    {
      hide Inv, Solvent;
      UpdateThresholdKeeps(State(), id, thresholdBps);
      if thresholdBps == 0 || thresholdBps > 10000 {
        return Err(InvalidThreshold);
      }
      if id !in parties {
        return Err(NotFound);
      }
      var e := parties[id];
      if !e.status.Locked? {
        return Err(InvalidStatus);
      }
      parties := parties[id := e.(thresholdBps := thresholdBps)];
      threshold := threshold[id := thresholdBps];
      return Ok(());
    }

    method DisputeMultiPartyEscrow(caller: Address, id: nat) returns (r: Result<()>)
      requires Valid()
      modifies this
      ensures (State(), r) == DisputeParty(old(State()), caller, id)
      ensures Valid()
      ensures r.Ok? <==> id in old(parties) && old(parties)[id].status.Locked? && Participates(old(parties)[id].participants, caller)
      ensures r.Ok? ==> parties == old(parties)[id := old(parties)[id].(status := Disputed)]
                        && disputes == old(disputes)[id := PartyDispute([], [], |old(parties)[id].participants| / 2 + 1, now + 604800, false)]
    {
      hide Inv, Solvent, Participates;
      DisputePartyKeeps(State(), caller, id);
      if id !in parties {
        return Err(NotFound);
      }
      var e := parties[id];
      if !e.status.Locked? {
        return Err(InvalidStatus);
      }
      var found := IsParticipant(e.participants, caller);
      if !found {
        return Err(Unauthorized);
      }
      disputes := disputes[id := PartyDispute([], [], |e.participants| / 2 + 1, now + 7 * 24 * 3600, false)];
      parties := parties[id := e.(status := Disputed)];
      return Ok(());
    }

    method VoteOnMultiPartyDispute(voter: Address, id: nat, favorMerchant: bool) returns (r: Result<()>)
      requires Valid()
      modifies this
      ensures (State(), r) == Vote(old(State()), voter, id, favorMerchant)
      ensures Valid()
      ensures r.Ok? <==> id in old(parties) && id in old(disputes) && !old(disputes)[id].resolved
                         && Participates(old(parties)[id].participants, voter)
                         && voter !in VotesFor(old(State()), id, true) && voter !in VotesFor(old(State()), id, false)
      ensures r.Err? ==> State() == old(State())
      ensures r.Ok? ==> VotesFor(State(), id, favorMerchant) == VotesFor(old(State()), id, favorMerchant) + [voter]
                        && VotesFor(State(), id, !favorMerchant) == VotesFor(old(State()), id, !favorMerchant)
      ensures r.Ok? ==> id in disputes && State() == old(State()).(disputes := old(disputes)[id := disputes[id]])
    {
      hide Inv, Solvent, Participates;
      VoteCounts(State(), voter, id, favorMerchant);
      VoteKeeps(State(), voter, id, favorMerchant);
      if id !in parties {
        return Err(NotFound);
      }
      if id !in disputes {
        return Err(NotDisputed);
      }
      var d := disputes[id];
      if d.resolved {
        return Err(AlreadyProcessed);
      }
      var found := IsParticipant(parties[id].participants, voter);
      if !found {
        return Err(Unauthorized);
      }
      var forMerchant := HasVoted(d.votesForMerchant, voter);
      if forMerchant {
        return Err(DuplicateApproval);
      }
      var forCustomer := HasVoted(d.votesForCustomer, voter);
      if forCustomer {
        return Err(DuplicateApproval);
      }
      if favorMerchant {
        d := d.(votesForMerchant := d.votesForMerchant + [voter]);
      } else {
        d := d.(votesForCustomer := d.votesForCustomer + [voter]);
      }
      disputes := disputes[id := d];
      return Ok(());
    }

    method Decide(d: PartyDispute) returns (verdict: Option<bool>)
      ensures verdict == Verdict(d, now)
    {
      if |d.votesForMerchant| >= d.quorum {
        return Some(true);
      } else if |d.votesForCustomer| >= d.quorum {
        return Some(false);
      } else if now > d.deadline {
        return Some(false);
      } else {
        return None;
      }
    }

    /** Everybody is paid by share when the merchant's side wins; otherwise the first customer gets
        the whole, or everybody by share when there is none. */
    method PaySide(e: Party, favorMerchant: bool) returns (ok: bool)
      modifies this`bank
      ensures var b := if favorMerchant then PayShares(old(bank), e.token, e.participants, e.total) else PayRefund(old(bank), e);
              ok == b.Some? && (ok ==> bank == b.value)
    {
      if favorMerchant {
        ok := PayEveryone(e.participants, e.token, e.total);
      } else {
        var customer := FindCustomer(e.participants);
        match customer
        case Some(c) => ok := TokenTransfer(e.token, SELF, c, e.total);
        case None => ok := PayEveryone(e.participants, e.token, e.total);
      }
    }

    method ResolveMultiPartyDispute(id: nat) returns (r: Result<()>)
      requires Valid()
      modifies this
      ensures (State(), r) == ResolveParty(old(State()), id)
      ensures Valid()
      ensures r.Ok? ==> id in old(parties) && id in old(disputes) && !old(disputes)[id].resolved
                        && ResolvedRightly(old(State()), State(), id)
    {
      hide Inv, Solvent, PayShares, PayRefund, Verdict, PaidOut, ResolvedRightly;
      ResolutionPays(State(), id);
      ResolvePartyKeeps(State(), id);
      var before := State();
      if id !in parties {
        return Err(NotFound);
      }
      if id !in disputes {
        return Err(NotDisputed);
      }
      var e, d := parties[id], disputes[id];
      if d.resolved {
        return Err(AlreadyProcessed);
      }
      var verdict := Decide(d);
      if verdict.None? {
        return Err(ApprovalsThresholdNotMet);
      }
      disputes := disputes[id := d.(resolved := true)];
      var ok := PaySide(e, verdict.value);
      if !ok {
        Restore(before);
        return Err(TransferFailed);
      }
      MarkPaidOut(id, if verdict.value then Released else Resolved);
      return Ok(());
    }

    // ----- Multi-token escrows -----

    method CreateMultiTokenEscrow(customer: Address, merchant: Address, tokens: seq<TokenEntry>, releaseTimestamp: nat)
      returns (r: Result<nat>)
      requires Valid()
      modifies this
      ensures (State(), r) == CreateBundle(old(State()), customer, merchant, tokens, releaseTimestamp)
      ensures Valid()
      ensures BundleCreated(old(State()), State(), r, customer, merchant, tokens, releaseTimestamp)
    {
      hide Inv, Solvent, MoveEntries, DistinctTokens, BundleCreated;
      BundlesMove(State(), customer, merchant, tokens, releaseTimestamp, 0);
      CreateBundleKeeps(State(), customer, merchant, tokens, releaseTimestamp);
      var before := State();
      if customer == SELF {
        return Err(Unauthorized);
      }
      if |tokens| == 0 || |tokens| > 10 {
        return Err(InvalidStatus);
      }
      var duplicate := HasDuplicateToken(tokens);
      if duplicate {
        return Err(InvalidStatus);
      }
      var ok := MoveAll(tokens, customer, SELF);
      if !ok {
        Restore(before);
        return Err(TransferFailed);
      }
      var id := bundleCounter + 1;
      bundles := bundles[id := Bundle(customer, merchant, tokens, Locked, now, releaseTimestamp)];
      bundleCounter := id;
      return Ok(id);
    }

    method ReleaseMultiTokenEscrow(id: nat) returns (r: Result<()>)
      requires Valid()
      modifies this
      ensures (State(), r) == ReleaseBundle(old(State()), id)
      ensures Valid()
      ensures r.Ok? <==> id in old(bundles) && old(bundles)[id].status.Locked? && old(bundles)[id].releaseTimestamp <= old(now)
                         && forall i :: 0 <= i < |old(bundles)[id].tokens| ==>
                              old(bundles)[id].tokens[i].amount <= Balance(old(bank), old(bundles)[id].tokens[i].token, SELF)
      ensures r.Ok? ==> bundles == old(bundles)[id := old(bundles)[id].(status := Released)]
                        && EntriesMoved(old(bank), bank, old(bundles)[id].tokens, SELF, old(bundles)[id].merchant)
    {
      hide Inv, Solvent, MoveEntries, Covered, EntriesMoved;
      BundlesMove(State(), SELF, SELF, [], 0, id);
      ReleaseBundleKeeps(State(), id);
      var before := State();
      if id !in bundles {
        return Err(NotFound);
      }
      var e := bundles[id];
      if !e.status.Locked? {
        return Err(InvalidStatus);
      }
      if now < e.releaseTimestamp {
        return Err(ReleaseNotYetAvailable);
      }
      var covered := PreFlight(e.tokens);
      if !covered {
        return Err(InvalidStatus);
      }
      var ok := MoveAll(e.tokens, SELF, e.merchant);
      if !ok {
        Restore(before);
        return Err(InvalidStatus);
      }
      bundles := bundles[id := e.(status := Released)];
      return Ok(());
    }

    // ----- Everything else paid from the account -----

    /** The helper through which single escrows, milestones and collateral are paid. Behind an address that
        is no token contract nothing moves, and the call succeeds. */
    method TransferIfTokenContract(token: Address, to: Address, amount: int, isToken: bool) returns (r: Result<()>)
      requires Valid()
      modifies this`bank
      ensures !isToken ==> r == Ok(()) && State() == old(State())
      ensures isToken ==> var (s', moved) := PayOut(old(State()), token, to, amount);
                          State() == s' && r == if moved then Ok(()) else Err(InvalidStatus)
      ensures Valid()
      ensures old(Solvent(State())) ==>
                (Solvent(State()) <==> !isToken || r.Err? || to == SELF || amount <= old(Surplus(State(), token)))
    {
      hide Inv, Solvent, Surplus, Transfer;
      PayOutKeepsIff(State(), token, to, amount);
      if !isToken {
        return Ok(());
      }
      var moved := TokenTransfer(token, SELF, to, amount);
      r := if moved then Ok(()) else Err(InvalidStatus);
    }
  }

  /** The rebuilt participant list, whether the participant was found, and the new total weight. */
  method Reweigh(ps: seq<Participant>, a: Address, weight: nat) returns (updated: seq<Participant>, found: bool, total: nat)
    ensures updated == Reweighted(ps, a, weight) && (found <==> Participates(ps, a)) && total == WeightSum(updated)
  {
    updated, found, total := [], false, 0;
    for i := 0 to |ps|
      invariant updated == Reweighted(ps[..i], a, weight)
      invariant found <==> exists j :: 0 <= j < i && ps[j].address == a
      invariant total == WeightSum(updated)
    {
      var p := if ps[i].address == a then ps[i].(weightBps := weight) else ps[i];
      assert (updated + [p])[..i] == updated;
      found := found || ps[i].address == a;
      total := total + p.weightBps;
      updated := updated + [p];
    }
    assert ps[..|ps|] == ps;
  }

  lemma {:induction false} PayStops(b: Bank, token: Address, ps: seq<Participant>, total: int, i: nat)
    requires i <= |ps| && PayShares(b, token, ps[..i], total).None?
    ensures PayShares(b, token, ps, total).None?
    decreases |ps|
  {
    if i == |ps| {
      assert ps[..i] == ps;
    } else {
      assert ps[..|ps| - 1][..i] == ps[..i];
      PayStops(b, token, ps[..|ps| - 1], total, i);
    }
  }

  lemma {:induction false} MoveStops(b: Bank, tokens: seq<TokenEntry>, from: Address, to: Address, i: nat)
    requires i <= |tokens| && MoveEntries(b, tokens[..i], from, to).None?
    ensures MoveEntries(b, tokens, from, to).None?
    decreases |tokens|
  {
    if i == |tokens| {
      assert tokens[..i] == tokens;
    } else {
      assert tokens[..|tokens| - 1][..i] == tokens[..i];
      MoveStops(b, tokens[..|tokens| - 1], from, to, i);
    }
  }

  /** Normalizing does not change the shares that seed the weights. */
  lemma {:induction false} SameSeeds(w: map<(nat, Address), nat>, id: nat, ps: seq<Participant>)
    ensures SeedWeights(w, id, FreshParticipants(ps)) == SeedWeights(w, id, ps)
  {
    if ps != [] {
      assert FreshParticipants(ps)[..|ps| - 1] == FreshParticipants(ps[..|ps| - 1]);
      SameSeeds(w, id, ps[..|ps| - 1]);
    }
  }

  lemma SoundRecord(s: State, id: nat)
    requires Inv(s)
    ensures id in s.parties ==> DistinctAddresses(s.parties[id].participants)
  {
    assert id in s.parties ==> PartySound(s.parties[id]);
  }
}
