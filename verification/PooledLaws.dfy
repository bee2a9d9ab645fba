/** What every run of the multi-party and multi-token machine keeps: approvals and votes are counted
    once, each escrow is paid out at most once, and the contract can pay what it owes as long as it
    pays nothing else out of the same account beyond the surplus. */
module PooledLaws {
  import opened Common
  import opened PooledEscrow
  import opened PooledMoney

  // ----- Runs -----

  datatype Op =
    | CreatingParty(customer: Address, participants: seq<Participant>, total: int, token: Address, releaseTimestamp: nat)
    | Approving(caller: Address, id: nat)
    | ReleasingParty(id: nat)
    | SettingWeight(id: nat, a: Address, weight: nat)
    | UpdatingThreshold(id: nat, bps: nat)
    | DisputingParty(caller: Address, id: nat)
    | Voting(voter: Address, id: nat, favorMerchant: bool)
    | ResolvingParty(id: nat)
    | CreatingBundle(customer: Address, merchant: Address, tokens: seq<TokenEntry>, releaseTimestamp: nat)
    | ReleasingBundle(id: nat)
    | OutsideTransferring(token: Address, from: Address, to: Address, amount: int)
    | PayingOut(token: Address, to: Address, amount: int)
    | Ticking(seconds: nat)

  function Step(s: State, op: Op): State {
    match op
    case CreatingParty(c, ps, total, token, t) => CreateParty(s, c, ps, total, token, t).0
    case Approving(caller, id) => Approve(s, caller, id).0
    case ReleasingParty(id) => ReleaseParty(s, id).0
    case SettingWeight(id, a, w) => SetWeight(s, id, a, w).0
    case UpdatingThreshold(id, bps) => UpdateThreshold(s, id, bps).0
    case DisputingParty(caller, id) => DisputeParty(s, caller, id).0
    case Voting(voter, id, m) => Vote(s, voter, id, m).0
    case ResolvingParty(id) => ResolveParty(s, id).0
    case CreatingBundle(c, m, tokens, t) => CreateBundle(s, c, m, tokens, t).0
    case ReleasingBundle(id) => ReleaseBundle(s, id).0
    case OutsideTransferring(token, from, to, amount) => OutsideTransfer(s, token, from, to, amount)
    case PayingOut(token, to, amount) => PayOut(s, token, to, amount).0
    case Ticking(seconds) => s.(now := s.now + seconds)
  }

  function Run(s: State, ops: seq<Op>): State
    decreases |ops|
  {
    if ops == [] then s else Run(Step(s, ops[0]), ops[1..])
  }

  // ----- What is owed -----

  predicate Live(status: Status) {
    status.Locked? || status.Disputed?
  }

  function PartyOwes(parties: map<nat, Party>, t: Address, id: nat): int {
    if id in parties && parties[id].token == t && Live(parties[id].status) then parties[id].total else 0
  }

  function PartiesOwe(parties: map<nat, Party>, t: Address, n: nat): int {
    if n == 0 then 0 else PartiesOwe(parties, t, n - 1) + PartyOwes(parties, t, n)
  }

  function BundleOwes(bundles: map<nat, Bundle>, t: Address, id: nat): int {
    if id in bundles && bundles[id].status.Locked? then EntryTotal(bundles[id].tokens, t) else 0
  }

  function BundlesOwe(bundles: map<nat, Bundle>, t: Address, n: nat): int {
    if n == 0 then 0 else BundlesOwe(bundles, t, n - 1) + BundleOwes(bundles, t, n)
  }

  function Owed(s: State, t: Address): int {
    PartiesOwe(s.parties, t, s.partyCounter) + BundlesOwe(s.bundles, t, s.bundleCounter)
  }

  /** For every token the contract holds at least what its live escrows are worth. */
  ghost predicate Solvent(s: State) {
    forall t :: Owed(s, t) <= Balance(s.bank, t, SELF)
  }

  /** What is left beside it. */
  function Surplus(s: State, t: Address): int {
    Balance(s.bank, t, SELF) - Owed(s, t)
  }

  // ----- Invariants of the records -----

  /** The approvals are the approved participants, each once. */
  ghost predicate ApprovalsMatch(e: Party) {
    && Distinct(e.approvals)
    && (forall i :: 0 <= i < |e.participants| ==> (e.participants[i].approved <==> e.participants[i].address in e.approvals))
    && (forall a :: a in e.approvals ==> Participates(e.participants, a))
  }

  ghost predicate NoneApproved(ps: seq<Participant>) {
    forall i :: 0 <= i < |ps| ==> !ps[i].approved
  }

  ghost predicate PartySound(e: Party) {
    && 2 <= |e.participants| <= 10 && DistinctAddresses(e.participants)
    && ShareSum(e.participants) == 10000 && e.total >= 0
    && !e.status.Cancelled?
    && ApprovalsMatch(e)
    && (NoneApproved(e.participants) ==> WeightSum(e.participants) == 10000)
  }

  ghost predicate PartiesSound(s: State) {
    && (forall id :: id in s.parties <==> 1 <= id <= s.partyCounter)
    && (forall id :: id in s.parties ==> PartySound(s.parties[id]))
    && (forall id :: id in s.parties ==> id in s.threshold && 1 <= s.threshold[id] <= 10000)
  }

  ghost predicate BundlesSound(s: State) {
    && (forall id :: id in s.bundles <==> 1 <= id <= s.bundleCounter)
    && (forall id :: id in s.bundles ==> DistinctTokens(s.bundles[id].tokens) && NonNegative(s.bundles[id].tokens))
  }

  /** Each participant votes at most once and on one side; the quorum is a majority. */
  ghost predicate VotesSound(d: PartyDispute, ps: seq<Participant>) {
    && Distinct(d.votesForMerchant + d.votesForCustomer)
    && (forall a :: a in d.votesForMerchant + d.votesForCustomer ==> Participates(ps, a))
    && d.quorum == |ps| / 2 + 1
  }

  /** An unresolved dispute record exists exactly while the escrow is disputed, and the principal
      has been paid out exactly when the escrow is neither locked nor disputed, and then once. */
  ghost predicate DisputeSound(s: State, id: nat) {
    && (id in s.disputes ==> id in s.parties && VotesSound(s.disputes[id], s.parties[id].participants))
    && (id in s.parties ==>
          && (s.parties[id].status.Disputed? <==> id in s.disputes && !s.disputes[id].resolved)
          && (s.parties[id].status.Locked? ==> id !in s.disputes)
          && id in s.payouts && s.payouts[id] == if Live(s.parties[id].status) then 0 else 1)
  }

  ghost predicate DisputesSound(s: State) {
    forall id: nat :: DisputeSound(s, id)
  }

  ghost predicate Inv(s: State) {
    PartiesSound(s) && BundlesSound(s) && DisputesSound(s)
  }

  // ----- Sums -----

  lemma {:induction false} PartiesOweUpdate(parties: map<nat, Party>, id: nat, e: Party, t: Address, n: nat)
    ensures PartiesOwe(parties[id := e], t, n) == PartiesOwe(parties, t, n) +
            if 1 <= id <= n then PartyOwes(parties[id := e], t, id) - PartyOwes(parties, t, id) else 0
  {
    if n > 0 {
      PartiesOweUpdate(parties, id, e, t, n - 1);
    }
  }

  lemma {:induction false} BundlesOweUpdate(bundles: map<nat, Bundle>, id: nat, e: Bundle, t: Address, n: nat)
    ensures BundlesOwe(bundles[id := e], t, n) == BundlesOwe(bundles, t, n) +
            if 1 <= id <= n then BundleOwes(bundles[id := e], t, id) - BundleOwes(bundles, t, id) else 0
  {
    if n > 0 {
      BundlesOweUpdate(bundles, id, e, t, n - 1);
    }
  }

  lemma {:induction false} PartiesOweAtLeast(s: State, t: Address, id: nat, n: nat)
    requires PartiesSound(s)
    ensures PartiesOwe(s.parties, t, n) >= 0
    ensures 1 <= id <= n ==> PartyOwes(s.parties, t, id) <= PartiesOwe(s.parties, t, n)
  {
    if n > 0 {
      PartiesOweAtLeast(s, t, id, n - 1);
      assert n in s.parties ==> PartySound(s.parties[n]);
    }
  }

  lemma {:induction false} BundlesOweAtLeast(s: State, t: Address, id: nat, n: nat)
    requires BundlesSound(s)
    ensures BundlesOwe(s.bundles, t, n) >= 0
    ensures 1 <= id <= n ==> BundleOwes(s.bundles, t, id) <= BundlesOwe(s.bundles, t, n)
  {
    if n > 0 {
      BundlesOweAtLeast(s, t, id, n - 1);
      if n in s.bundles {
        EntryTotalNonNegative(s.bundles[n].tokens, t);
      }
    }
  }

  /** Solvent, the contract can pay any one of its live escrows. */
  lemma PartyCovered(s: State, id: nat)
    requires Inv(s) && Solvent(s) && id in s.parties && Live(s.parties[id].status)
    ensures s.parties[id].total <= Balance(s.bank, s.parties[id].token, SELF)
  {
    var t := s.parties[id].token;
    PartiesOweAtLeast(s, t, id, s.partyCounter);
    BundlesOweAtLeast(s, t, 0, s.bundleCounter);
    assert Owed(s, t) <= Balance(s.bank, t, SELF);
  }

  lemma BundleCovered(s: State, id: nat)
    requires Inv(s) && Solvent(s) && id in s.bundles && s.bundles[id].status.Locked?
    ensures Covered(s.bank, s.bundles[id].tokens)
  {
    var tokens := s.bundles[id].tokens;
    forall i | 0 <= i < |tokens| ensures tokens[i].amount <= Balance(s.bank, tokens[i].token, SELF) {
      var t := tokens[i].token;
      DistinctEntryTotal(tokens, i);
      PartiesOweAtLeast(s, t, 0, s.partyCounter);
      BundlesOweAtLeast(s, t, id, s.bundleCounter);
      assert Owed(s, t) <= Balance(s.bank, t, SELF);
    }
  }

  // ----- Solvency, step by step -----

  /** A change of one multi-party escrow together with the ledger. */
  lemma SolventParty(s: State, s': State, id: nat, e: Party)
    requires Solvent(s) && 1 <= id <= s.partyCounter
    requires s'.parties == s.parties[id := e] && s'.partyCounter == s.partyCounter
    requires s'.bundles == s.bundles && s'.bundleCounter == s.bundleCounter
    requires forall t :: PartyOwes(s'.parties, t, id) - PartyOwes(s.parties, t, id)
                         <= Balance(s'.bank, t, SELF) - Balance(s.bank, t, SELF)
    ensures Solvent(s')
  {
    forall t ensures Owed(s', t) <= Balance(s'.bank, t, SELF) {
      PartiesOweUpdate(s.parties, id, e, t, s.partyCounter);
      assert Owed(s, t) <= Balance(s.bank, t, SELF);
    }
  }

  lemma SolventNewParty(s: State, s': State, e: Party)
    requires Solvent(s) && s.partyCounter + 1 !in s.parties
    requires s'.parties == s.parties[s.partyCounter + 1 := e] && s'.partyCounter == s.partyCounter + 1
    requires s'.bundles == s.bundles && s'.bundleCounter == s.bundleCounter && e.status.Locked?
    requires forall t :: Balance(s'.bank, t, SELF) == Balance(s.bank, t, SELF) + if t == e.token then e.total else 0
    ensures Solvent(s')
  {
    forall t ensures Owed(s', t) <= Balance(s'.bank, t, SELF) {
      PartiesOweUpdate(s.parties, s.partyCounter + 1, e, t, s.partyCounter);
      assert Owed(s, t) <= Balance(s.bank, t, SELF);
    }
  }

  lemma SolventBundle(s: State, s': State, id: nat, e: Bundle)
    requires Solvent(s) && 1 <= id <= s.bundleCounter
    requires s'.bundles == s.bundles[id := e] && s'.bundleCounter == s.bundleCounter
    requires s'.parties == s.parties && s'.partyCounter == s.partyCounter
    requires forall t :: BundleOwes(s'.bundles, t, id) - BundleOwes(s.bundles, t, id)
                         <= Balance(s'.bank, t, SELF) - Balance(s.bank, t, SELF)
    ensures Solvent(s')
  {
    forall t ensures Owed(s', t) <= Balance(s'.bank, t, SELF) {
      BundlesOweUpdate(s.bundles, id, e, t, s.bundleCounter);
      assert Owed(s, t) <= Balance(s.bank, t, SELF);
    }
  }

  lemma SolventNewBundle(s: State, s': State, e: Bundle)
    requires Solvent(s) && s.bundleCounter + 1 !in s.bundles
    requires s'.bundles == s.bundles[s.bundleCounter + 1 := e] && s'.bundleCounter == s.bundleCounter + 1
    requires s'.parties == s.parties && s'.partyCounter == s.partyCounter && e.status.Locked?
    requires forall t :: Balance(s'.bank, t, SELF) == Balance(s.bank, t, SELF) + EntryTotal(e.tokens, t)
    ensures Solvent(s')
  {
    forall t ensures Owed(s', t) <= Balance(s'.bank, t, SELF) {
      BundlesOweUpdate(s.bundles, s.bundleCounter + 1, e, t, s.bundleCounter);
      assert Owed(s, t) <= Balance(s.bank, t, SELF);
    }
  }

  // ----- The entry points -----

  lemma {:induction false} FreshSums(ps: seq<Participant>)
    ensures ShareSum(FreshParticipants(ps)) == ShareSum(ps) && WeightSum(FreshParticipants(ps)) == WeightSum(ps)
  {
    if ps != [] {
      var n := |ps| - 1;
      FreshSums(ps[..n]);
      assert FreshParticipants(ps)[..n] == FreshParticipants(ps[..n]);
    }
  }

  lemma PartiesUpdate(s: State, s': State, id: nat, e: Party)
    requires PartiesSound(s) && PartySound(e) && 1 <= id <= s'.partyCounter
    requires s'.partyCounter == s.partyCounter || s'.partyCounter == s.partyCounter + 1 == id
    requires s'.parties == s.parties[id := e]
    requires id in s'.threshold && s'.threshold == s.threshold[id := s'.threshold[id]] && 1 <= s'.threshold[id] <= 10000
    ensures PartiesSound(s')
  {
    hide PartySound;
  }

  /** Nothing about the dispute of escrow `id` differs. */
  ghost predicate SameDispute(s: State, s': State, id: nat) {
    && (id in s.parties <==> id in s'.parties) && (id in s.disputes <==> id in s'.disputes)
    && (id in s.payouts <==> id in s'.payouts)
    && (id in s.parties ==> s'.parties[id] == s.parties[id])
    && (id in s.disputes ==> s'.disputes[id] == s.disputes[id])
    && (id in s.payouts ==> s'.payouts[id] == s.payouts[id])
  }

  lemma DisputesUpdate(s: State, s': State, id: nat)
    requires DisputesSound(s) && DisputeSound(s', id)
    requires forall x: nat :: x != id ==> SameDispute(s, s', x)
    ensures DisputesSound(s')
  {
    hide VotesSound;
    forall x: nat ensures DisputeSound(s', x) {
      if x != id {
        assert DisputeSound(s, x) && SameDispute(s, s', x);
      }
    }
  }

  lemma NewPartySound(ps: seq<Participant>, total: int, token: Address, releaseTimestamp: nat, now: nat)
    requires 2 <= |ps| <= 10 && DistinctAddresses(ps) && ShareSum(ps) == 10000 && WeightSum(ps) == 10000 && total >= 0
    ensures PartySound(NewParty(ps, total, token, releaseTimestamp, now))
  {
    FreshSums(ps);
  }

  lemma NewPartyTerms(ps: seq<Participant>, total: int, token: Address, releaseTimestamp: nat, now: nat)
    ensures var e := NewParty(ps, total, token, releaseTimestamp, now);
            e.status.Locked? && e.token == token && e.total == total
  {}

  /** A new escrow whose principal has come in. */
  lemma NewPartyKeeps(s: State, s': State, e: Party)
    requires Inv(s) && PartySound(e) && e.status.Locked?
    requires var id := s.partyCounter + 1;
             s' == s.(bank := s'.bank, parties := s.parties[id := e], partyCounter := id, voteWeight := s'.voteWeight,
                      threshold := s.threshold[id := 10000], payouts := s.payouts[id := 0])
    requires forall t :: Balance(s'.bank, t, SELF) == Balance(s.bank, t, SELF) + if t == e.token then e.total else 0
    ensures Inv(s') && (Solvent(s) ==> Solvent(s'))
  {
    hide PartySound, VotesSound, Solvent;
    var id := s.partyCounter + 1;
    if Solvent(s) {
      SolventNewParty(s, s', e);
    }
    PartiesUpdate(s, s', id, e);
    assert DisputeSound(s, id);
    DisputesUpdate(s, s', id);
  }

  lemma CreatePartyKeeps(s: State, customer: Address, ps: seq<Participant>, total: int, token: Address, releaseTimestamp: nat)
    requires Inv(s)
    ensures Inv(CreateParty(s, customer, ps, total, token, releaseTimestamp).0) && (Solvent(s) ==> Solvent(CreateParty(s, customer, ps, total, token, releaseTimestamp).0))
  {
    hide Inv, Solvent, NewParty, Transfer, SeedWeights, PartySound;
    var (s', r) := CreateParty(s, customer, ps, total, token, releaseTimestamp);
    if r.Ok? {
      NewPartyTerms(ps, total, token, releaseTimestamp, s.now);
      TransferEffect(s.bank, token, customer, SELF, total, token, SELF);
      NewPartySound(ps, total, token, releaseTimestamp, s.now);
      forall t ensures Balance(s'.bank, t, SELF) == Balance(s.bank, t, SELF) + if t == token then total else 0 {
        TransferEffect(s.bank, token, customer, SELF, total, t, SELF);
      }
      NewPartyKeeps(s, s', NewParty(ps, total, token, releaseTimestamp, s.now));
    }
  }

  // Approvals

  lemma {:induction false} ApprovingSums(ps: seq<Participant>, caller: Address, weight: nat, now: nat)
    ensures ShareSum(PooledEscrow.Approving(ps, caller, weight, now)) == ShareSum(ps)
  {
    if ps != [] {
      var n := |ps| - 1;
      ApprovingSums(ps[..n], caller, weight, now);
      assert PooledEscrow.Approving(ps, caller, weight, now)[..n] == PooledEscrow.Approving(ps[..n], caller, weight, now);
    }
  }

  lemma ApprovedPartySound(e: Party, caller: Address, weight: nat, now: nat)
    requires PartySound(e) && caller !in e.approvals && Participates(e.participants, caller)
    ensures PartySound(e.(participants := PooledEscrow.Approving(e.participants, caller, weight, now), approvals := e.approvals + [caller]))
  {
    var ps, ps' := e.participants, PooledEscrow.Approving(e.participants, caller, weight, now);
    ApprovingSums(ps, caller, weight, now);
    var i :| 0 <= i < |ps| && ps[i].address == caller;
    assert ps'[i].approved;
    forall a | a in e.approvals + [caller] ensures Participates(ps', a) {
      if a == caller {
        assert ps'[i].address == a;
      } else {
        var j :| 0 <= j < |ps| && ps[j].address == a;
        assert ps'[j].address == a;
      }
    }
  }

  /** A change of a locked escrow that pays nobody. */
  lemma LockedChange(s: State, s': State, id: nat, e: Party)
    requires Inv(s) && id in s.parties && s.parties[id].status.Locked?
    requires PartySound(e) && e.status.Locked? && e.token == s.parties[id].token && e.total == s.parties[id].total
    requires s' == s.(parties := s.parties[id := e], voteWeight := s'.voteWeight, threshold := s'.threshold)
    requires id in s'.threshold && s'.threshold == s.threshold[id := s'.threshold[id]] && 1 <= s'.threshold[id] <= 10000
    ensures Inv(s') && (Solvent(s) ==> Solvent(s'))
  {
    hide PartySound, VotesSound, Solvent;
    if Solvent(s) {
      SolventParty(s, s', id, e);
    }
    PartiesUpdate(s, s', id, e);
    assert DisputeSound(s, id);
    DisputesUpdate(s, s', id);
  }

  lemma ApproveKeeps(s: State, caller: Address, id: nat)
    requires Inv(s)
    ensures Inv(Approve(s, caller, id).0) && (Solvent(s) ==> Solvent(Approve(s, caller, id).0))
  {
    var (s', r) := Approve(s, caller, id);
    if r.Ok? {
      hide PartySound, Solvent, DisputesSound, IndexOf, WeightOf;
      var e := s.parties[id];
      var i := IndexOf(e.participants, caller);
      assert Participates(e.participants, caller);
      ApprovedPartySound(e, caller, WeightOf(s.voteWeight, id, e.participants[i.value]), s.now);
      assert s.threshold[id := s.threshold[id]] == s.threshold;
      LockedChange(s, s', id, s'.parties[id]);
    }
  }

  // Weights and thresholds

  lemma {:induction false} ReweightedSums(ps: seq<Participant>, a: Address, weight: nat)
    ensures ShareSum(Reweighted(ps, a, weight)) == ShareSum(ps)
  {
    if ps != [] {
      var n := |ps| - 1;
      ReweightedSums(ps[..n], a, weight);
      assert Reweighted(ps, a, weight)[..n] == Reweighted(ps[..n], a, weight);
    }
  }

  lemma ReweightedPartySound(e: Party, a: Address, weight: nat)
    requires PartySound(e) && WeightSum(Reweighted(e.participants, a, weight)) == 10000
    ensures PartySound(e.(participants := Reweighted(e.participants, a, weight)))
  {
    var ps, ps' := e.participants, Reweighted(e.participants, a, weight);
    ReweightedSums(ps, a, weight);
    forall b | b in e.approvals ensures Participates(ps', b) {
      var j :| 0 <= j < |ps| && ps[j].address == b;
      assert ps'[j].address == b;
    }
  }

  lemma SetWeightKeeps(s: State, id: nat, a: Address, weight: nat)
    requires Inv(s)
    ensures Inv(SetWeight(s, id, a, weight).0) && (Solvent(s) ==> Solvent(SetWeight(s, id, a, weight).0))
  {
    var (s', r) := SetWeight(s, id, a, weight);
    if r.Ok? {
      hide PartySound, Solvent, DisputesSound, Reweighted, WeightSum;
      ReweightedPartySound(s.parties[id], a, weight);
      assert s.threshold[id := s.threshold[id]] == s.threshold;
      LockedChange(s, s', id, s'.parties[id]);
    }
  }

  lemma UpdateThresholdKeeps(s: State, id: nat, bps: nat)
    requires Inv(s)
    ensures Inv(UpdateThreshold(s, id, bps).0) && (Solvent(s) ==> Solvent(UpdateThreshold(s, id, bps).0))
  {
    var (s', r) := UpdateThreshold(s, id, bps);
    if r.Ok? {
      assert PartySound(s'.parties[id]) by { assert PartySound(s.parties[id]); }
      hide PartySound, Solvent, DisputesSound;
      LockedChange(s, s', id, s'.parties[id]);
    }
  }

  // Disputes and votes

  lemma NewDisputeSound(ps: seq<Participant>, deadline: nat)
    ensures VotesSound(PartyDispute([], [], |ps| / 2 + 1, deadline, false), ps)
  {}

  /** A locked escrow becomes disputed. */
  lemma OpenedKeeps(s: State, s': State, id: nat, d: PartyDispute)
    requires Inv(s) && id in s.parties && s.parties[id].status.Locked?
    requires s' == s.(disputes := s.disputes[id := d], parties := s.parties[id := s.parties[id].(status := Disputed)])
    requires !d.resolved && VotesSound(d, s.parties[id].participants)
    ensures Inv(s') && (Solvent(s) ==> Solvent(s'))
  {
    var e' := s'.parties[id];
    assert PartySound(e') by { assert PartySound(s.parties[id]); }
    hide PartySound, Solvent, VotesSound, BundlesSound;
    if Solvent(s) {
      SolventParty(s, s', id, e');
    }
    assert s.threshold[id := s.threshold[id]] == s.threshold;
    PartiesUpdate(s, s', id, e');
    SameBundles(s, s');
    hide PartiesSound;
    assert DisputeSound(s, id);
    DisputesUpdate(s, s', id);
  }

  lemma DisputePartyKeeps(s: State, caller: Address, id: nat)
    requires Inv(s)
    ensures Inv(DisputeParty(s, caller, id).0) && (Solvent(s) ==> Solvent(DisputeParty(s, caller, id).0))
  {
    hide Inv, Solvent, VotesSound, Participates;
    var (s', r) := DisputeParty(s, caller, id);
    if r.Ok? {
      NewDisputeSound(s.parties[id].participants, s.now + 7 * 24 * 3600);
      OpenedKeeps(s, s', id, s'.disputes[id]);
    }
  }

  lemma VotedSound(d: PartyDispute, ps: seq<Participant>, voter: Address, favorMerchant: bool)
    requires VotesSound(d, ps) && Participates(ps, voter)
    requires voter !in d.votesForMerchant && voter !in d.votesForCustomer
    ensures VotesSound(if favorMerchant then d.(votesForMerchant := d.votesForMerchant + [voter])
                       else d.(votesForCustomer := d.votesForCustomer + [voter]), ps)
  {
    var m, c := d.votesForMerchant, d.votesForCustomer;
    hide Participates;
    if favorMerchant {
      InsertDistinct(m, c, voter);
      forall a | a in m + [voter] + c ensures Participates(ps, a) {
        assert a == voter || a in m + c;
      }
    } else {
      DistinctAppend(m + c, voter);
      assert m + (c + [voter]) == m + c + [voter];
    }
  }

  lemma InsertDistinct(a: seq<Address>, b: seq<Address>, x: Address)
    requires Distinct(a + b) && x !in a && x !in b
    ensures Distinct(a + [x] + b)
  {
    var s, t := a + b, a + [x] + b;
    forall i, j | 0 <= i < j < |t| ensures t[i] != t[j] {
      var i', j' := if i < |a| then i else i - 1, if j < |a| then j else j - 1;
      assert i != |a| ==> t[i] == s[i'];
      assert j != |a| ==> t[j] == s[j'];
      assert t[|a|] == x;
      assert x !in s;
    }
  }

  /** One dispute record changes and stays open. */
  lemma DisputeChange(s: State, s': State, id: nat, d: PartyDispute)
    requires Inv(s) && id in s.disputes && id in s.parties && s' == s.(disputes := s.disputes[id := d])
    requires !s.disputes[id].resolved && !d.resolved && VotesSound(d, s.parties[id].participants)
    ensures Inv(s')
  {
    hide PartySound, VotesSound;
    assert DisputeSound(s, id);
    DisputesUpdate(s, s', id);
  }

  lemma VoteKeeps(s: State, voter: Address, id: nat, favorMerchant: bool)
    requires Inv(s)
    ensures Inv(Vote(s, voter, id, favorMerchant).0) && (Solvent(s) ==> Solvent(Vote(s, voter, id, favorMerchant).0))
  {
    var (s', r) := Vote(s, voter, id, favorMerchant);
    if r.Ok? {
      assert DisputeSound(s, id);
      hide Inv, Solvent, VotesSound, Participates;
      VotedSound(s.disputes[id], s.parties[id].participants, voter, favorMerchant);
      SameMoney(s, s');
      DisputeChange(s, s', id, s'.disputes[id]);
    }
  }

  lemma SameMoney(s: State, s': State)
    requires s'.bank == s.bank && s'.parties == s.parties && s'.partyCounter == s.partyCounter
    requires s'.bundles == s.bundles && s'.bundleCounter == s.bundleCounter
    ensures Solvent(s) ==> Solvent(s')
  {
    if Solvent(s) {
      forall t ensures Owed(s', t) <= Balance(s'.bank, t, SELF) {
        assert Owed(s, t) <= Balance(s.bank, t, SELF);
      }
    }
  }

  // Payouts

  /** Paying out a live escrow: it stops being owed, and at most its total leaves the account. */
  lemma PaidOutKeeps(s: State, s': State, id: nat, status: Status)
    requires Inv(s) && id in s.parties && Live(s.parties[id].status) && (status.Released? || status.Resolved?)
    requires s' == s.(bank := s'.bank, parties := s.parties[id := s.parties[id].(status := status)],
                      disputes := s'.disputes, payouts := PaidOut(s.payouts, id))
    requires if id in s.disputes then s'.disputes == s.disputes[id := s.disputes[id].(resolved := true)] else s'.disputes == s.disputes
    requires Solvent(s) ==> forall t :: Balance(s'.bank, t, SELF) >= Balance(s.bank, t, SELF) -
                                        if t == s.parties[id].token then s.parties[id].total else 0
    ensures Inv(s') && (Solvent(s) ==> Solvent(s'))
  {
    var e, e' := s.parties[id], s'.parties[id];
    assert PartySound(e') by { assert PartySound(e); }
    hide PartySound, Solvent, BundlesSound, VotesSound, DisputesSound;
    assert 1 <= id <= s.partyCounter;
    PaidOutDisputes(s, s', id, status);
    if Solvent(s) {
      SolventParty(s, s', id, e');
    }
    assert s.threshold[id := s.threshold[id]] == s.threshold;
    PartiesUpdate(s, s', id, e');
    assert BundlesSound(s') by { SameBundles(s, s'); }
  }

  lemma PaidOutDisputes(s: State, s': State, id: nat, status: Status)
    requires DisputesSound(s) && id in s.parties && Live(s.parties[id].status) && (status.Released? || status.Resolved?)
    requires s' == s.(bank := s'.bank, parties := s.parties[id := s.parties[id].(status := status)],
                      disputes := s'.disputes, payouts := PaidOut(s.payouts, id))
    requires if id in s.disputes then s'.disputes == s.disputes[id := s.disputes[id].(resolved := true)] else s'.disputes == s.disputes
    ensures DisputesSound(s')
  {
    assert DisputeSound(s, id);
    if id in s.disputes {
      ResolvedVotes(s.disputes[id], s.parties[id].participants);
    }
    hide VotesSound;
    DisputesUpdate(s, s', id);
  }

  lemma ResolvedVotes(d: PartyDispute, ps: seq<Participant>)
    requires VotesSound(d, ps)
    ensures VotesSound(d.(resolved := true), ps)
  {}

  lemma SameBundles(s: State, s': State)
    requires BundlesSound(s) && s'.bundles == s.bundles && s'.bundleCounter == s.bundleCounter
    ensures BundlesSound(s')
  {}

  lemma PayoutsAffordable(s: State, id: nat, t: Address)
    requires Inv(s) && Solvent(s) && id in s.parties && Live(s.parties[id].status)
    ensures var e := s.parties[id];
            var paid, refunded := PayShares(s.bank, e.token, e.participants, e.total), PayRefund(s.bank, e);
            && paid.Some? && refunded.Some?
            && Balance(paid.value, t, SELF) >= Balance(s.bank, t, SELF) - (if t == e.token then e.total else 0)
            && Balance(refunded.value, t, SELF) >= Balance(s.bank, t, SELF) - (if t == e.token then e.total else 0)
  {
    var e := s.parties[id];
    PartyCovered(s, id);
    assert PartySound(e);
    hide Inv, Solvent, PartySound, PayShares, PayRefund;
    SharesEffect(s.bank, e, t);
    RefundEffect(s.bank, e, t);
  }

  lemma ReleasePartyKeeps(s: State, id: nat)
    requires Inv(s)
    ensures Inv(ReleaseParty(s, id).0) && (Solvent(s) ==> Solvent(ReleaseParty(s, id).0))
  {
    var (s', r) := ReleaseParty(s, id);
    if r.Ok? {
      assert DisputeSound(s, id);
      hide Inv, Solvent, PayShares, PayRefund, ApprovedWeight, PaidOut;
      if Solvent(s) {
        forall t ensures Balance(s'.bank, t, SELF) >= Balance(s.bank, t, SELF) -
                         if t == s.parties[id].token then s.parties[id].total else 0
        {
          PayoutsAffordable(s, id, t);
        }
      }
      PaidOutKeeps(s, s', id, Released);
    }
  }

  lemma ResolvePartyKeeps(s: State, id: nat)
    requires Inv(s)
    ensures Inv(ResolveParty(s, id).0) && (Solvent(s) ==> Solvent(ResolveParty(s, id).0))
  {
    var (s', r) := ResolveParty(s, id);
    if r.Ok? {
      assert DisputeSound(s, id);
      hide Inv, Solvent, PayShares, PayRefund, Verdict, PaidOut, VotesSound;
      if Solvent(s) {
        forall t ensures Balance(s'.bank, t, SELF) >= Balance(s.bank, t, SELF) -
                         if t == s.parties[id].token then s.parties[id].total else 0
        {
          PayoutsAffordable(s, id, t);
        }
      }
      PaidOutKeeps(s, s', id, s'.parties[id].status);
    }
  }

  // Bundles

  lemma BundlesUpdate(s: State, s': State, id: nat, e: Bundle)
    requires BundlesSound(s) && DistinctTokens(e.tokens) && NonNegative(e.tokens) && 1 <= id <= s'.bundleCounter
    requires s'.bundleCounter == s.bundleCounter || s'.bundleCounter == s.bundleCounter + 1 == id
    requires s'.bundles == s.bundles[id := e]
    ensures BundlesSound(s')
  {
    hide DistinctTokens, NonNegative;
  }

  lemma SameParties(s: State, s': State)
    requires PartiesSound(s) && DisputesSound(s)
    requires s'.parties == s.parties && s'.partyCounter == s.partyCounter && s'.threshold == s.threshold
    requires s'.disputes == s.disputes && s'.payouts == s.payouts
    ensures PartiesSound(s') && DisputesSound(s')
  {
    forall id: nat ensures DisputeSound(s', id) {
      assert DisputeSound(s, id);
    }
  }

  lemma CreateBundleKeeps(s: State, customer: Address, merchant: Address, tokens: seq<TokenEntry>, releaseTimestamp: nat)
    requires Inv(s)
    ensures Inv(CreateBundle(s, customer, merchant, tokens, releaseTimestamp).0) && (Solvent(s) ==> Solvent(CreateBundle(s, customer, merchant, tokens, releaseTimestamp).0))
  {
    var (s', r) := CreateBundle(s, customer, merchant, tokens, releaseTimestamp);
    if r.Ok? {
      hide PartySound, VotesSound, MoveEntries, Solvent;
      var e := Bundle(customer, merchant, tokens, Locked, s.now, releaseTimestamp);
      MoveEntriesEffect(s.bank, tokens, customer, SELF, SELF, SELF);
      forall t ensures Balance(s'.bank, t, SELF) == Balance(s.bank, t, SELF) + EntryTotal(tokens, t) {
        MoveEntriesEffect(s.bank, tokens, customer, SELF, t, SELF);
      }
      if Solvent(s) {
        SolventNewBundle(s, s', e);
      }
      BundlesUpdate(s, s', s.bundleCounter + 1, e);
      SameParties(s, s');
    }
  }

  lemma ReleaseBundleKeeps(s: State, id: nat)
    requires Inv(s)
    ensures Inv(ReleaseBundle(s, id).0) && (Solvent(s) ==> Solvent(ReleaseBundle(s, id).0))
  {
    var (s', r) := ReleaseBundle(s, id);
    if r.Ok? {
      hide PartySound, VotesSound, MoveEntries, Solvent, Covered;
      var e := s.bundles[id];
      forall t ensures Balance(s'.bank, t, SELF) >= Balance(s.bank, t, SELF) - EntryTotal(e.tokens, t) {
        MoveEntriesEffect(s.bank, e.tokens, SELF, e.merchant, t, SELF);
        EntryTotalNonNegative(e.tokens, t);
      }
      if Solvent(s) {
        SolventBundle(s, s', id, s'.bundles[id]);
      }
      BundlesUpdate(s, s', id, s'.bundles[id]);
      SameParties(s, s');
    }
  }

  lemma OutsideKeeps(s: State, token: Address, from: Address, to: Address, amount: int)
    requires Inv(s)
    ensures var s' := OutsideTransfer(s, token, from, to, amount); Inv(s') && (Solvent(s) ==> Solvent(s'))
  {
    var s' := OutsideTransfer(s, token, from, to, amount);
    hide PartySound, VotesSound;
    SameParties(s, s');
    if s' != s && Solvent(s) {
      forall t ensures Owed(s', t) <= Balance(s'.bank, t, SELF) {
        TransferEffect(s.bank, token, from, to, amount, t, SELF);
        assert Owed(s, t) <= Balance(s.bank, t, SELF);
      }
    }
  }

  /** Paying anything else out of the account leaves a solvent contract solvent if and only if nothing
      moves, the money comes back, or it is no more than the surplus. */
  lemma PayOutKeepsIff(s: State, token: Address, to: Address, amount: int)
    requires Inv(s)
    ensures var (s', moved) := PayOut(s, token, to, amount);
            && Inv(s')
            && (Solvent(s) ==> (Solvent(s') <==> !moved || to == SELF || amount <= Surplus(s, token)))
  {
    var (s', moved) := PayOut(s, token, to, amount);
    hide PartySound, VotesSound;
    SameParties(s, s');
    if moved && Solvent(s) {
      forall t ensures Surplus(s', t) == Surplus(s, t) - (if t == token && to != SELF then amount else 0) && Surplus(s, t) >= 0 {
        TransferEffect(s.bank, token, SELF, to, amount, t, SELF);
        assert Owed(s, t) <= Balance(s.bank, t, SELF);
      }
      assert Surplus(s', token) < 0 ==> Owed(s', token) > Balance(s'.bank, token, SELF);
      if to == SELF || amount <= Surplus(s, token) {
        forall t ensures Owed(s', t) <= Balance(s'.bank, t, SELF) {
          assert Surplus(s', t) >= 0;
        }
      }
    }
  }

  lemma TickKeeps(s: State, seconds: nat)
    requires Inv(s)
    ensures var s' := s.(now := s.now + seconds); Inv(s') && (Solvent(s) ==> Solvent(s'))
  {
    hide PartySound, VotesSound, Owed, Solvent;
    SameMoney(s, s.(now := s.now + seconds));
    SameParties(s, s.(now := s.now + seconds));
  }

  /** This call takes nothing out of the account that is owed for a pooled escrow; the caller can
      tell from the storage the call meets. */
  predicate WithinSurplus(s: State, op: Op) {
    op.PayingOut? ==> op.to == SELF || op.amount <= Surplus(s, op.token) || !PayOut(s, op.token, op.to, op.amount).1
  }

  /** Each entry point keeps the records sound, and each but one keeps the contract solvent too: only a
      payout beyond the surplus does not. */
  lemma StepKeeps(s: State, op: Op)
    requires Inv(s)
    ensures Inv(Step(s, op))
    ensures Solvent(s) ==> (Solvent(Step(s, op)) <==> WithinSurplus(s, op))
  {
    hide Inv, Solvent, CreateParty, Approve, ReleaseParty, SetWeight, UpdateThreshold, DisputeParty, Vote, ResolveParty,
      CreateBundle, ReleaseBundle, OutsideTransfer, PayOut, Surplus;
    match op
    case CreatingParty(c, ps, total, token, t) => CreatePartyKeeps(s, c, ps, total, token, t);
    case Approving(caller, id) => ApproveKeeps(s, caller, id);
    case ReleasingParty(id) => ReleasePartyKeeps(s, id);
    case SettingWeight(id, a, w) => SetWeightKeeps(s, id, a, w);
    case UpdatingThreshold(id, bps) => UpdateThresholdKeeps(s, id, bps);
    case DisputingParty(caller, id) => DisputePartyKeeps(s, caller, id);
    case Voting(voter, id, m) => VoteKeeps(s, voter, id, m);
    case ResolvingParty(id) => ResolvePartyKeeps(s, id);
    case CreatingBundle(c, m, tokens, t) => CreateBundleKeeps(s, c, m, tokens, t);
    case ReleasingBundle(id) => ReleaseBundleKeeps(s, id);
    case OutsideTransferring(token, from, to, amount) => OutsideKeeps(s, token, from, to, amount);
    case PayingOut(token, to, amount) => PayOutKeepsIff(s, token, to, amount);
    case Ticking(seconds) => TickKeeps(s, seconds);
  }

  lemma {:induction false} RunKeeps(s: State, ops: seq<Op>)
    requires Inv(s)
    ensures Inv(Run(s, ops))
    decreases |ops|
  {
    hide Inv, Step;
    if ops != [] {
      StepKeeps(s, ops[0]);
      RunKeeps(Step(s, ops[0]), ops[1..]);
    }
  }

  lemma InitialInv(bank: Bank)
    ensures Inv(Initial(bank)) && Solvent(Initial(bank))
  {
    forall t ensures Owed(Initial(bank), t) <= Balance(bank, t, SELF) {}
    forall id: nat ensures DisputeSound(Initial(bank), id) {}
  }

  // ----- What the runs come to -----

  ghost predicate AlwaysSolvent(s: State, ops: seq<Op>)
    decreases |ops|
  {
    Solvent(s) && (ops != [] ==> AlwaysSolvent(Step(s, ops[0]), ops[1..]))
  }

  predicate AllWithinSurplus(s: State, ops: seq<Op>)
    decreases |ops|
  {
    ops != [] ==> WithinSurplus(s, ops[0]) && AllWithinSurplus(Step(s, ops[0]), ops[1..])
  }

  lemma {:induction false} RunSolvent(s: State, ops: seq<Op>)
    requires Inv(s) && Solvent(s)
    ensures AlwaysSolvent(s, ops) <==> AllWithinSurplus(s, ops)
    ensures AllWithinSurplus(s, ops) ==> Solvent(Run(s, ops))
    decreases |ops|
  {
    hide Inv, Solvent, Step, WithinSurplus;
    if ops != [] {
      StepKeeps(s, ops[0]);
      if Solvent(Step(s, ops[0])) {
        RunSolvent(Step(s, ops[0]), ops[1..]);
      } else {
        assert !AlwaysSolvent(Step(s, ops[0]), ops[1..]);
      }
    }
  }

  /** Solvency: in every storage of a run, for every token, the contract's balance covers the totals
      of all locked or disputed multi-party escrows together with the entries of all locked
      multi-token escrows, if and only if every other payout of the run was within the surplus when it
      was made. */
  lemma SolventIff(bank: Bank, ops: seq<Op>)
    ensures AlwaysSolvent(Initial(bank), ops) <==> AllWithinSurplus(Initial(bank), ops)
    ensures AllWithinSurplus(Initial(bank), ops) ==> forall t :: Owed(Run(Initial(bank), ops), t) <= Balance(Run(Initial(bank), ops).bank, t, SELF)
  {
    hide Inv, Step, Run;
    InitialInv(bank);
    RunSolvent(Initial(bank), ops);
  }

  /** Once its time has come a locked bundle is released if and only if every entry is covered by the
      balance, and no transfer fails after that check; the merchant then has every entry. As long as
      other payouts stayed within the surplus, the check turns no release down. */
  lemma BundleReleaseIff(bank: Bank, ops: seq<Op>, id: nat, i: nat)
    requires var s := Run(Initial(bank), ops);
             id in s.bundles && s.bundles[id].status.Locked? && s.bundles[id].releaseTimestamp <= s.now
             && i < |s.bundles[id].tokens|
    ensures var s := Run(Initial(bank), ops);
            var (s', r) := ReleaseBundle(s, id);
            var e, entry := s.bundles[id], s.bundles[id].tokens[i];
            && (r.Ok? <==> Covered(s.bank, e.tokens))
            && (r.Ok? && e.merchant != SELF ==>
                  Balance(s'.bank, entry.token, e.merchant) == Balance(s.bank, entry.token, e.merchant) + entry.amount)
            && (AllWithinSurplus(Initial(bank), ops) ==> r.Ok?)
  {
    InitialInv(bank);
    RunKeeps(Initial(bank), ops);
    RunSolvent(Initial(bank), ops);
    hide Run;
    BundleReleases(Run(Initial(bank), ops), id, i);
  }

  lemma BundleReleases(s: State, id: nat, i: nat)
    requires Inv(s) && id in s.bundles && s.bundles[id].status.Locked? && s.bundles[id].releaseTimestamp <= s.now
    requires i < |s.bundles[id].tokens|
    ensures var (s', r) := ReleaseBundle(s, id);
            var e, entry := s.bundles[id], s.bundles[id].tokens[i];
            && (r.Ok? <==> Covered(s.bank, e.tokens))
            && (r.Ok? && e.merchant != SELF ==>
                  Balance(s'.bank, entry.token, e.merchant) == Balance(s.bank, entry.token, e.merchant) + entry.amount)
            && (Solvent(s) ==> r.Ok?)
  {
    var e := s.bundles[id];
    if Solvent(s) {
      BundleCovered(s, id);
    }
    hide Solvent;
    if Covered(s.bank, e.tokens) {
      CoveredMoves(s.bank, e.tokens, e.merchant);
      MoveEntriesEffect(s.bank, e.tokens, SELF, e.merchant, e.tokens[i].token, e.merchant);
      DistinctEntryTotal(e.tokens, i);
    }
  }

  /** A payout of a multi-party escrow fails for want of money exactly when everything else lets it
      through and the balance is below what it needs: the release and a dispute that goes to the merchant
      what the loop over the shares needs, a refund the total when somebody has the customer's role. As
      long as other payouts stayed within the surplus it never fails. */
  lemma PartyPayoutFailsIff(bank: Bank, ops: seq<Op>, id: nat)
    requires id in Run(Initial(bank), ops).parties
    ensures var s := Run(Initial(bank), ops);
            var e := s.parties[id];
            var balance := Balance(s.bank, e.token, SELF);
            && (ReleaseParty(s, id).1 == Err(TransferFailed) <==>
                  && e.status.Locked? && ApprovedWeight(s.voteWeight, id, e.participants) >= ThresholdOf(s, id)
                  && s.now >= e.releaseTimestamp && balance < PayoutNeeds(e, false))
            && (ResolveParty(s, id).1 == Err(TransferFailed) <==>
                  && id in s.disputes && !s.disputes[id].resolved && Verdict(s.disputes[id], s.now).Some?
                  && balance < PayoutNeeds(e, !Verdict(s.disputes[id], s.now).value))
            && (AllWithinSurplus(Initial(bank), ops) && Live(e.status) ==>
                  balance >= PayoutNeeds(e, false) && balance >= PayoutNeeds(e, true))
  {
    hide Run, Inv, ReleaseParty, ResolveParty, PayoutNeeds, ApprovedWeight, Verdict, ThresholdOf;
    InitialInv(bank);
    RunKeeps(Initial(bank), ops);
    RunSolvent(Initial(bank), ops);
    PayoutsFailIff(Run(Initial(bank), ops), id);
  }

  lemma PayoutsFailIff(s: State, id: nat)
    requires Inv(s) && id in s.parties
    ensures var e := s.parties[id];
            var balance := Balance(s.bank, e.token, SELF);
            && (ReleaseParty(s, id).1 == Err(TransferFailed) <==>
                  && e.status.Locked? && ApprovedWeight(s.voteWeight, id, e.participants) >= ThresholdOf(s, id)
                  && s.now >= e.releaseTimestamp && balance < PayoutNeeds(e, false))
            && (ResolveParty(s, id).1 == Err(TransferFailed) <==>
                  && id in s.disputes && !s.disputes[id].resolved && Verdict(s.disputes[id], s.now).Some?
                  && balance < PayoutNeeds(e, !Verdict(s.disputes[id], s.now).value))
            && (Solvent(s) && Live(e.status) ==> balance >= PayoutNeeds(e, false) && balance >= PayoutNeeds(e, true))
  {
    var e := s.parties[id];
    assert PartySound(e);
    PayoutIff(s.bank, e);
    if Solvent(s) && Live(e.status) {
      PartyCovered(s, id);
      ProRataBound(e.participants, e.total);
      SpentWithinNeeded(e.participants, e.total);
    }
    hide Inv, Solvent, PartySound, PayShares, PayRefund, ApprovedWeight, Verdict, ThresholdOf, PaidOut, Needed;
  }

  /** Each multi-party escrow is paid out at most once over release and both ways of resolution,
      and never while it is locked or disputed; a dispute is open exactly while it is disputed. */
  lemma PaidOutAtMostOnce(bank: Bank, ops: seq<Op>, id: nat)
    requires id in Run(Initial(bank), ops).parties
    ensures var s := Run(Initial(bank), ops);
            && id in s.payouts && s.payouts[id] == (if Live(s.parties[id].status) then 0 else 1)
            && (s.parties[id].status.Disputed? <==> id in s.disputes && !s.disputes[id].resolved)
  {
    InitialInv(bank);
    RunKeeps(Initial(bank), ops);
    assert DisputeSound(Run(Initial(bank), ops), id);
  }

  // ----- Votes -----

  lemma {:induction false} VotersAreParticipants(votes: seq<Address>, ps: seq<Participant>)
    requires Distinct(votes) && DistinctAddresses(ps)
    requires forall a :: a in votes ==> Participates(ps, a)
    ensures |votes| <= |ps|
  {
    if votes != [] {
      var n := |votes| - 1;
      assert votes[n] in votes;
      var i :| 0 <= i < |ps| && ps[i].address == votes[n];
      var rest := ps[..i] + ps[i + 1..];
      forall a | a in votes[..n] ensures Participates(rest, a) {
        assert a in votes && Participates(ps, a);
        var j :| 0 <= j < |ps| && ps[j].address == a;
        assert a != votes[n];
        assert rest[if j < i then j else j - 1] == ps[j];
      }
      assert DistinctAddresses(rest);
      VotersAreParticipants(votes[..n], rest);
    }
  }

  /** The two sides' votes come from distinct participants, each on one side only. Together they are
      at most as many as the participants, so at most one side has the quorum and asking the
      customer's side first would give the same verdict. */
  lemma OneQuorumAtMost(bank: Bank, ops: seq<Op>, id: nat)
    requires id in Run(Initial(bank), ops).disputes
    ensures var s := Run(Initial(bank), ops);
            var d := s.disputes[id];
            && id in s.parties && Distinct(d.votesForMerchant + d.votesForCustomer)
            && (forall a :: a in d.votesForMerchant + d.votesForCustomer ==> Participates(s.parties[id].participants, a))
            && !(|d.votesForMerchant| >= d.quorum && |d.votesForCustomer| >= d.quorum)
            && Verdict(d, s.now) ==
               if |d.votesForCustomer| >= d.quorum then Some(false)
               else if |d.votesForMerchant| >= d.quorum then Some(true)
               else if s.now > d.deadline then Some(false) else None
  {
    InitialInv(bank);
    RunKeeps(Initial(bank), ops);
    var s := Run(Initial(bank), ops);
    assert DisputeSound(s, id);
    var d, ps := s.disputes[id], s.parties[id].participants;
    assert PartySound(s.parties[id]);
    VotersAreParticipants(d.votesForMerchant + d.votesForCustomer, ps);
  }
}
