/** Multi-party and multi-token escrows: the two kinds whose creation pulls the principal into the
    contract's own account, from which everything else is paid too. Entry points are functions on the whole storage and the token ledger;
    an entry point that fails leaves both as they were. */
module PooledEscrow {
  import opened Common

  // ----- Tokens -----

  datatype Account = Account(token: Address, holder: Address)

  /** Balances of every token; an absent account holds nothing. */
  type Bank = map<Account, nat>

  /** The contract's own address. */
  const SELF := Address(0)

  function Balance(b: Bank, token: Address, holder: Address): nat {
    if Account(token, holder) in b then b[Account(token, holder)] else 0
  }

  /** A token moves no negative amount and no more than the sender has. */
  function Transfer(b: Bank, token: Address, from: Address, to: Address, amount: int): Option<Bank> {
    if amount < 0 || Balance(b, token, from) < amount then None
    else
      var b1 := b[Account(token, from) := Balance(b, token, from) - amount];
      Some(b1[Account(token, to) := Balance(b1, token, to) + amount])
  }

  // ----- Records -----

  datatype Role = CustomerRole | MerchantRole | ServiceProviderRole | ArbitratorRole | CustomRole(name: string)

  datatype Participant = Participant(
    address: Address, role: Role, shareBps: nat, weightBps: nat, approved: bool, approvedAt: Option<nat>)

  datatype Party = Party(
    participants: seq<Participant>,
    total: int,
    token: Address,
    status: Status,
    approvals: seq<Address>,
    thresholdBps: nat,
    createdAt: nat,
    releaseTimestamp: nat)

  datatype PartyDispute = PartyDispute(
    votesForMerchant: seq<Address>, votesForCustomer: seq<Address>, quorum: nat, deadline: nat, resolved: bool)

  datatype TokenEntry = TokenEntry(token: Address, amount: int)

  datatype Bundle = Bundle(
    customer: Address, merchant: Address, tokens: seq<TokenEntry>, status: Status, createdAt: nat, releaseTimestamp: nat)

  /** The storage. `payouts` is not stored by the contract: it counts, per multi-party escrow, how
      often its principal has been paid out. */
  datatype State = State(
    bank: Bank,
    parties: map<nat, Party>,
    partyCounter: nat,
    disputes: map<nat, PartyDispute>,
    voteWeight: map<(nat, Address), nat>,
    threshold: map<nat, nat>,
    bundles: map<nat, Bundle>,
    bundleCounter: nat,
    payouts: map<nat, nat>,
    now: nat)

  function Initial(bank: Bank): State {
    State(bank, map[], 0, map[], map[], map[], map[], 0, map[], 0)
  }

  // ----- Participants -----

  function ShareSum(ps: seq<Participant>): nat {
    if ps == [] then 0 else ShareSum(ps[..|ps| - 1]) + ps[|ps| - 1].shareBps
  }

  function WeightSum(ps: seq<Participant>): nat {
    if ps == [] then 0 else WeightSum(ps[..|ps| - 1]) + ps[|ps| - 1].weightBps
  }

  predicate DistinctAddresses(ps: seq<Participant>) {
    forall i, j :: 0 <= i < j < |ps| ==> ps[i].address != ps[j].address
  }

  predicate Participates(ps: seq<Participant>, a: Address) {
    exists i :: 0 <= i < |ps| && ps[i].address == a
  }

  /** The weight that counts for a participant: the stored vote weight, else the recorded one. */
  function WeightOf(w: map<(nat, Address), nat>, id: nat, p: Participant): nat {
    if (id, p.address) in w then w[(id, p.address)] else p.weightBps
  }

  function ApprovedWeight(w: map<(nat, Address), nat>, id: nat, ps: seq<Participant>): nat {
    if ps == [] then 0
    else
      var p := ps[|ps| - 1];
      ApprovedWeight(w, id, ps[..|ps| - 1]) + if p.approved then WeightOf(w, id, p) else 0
  }

  function FreshParticipants(ps: seq<Participant>): seq<Participant> {
    seq(|ps|, i requires 0 <= i < |ps| => ps[i].(approved := false, approvedAt := None))
  }

  // ----- Payouts -----

  /** A participant's part of the principal, rounded down. */
  function ShareOf(total: int, p: Participant): int {
    TruncDiv(total * p.shareBps, 10000)
  }

  /** Pays every participant with a positive share its part, in order. */
  function PayShares(b: Bank, token: Address, ps: seq<Participant>, total: int): Option<Bank> {
    if ps == [] then Some(b)
    else
      var before := PayShares(b, token, ps[..|ps| - 1], total);
      var p := ps[|ps| - 1];
      if before.None? || p.shareBps == 0 || ShareOf(total, p) <= 0 then before
      else Transfer(before.value, token, SELF, p.address, ShareOf(total, p))
  }

  /** The first participant in the customer's role. */
  function FirstCustomer(ps: seq<Participant>): Option<Address> {
    if ps == [] then None
    else if ps[0].role.CustomerRole? then Some(ps[0].address)
    else FirstCustomer(ps[1..])
  }

  /** The refund goes to the customer, or to everybody by share when nobody has that role. */
  function PayRefund(b: Bank, e: Party): Option<Bank> {
    var customer := FirstCustomer(e.participants);
    if customer.Some? then Transfer(b, e.token, SELF, customer.value, e.total)
    else PayShares(b, e.token, e.participants, e.total)
  }

  // ----- Multi-party escrows -----

  function NewParty(ps: seq<Participant>, total: int, token: Address, releaseTimestamp: nat, now: nat): Party {
    Party(FreshParticipants(ps), total, token, Locked, [], 10000, now, releaseTimestamp)
  }

  /** Vote weights start as the shares. */
  function SeedWeights(w: map<(nat, Address), nat>, id: nat, ps: seq<Participant>): map<(nat, Address), nat> {
    if ps == [] then w
    else SeedWeights(w, id, ps[..|ps| - 1])[(id, ps[|ps| - 1].address) := ps[|ps| - 1].shareBps]
  }

  function CreateParty(s: State, customer: Address, ps: seq<Participant>, total: int, token: Address, releaseTimestamp: nat)
    : (State, Result<nat>)
  {
    if customer == SELF then (s, Err(Unauthorized))  // the contract cannot authorise a call to itself
    else if |ps| < 2 || |ps| > 10 then (s, Err(InvalidStatus))
    else if !DistinctAddresses(ps) then (s, Err(DuplicateApproval))
    else if ShareSum(ps) != 10000 || WeightSum(ps) != 10000 then (s, Err(InvalidStatus))
    else
      var bank := Transfer(s.bank, token, customer, SELF, total);
      if bank.None? then (s, Err(TransferFailed))
      else
        var id := s.partyCounter + 1;
        (s.(bank := bank.value,
            parties := s.parties[id := NewParty(ps, total, token, releaseTimestamp, s.now)],
            partyCounter := id,
            voteWeight := SeedWeights(s.voteWeight, id, ps),
            threshold := s.threshold[id := 10000],
            payouts := s.payouts[id := 0]), Ok(id))
  }

  /** The participants after the caller's approval, whose recorded weight becomes the counting one. */
  function Approving(ps: seq<Participant>, caller: Address, weight: nat, now: nat): seq<Participant> {
    seq(|ps|, i requires 0 <= i < |ps| =>
      if ps[i].address == caller then ps[i].(weightBps := weight, approved := true, approvedAt := Some(now)) else ps[i])
  }

  /** The participant with this address; the creation checks make it the only one. */
  function IndexOf(ps: seq<Participant>, a: Address): (r: Option<nat>)
    ensures r.Some? ==> r.value < |ps| && ps[r.value].address == a
    ensures r.None? ==> !Participates(ps, a)
  {
    if ps == [] then None
    else if ps[|ps| - 1].address == a then Some(|ps| - 1)
    else IndexOf(ps[..|ps| - 1], a)
  }

  function Approve(s: State, caller: Address, id: nat): (State, Result<()>) {
    if id !in s.parties then (s, Err(NotFound))
    else
      var e := s.parties[id];
      var i := IndexOf(e.participants, caller);
      if !e.status.Locked? then (s, Err(InvalidStatus))
      else if caller in e.approvals then (s, Err(DuplicateApproval))
      else if i.None? then (s, Err(Unauthorized))
      else
        var p := e.participants[i.value];
        var weight := WeightOf(s.voteWeight, id, p);
        if weight == 0 then (s, Err(Unauthorized))
        else if p.approved then (s, Err(DuplicateApproval))
        else
          var e' := e.(participants := Approving(e.participants, caller, weight, s.now), approvals := e.approvals + [caller]);
          (s.(parties := s.parties[id := e']), Ok(()))
  }

  function ThresholdOf(s: State, id: nat): nat
    requires id in s.parties
  {
    if id in s.threshold then s.threshold[id] else s.parties[id].thresholdBps
  }

  /** One more payout of this escrow. */
  function PaidOut(payouts: map<nat, nat>, id: nat): map<nat, nat> {
    payouts[id := (if id in payouts then payouts[id] else 0) + 1]
  }

  function ReleaseParty(s: State, id: nat): (State, Result<()>) {
    if id !in s.parties then (s, Err(NotFound))
    else
      var e := s.parties[id];
      if !e.status.Locked? then (s, Err(InvalidStatus))
      else if ApprovedWeight(s.voteWeight, id, e.participants) < ThresholdOf(s, id) then (s, Err(ApprovalsThresholdNotMet))
      else if s.now < e.releaseTimestamp then (s, Err(ReleaseNotYetAvailable))
      else
        var bank := PayShares(s.bank, e.token, e.participants, e.total);
        if bank.None? then (s, Err(TransferFailed))
        else (s.(bank := bank.value, parties := s.parties[id := e.(status := Released)], payouts := PaidOut(s.payouts, id)), Ok(()))
  }

  function Reweighted(ps: seq<Participant>, a: Address, weight: nat): seq<Participant> {
    seq(|ps|, i requires 0 <= i < |ps| => if ps[i].address == a then ps[i].(weightBps := weight) else ps[i])
  }

  /** The caller is an admin. */
  function SetWeight(s: State, id: nat, a: Address, weight: nat): (State, Result<()>) {
    if id !in s.parties then (s, Err(NotFound))
    else
      var e := s.parties[id];
      if !e.status.Locked? then (s, Err(InvalidStatus))
      else if exists i :: 0 <= i < |e.participants| && e.participants[i].approved then (s, Err(InvalidStatus))
      else if !Participates(e.participants, a) then (s, Err(ParticipantNotFound))
      else
        var ps := Reweighted(e.participants, a, weight);
        if WeightSum(ps) != 10000 then (s, Err(InvalidStatus))
        else (s.(parties := s.parties[id := e.(participants := ps)], voteWeight := s.voteWeight[(id, a) := weight]), Ok(()))
  }

  /** The caller is an admin. */
  function UpdateThreshold(s: State, id: nat, bps: nat): (State, Result<()>) {
    if bps < 1 || bps > 10000 then (s, Err(InvalidThreshold))
    else if id !in s.parties then (s, Err(NotFound))
    else
      var e := s.parties[id];
      if !e.status.Locked? then (s, Err(InvalidStatus))
      else (s.(parties := s.parties[id := e.(thresholdBps := bps)], threshold := s.threshold[id := bps]), Ok(()))
  }

  function DisputeParty(s: State, caller: Address, id: nat): (State, Result<()>) {
    if id !in s.parties then (s, Err(NotFound))
    else
      var e := s.parties[id];
      if !e.status.Locked? then (s, Err(InvalidStatus))
      else if !Participates(e.participants, caller) then (s, Err(Unauthorized))
      else
        var d := PartyDispute([], [], |e.participants| / 2 + 1, s.now + 7 * 24 * 3600, false);
        (s.(disputes := s.disputes[id := d], parties := s.parties[id := e.(status := Disputed)]), Ok(()))
  }

  function Vote(s: State, voter: Address, id: nat, favorMerchant: bool): (State, Result<()>) {
    if id !in s.parties then (s, Err(NotFound))
    else if id !in s.disputes then (s, Err(NotDisputed))
    else
      var d := s.disputes[id];
      if d.resolved then (s, Err(AlreadyProcessed))
      else if !Participates(s.parties[id].participants, voter) then (s, Err(Unauthorized))
      else if voter in d.votesForMerchant || voter in d.votesForCustomer then (s, Err(DuplicateApproval))
      else
        var d' := if favorMerchant then d.(votesForMerchant := d.votesForMerchant + [voter])
                  else d.(votesForCustomer := d.votesForCustomer + [voter]);
        (s.(disputes := s.disputes[id := d']), Ok(()))
  }

  /** The side a dispute goes to, if it can be decided: the merchant's quorum is asked first, then
      the customer's, and after the deadline the customer wins. */
  function Verdict(d: PartyDispute, now: nat): Option<bool> {
    if |d.votesForMerchant| >= d.quorum then Some(true)
    else if |d.votesForCustomer| >= d.quorum then Some(false)
    else if now > d.deadline then Some(false)
    else None
  }

  function ResolveParty(s: State, id: nat): (State, Result<()>) {
    if id !in s.parties then (s, Err(NotFound))
    else if id !in s.disputes then (s, Err(NotDisputed))
    else if s.disputes[id].resolved then (s, Err(AlreadyProcessed))
    else
      var e := s.parties[id];
      var verdict := Verdict(s.disputes[id], s.now);
      if verdict.None? then (s, Err(ApprovalsThresholdNotMet))
      else
        var bank := if verdict.value then PayShares(s.bank, e.token, e.participants, e.total) else PayRefund(s.bank, e);
        if bank.None? then (s, Err(TransferFailed))
        else (s.(bank := bank.value,
                 parties := s.parties[id := e.(status := if verdict.value then Released else Resolved)],
                 disputes := s.disputes[id := s.disputes[id].(resolved := true)],
                 payouts := PaidOut(s.payouts, id)), Ok(()))
  }

  // ----- Multi-token escrows -----

  predicate DistinctTokens(tokens: seq<TokenEntry>) {
    forall i, j :: 0 <= i < j < |tokens| ==> tokens[i].token != tokens[j].token
  }

  /** Moves every entry between two parties, in order. */
  function MoveEntries(b: Bank, tokens: seq<TokenEntry>, from: Address, to: Address): Option<Bank> {
    if tokens == [] then Some(b)
    else
      var before := MoveEntries(b, tokens[..|tokens| - 1], from, to);
      var last := tokens[|tokens| - 1];
      if before.None? then None else Transfer(before.value, last.token, from, to, last.amount)
  }

  function CreateBundle(s: State, customer: Address, merchant: Address, tokens: seq<TokenEntry>, releaseTimestamp: nat)
    : (State, Result<nat>)
  {
    if customer == SELF then (s, Err(Unauthorized))
    else if |tokens| == 0 || |tokens| > 10 || !DistinctTokens(tokens) then (s, Err(InvalidStatus))
    else
      var bank := MoveEntries(s.bank, tokens, customer, SELF);
      if bank.None? then (s, Err(TransferFailed))
      else
        var id := s.bundleCounter + 1;
        (s.(bank := bank.value,
            bundles := s.bundles[id := Bundle(customer, merchant, tokens, Locked, s.now, releaseTimestamp)],
            bundleCounter := id), Ok(id))
  }

  /** The check made before anything moves. */
  predicate Covered(b: Bank, tokens: seq<TokenEntry>) {
    forall i :: 0 <= i < |tokens| ==> tokens[i].amount <= Balance(b, tokens[i].token, SELF)
  }

  function ReleaseBundle(s: State, id: nat): (State, Result<()>) {
    if id !in s.bundles then (s, Err(NotFound))
    else
      var e := s.bundles[id];
      if !e.status.Locked? then (s, Err(InvalidStatus))
      else if s.now < e.releaseTimestamp then (s, Err(ReleaseNotYetAvailable))
      else if !Covered(s.bank, e.tokens) then (s, Err(InvalidStatus))
      else
        var bank := MoveEntries(s.bank, e.tokens, SELF, e.merchant);
        if bank.None? then (s, Err(InvalidStatus))
        else (s.(bank := bank.value, bundles := s.bundles[id := e.(status := Released)]), Ok(()))
  }

  // ----- Everybody else -----

  /** A token transfer that the contract has no part in, except perhaps as the recipient. */
  function OutsideTransfer(s: State, token: Address, from: Address, to: Address, amount: int): State {
    var bank := Transfer(s.bank, token, from, to, amount);
    if from == SELF || bank.None? then s else s.(bank := bank.value)
  }

  /** A payment the contract makes from the same account for anything but its pooled escrows: the
      settlement of a single escrow, whose creation brought nothing in, a milestone, collateral. */
  function PayOut(s: State, token: Address, to: Address, amount: int): (State, bool) {
    var bank := Transfer(s.bank, token, SELF, to, amount);
    if bank.None? then (s, false) else (s.(bank := bank.value), true)
  }
}
