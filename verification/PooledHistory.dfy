/** What a run of calls on a multi-party escrow comes to: its votes, approvals, weights and threshold are
    what the successful calls of the run made them, and they decide about release and dispute. */
module PooledHistory {
  import opened Common
  import opened PooledEscrow
  import opened PooledMoney
  import opened PooledLaws
  import opened PooledEffects
  import PooledWeights

  // ----- Votes -----

  /** The run holds a successful vote of this address for this side. */
  predicate VotedIn(s: State, ops: seq<Op>, voter: Address, id: nat, forMerchant: bool)
    decreases |ops|
  {
    && ops != []
    && ((ops[0] == Voting(voter, id, forMerchant) && Vote(s, voter, id, forMerchant).1.Ok?)
        || VotedIn(Step(s, ops[0]), ops[1..], voter, id, forMerchant))
  }

  lemma VotingEnters(s: State, a: Address, x: nat, side: bool, voter: Address, id: nat, forMerchant: bool)
    ensures voter in VotesFor(Vote(s, a, x, side).0, id, forMerchant) <==>
            voter in VotesFor(s, id, forMerchant)
            || (a == voter && x == id && side == forMerchant && Vote(s, voter, id, forMerchant).1.Ok?)
  {
    hide Vote, Participates;
    VoteCounts(s, a, x, side);
    var s' := Vote(s, a, x, side).0;
    if x != id {
      OtherVotes(s, s', x, id, forMerchant);
    } else {
      hide VotesFor;
      assert forMerchant == side || forMerchant == !side;
    }
  }

  lemma OtherVotes(s: State, s': State, x: nat, id: nat, forMerchant: bool)
    requires x != id && (s' == s || (x in s'.disputes && s'.disputes == s.disputes[x := s'.disputes[x]]))
    ensures VotesFor(s', id, forMerchant) == VotesFor(s, id, forMerchant)
  {}

  lemma OtherStepsKeepVotes(s: State, op: Op)
    requires !op.Voting? && !op.DisputingParty? && !op.ResolvingParty?
    ensures Step(s, op).disputes == s.disputes
  {
    hide PayShares, MoveEntries, Transfer, ApprovedWeight, ThresholdOf, SeedWeights, NewParty, Participates, ShareSum, WeightSum,
      DistinctAddresses, DistinctTokens, Covered, IndexOf, WeightOf, Reweighted, PooledEscrow.Approving, PaidOut;
  }

  lemma OpeningHasNoVotes(s: State, caller: Address, id: nat, x: nat, forMerchant: bool)
    requires Inv(s)
    ensures VotesFor(DisputeParty(s, caller, id).0, x, forMerchant) == VotesFor(s, x, forMerchant)
  {
    assert DisputeSound(s, id);
    hide Inv, VotesSound, Participates;
  }

  lemma ResolvingKeepsVotes(s: State, id: nat, x: nat, forMerchant: bool)
    ensures VotesFor(ResolveParty(s, id).0, x, forMerchant) == VotesFor(s, x, forMerchant)
  {
    hide PayShares, PayRefund, PaidOut, Verdict;
  }

  lemma VotesInStep(s: State, op: Op, voter: Address, id: nat, forMerchant: bool)
    requires Inv(s)
    ensures voter in VotesFor(Step(s, op), id, forMerchant) <==>
            voter in VotesFor(s, id, forMerchant) || (op == Voting(voter, id, forMerchant) && Vote(s, voter, id, forMerchant).1.Ok?)
  {
    hide Inv, Vote, VotesFor, CreateParty, Approve, ReleaseParty, SetWeight, UpdateThreshold, DisputeParty, ResolveParty, CreateBundle,
      ReleaseBundle, OutsideTransfer, PayOut;
    match op {
      case Voting(a, x, side) => VotingEnters(s, a, x, side, voter, id, forMerchant);
      case DisputingParty(caller, x) => OpeningHasNoVotes(s, caller, x, id, forMerchant);
      case ResolvingParty(x) => ResolvingKeepsVotes(s, x, id, forMerchant);
      case _ =>
        OtherStepsKeepVotes(s, op);
        SameVotes(s, Step(s, op), id, forMerchant);
    }
  }

  lemma SameVotes(s: State, s': State, id: nat, forMerchant: bool)
    requires s'.disputes == s.disputes
    ensures VotesFor(s', id, forMerchant) == VotesFor(s, id, forMerchant)
  {}

  lemma {:induction false} VotesInRun(s: State, ops: seq<Op>, voter: Address, id: nat, forMerchant: bool)
    requires Inv(s)
    ensures voter in VotesFor(Run(s, ops), id, forMerchant) <==>
            voter in VotesFor(s, id, forMerchant) || VotedIn(s, ops, voter, id, forMerchant)
    decreases |ops|
  {
    hide Inv, Step, Vote, VotesFor;
    if ops != [] {
      StepKeeps(s, ops[0]);
      VotesInStep(s, ops[0], voter, id, forMerchant);
      VotesInRun(Step(s, ops[0]), ops[1..], voter, id, forMerchant);
    }
  }

  /** Which participants have voted so in the run, by position. */
  function VotersOf(s: State, ops: seq<Op>, ps: seq<Participant>, id: nat, forMerchant: bool): set<nat> {
    set i: nat | i < |ps| && VotedIn(s, ops, ps[i].address, id, forMerchant)
  }

  lemma {:induction false} CountVoters(votes: seq<Address>, ps: seq<Participant>)
    requires Distinct(votes) && DistinctAddresses(ps) && forall a :: a in votes ==> Participates(ps, a)
    ensures |set i: nat | i < |ps| && ps[i].address in votes| == |votes|
  {
    if votes != [] {
      var n := |votes| - 1;
      assert votes == votes[..n] + [votes[n]];
      assert votes[n] in votes;
      var k: nat :| k < |ps| && ps[k].address == votes[n];
      forall a | a in votes[..n] ensures Participates(ps, a) {
        assert a in votes;
      }
      CountVoters(votes[..n], ps);
      OneMoreVoter(votes, ps, k);
    }
  }

  lemma OneMoreVoter(votes: seq<Address>, ps: seq<Participant>, k: nat)
    requires Distinct(votes) && DistinctAddresses(ps) && votes != [] && k < |ps| && ps[k].address == votes[|votes| - 1]
    ensures |set i: nat | i < |ps| && ps[i].address in votes| == |set i: nat | i < |ps| && ps[i].address in votes[..|votes| - 1]| + 1
  {
    var before := votes[..|votes| - 1];
    assert votes == before + [ps[k].address];
    assert ps[k].address !in before;
    var all, old' := set i: nat | i < |ps| && ps[i].address in votes, set i: nat | i < |ps| && ps[i].address in before;
    hide Distinct;
    forall i: nat ensures i in all <==> i in old' + {k} {
      if i < |ps| && i != k {
        assert ps[i].address != ps[k].address;
      }
    }
    assert all == old' + {k};
  }

  /** The recorded votes are the successful calls: an address stands on a side exactly when the run
      holds its successful vote for that side, and a side has as many votes as participants voted so. */
  lemma VotesAreCast(bank: Bank, ops: seq<Op>, id: nat, voter: Address, forMerchant: bool)
    requires id in Run(Initial(bank), ops).disputes
    ensures var s := Run(Initial(bank), ops);
            && id in s.parties
            && (voter in VotesFor(s, id, forMerchant) <==> VotedIn(Initial(bank), ops, voter, id, forMerchant))
            && |VotesFor(s, id, forMerchant)| == |VotersOf(Initial(bank), ops, s.parties[id].participants, id, forMerchant)|
  {
    hide Run, VotedIn, Inv;
    InitialInv(bank);
    RunKeeps(Initial(bank), ops);
    var s := Run(Initial(bank), ops);
    DisputeHasParty(s, id);
    Recorded(s, id);
    var ps, votes := s.parties[id].participants, VotesFor(s, id, forMerchant);
    forall a ensures a in votes <==> VotedIn(Initial(bank), ops, a, id, forMerchant) {
      VotesInRun(Initial(bank), ops, a, id, forMerchant);
    }
    SideSound(s.disputes[id], ps);
    CountVoters(votes, ps);
    assert (set i: nat | i < |ps| && ps[i].address in votes) == VotersOf(Initial(bank), ops, ps, id, forMerchant);
  }

  lemma DisputeHasParty(s: State, id: nat)
    requires Inv(s) && id in s.disputes
    ensures id in s.parties
  {
    assert DisputeSound(s, id);
  }

  lemma SideSound(d: PartyDispute, ps: seq<Participant>)
    requires VotesSound(d, ps)
    ensures Distinct(d.votesForMerchant) && Distinct(d.votesForCustomer)
    ensures forall a :: a in d.votesForMerchant || a in d.votesForCustomer ==> Participates(ps, a)
  {
    var m, c := d.votesForMerchant, d.votesForCustomer;
    hide Participates;
    forall i, j | 0 <= i < j < |m| ensures m[i] != m[j] { assert (m + c)[i] == m[i] && (m + c)[j] == m[j]; }
    forall i, j | 0 <= i < j < |c| ensures c[i] != c[j] { assert (m + c)[|m| + i] == c[i] && (m + c)[|m| + j] == c[j]; }
    forall a | a in m || a in c ensures Participates(ps, a) { assert a in m + c; }
  }

  /** A dispute goes to the merchant if and only if more than half of the participants have voted so, and
      to the customer exactly when more than half have voted that way or, without a majority for the merchant, its deadline is
      over; the money follows. */
  lemma MajorityDecides(bank: Bank, ops: seq<Op>, id: nat)
    requires var s := Run(Initial(bank), ops); ResolveParty(s, id).1.Ok?
    ensures var s := Run(Initial(bank), ops);
            var s' := ResolveParty(s, id).0;
            && id in s.parties && id in s.disputes && id in s'.parties
            && var e, e' := s.parties[id], s'.parties[id];
            var forMerchant, forCustomer :=
              |VotersOf(Initial(bank), ops, e.participants, id, true)|, |VotersOf(Initial(bank), ops, e.participants, id, false)|;
            && (e' == e.(status := Released) <==> Majority(forMerchant, |e.participants|))
            && (e' == e.(status := Resolved) <==> Majority(forCustomer, |e.participants|)
                                                  || (!Majority(forMerchant, |e.participants|) && s.disputes[id].deadline < s.now))
            && (e'.status.Released? ==> PaidByShare(s.bank, s'.bank, e))
            && (e'.status.Resolved? ==> PaidBack(s.bank, s'.bank, e))
  {
    hide Run, ResolveParty, Inv, VotersOf, PaidByShare, PaidBack;
    InitialInv(bank);
    RunKeeps(Initial(bank), ops);
    var s := Run(Initial(bank), ops);
    ResolutionPays(s, id);
    VotesAreCast(bank, ops, id, SELF, true);
    VotesAreCast(bank, ops, id, SELF, false);
    OneQuorumAtMost(bank, ops, id);
    Recorded(s, id);
  }

  // ----- Approvals -----

  function ApprovalsOf(s: State, id: nat): seq<Address> {
    if id in s.parties then s.parties[id].approvals else []
  }

  /** The run holds a successful approval of this address. */
  predicate ApprovedIn(s: State, ops: seq<Op>, a: Address, id: nat)
    decreases |ops|
  {
    && ops != []
    && ((ops[0] == PooledLaws.Approving(a, id) && Approve(s, a, id).1.Ok?) || ApprovedIn(Step(s, ops[0]), ops[1..], a, id))
  }

  lemma NewPartyUnapproved(s: State, op: Op, id: nat)
    requires Inv(s) && op.CreatingParty?
    ensures ApprovalsOf(Step(s, op), id) == ApprovalsOf(s, id)
  {
    assert s.partyCounter + 1 !in s.parties;
    hide Inv, Transfer, SeedWeights, FreshParticipants, ShareSum, WeightSum, DistinctAddresses;
  }

  lemma ApprovingEnters(s: State, caller: Address, x: nat, a: Address, id: nat)
    requires Inv(s)
    ensures a in ApprovalsOf(Approve(s, caller, x).0, id) <==>
            a in ApprovalsOf(s, id) || (caller == a && x == id && Approve(s, a, id).1.Ok?)
  {
    hide Inv, Approve;
    ApprovalMarks(s, caller, x);
    hide WeightOf;
  }

  lemma OthersKeepApprovals(s: State, op: Op, id: nat)
    requires !op.CreatingParty? && !op.Approving?
    ensures ApprovalsOf(Step(s, op), id) == ApprovalsOf(s, id)
  {
    hide PayShares, PayRefund, MoveEntries, Transfer, ApprovedWeight, ThresholdOf, Participates, Covered, Reweighted, WeightSum, PaidOut,
      Verdict, DistinctTokens;
  }

  lemma ApprovalsInStep(s: State, op: Op, a: Address, id: nat)
    requires Inv(s)
    ensures a in ApprovalsOf(Step(s, op), id) <==>
            a in ApprovalsOf(s, id) || (op == PooledLaws.Approving(a, id) && Approve(s, a, id).1.Ok?)
  {
    hide Inv, Approve, ApprovalsOf, CreateParty, ReleaseParty, SetWeight, UpdateThreshold, DisputeParty, Vote, ResolveParty, CreateBundle,
      ReleaseBundle, OutsideTransfer, PayOut;
    match op {
      case CreatingParty(_, _, _, _, _) => NewPartyUnapproved(s, op, id);
      case Approving(caller, x) => ApprovingEnters(s, caller, x, a, id);
      case _ => OthersKeepApprovals(s, op, id);
    }
  }

  lemma {:induction false} ApprovalsInRun(s: State, ops: seq<Op>, a: Address, id: nat)
    requires Inv(s)
    ensures a in ApprovalsOf(Run(s, ops), id) <==> a in ApprovalsOf(s, id) || ApprovedIn(s, ops, a, id)
    decreases |ops|
  {
    hide Inv, Step, Approve, ApprovalsOf;
    if ops != [] {
      StepKeeps(s, ops[0]);
      ApprovalsInStep(s, ops[0], a, id);
      ApprovalsInRun(Step(s, ops[0]), ops[1..], a, id);
    }
  }

  // ----- Weights and thresholds -----

  /** The share of the participant with this address. */
  function ShareIn(ps: seq<Participant>, a: Address): Option<nat> {
    var i := IndexOf(ps, a);
    if i.None? then None else Some(ps[i.value].shareBps)
  }

  function StoredWeight(s: State, id: nat, a: Address): Option<nat> {
    if (id, a) in s.voteWeight then Some(s.voteWeight[(id, a)]) else None
  }

  /** The weight of an address after a run: its share from the creation on, until an admin sets another. */
  function WeightInRun(s: State, ops: seq<Op>, id: nat, a: Address, weight: Option<nat>): Option<nat>
    decreases |ops|
  {
    if ops == [] then weight
    else
      var next := match ops[0]
        case CreatingParty(c, ps, total, token, t) =>
          if CreateParty(s, c, ps, total, token, t).1 == Ok(id) && ShareIn(ps, a).Some? then ShareIn(ps, a) else weight
        case SettingWeight(x, b, w) => if x == id && b == a && SetWeight(s, id, a, w).1.Ok? then Some(w) else weight
        case _ => weight;
      WeightInRun(Step(s, ops[0]), ops[1..], id, a, next)
  }

  /** The threshold after a run: the whole from the creation on, until an admin sets another. */
  function ThresholdInRun(s: State, ops: seq<Op>, id: nat, threshold: nat): nat
    decreases |ops|
  {
    if ops == [] then threshold
    else
      var next := match ops[0]
        case CreatingParty(c, ps, total, token, t) => if CreateParty(s, c, ps, total, token, t).1 == Ok(id) then 10000 else threshold
        case UpdatingThreshold(x, bps) => if x == id && UpdateThreshold(s, id, bps).1.Ok? then bps else threshold
        case _ => threshold;
      ThresholdInRun(Step(s, ops[0]), ops[1..], id, next)
  }

  lemma SeedIs(w: map<(nat, Address), nat>, id: nat, ps: seq<Participant>, x: nat, a: Address)
    requires DistinctAddresses(ps)
    ensures var w' := SeedWeights(w, id, ps);
            if x == id && ShareIn(ps, a).Some? then (x, a) in w' && w'[(x, a)] == ShareIn(ps, a).value
            else ((x, a) in w' <==> (x, a) in w) && ((x, a) in w ==> w'[(x, a)] == w[(x, a)])
  {
    var i := IndexOf(ps, a);
    hide SeedWeights, IndexOf, DistinctAddresses;
    if x == id && i.Some? {
      PooledWeights.Seeded(w, id, ps, i.value);
    } else {
      PooledWeights.SeedElsewhere(w, id, ps, x, a);
    }
  }

  lemma CreationWeighs(s: State, c: Address, ps: seq<Participant>, total: int, token: Address, t: nat, id: nat, a: Address)
    ensures var (s', r) := CreateParty(s, c, ps, total, token, t);
            StoredWeight(s', id, a) == if r == Ok(id) && ShareIn(ps, a).Some? then ShareIn(ps, a) else StoredWeight(s, id, a)
    ensures var (s', r) := CreateParty(s, c, ps, total, token, t);
            r == Ok(id) ==> id in s'.threshold && s'.threshold[id] == 10000
    ensures var (s', r) := CreateParty(s, c, ps, total, token, t);
            r != Ok(id) ==> (id in s'.threshold <==> id in s.threshold) && (id in s.threshold ==> s'.threshold[id] == s.threshold[id])
  {
    var r := CreateParty(s, c, ps, total, token, t).1;
    if r.Ok? {
      SeedIs(s.voteWeight, r.value, ps, id, a);
    }
    hide ShareIn, SeedWeights, NewParty, Transfer, ShareSum, WeightSum, DistinctAddresses;
  }

  lemma OthersKeepWeights(s: State, op: Op)
    requires !op.CreatingParty? && !op.SettingWeight? && !op.UpdatingThreshold?
    ensures Step(s, op).voteWeight == s.voteWeight && Step(s, op).threshold == s.threshold
  {
    hide PayShares, PayRefund, MoveEntries, Transfer, ApprovedWeight, ThresholdOf, Participates, Covered, PaidOut, Verdict, DistinctTokens,
      IndexOf, WeightOf, PooledEscrow.Approving;
  }

  /** The threshold stored for an escrow; before its creation there is none. */
  function StoredThreshold(s: State, id: nat): nat {
    if id in s.threshold then s.threshold[id] else 0
  }

  lemma {:induction false} WeightsInRun(s: State, ops: seq<Op>, id: nat, a: Address)
    ensures StoredWeight(Run(s, ops), id, a) == WeightInRun(s, ops, id, a, StoredWeight(s, id, a))
    ensures StoredThreshold(Run(s, ops), id) == ThresholdInRun(s, ops, id, StoredThreshold(s, id))
    decreases |ops|
  {
    hide CreateParty, SetWeight, UpdateThreshold, Approve, ReleaseParty, DisputeParty, Vote, ResolveParty, CreateBundle, ReleaseBundle,
      OutsideTransfer, PayOut, StoredWeight, StoredThreshold, ShareIn;
    if ops != [] {
      WeightsInStep(s, ops[0], id, a);
      WeightsInRun(Step(s, ops[0]), ops[1..], id, a);
    }
  }

  lemma SettingWeighs(s: State, x: nat, b: Address, w: nat, id: nat, a: Address)
    ensures StoredWeight(SetWeight(s, x, b, w).0, id, a) ==
            if x == id && b == a && SetWeight(s, id, a, w).1.Ok? then Some(w) else StoredWeight(s, id, a)
    ensures SetWeight(s, x, b, w).0.threshold == s.threshold
  {
    hide Reweighted, WeightSum, Participates;
  }

  lemma UpdatingSets(s: State, x: nat, bps: nat, id: nat, a: Address)
    ensures StoredThreshold(UpdateThreshold(s, x, bps).0, id) ==
            if x == id && UpdateThreshold(s, id, bps).1.Ok? then bps else StoredThreshold(s, id)
    ensures UpdateThreshold(s, x, bps).0.voteWeight == s.voteWeight
  {}

  lemma WeightsInStep(s: State, op: Op, id: nat, a: Address)
    ensures StoredWeight(Step(s, op), id, a) ==
            match op
            case CreatingParty(c, ps, total, token, t) =>
              if CreateParty(s, c, ps, total, token, t).1 == Ok(id) && ShareIn(ps, a).Some? then ShareIn(ps, a) else StoredWeight(s, id, a)
            case SettingWeight(x, b, w) => if x == id && b == a && SetWeight(s, id, a, w).1.Ok? then Some(w) else StoredWeight(s, id, a)
            case _ => StoredWeight(s, id, a)
    ensures StoredThreshold(Step(s, op), id) ==
            match op
            case CreatingParty(c, ps, total, token, t) =>
              if CreateParty(s, c, ps, total, token, t).1 == Ok(id) then 10000 else StoredThreshold(s, id)
            case UpdatingThreshold(x, bps) => if x == id && UpdateThreshold(s, id, bps).1.Ok? then bps else StoredThreshold(s, id)
            case _ => StoredThreshold(s, id)
  {
    match op {
      case CreatingParty(c, ps, total, token, t) =>
        hide CreateParty, ShareIn;
        CreationWeighs(s, c, ps, total, token, t, id, a);
      case SettingWeight(x, b, w) =>
        hide SetWeight;
        SettingWeighs(s, x, b, w, id, a);
      case UpdatingThreshold(x, bps) =>
        hide UpdateThreshold;
        UpdatingSets(s, x, bps, id, a);
      case _ =>
        hide Step;
        OthersKeepWeights(s, op);
    }
  }

  /** Every participant of every escrow has a stored weight. */
  ghost predicate Weighted(s: State, id: nat) {
    id in s.parties ==>
      forall i :: 0 <= i < |s.parties[id].participants| ==> (id, s.parties[id].participants[i].address) in s.voteWeight
  }

  lemma WeightedStep(s: State, op: Op, id: nat)
    requires Inv(s) && Weighted(s, id)
    ensures Weighted(Step(s, op), id)
  {
    hide Inv, CreateParty, SetWeight, UpdateThreshold, Approve;
    match op {
      case CreatingParty(c, ps, total, token, t) => WeightedCreation(s, c, ps, total, token, t, id);
      case SettingWeight(x, b, w) => WeightedSetting(s, x, b, w, id);
      case UpdatingThreshold(x, bps) => WeightedUpdating(s, x, bps, id);
      case Approving(caller, x) => WeightedApproving(s, caller, x, id);
      case _ =>
        hide Step;
        OthersKeepWeights(s, op);
        OthersKeepParticipants(s, op, id);
    }
  }

  lemma WeightedSetting(s: State, x: nat, b: Address, w: nat, id: nat)
    requires Weighted(s, id)
    ensures Weighted(SetWeight(s, x, b, w).0, id)
  {
    hide WeightSum, Participates;
  }

  lemma WeightedUpdating(s: State, x: nat, bps: nat, id: nat)
    requires Weighted(s, id)
    ensures Weighted(UpdateThreshold(s, x, bps).0, id)
  {}

  lemma WeightedApproving(s: State, caller: Address, x: nat, id: nat)
    requires Weighted(s, id)
    ensures Weighted(Approve(s, caller, x).0, id)
  {
    hide IndexOf, WeightOf;
  }

  lemma OthersKeepParticipants(s: State, op: Op, id: nat)
    requires !op.CreatingParty? && !op.SettingWeight? && !op.Approving?
    ensures id in Step(s, op).parties ==> id in s.parties && Step(s, op).parties[id].participants == s.parties[id].participants
  {
    hide PayShares, PayRefund, MoveEntries, Transfer, ApprovedWeight, ThresholdOf, Participates, Covered, PaidOut, Verdict, DistinctTokens;
  }

  lemma WeightedCreation(s: State, c: Address, ps: seq<Participant>, total: int, token: Address, t: nat, id: nat)
    requires Inv(s) && Weighted(s, id)
    ensures Weighted(CreateParty(s, c, ps, total, token, t).0, id)
  {
    CreationPulls(s, c, ps, total, token, t);
    var (s', r) := CreateParty(s, c, ps, total, token, t);
    if id in s.parties {
      var qs := s.parties[id].participants;
      forall i | 0 <= i < |qs| ensures (id, qs[i].address) in s'.voteWeight {
        CreationWeighs(s, c, ps, total, token, t, id, qs[i].address);
      }
    }
    hide CreateParty, Inv, Moved;
  }

  lemma {:induction false} WeightedRun(s: State, ops: seq<Op>, id: nat)
    requires Inv(s) && Weighted(s, id)
    ensures Weighted(Run(s, ops), id)
    decreases |ops|
  {
    hide Inv, Step, Weighted;
    if ops != [] {
      StepKeeps(s, ops[0]);
      WeightedStep(s, ops[0], id);
      WeightedRun(Step(s, ops[0]), ops[1..], id);
    }
  }

  // ----- What backs a release -----

  /** The weights, as the run has set them, of the participants whose approval the run holds. */
  function Backing(s: State, ops: seq<Op>, id: nat, ps: seq<Participant>): nat {
    if ps == [] then 0
    else
      var a := ps[|ps| - 1].address;
      var w := WeightInRun(s, ops, id, a, None);
      Backing(s, ops, id, ps[..|ps| - 1]) + if ApprovedIn(s, ops, a, id) && w.Some? then w.value else 0
  }

  lemma {:induction false} BackingIsWeight(s: State, ops: seq<Op>, id: nat, ps: seq<Participant>, w: map<(nat, Address), nat>)
    requires forall i :: 0 <= i < |ps| ==> (ps[i].approved <==> ApprovedIn(s, ops, ps[i].address, id))
    requires forall i :: 0 <= i < |ps| ==> (id, ps[i].address) in w && WeightInRun(s, ops, id, ps[i].address, None) == Some(w[(id, ps[i].address)])
    ensures Backing(s, ops, id, ps) == ApprovedWeight(w, id, ps)
  {
    hide ApprovedIn, WeightInRun;
    if ps != [] {
      BackingIsWeight(s, ops, id, ps[..|ps| - 1], w);
    }
  }

  /** A multi-party escrow of any run is released exactly when it is locked, its time has come, the
      participants whose approvals the run holds have, by the weights last given to them, what the
      threshold last given to it asks for, and the contract can make the payments. */
  lemma ReleaseIsBacked(bank: Bank, ops: seq<Op>, id: nat)
    requires id in Run(Initial(bank), ops).parties
    ensures var s := Run(Initial(bank), ops);
            var e := s.parties[id];
            ReleaseParty(s, id).1.Ok? <==>
            && e.status.Locked? && e.releaseTimestamp <= s.now
            && Backing(Initial(bank), ops, id, e.participants) >= ThresholdInRun(Initial(bank), ops, id, 0)
            && Needed(e.participants, e.total) <= Balance(s.bank, e.token, SELF)
  {
    hide Run, Inv, ApprovedIn, WeightInRun, ThresholdInRun, Backing, ApprovedWeight, ReleaseParty, Needed, Weighted, PaidByShare;
    var s0, s := Initial(bank), Run(Initial(bank), ops);
    InitialInv(bank);
    RunKeeps(s0, ops);
    NothingWeighted(bank, id);
    WeightedRun(s0, ops, id);
    var ps := s.parties[id].participants;
    MatchedApprovals(s, id);
    forall i | 0 <= i < |ps|
      ensures ps[i].approved <==> ApprovedIn(s0, ops, ps[i].address, id)
      ensures (id, ps[i].address) in s.voteWeight
      ensures WeightInRun(s0, ops, id, ps[i].address, None) == Some(s.voteWeight[(id, ps[i].address)])
    {
      ApprovalsInRun(s0, ops, ps[i].address, id);
      WeightsInRun(s0, ops, id, ps[i].address);
      StoredOf(s, id, i);
    }
    BackingIsWeight(s0, ops, id, ps, s.voteWeight);
    WeightsInRun(s0, ops, id, SELF);
    ReleasePaysShares(s, id);
  }

  lemma NothingWeighted(bank: Bank, id: nat)
    ensures Weighted(Initial(bank), id)
  {}

  lemma StoredOf(s: State, id: nat, i: nat)
    requires Weighted(s, id) && id in s.parties && i < |s.parties[id].participants|
    ensures (id, s.parties[id].participants[i].address) in s.voteWeight
  {}

  lemma MatchedApprovals(s: State, id: nat)
    requires Inv(s) && id in s.parties
    ensures var e := s.parties[id];
            forall i :: 0 <= i < |e.participants| ==> (e.participants[i].approved <==> e.participants[i].address in ApprovalsOf(s, id))
    ensures id in s.threshold && ThresholdOf(s, id) == StoredThreshold(s, id)
  {
    assert PartySound(s.parties[id]);
  }
}
