/** Whose weight counts toward the release of a multi-party escrow, and what becomes of the weights
    over a run. */
module PooledWeights {
  import opened Common
  import opened PooledEscrow
  import opened PooledLaws

  // ----- The weight of a list of voters -----

  function VoterWeight(w: map<(nat, Address), nat>, id: nat, ps: seq<Participant>, a: Address): nat {
    var i := IndexOf(ps, a);
    if i.None? then 0 else WeightOf(w, id, ps[i.value])
  }

  function BallotWeight(w: map<(nat, Address), nat>, id: nat, ps: seq<Participant>, votes: seq<Address>): nat {
    if votes == [] then 0
    else BallotWeight(w, id, ps, votes[..|votes| - 1]) + VoterWeight(w, id, ps, votes[|votes| - 1])
  }

  /** The weight everybody together would have. */
  function FullWeight(w: map<(nat, Address), nat>, id: nat, ps: seq<Participant>): nat {
    if ps == [] then 0 else FullWeight(w, id, ps[..|ps| - 1]) + WeightOf(w, id, ps[|ps| - 1])
  }

  function Withdrawn(ps: seq<Participant>, i: nat): seq<Participant>
    requires i < |ps|
  {
    ps[i := ps[i].(approved := false)]
  }

  lemma {:induction false} WithdrawnWeight(w: map<(nat, Address), nat>, id: nat, ps: seq<Participant>, i: nat)
    requires i < |ps| && ps[i].approved
    ensures ApprovedWeight(w, id, ps) == ApprovedWeight(w, id, Withdrawn(ps, i)) + WeightOf(w, id, ps[i])
  {
    var n := |ps| - 1;
    if i == n {
      assert Withdrawn(ps, i)[..n] == ps[..n];
    } else {
      WithdrawnWeight(w, id, ps[..n], i);
      assert Withdrawn(ps, i)[..n] == Withdrawn(ps[..n], i);
    }
  }

  lemma {:induction false} WithdrawnIndex(ps: seq<Participant>, i: nat, a: Address)
    requires i < |ps|
    ensures IndexOf(Withdrawn(ps, i), a) == IndexOf(ps, a)
  {
    var n := |ps| - 1;
    if i < n {
      WithdrawnIndex(ps[..n], i, a);
      assert Withdrawn(ps, i)[..n] == Withdrawn(ps[..n], i);
    } else {
      assert Withdrawn(ps, i)[..n] == ps[..n];
    }
  }

  lemma {:induction false} WithdrawnBallot(w: map<(nat, Address), nat>, id: nat, ps: seq<Participant>, i: nat, votes: seq<Address>)
    requires i < |ps|
    ensures BallotWeight(w, id, Withdrawn(ps, i), votes) == BallotWeight(w, id, ps, votes)
  {
    if votes != [] {
      WithdrawnBallot(w, id, ps, i, votes[..|votes| - 1]);
      WithdrawnIndex(ps, i, votes[|votes| - 1]);
    }
  }

  lemma {:induction false} NoApprovedWeight(w: map<(nat, Address), nat>, id: nat, ps: seq<Participant>)
    requires NoneApproved(ps)
    ensures ApprovedWeight(w, id, ps) == 0
  {
    if ps != [] {
      NoApprovedWeight(w, id, ps[..|ps| - 1]);
    }
  }

  /** The approved participants are the voters of this list, each of them once. */
  ghost predicate ApprovedAre(ps: seq<Participant>, votes: seq<Address>) {
    && Distinct(votes)
    && (forall i :: 0 <= i < |ps| ==> (ps[i].approved <==> ps[i].address in votes))
    && (forall a :: a in votes ==> Participates(ps, a))
  }

  lemma WithdrawnAre(ps: seq<Participant>, votes: seq<Address>, i: nat)
    requires ApprovedAre(ps, votes) && DistinctAddresses(ps) && votes != [] && i < |ps| && ps[i].address == votes[|votes| - 1]
    ensures ApprovedAre(Withdrawn(ps, i), votes[..|votes| - 1]) && DistinctAddresses(Withdrawn(ps, i))
  {
    var n := |votes| - 1;
    var ps' := Withdrawn(ps, i);
    forall j | 0 <= j < |ps'| ensures ps'[j].approved <==> ps'[j].address in votes[..n] {
      assert j != i ==> ps[j].address != ps[i].address;
      assert votes == votes[..n] + [votes[n]];
    }
    forall a | a in votes[..n] ensures Participates(ps', a) {
      assert a in votes;
      var j :| 0 <= j < |ps| && ps[j].address == a;
      assert ps'[j].address == a;
    }
  }

  /** The loop over the participants and the list of approvals count the same weight, each
      approver once. */
  lemma {:induction false} ApprovedIsBallot(w: map<(nat, Address), nat>, id: nat, ps: seq<Participant>, votes: seq<Address>)
    requires ApprovedAre(ps, votes) && DistinctAddresses(ps)
    ensures ApprovedWeight(w, id, ps) == BallotWeight(w, id, ps, votes)
    decreases |votes|
  {
    if votes == [] {
      NoApprovedWeight(w, id, ps);
    } else {
      var n := |votes| - 1;
      var i := IndexOf(ps, votes[n]).value;
      assert Participates(ps, votes[n]) by { assert votes[n] in votes; }
      assert ps[i].approved by { assert ps[i].address == votes[n]; assert votes[n] in votes; }
      WithdrawnAre(ps, votes, i);
      WithdrawnWeight(w, id, ps, i);
      ApprovedIsBallot(w, id, Withdrawn(ps, i), votes[..n]);
      WithdrawnBallot(w, id, ps, i, votes[..n]);
    }
  }

  /** In every reachable storage the approvals are distinct participants and a release gets past
      the check of weights exactly when theirs, counted once each, reach the threshold. */
  lemma ReleaseNeedsDistinctApprovers(bank: Bank, ops: seq<Op>, id: nat)
    requires var s := Run(Initial(bank), ops); id in s.parties && s.parties[id].status.Locked?
    ensures var s := Run(Initial(bank), ops);
            var e := s.parties[id];
            && Distinct(e.approvals) && (forall a :: a in e.approvals ==> Participates(e.participants, a))
            && (ReleaseParty(s, id).1 == Err(ApprovalsThresholdNotMet)
                <==> BallotWeight(s.voteWeight, id, e.participants, e.approvals) < ThresholdOf(s, id))
            && (ReleaseParty(s, id).1.Ok? ==>
                  BallotWeight(s.voteWeight, id, e.participants, e.approvals) >= ThresholdOf(s, id) >= 1)
  {
    InitialInv(bank);
    RunKeeps(Initial(bank), ops);
    var s := Run(Initial(bank), ops);
    var e := s.parties[id];
    assert PartySound(e);
    ApprovedIsBallot(s.voteWeight, id, e.participants, e.approvals);
  }

  // ----- Setting a weight -----

  lemma {:induction false} ReweightedAbsent(ps: seq<Participant>, a: Address, weight: nat)
    requires !Participates(ps, a)
    ensures Reweighted(ps, a, weight) == ps
  {
    forall i | 0 <= i < |ps| ensures Reweighted(ps, a, weight)[i] == ps[i] {
      assert ps[i].address != a;
    }
  }

  lemma {:induction false} ReweightedSum(ps: seq<Participant>, i: nat, weight: nat)
    requires DistinctAddresses(ps) && i < |ps|
    ensures WeightSum(Reweighted(ps, ps[i].address, weight)) == WeightSum(ps) - ps[i].weightBps + weight
  {
    var n := |ps| - 1;
    var a := ps[i].address;
    assert Reweighted(ps, a, weight)[..n] == Reweighted(ps[..n], a, weight);
    if i == n {
      ReweightedAbsent(ps[..n], a, weight);
    } else {
      ReweightedSum(ps[..n], i, weight);
    }
  }

  /** Because the recorded weights must still sum to the whole and nobody may have approved, a
      weight can only be set to the value it is recorded with: the records stay as they are and
      the counting weight becomes the recorded one. */
  lemma SetWeightOnlyConfirms(s: State, id: nat, a: Address, weight: nat)
    requires Inv(s) && SetWeight(s, id, a, weight).1.Ok?
    ensures id in s.parties
    ensures exists i :: 0 <= i < |s.parties[id].participants| && s.parties[id].participants[i].address == a
                        && s.parties[id].participants[i].weightBps == weight
    ensures SetWeight(s, id, a, weight).0 == s.(voteWeight := s.voteWeight[(id, a) := weight])
  {
    var e := s.parties[id];
    assert PartySound(e);
    hide Inv, PartySound;
    var ps := e.participants;
    assert NoneApproved(ps) && WeightSum(ps) == 10000 && DistinctAddresses(ps) by { PartyWeights(e); }
    var i :| 0 <= i < |ps| && ps[i].address == a;
    ReweightedSum(ps, i, weight);
    forall j | 0 <= j < |ps| ensures Reweighted(ps, a, weight)[j] == ps[j] {
      assert j != i ==> ps[j].address != ps[i].address;
    }
    assert Reweighted(ps, a, weight) == ps;
    assert s.parties[id := e] == s.parties;
  }

  lemma PartyWeights(e: Party)
    requires PartySound(e)
    ensures DistinctAddresses(e.participants) && ShareSum(e.participants) == 10000
    ensures NoneApproved(e.participants) ==> WeightSum(e.participants) == 10000
  {}

  // ----- Weights equal to shares -----

  /** Recorded weight, counting weight and share agree for every participant. */
  ghost predicate Aligned(w: map<(nat, Address), nat>, id: nat, ps: seq<Participant>) {
    forall i :: 0 <= i < |ps| ==> ps[i].weightBps == ps[i].shareBps == WeightOf(w, id, ps[i])
  }

  lemma {:induction false} SeedElsewhere(w: map<(nat, Address), nat>, id: nat, ps: seq<Participant>, x: nat, a: Address)
    requires x != id || !Participates(ps, a)
    ensures var w' := SeedWeights(w, id, ps);
            ((x, a) in w' <==> (x, a) in w) && ((x, a) in w ==> w'[(x, a)] == w[(x, a)])
  {
    if ps != [] {
      var n := |ps| - 1;
      if Participates(ps[..n], a) {
        var i :| 0 <= i < n && ps[..n][i].address == a;
        assert ps[i].address == a;
      }
      assert ps[n].address == a ==> Participates(ps, a);
      SeedElsewhere(w, id, ps[..n], x, a);
    }
  }

  /** Seeding gives every participant its share as counting weight. */
  lemma {:induction false} Seeded(w: map<(nat, Address), nat>, id: nat, ps: seq<Participant>, i: nat)
    requires DistinctAddresses(ps) && i < |ps|
    ensures (id, ps[i].address) in SeedWeights(w, id, ps) && SeedWeights(w, id, ps)[(id, ps[i].address)] == ps[i].shareBps
  {
    var n := |ps| - 1;
    if i < n {
      Seeded(w, id, ps[..n], i);
      assert ps[i].address != ps[n].address;
    }
  }

  lemma AlignedElsewhere(s: State, op: Op, id: nat)
    requires Inv(s) && id in s.parties && Aligned(s.voteWeight, id, s.parties[id].participants)
    requires op.CreatingParty?
    ensures id in Step(s, op).parties && Aligned(Step(s, op).voteWeight, id, Step(s, op).parties[id].participants)
  {
    assert id != s.partyCounter + 1 && s.partyCounter + 1 !in s.parties;
    hide Inv, SeedWeights, NewParty, Transfer, ShareSum, WeightSum, DistinctAddresses;
    var ps := s.parties[id].participants;
    var w' := SeedWeights(s.voteWeight, s.partyCounter + 1, op.participants);
    forall i | 0 <= i < |ps| ensures WeightOf(w', id, ps[i]) == WeightOf(s.voteWeight, id, ps[i]) {
      SeedElsewhere(s.voteWeight, s.partyCounter + 1, op.participants, id, ps[i].address);
    }
  }

  lemma AlignedSetWeight(s: State, id: nat, x: nat, a: Address, weight: nat)
    requires Inv(s) && id in s.parties && Aligned(s.voteWeight, id, s.parties[id].participants)
    ensures var s' := SetWeight(s, x, a, weight).0;
            id in s'.parties && Aligned(s'.voteWeight, id, s'.parties[id].participants)
  {
    if SetWeight(s, x, a, weight).1.Ok? {
      SetWeightOnlyConfirms(s, x, a, weight);
      assert PartySound(s.parties[id]);
      hide SetWeight, Inv, PartySound;
      PartyWeights(s.parties[id]);
      var ps := s.parties[id].participants;
      var w' := s.voteWeight[(x, a) := weight];
      forall i | 0 <= i < |ps| ensures WeightOf(w', id, ps[i]) == ps[i].weightBps {
        if x == id && ps[i].address == a {
          var j :| 0 <= j < |ps| && ps[j].address == a && ps[j].weightBps == weight;
          assert i == j;
        }
      }
    }
  }

  /** The other entry points touch neither participants nor weights. */
  lemma OthersLeaveWeights(s: State, op: Op, id: nat)
    requires id in s.parties && !op.CreatingParty? && !op.SettingWeight? && !op.Approving?
    ensures id in Step(s, op).parties && Step(s, op).voteWeight == s.voteWeight
    ensures Step(s, op).parties[id].participants == s.parties[id].participants
  {
    hide ReleaseParty, UpdateThreshold, DisputeParty, Vote, ResolveParty;
    match op {
      case ReleasingParty(x) => ReleaseLeavesWeights(s, x, id);
      case ResolvingParty(x) => ResolveLeavesWeights(s, x, id);
      case UpdatingThreshold(x, bps) => ThresholdLeavesWeights(s, x, bps, id);
      case DisputingParty(caller, x) => DisputeLeavesWeights(s, caller, x, id);
      case Voting(voter, x, m) => VoteLeavesWeights(s, voter, x, m, id);
      case _ => hide MoveEntries, Covered;
    }
  }

  lemma ReleaseLeavesWeights(s: State, x: nat, id: nat)
    requires id in s.parties
    ensures var s' := ReleaseParty(s, x).0;
            id in s'.parties && s'.voteWeight == s.voteWeight && s'.parties[id].participants == s.parties[id].participants
  {
    hide PayShares, ApprovedWeight, ThresholdOf, PaidOut;
  }

  lemma ResolveLeavesWeights(s: State, x: nat, id: nat)
    requires id in s.parties
    ensures var s' := ResolveParty(s, x).0;
            id in s'.parties && s'.voteWeight == s.voteWeight && s'.parties[id].participants == s.parties[id].participants
  {
    hide PayShares, PayRefund, Verdict, PaidOut;
  }

  lemma DisputeLeavesWeights(s: State, caller: Address, x: nat, id: nat)
    requires id in s.parties
    ensures var s' := DisputeParty(s, caller, x).0;
            id in s'.parties && s'.voteWeight == s.voteWeight && s'.parties[id].participants == s.parties[id].participants
  {
    hide Participates;
  }

  lemma ThresholdLeavesWeights(s: State, x: nat, bps: nat, id: nat)
    requires id in s.parties
    ensures var s' := UpdateThreshold(s, x, bps).0;
            id in s'.parties && s'.voteWeight == s.voteWeight && s'.parties[id].participants == s.parties[id].participants
  {}

  lemma VoteLeavesWeights(s: State, voter: Address, x: nat, favorMerchant: bool, id: nat)
    requires id in s.parties
    ensures var s' := Vote(s, voter, x, favorMerchant).0;
            id in s'.parties && s'.voteWeight == s.voteWeight && s'.parties[id].participants == s.parties[id].participants
  {
    hide Participates;
  }

  lemma AlignedApprove(s: State, caller: Address, x: nat, id: nat)
    requires id in s.parties && Aligned(s.voteWeight, id, s.parties[id].participants)
    requires DistinctAddresses(s.parties[id].participants)
    ensures var s' := Approve(s, caller, x).0;
            id in s'.parties && Aligned(s'.voteWeight, id, s'.parties[id].participants)
  {
    if x == id {
      var ps := s.parties[id].participants;
      var i := IndexOf(ps, caller);
      if i.Some? {
        AlignedApproving(s.voteWeight, id, ps, i.value, s.now);
      }
    }
    hide Aligned, PooledEscrow.Approving, WeightOf, IndexOf, DistinctAddresses;
    assert Approve(s, caller, x).0.voteWeight == s.voteWeight;
  }

  lemma AlignedApproving(w: map<(nat, Address), nat>, id: nat, ps: seq<Participant>, i: nat, now: nat)
    requires Aligned(w, id, ps) && DistinctAddresses(ps) && i < |ps|
    ensures Aligned(w, id, PooledEscrow.Approving(ps, ps[i].address, WeightOf(w, id, ps[i]), now))
  {
    var ps' := PooledEscrow.Approving(ps, ps[i].address, WeightOf(w, id, ps[i]), now);
    forall j | 0 <= j < |ps'| ensures ps'[j].weightBps == ps'[j].shareBps == WeightOf(w, id, ps'[j]) {
      assert ps[j].weightBps == ps[j].shareBps == WeightOf(w, id, ps[j]);
      assert ps[j].address == ps[i].address ==> j == i;
    }
  }

  lemma AlignedStep(s: State, op: Op, id: nat)
    requires Inv(s) && id in s.parties && Aligned(s.voteWeight, id, s.parties[id].participants)
    ensures id in Step(s, op).parties && Aligned(Step(s, op).voteWeight, id, Step(s, op).parties[id].participants)
  {
    assert PartySound(s.parties[id]);
    hide Inv, PartySound, Aligned, CreateParty, Approve, ReleaseParty, SetWeight, UpdateThreshold, DisputeParty, Vote,
      ResolveParty, CreateBundle, ReleaseBundle, OutsideTransfer;
    match op {
      case CreatingParty(_, _, _, _, _) => AlignedElsewhere(s, op, id);
      case SettingWeight(x, a, weight) => AlignedSetWeight(s, id, x, a, weight);
      case Approving(caller, x) =>
        PartyWeights(s.parties[id]);
        AlignedApprove(s, caller, x, id);
      case _ => OthersLeaveWeights(s, op, id);
    }
  }

  lemma {:induction false} AlignedRun(s: State, ops: seq<Op>, id: nat)
    requires Inv(s) && id in s.parties && Aligned(s.voteWeight, id, s.parties[id].participants)
    ensures id in Run(s, ops).parties && Aligned(Run(s, ops).voteWeight, id, Run(s, ops).parties[id].participants)
    decreases |ops|
  {
    hide Step, Inv, Aligned;
    if ops != [] {
      StepKeeps(s, ops[0]);
      AlignedStep(s, ops[0], id);
      AlignedRun(Step(s, ops[0]), ops[1..], id);
    }
  }

  lemma {:induction false} AlignedFull(w: map<(nat, Address), nat>, id: nat, ps: seq<Participant>)
    requires Aligned(w, id, ps)
    ensures FullWeight(w, id, ps) == ShareSum(ps)
  {
    if ps != [] {
      AlignedFull(w, id, ps[..|ps| - 1]);
    }
  }

  lemma {:induction false} EveryoneApproved(w: map<(nat, Address), nat>, id: nat, ps: seq<Participant>)
    requires forall i :: 0 <= i < |ps| && WeightOf(w, id, ps[i]) > 0 ==> ps[i].approved
    ensures ApprovedWeight(w, id, ps) == FullWeight(w, id, ps)
  {
    if ps != [] {
      EveryoneApproved(w, id, ps[..|ps| - 1]);
    }
  }

  /** Every participant whose vote has weight is among the approvals. */
  predicate EverybodyApproved(s: State, id: nat)
    requires id in s.parties
  {
    forall p :: p in s.parties[id].participants && WeightOf(s.voteWeight, id, p) > 0 ==> p.address in s.parties[id].approvals
  }

  /** An escrow created with weights equal to shares keeps them so over every run: the counting
      weights always sum to the whole, and once everybody with a positive weight has approved, no
      admissible threshold holds the release back. */
  lemma AlignedAlwaysReleasable(bank: Bank, before: seq<Op>, create: Op, after: seq<Op>)
    requires create.CreatingParty?
    requires forall i :: 0 <= i < |create.participants| ==> create.participants[i].weightBps == create.participants[i].shareBps
    requires var s := Run(Initial(bank), before); Step(s, create) != s
    ensures var s := Run(Initial(bank), before);
            var id := s.partyCounter + 1;
            var s' := Run(Step(s, create), after);
            && id in s'.parties
            && FullWeight(s'.voteWeight, id, s'.parties[id].participants) == 10000
            && (EverybodyApproved(s', id) ==> ReleaseParty(s', id).1 != Err(ApprovalsThresholdNotMet))
  {
    var s := Run(Initial(bank), before);
    var id := s.partyCounter + 1;
    hide Run, Step, Inv, Aligned, ReleaseParty, FullWeight, WeightOf, EverybodyApproved;
    InitialInv(bank);
    RunKeeps(Initial(bank), before);
    StepKeeps(s, create);
    CreatedAligned(s, create);
    AlignedRun(Step(s, create), after, id);
    RunKeeps(Step(s, create), after);
    FullyApprovedReleases(Run(Step(s, create), after), id);
  }

  lemma CreatedAligned(s: State, create: Op)
    requires create.CreatingParty? && Step(s, create) != s
    requires forall i :: 0 <= i < |create.participants| ==> create.participants[i].weightBps == create.participants[i].shareBps
    ensures var s' := Step(s, create);
            var id := s.partyCounter + 1;
            id in s'.parties && Aligned(s'.voteWeight, id, s'.parties[id].participants)
  {
    var ps := create.participants;
    forall i | 0 <= i < |ps| ensures WeightOf(SeedWeights(s.voteWeight, s.partyCounter + 1, ps), s.partyCounter + 1, ps[i]) == ps[i].shareBps {
      Seeded(s.voteWeight, s.partyCounter + 1, ps, i);
    }
  }

  lemma FullyApprovedReleases(s: State, id: nat)
    requires Inv(s) && id in s.parties && Aligned(s.voteWeight, id, s.parties[id].participants)
    ensures var ps := s.parties[id].participants;
            && FullWeight(s.voteWeight, id, ps) == 10000
            && (EverybodyApproved(s, id) ==> ReleaseParty(s, id).1 != Err(ApprovalsThresholdNotMet))
  {
    var ps := s.parties[id].participants;
    assert PartySound(s.parties[id]);
    AlignedFull(s.voteWeight, id, ps);
    if EverybodyApproved(s, id) {
      EveryoneApproved(s.voteWeight, id, ps);
    }
  }

  // ----- Weights different from shares -----

  lemma {:induction false} SeededFull(w: map<(nat, Address), nat>, id: nat, ps: seq<Participant>)
    requires forall i :: 0 <= i < |ps| ==> WeightOf(w, id, ps[i]) == ps[i].shareBps
    ensures FullWeight(w, id, ps) == ShareSum(ps)
  {
    if ps != [] {
      SeededFull(w, id, ps[..|ps| - 1]);
    }
  }

  lemma {:induction false} FullAfterSet(w: map<(nat, Address), nat>, id: nat, ps: seq<Participant>, i: nat, weight: nat)
    requires DistinctAddresses(ps) && i < |ps|
    ensures FullWeight(w[(id, ps[i].address) := weight], id, ps) == FullWeight(w, id, ps) - WeightOf(w, id, ps[i]) + weight
  {
    var n := |ps| - 1;
    var w' := w[(id, ps[i].address) := weight];
    if i < n {
      FullAfterSet(w, id, ps[..n], i, weight);
      assert ps[i].address != ps[n].address;
    } else {
      SameFull(w, w', id, ps[..n]);
    }
  }

  lemma {:induction false} SameFull(w: map<(nat, Address), nat>, w': map<(nat, Address), nat>, id: nat, ps: seq<Participant>)
    requires forall i :: 0 <= i < |ps| ==> WeightOf(w, id, ps[i]) == WeightOf(w', id, ps[i])
    ensures FullWeight(w, id, ps) == FullWeight(w', id, ps)
  {
    if ps != [] {
      SameFull(w, w', id, ps[..|ps| - 1]);
    }
  }

  lemma {:induction false} DominatedIsEqual(ps: seq<Participant>)
    requires forall i :: 0 <= i < |ps| ==> ps[i].shareBps <= ps[i].weightBps
    ensures ShareSum(ps) <= WeightSum(ps)
    ensures ShareSum(ps) == WeightSum(ps) ==> forall i :: 0 <= i < |ps| ==> ps[i].shareBps == ps[i].weightBps
  {
    if ps != [] {
      DominatedIsEqual(ps[..|ps| - 1]);
    }
  }

  /** Every way an admin can set a weight of this escrow leaves everybody's approval worth the whole. */
  ghost predicate EverySettingKeepsTheWhole(s: State, id: nat) {
    forall a, weight: nat :: SetWeight(s, id, a, weight).1.Ok? && id in s.parties ==>
      FullWeight(SetWeight(s, id, a, weight).0.voteWeight, id, s.parties[id].participants) >= 10000
  }

  /** Equality of weights and shares is exactly what is needed: for a new escrow every successful
      setting of a weight leaves the counting weights at the whole if and only if it was created
      with weights equal to shares. */
  lemma SettingIsSafeIffAligned(bank: Bank, ops: seq<Op>, create: Op)
    requires create.CreatingParty?
    requires var s := Run(Initial(bank), ops); Step(s, create) != s
    ensures var s := Run(Initial(bank), ops);
            EverySettingKeepsTheWhole(Step(s, create), s.partyCounter + 1) <==>
            forall i :: 0 <= i < |create.participants| ==> create.participants[i].weightBps == create.participants[i].shareBps
  {
    hide Inv, Step, Run, ShareSum, WeightSum, WeightOf, FullWeight, SetWeight, EverySettingKeepsTheWhole, Initial;
    var s0 := Run(Initial(bank), ops);
    InitialInv(bank);
    RunKeeps(Initial(bank), ops);
    StepKeeps(s0, create);
    var s, id, given := Step(s0, create), s0.partyCounter + 1, create.participants;
    NewPartyAsGiven(s0, create);
    var ps := s.parties[id].participants;
    SeededFull(s.voteWeight, id, ps);
    if EverySettingKeepsTheWhole(s, id) {
      ConfirmingEveryWeight(s, id);
      forall i | 0 <= i < |given| ensures given[i].weightBps == given[i].shareBps {
        assert ps[i].weightBps == given[i].weightBps && ps[i].shareBps == given[i].shareBps;
      }
    }
    if forall i :: 0 <= i < |given| ==> given[i].weightBps == given[i].shareBps {
      forall i | 0 <= i < |ps| ensures WeightOf(s.voteWeight, id, ps[i]) == ps[i].weightBps {
        assert ps[i].weightBps == given[i].weightBps && ps[i].shareBps == given[i].shareBps;
      }
      SettingsHarmless(s, id);
    }
  }

  lemma SettingsHarmless(s: State, id: nat)
    requires Inv(s) && id in s.parties && DistinctAddresses(s.parties[id].participants)
    requires forall i :: 0 <= i < |s.parties[id].participants| ==>
               WeightOf(s.voteWeight, id, s.parties[id].participants[i]) == s.parties[id].participants[i].weightBps
    requires FullWeight(s.voteWeight, id, s.parties[id].participants) == 10000
    ensures EverySettingKeepsTheWhole(s, id)
  {
    hide Inv, SetWeight, FullWeight, WeightOf;
    var ps := s.parties[id].participants;
    forall a, weight: nat | SetWeight(s, id, a, weight).1.Ok?
      ensures FullWeight(SetWeight(s, id, a, weight).0.voteWeight, id, ps) >= 10000
    {
      SetWeightOnlyConfirms(s, id, a, weight);
      var i :| 0 <= i < |ps| && ps[i].address == a && ps[i].weightBps == weight;
      FullAfterSet(s.voteWeight, id, ps, i, weight);
    }
  }

  lemma ConfirmingEveryWeight(s: State, id: nat)
    requires id in s.parties && s.parties[id].status.Locked?
    requires var ps := s.parties[id].participants;
             DistinctAddresses(ps) && NoneApproved(ps) && WeightSum(ps) == 10000 && ShareSum(ps) == 10000
    requires forall i :: 0 <= i < |s.parties[id].participants| ==>
               WeightOf(s.voteWeight, id, s.parties[id].participants[i]) == s.parties[id].participants[i].shareBps
    requires FullWeight(s.voteWeight, id, s.parties[id].participants) == 10000 && EverySettingKeepsTheWhole(s, id)
    ensures forall i :: 0 <= i < |s.parties[id].participants| ==>
              s.parties[id].participants[i].shareBps == s.parties[id].participants[i].weightBps
  {
    hide SetWeight, FullWeight, WeightOf, WeightSum, ShareSum;
    var ps := s.parties[id].participants;
    forall i | 0 <= i < |ps| ensures ps[i].shareBps <= ps[i].weightBps {
      ConfirmAccepted(s, id, i);
      FullAfterSet(s.voteWeight, id, ps, i, ps[i].weightBps);
      assert SetWeight(s, id, ps[i].address, ps[i].weightBps).1.Ok?;
    }
    DominatedIsEqual(ps);
  }

  /** What a new escrow holds. */
  lemma NewPartyAsGiven(s: State, create: Op)
    requires create.CreatingParty? && Step(s, create) != s
    ensures var s' := Step(s, create);
            var id := s.partyCounter + 1;
            && id in s'.parties && s'.parties[id].status.Locked?
            && var ps := s'.parties[id].participants;
            && |ps| == |create.participants|
            && DistinctAddresses(ps) && NoneApproved(ps) && ShareSum(ps) == 10000 && WeightSum(ps) == 10000
            && (forall i :: 0 <= i < |ps| ==> ps[i].weightBps == create.participants[i].weightBps
                                              && ps[i].shareBps == create.participants[i].shareBps)
            && (forall i :: 0 <= i < |ps| ==> WeightOf(s'.voteWeight, id, ps[i]) == ps[i].shareBps)
  {
    var ps := create.participants;
    FreshSums(ps);
    forall i | 0 <= i < |ps| ensures WeightOf(SeedWeights(s.voteWeight, s.partyCounter + 1, ps), s.partyCounter + 1, ps[i]) == ps[i].shareBps {
      Seeded(s.voteWeight, s.partyCounter + 1, ps, i);
    }
  }

  /** Setting a weight to its recorded value is accepted and makes it the counting weight. */
  lemma ConfirmAccepted(s: State, id: nat, i: nat)
    requires id in s.parties && s.parties[id].status.Locked? && i < |s.parties[id].participants|
    requires var ps := s.parties[id].participants; DistinctAddresses(ps) && NoneApproved(ps) && WeightSum(ps) == 10000
    ensures var p := s.parties[id].participants[i];
            var (s', r) := SetWeight(s, id, p.address, p.weightBps);
            r.Ok? && s'.voteWeight == s.voteWeight[(id, p.address) := p.weightBps]
  {
    var ps := s.parties[id].participants;
    ReweightedSum(ps, i, ps[i].weightBps);
    assert Participates(ps, ps[i].address);
  }

  /** The gap is real: with shares 9000 and 1000 but weights 1000 and 9000, confirming the first
      weight leaves the two participants with 2000 together, so the release is refused although
      everybody has approved; that lasts until an admin lowers the threshold. Confirming the second
      weight as well, before anybody approves, would have closed the gap. */
  lemma MisalignedHoldsBackUnanimity(bank: Bank, customer: Address, token: Address, a: Address, b: Address)
    requires customer != SELF && a != b
    ensures var ps := [Participant(a, CustomerRole, 9000, 1000, false, None), Participant(b, MerchantRole, 1000, 9000, false, None)];
            var s1 := Step(Initial(bank), CreatingParty(customer, ps, 0, token, 0));
            var s2 := Step(s1, SettingWeight(1, a, 1000));
            var s3 := Step(s2, PooledLaws.Approving(a, 1));
            var s4 := Step(s3, PooledLaws.Approving(b, 1));
            && 1 in s4.parties && s4.parties[1].approvals == [a, b] && NobodyLeft(s4.parties[1].participants)
            && ReleaseParty(s4, 1).1 == Err(ApprovalsThresholdNotMet)
  {
    var pa, pb := Participant(a, CustomerRole, 9000, 1000, false, None), Participant(b, MerchantRole, 1000, 9000, false, None);
    var ps := [pa, pb];
    var s1 := Step(Initial(bank), CreatingParty(customer, ps, 0, token, 0));
    var pa', pb' := pa.(approved := true, approvedAt := Some(0)), pb.(weightBps := 1000, approved := true, approvedAt := Some(0));
    TwoCreated(bank, customer, token, pa, pb);
    var w := map[(1, a) := 1000, (1, b) := 1000];
    TwoConfirmed(s1, pa, pb);
    var s2 := Step(s1, SettingWeight(1, a, 1000));
    hide Step, ReleaseParty;
    assert s2.voteWeight == w;
    TwoApprove(s2, pa, pb, 0);
    var s3 := Step(s2, PooledLaws.Approving(a, 1));
    TwoApprove(s3, pa', pb, 1);
    TwoApproved(w, 1, pa', pb');
    TwoRefused(Step(s3, PooledLaws.Approving(b, 1)), pa', pb');
  }

  /** Escrow 1 is locked, with these two participants and approvals. */
  ghost predicate Pair(s: State, p: Participant, q: Participant, approvals: seq<Address>) {
    && 1 in s.parties && s.parties[1].status.Locked? && s.parties[1].participants == [p, q]
    && s.parties[1].approvals == approvals && 1 in s.threshold && s.threshold[1] == 10000 && s.now == 0
  }

  lemma TwoCreated(bank: Bank, customer: Address, token: Address, p: Participant, q: Participant)
    requires customer != SELF && p.address != q.address && !p.approved && !q.approved && p.approvedAt == q.approvedAt == None
    requires p.shareBps + q.shareBps == p.weightBps + q.weightBps == 10000
    ensures var s := Step(Initial(bank), CreatingParty(customer, [p, q], 0, token, 0));
            Pair(s, p, q, []) && s.voteWeight == map[(1, p.address) := p.shareBps, (1, q.address) := q.shareBps]
  {
    TwoSums(p, q);
    TwoSeeds(map[], 1, p, q);
    assert FreshParticipants([p, q]) == [p, q];
  }

  lemma TwoConfirmed(s: State, p: Participant, q: Participant)
    requires Pair(s, p, q, []) && p.address != q.address && !p.approved && !q.approved && p.weightBps + q.weightBps == 10000
    ensures var s' := Step(s, SettingWeight(1, p.address, p.weightBps));
            Pair(s', p, q, []) && s'.voteWeight == s.voteWeight[(1, p.address) := p.weightBps]
  {
    TwoSums(p, q);
    var ps := [p, q];
    assert Reweighted(ps, p.address, p.weightBps) == ps;
    assert ps[0].address == p.address;
  }

  lemma TwoApprove(s: State, p: Participant, q: Participant, which: nat)
    requires which < 2 && p.address != q.address && (1, [p, q][which].address) in s.voteWeight
    requires Pair(s, p, q, if which == 0 then [] else [p.address])
    requires s.voteWeight[(1, [p, q][which].address)] > 0 && ![p, q][which].approved
    ensures var s' := Step(s, PooledLaws.Approving([p, q][which].address, 1));
            var weight := s.voteWeight[(1, [p, q][which].address)];
            && s'.voteWeight == s.voteWeight
            && if which == 0 then Pair(s', p.(weightBps := weight, approved := true, approvedAt := Some(0)), q, [p.address])
               else Pair(s', p, q.(weightBps := weight, approved := true, approvedAt := Some(0)), [p.address, q.address])
  {
    TwoIndex([p, q]);
  }

  lemma TwoRefused(s: State, p: Participant, q: Participant)
    requires Pair(s, p, q, [p.address, q.address]) && ApprovedWeight(s.voteWeight, 1, [p, q]) < 10000
    ensures ReleaseParty(s, 1).1 == Err(ApprovalsThresholdNotMet)
  {}

  predicate NobodyLeft(ps: seq<Participant>) {
    forall i :: 0 <= i < |ps| ==> ps[i].approved
  }

  lemma TwoSums(p: Participant, q: Participant)
    ensures ShareSum([p, q]) == p.shareBps + q.shareBps && WeightSum([p, q]) == p.weightBps + q.weightBps
  {
    var ps := [p, q];
    assert ps[..1] == [p] && [p][..0] == [];
    assert ShareSum([p]) == p.shareBps && WeightSum([p]) == p.weightBps;
  }

  lemma TwoSeeds(w: map<(nat, Address), nat>, id: nat, p: Participant, q: Participant)
    ensures SeedWeights(w, id, [p, q]) == w[(id, p.address) := p.shareBps][(id, q.address) := q.shareBps]
  {
    var ps := [p, q];
    assert ps[..1] == [p] && [p][..0] == [];
    assert SeedWeights(w, id, [p]) == w[(id, p.address) := p.shareBps];
  }

  lemma TwoIndex(ps: seq<Participant>)
    requires |ps| == 2 && ps[0].address != ps[1].address
    ensures IndexOf(ps, ps[0].address) == Some(0) && IndexOf(ps, ps[1].address) == Some(1)
  {
    assert ps[..1] == [ps[0]];
  }

  lemma TwoApproved(w: map<(nat, Address), nat>, id: nat, p: Participant, q: Participant)
    requires p.approved && q.approved
    ensures ApprovedWeight(w, id, [p, q]) == WeightOf(w, id, p) + WeightOf(w, id, q)
  {
    var ps := [p, q];
    assert ps[..1] == [p] && [p][..0] == [];
    assert ApprovedWeight(w, id, [p]) == WeightOf(w, id, p);
  }
}
