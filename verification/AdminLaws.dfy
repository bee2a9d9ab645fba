/** What every run of the admin council keeps: a quorum that the admins can reach, proposals that
    are never overwritten and take effect at most once, and approvals that are counted once. */
module AdminLaws {
  import opened Common
  import opened Codec
  import opened Lifecycle
  import LifecycleLaws
  import opened AdminCouncil

  // ----- Runs -----

  datatype Op =
    | Initializing(admin: Address)
    | AddingAdmin(caller: Address, a: Address)
    | RemovingAdmin(caller: Address, a: Address)
    | Proposing(proposer: Address, action: Action, target: Address, data: seq<Byte>)
    | Approving(approver: Address, id: string)
    | Rejecting(rejecter: Address, id: string)
    | Executing(id: string, feeRecipient: Address, net: Net)
    | Designating(admin: Address, successor: Address, delaySeconds: nat)
    | Activating(successor: Address)
    | Revoking(admin: Address)
    | Calling(call: LifecycleLaws.Call)

  /** The two dispatching steps of the escrow machine are not entry points: only an executed
      proposal takes them. */
  function Step(s: Council, op: Op): Council {
    match op
    case Initializing(admin) => Initialize(s, admin).0
    case AddingAdmin(caller, a) => AddAdminDirectly(s, caller, a).0
    case RemovingAdmin(caller, a) => RemoveAdminDirectly(s, caller, a).0
    case Proposing(proposer, action, target, data) => Propose(s, proposer, action, target, data).0
    case Approving(approver, id) => Approve(s, approver, id).0
    case Rejecting(rejecter, id) => Reject(s, rejecter, id).0
    case Executing(id, fr, net) => Execute(s, id, fr, net).0
    case Designating(admin, successor, delay) => Designate(s, admin, successor, delay).0
    case Activating(successor) => Activate(s, successor).0
    case Revoking(admin) => Revoke(s, admin).0
    case Calling(call) =>
      if call.op.DispatchingRelease? || call.op.DispatchingResolve? then s else s.(core := LifecycleLaws.Step(s.core, call))
  }

  function Run(s: Council, ops: seq<Op>): Council
    decreases |ops|
  {
    if ops == [] then s else Run(Step(s, ops[0]), ops[1..])
  }

  // ----- Invariants -----

  /** The quorum can be reached: at least one signature, no more than the counted admins, of whom
      there are no more than real ones, each listed once. */
  ghost predicate QuorumSound(c: Config, phantoms: nat) {
    && Distinct(c.admins)
    && 1 <= c.required <= c.total
    && |c.admins| == c.total + phantoms
  }

  /** The count is the number of distinct approvals, and nothing is both executed and rejected. */
  ghost predicate ProposalSound(p: Proposal) {
    && Distinct(p.approvals) && p.approvals != [] && p.approvalCount == |p.approvals|
    && !(p.executed && p.rejected)
  }

  ghost predicate ProposalsSound(s: Council) {
    && s.counter <= U64_MAX
    && (forall id :: id in s.proposals ==> exists i: nat :: 1 <= i <= s.counter && id == Decimal(i))
    && (forall id :: id in s.proposals ==> ProposalSound(s.proposals[id]))
    && (forall id :: id in s.proposals ==> Executions(s, id) == if s.proposals[id].executed then 1 else 0)
  }

  ghost predicate Inv(s: Council) {
    && (s.config.Some? ==> QuorumSound(s.config.value, s.phantoms))
    && (s.config.None? ==> s.phantoms == 0)
    && ProposalsSound(s)
  }

  predicate Closed(p: Proposal) {
    p.executed || p.rejected
  }

  /** A proposal only gains approvals until it is closed, and then never changes. */
  ghost predicate ProposalStep(p: Proposal, p': Proposal) {
    && p'.action == p.action && p'.target == p.target && p'.data == p.data && p'.proposer == p.proposer
    && p'.createdAt == p.createdAt && p'.expiresAt == p.expiresAt
    && p.approvals <= p'.approvals
    && (Closed(p) ==> p' == p)
  }

  ghost predicate Advance(s: Council, s': Council) {
    && s.counter <= s'.counter
    && (forall id :: id in s.proposals ==>
          id in s'.proposals && ProposalStep(s.proposals[id], s'.proposals[id]))
  }

  ghost predicate Keeps(s: Council, s': Council) {
    Inv(s') && Advance(s, s')
  }

  // ----- The quorum -----

  lemma WithAdminSound(c: Config, a: Address, phantoms: nat)
    requires QuorumSound(c, phantoms)
    ensures QuorumSound(WithAdmin(c, a), phantoms)
  {
    if a !in c.admins {
      DistinctAppend(c.admins, a);
    }
  }

  lemma DispatchSound(c: Config, p: Proposal, phantoms: nat)
    requires QuorumSound(c, phantoms) && DispatchConfig(c, p).Ok?
    ensures QuorumSound(DispatchConfig(c, p).value, phantoms + Phantom(c, p))
  {
    hide Window, FromBigEndian;
    WithAdminSound(c, p.target, phantoms);
    WithoutDistinct(c.admins, p.target);
  }

  lemma RemoveDirectSound(s: Council, caller: Address, a: Address)
    requires Inv(s) && RemoveAdminDirectly(s, caller, a).1.Ok?
    ensures QuorumSound(RemoveAdminDirectly(s, caller, a).0.config.value, s.phantoms)
  {
    WithoutDistinct(s.config.value.admins, a);
  }

  // ----- One step -----

  lemma SameProposals(s: Council, s': Council)
    requires ProposalsSound(s) && s'.proposals == s.proposals && s'.counter == s.counter && s'.executions == s.executions
    ensures ProposalsSound(s') && Advance(s, s')
  {}

  lemma ProposalChange(s: Council, s': Council, id: string, p': Proposal)
    requires ProposalsSound(s) && id in s.proposals && ProposalSound(p') && ProposalStep(s.proposals[id], p')
    requires s'.proposals == s.proposals[id := p'] && s'.counter == s.counter
    requires s'.executions == s.executions[id := if p'.executed then 1 else 0]
    ensures ProposalsSound(s') && Advance(s, s')
  {
    hide ProposalSound, Decimal;
  }

  lemma NewId(s: Council)
    requires ProposalsSound(s)
    ensures Decimal(s.counter + 1) !in s.proposals
  {
    hide ProposalSound, Decimal;
    var id := Decimal(s.counter + 1);
    if id in s.proposals {
      var i: nat :| 1 <= i <= s.counter && id == Decimal(i);
      DecimalInjective(i, s.counter + 1);
    }
  }

  lemma ProposeKeeps(s: Council, proposer: Address, action: Action, target: Address, data: seq<Byte>)
    requires Inv(s)
    ensures Keeps(s, Propose(s, proposer, action, target, data).0)
  {
    hide Decimal, QuorumSound;
    NewId(s);
    var (s', r) := Propose(s, proposer, action, target, data);
    if r.Ok? {
      AddedProposal(s, s', r.value);
    } else {
      SameProposals(s, s');
    }
  }

  lemma AddedProposal(s: Council, s': Council, id: string)
    requires ProposalsSound(s) && id !in s.proposals && id == Decimal(s.counter + 1) && id in s'.proposals
    requires s'.counter == s.counter + 1 <= U64_MAX && ProposalSound(s'.proposals[id]) && !s'.proposals[id].executed
    requires s'.proposals == s.proposals[id := s'.proposals[id]] && s'.executions == s.executions[id := 0]
    ensures ProposalsSound(s') && Advance(s, s')
  {
    hide Decimal, ProposalSound;
    forall x | x in s'.proposals ensures exists i: nat :: 1 <= i <= s'.counter && x == Decimal(i) {
      if x != id {
        var i: nat :| 1 <= i <= s.counter && x == Decimal(i);
      }
    }
  }

  lemma ApproveKeeps(s: Council, approver: Address, id: string)
    requires Inv(s)
    ensures Keeps(s, Approve(s, approver, id).0)
  {
    hide QuorumSound, Decimal;
    var (s', r) := Approve(s, approver, id);
    if r.Ok? {
      var p := s.proposals[id];
      DistinctAppend(p.approvals, approver);
      Recounted(s, s', id);
    } else {
      SameProposals(s, s');
    }
  }

  /** A change of an open proposal that does not execute it. */
  lemma Recounted(s: Council, s': Council, id: string)
    requires ProposalsSound(s) && id in s.proposals && !s.proposals[id].executed && id in s'.proposals
    requires ProposalSound(s'.proposals[id]) && ProposalStep(s.proposals[id], s'.proposals[id]) && !s'.proposals[id].executed
    requires s'.proposals == s.proposals[id := s'.proposals[id]] && s'.counter == s.counter && s'.executions == s.executions
    ensures ProposalsSound(s') && Advance(s, s')
  {
    hide ProposalSound, Decimal;
    assert Executions(s', id) == Executions(s, id);
  }

  lemma RejectKeeps(s: Council, rejecter: Address, id: string)
    requires Inv(s)
    ensures Keeps(s, Reject(s, rejecter, id).0)
  {
    hide QuorumSound, Decimal;
    var (s', r) := Reject(s, rejecter, id);
    if r.Ok? {
      Recounted(s, s', id);
    } else {
      SameProposals(s, s');
    }
  }

  lemma ExecuteKeeps(s: Council, id: string, fr: Address, net: Net)
    requires Inv(s)
    ensures Keeps(s, Execute(s, id, fr, net).0)
  {
    hide QuorumSound, Decimal, DispatchConfig, DispatchEscrow;
    var (s', r) := Execute(s, id, fr, net);
    if r.Ok? {
      DispatchSound(s.config.value, s.proposals[id], s.phantoms);
      ProposalChange(s, s', id, s'.proposals[id]);
    } else {
      SameProposals(s, s');
    }
  }

  lemma AdminsKeep(s: Council, op: Op)
    requires Inv(s) && (op.Initializing? || op.AddingAdmin? || op.RemovingAdmin? || op.Activating?)
    ensures Keeps(s, Step(s, op))
  {
    hide ProposalsSound, WithAdmin, Without;
    var s' := Step(s, op);
    match op {
      case Initializing(admin) =>
      case AddingAdmin(caller, a) =>
        if s.config.Some? { WithAdminSound(s.config.value, a, s.phantoms); }
      case RemovingAdmin(caller, a) =>
        if RemoveAdminDirectly(s, caller, a).1.Ok? { RemoveDirectSound(s, caller, a); }
      case Activating(a) =>
        if s.config.Some? { WithAdminSound(s.config.value, a, s.phantoms); }
    }
    SameProposals(s, s');
  }

  lemma StepKeeps(s: Council, op: Op)
    requires Inv(s)
    ensures Keeps(s, Step(s, op))
  {
    hide QuorumSound, ProposalsSound, Propose, Approve, Reject, Execute, LifecycleLaws.Step;
    match op {
      case Proposing(proposer, action, target, data) => ProposeKeeps(s, proposer, action, target, data);
      case Approving(approver, id) => ApproveKeeps(s, approver, id);
      case Rejecting(rejecter, id) => RejectKeeps(s, rejecter, id);
      case Executing(id, fr, net) => ExecuteKeeps(s, id, fr, net);
      case Designating(_, _, _) => SameProposals(s, Step(s, op));
      case Revoking(_) => SameProposals(s, Step(s, op));
      case Calling(_) => SameProposals(s, Step(s, op));
      case _ => AdminsKeep(s, op);
    }
  }

  lemma AdvanceTransitive(a: Council, b: Council, c: Council)
    requires Advance(a, b) && Advance(b, c)
    ensures Advance(a, c)
  {
    forall id | id in a.proposals ensures id in c.proposals && ProposalStep(a.proposals[id], c.proposals[id]) {
      assert id in b.proposals;
    }
  }

  lemma {:induction false} RunKeeps(s: Council, ops: seq<Op>)
    requires Inv(s)
    ensures Keeps(s, Run(s, ops))
    decreases |ops|
  {
    hide Step, Inv;
    if ops == [] {
      assert Advance(s, s);
    } else {
      StepKeeps(s, ops[0]);
      RunKeeps(Step(s, ops[0]), ops[1..]);
      AdvanceTransitive(s, Step(s, ops[0]), Run(s, ops));
    }
  }

  lemma FoundedInv()
    ensures Inv(FOUNDED)
  {}

  // ----- What the runs come to -----

  /** In every reachable storage the required signatures lie between one and the counted admins, who
      are no more than the admins there are, each listed once. The count falls behind by exactly the
      executed removals of somebody who was no admin. */
  lemma QuorumAlwaysReachable(ops: seq<Op>)
    requires Run(FOUNDED, ops).config.Some?
    ensures var s := Run(FOUNDED, ops);
            var c := s.config.value;
            && Distinct(c.admins) && 1 <= c.required <= c.total <= |c.admins|
            && (c.total == |c.admins| <==> s.phantoms == 0)
            && |c.admins| - c.total == s.phantoms
  {
    FoundedInv();
    RunKeeps(FOUNDED, ops);
  }

  lemma {:induction false} DistinctWithin(a: seq<Address>, b: seq<Address>)
    requires Distinct(a) && Distinct(b) && forall x :: x in a ==> x in b
    ensures |a| <= |b|
  {
    if a != [] {
      var n := |a| - 1;
      assert a[n] in b;
      WithoutDistinct(b, a[n]);
      WithoutMembers(b, a[n]);
      forall x | x in a[..n] ensures x in Without(b, a[n]) {
        assert x in a && x in b;
        assert x != a[n];
      }
      DistinctWithin(a[..n], Without(b, a[n]));
    }
  }

  /** So the admins can always carry a proposal: once every one of them has approved it, it has the
      signatures it needs, and if it is open and in time its execution depends on its action alone. */
  lemma UnanimityExecutes(ops: seq<Op>, id: string, fr: Address, net: Net)
    requires var s := Run(FOUNDED, ops);
             && s.config.Some? && id in s.proposals && !Closed(s.proposals[id]) && s.core.now <= s.proposals[id].expiresAt
             && forall a :: a in s.config.value.admins ==> a in s.proposals[id].approvals
    ensures var s := Run(FOUNDED, ops);
            var p, c := s.proposals[id], s.config.value;
            && p.approvalCount >= c.required
            && (Execute(s, id, fr, net).1.Ok? <==>
                  DispatchConfig(c, p).Ok? && DispatchEscrow(s.core, p, fr, net).result.Ok?)
  {
    FoundedInv();
    RunKeeps(FOUNDED, ops);
    var s := Run(FOUNDED, ops);
    hide Run, DispatchConfig, DispatchEscrow, Decimal;
    DistinctWithin(s.config.value.admins, s.proposals[id].approvals);
  }

  /** A proposal is never overwritten by a later one: its id is new when it is made, and its action,
      target, data, time limit and collected approvals are kept ever after. */
  lemma ProposalsNeverOverwritten(before: seq<Op>, proposer: Address, action: Action, target: Address, data: seq<Byte>, after: seq<Op>)
    requires Propose(Run(FOUNDED, before), proposer, action, target, data).1.Ok?
    ensures var s := Run(FOUNDED, before);
            var (s1, r) := Propose(s, proposer, action, target, data);
            && r.value !in s.proposals && r.value == Decimal(s.counter + 1) && |r.value| <= 20
            && (forall id :: id in s.proposals ==> id in s1.proposals && s1.proposals[id] == s.proposals[id])
            && var s2 := Run(s1, after);
            && r.value in s2.proposals
            && var p := s2.proposals[r.value];
            p.action == action && p.target == target && p.data == data && [proposer] <= p.approvals
  {
    FoundedInv();
    RunKeeps(FOUNDED, before);
    var s := Run(FOUNDED, before);
    hide Run, Decimal, ProposalSound, QuorumSound;
    NewId(s);
    U64Digits(s.counter + 1);
    ProposeKeeps(s, proposer, action, target, data);
    RunKeeps(Propose(s, proposer, action, target, data).0, after);
  }

  /** A proposal takes effect at most once, and only with as many distinct approvals as signatures
      are required at that moment; after that it can never be executed again nor be rejected. */
  lemma ExecutedAtMostOnce(before: seq<Op>, id: string, fr: Address, net: Net, after: seq<Op>, fr': Address, net': Net, rejecter: Address)
    requires Execute(Run(FOUNDED, before), id, fr, net).1.Ok?
    ensures var s := Run(FOUNDED, before);
            var s2 := Run(Execute(s, id, fr, net).0, after);
            && Distinct(s.proposals[id].approvals) && |s.proposals[id].approvals| >= s.config.value.required
            && id in s2.proposals && s2.proposals[id].executed && Executions(s2, id) == 1
            && Execute(s2, id, fr', net').1.Err? && Reject(s2, rejecter, id).1.Err?
  {
    hide Run, Decimal, QuorumSound, DispatchConfig, DispatchEscrow;
    FoundedInv();
    RunKeeps(FOUNDED, before);
    var s := Run(FOUNDED, before);
    ExecuteKeeps(s, id, fr, net);
    var s1 := Execute(s, id, fr, net).0;
    RunKeeps(s1, after);
    var s2 := Run(s1, after);
    assert ProposalSound(s.proposals[id]);
    assert ProposalStep(s1.proposals[id], s2.proposals[id]);
    assert Executions(s2, id) == 1;
  }

  /** Every approval was given by somebody who was an admin then. */
  lemma OnlyAdminsApprove(s: Council, op: Op, id: string)
    requires id in Step(s, op).proposals
    requires id !in s.proposals || Step(s, op).proposals[id].approvals != s.proposals[id].approvals
    ensures s.config.Some? && Step(s, op).proposals[id].approvals != []
    ensures var approvals := Step(s, op).proposals[id].approvals;
            approvals[|approvals| - 1] in s.config.value.admins
  {
    hide LifecycleLaws.Step, DispatchConfig, DispatchEscrow, Decimal;
  }

  /** But an approval outlives its giver: a proposal made by an admin who has been removed since is
      executed on that approval alone. */
  lemma ApprovalOutlivesItsGiver(a: Address, b: Address, target: Address, net: Net)
    requires a != b
    ensures var s0 := Step(Step(FOUNDED, Initializing(a)), AddingAdmin(a, b));
            var s1 := Step(s0, Proposing(b, AddAdmin, target, []));
            var s2 := Step(s1, RemovingAdmin(a, b));
            var id := Decimal(1);
            && id in s2.proposals && s2.proposals[id].approvals == [b]
            && s2.config.Some? && s2.config.value.admins == [a]
            && Execute(s2, id, a, net).1 == Ok(())
  {
    var s0 := Step(Step(FOUNDED, Initializing(a)), AddingAdmin(a, b));
    assert [a] + [b] == [a, b];
    assert s0.config == Some(Config([a, b], 1, 2, 604800));
    hide Decimal;
    var s1 := Step(s0, Proposing(b, AddAdmin, target, []));
    assert s1.config == s0.config;
    var c := s1.config.value;
    WithoutSecond(a, b);
    assert Without(c.admins, b) == [a] && a in c.admins && |c.admins| == 2;
    var s2 := Step(s1, RemovingAdmin(a, b));
    assert s2.config == Some(Config([a], 1, 1, 604800));
  }

  lemma WithoutSecond(a: Address, b: Address)
    requires a != b
    ensures Without([a, b], b) == [a]
  {
    var both, last := [a, b], [b];
    assert both[1..] == last && last[1..] == [];
    assert Without(last, b) == [];
    assert Without(both, b) == [a] + Without(last, b);
  }

  // ----- What the data of a proposal means -----

  /** A proposal whose data is an escrow id in eight bytes and a flag acts on exactly that escrow:
      the encoding made by the proposer and the decoding made at execution cancel out. */
  lemma ExecutesWhatWasEncoded(s: Council, id: string, escrow: nat, flag: Byte, rest: seq<Byte>, fr: Address, net: Net)
    requires escrow <= U64_MAX && id in s.proposals && s.proposals[id].data == BigEndian(escrow, 8) + [flag] + rest
    requires Execute(s, id, fr, net).1.Ok?
    ensures s.proposals[id].action.ReleaseEscrow? ==>
              Execute(s, id, fr, net).0.core == DispatchRelease(s.core, escrow, flag != 0, fr, net).state
    ensures s.proposals[id].action.ResolveDispute? ==>
              Execute(s, id, fr, net).0.core == DispatchResolve(s.core, escrow, flag != 0, net).state
  {
    hide Execute;
    DataDecodes(escrow, flag, rest);
    ExecutedCore(s, id, fr, net);
    hide DispatchRelease, DispatchResolve, Window, FromBigEndian, ByteAt;
  }

  lemma DataDecodes(escrow: nat, flag: Byte, rest: seq<Byte>)
    requires escrow <= U64_MAX
    ensures var data := BigEndian(escrow, 8) + [flag] + rest;
            FromBigEndian(Window(data, 0, 8)) == escrow && ByteAt(data, 8) == flag
  {
    var data := BigEndian(escrow, 8) + [flag] + rest;
    assert data == [] + BigEndian(escrow, 8) + ([flag] + rest);
    ReadInvertsWrite([], escrow, [flag] + rest, data, 0);
  }

  lemma ExecutedCore(s: Council, id: string, fr: Address, net: Net)
    requires Execute(s, id, fr, net).1.Ok?
    ensures id in s.proposals && Execute(s, id, fr, net).0.core == DispatchEscrow(s.core, s.proposals[id], fr, net).state
  {
    hide DispatchConfig, DispatchEscrow;
  }

  /** The number of signatures in a proposal is cut to 32 bits: what is set is the encoded number
      exactly when that fits, and otherwise its remainder. */
  lemma RequiredIsTruncated(s: Council, id: string, n: nat, fr: Address, net: Net)
    requires n <= U64_MAX && id in s.proposals && s.proposals[id].action.UpdateRequiredSignatures?
    requires s.proposals[id].data == BigEndian(n, 8) && Execute(s, id, fr, net).1.Ok?
    ensures var c := Execute(s, id, fr, net).0.config;
            && c.Some? && c.value.required == n % TWO_32
            && (c.value.required == n <==> n < TWO_32)
  {
    hide Window, FromBigEndian, BigEndian, Execute;
    var data := s.proposals[id].data;
    assert data == [] + BigEndian(n, 8) + [];
    ReadInvertsWrite([], n, [], data, 0);
    RequiredFromData(s, id, n, fr, net);
  }

  lemma RequiredFromData(s: Council, id: string, n: nat, fr: Address, net: Net)
    requires id in s.proposals && s.proposals[id].action.UpdateRequiredSignatures? && Execute(s, id, fr, net).1.Ok?
    requires FromBigEndian(Window(s.proposals[id].data, 0, 8)) == n
    ensures var c := Execute(s, id, fr, net).0.config; c.Some? && c.value.required == n % TWO_32
  {
    hide Window, FromBigEndian;
  }
}
