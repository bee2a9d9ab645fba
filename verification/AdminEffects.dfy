/** What an executed proposal does, action by action: to the council, and to the escrow that its data
    names. */
module AdminEffects {
  import opened Common
  import opened Codec
  import opened Lifecycle
  import opened Settlement
  import opened Recipients
  import LifecycleLaws
  import opened AdminCouncil
  import opened AdminLaws

  /** The escrow id in the first eight bytes of the data. */
  function NamedEscrow(p: Proposal): nat {
    FromBigEndian(Window(p.data, 0, 8))
  }

  /** The flag in the ninth byte. */
  predicate Flagged(p: Proposal) {
    ByteAt(p.data, 8) != 0
  }

  /** What the action itself asks for, beside the signatures. */
  predicate Admits(s: Council, c: Config, p: Proposal, net: Net) {
    match p.action
    case RemoveAdmin => c.required < c.total
    case UpdateRequiredSignatures => 1 <= FromBigEndian(Window(p.data, 0, 8)) % 0x1_0000_0000 <= c.total
    case UpdateThreshold(required) => 1 <= required <= c.total
    case ReleaseEscrow =>
      && NamedEscrow(p) in s.core.escrows && s.core.escrows[NamedEscrow(p)].status.Locked?
      && TimeHasCome(s.core, NamedEscrow(p), Flagged(p)) && FeeUnrefused(s.core.escrows[NamedEscrow(p)], NamedEscrow(p), net)
    case ResolveDispute =>
      && NamedEscrow(p) in s.core.escrows && s.core.escrows[NamedEscrow(p)].status.Disputed?
      && !net(NamedEscrow(p), Principal).Refused?
    case _ => true
  }

  /** The council after the action: one admin more, one less, another number of signatures, or as before. */
  ghost predicate CouncilAfter(c: Config, c': Config, p: Proposal) {
    c'.proposalTtl == c.proposalTtl &&
    match p.action
    case AddAdmin =>
      && c'.required == c.required && c'.total == c.total + (if p.target in c.admins then 0 else 1)
      && forall x :: x in c'.admins <==> x in c.admins || x == p.target
    case RemoveAdmin =>
      && c'.required == c.required && c'.total == c.total - 1
      && forall x :: x in c'.admins <==> x in c.admins && x != p.target
    case UpdateRequiredSignatures => c' == c.(required := FromBigEndian(Window(p.data, 0, 8)) % 0x1_0000_0000)
    case UpdateThreshold(required) => c' == c.(required := required)
    case _ => c' == c
  }

  /** The escrows after the action: the named one released to its merchant or resolved for the flagged side,
      or all as before. */
  ghost predicate EscrowsAfter(core: Lifecycle.State, core': Lifecycle.State, p: Proposal, feeRecipient: Address, net: Net) {
    var id := NamedEscrow(p);
    match p.action
    case ReleaseEscrow =>
      && id in core.escrows && id in core'.escrows && OthersUntouched(core, core', id)
      && PaidLessFee(core.escrows[id], core'.escrows[id], PaidFor(core', id), core.escrows[id].merchant, feeRecipient, id, net)
    case ResolveDispute =>
      && id in core.escrows && id in core'.escrows && OthersUntouched(core, core', id)
      && PaidToSide(core.escrows[id], core'.escrows[id], PaidFor(core', id), Flagged(p), id, net)
    case _ => core' == core
  }

  lemma EscrowDispatch(s: Council, c: Config, p: Proposal, feeRecipient: Address, net: Net)
    requires LifecycleLaws.Inv(s.core) && (p.action.ReleaseEscrow? || p.action.ResolveDispute?)
    ensures var o := DispatchEscrow(s.core, p, feeRecipient, net);
            && (o.result.Ok? <==> Admits(s, c, p, net))
            && (o.result.Ok? ==> EscrowsAfter(s.core, o.state, p, feeRecipient, net))
  {
    hide LifecycleLaws.Inv, DispatchRelease, DispatchResolve, Window, FromBigEndian, ByteAt, FeeUnrefused, TimeHasCome, PaidLessFee, PaidToSide,
      DisputeLegs, DisputeStatus, Landed;
    var id, flag := NamedEscrow(p), Flagged(p);
    if p.action.ReleaseEscrow? {
      DispatchReleasePays(s.core, id, flag, feeRecipient, net);
    } else {
      DispatchResolveEffect(s.core, id, flag, net);
      DecisionPays(s.core, id, flag, net);
    }
  }

  lemma ConfigDispatch(s: Council, c: Config, p: Proposal, net: Net)
    ensures !p.action.ReleaseEscrow? && !p.action.ResolveDispute? ==> (DispatchConfig(c, p).Ok? <==> Admits(s, c, p, net))
    ensures DispatchConfig(c, p).Ok? ==> CouncilAfter(c, DispatchConfig(c, p).value, p)
    ensures p.action.ReleaseEscrow? || p.action.ResolveDispute? ==> DispatchConfig(c, p) == Ok(c)
  {
    hide Window, FromBigEndian, ByteAt;
    WithoutMembers(c.admins, p.target);
  }

  /** The proposal is open, in time and signed. */
  predicate Carried(s: Council, id: string) {
    && s.config.Some? && id in s.proposals && !Closed(s.proposals[id]) && s.core.now <= s.proposals[id].expiresAt
    && |s.proposals[id].approvals| >= s.config.value.required
  }

  /** An execution succeeds exactly for a proposal that is open, in time and has the signatures, when its
      action finds what it asks for. It does what the action says to council and escrows, marks the
      proposal and changes nothing else. */
  lemma ExecutionDoes(s: Council, id: string, feeRecipient: Address, net: Net)
    requires AdminLaws.Inv(s) && LifecycleLaws.Inv(s.core)
    ensures var (s', r) := Execute(s, id, feeRecipient, net);
            && (r.Ok? <==> Carried(s, id) && Admits(s, s.config.value, s.proposals[id], net))
            && (r.Ok? ==> (s'.config.Some? && CouncilAfter(s.config.value, s'.config.value, s.proposals[id])
                           && EscrowsAfter(s.core, s'.core, s.proposals[id], feeRecipient, net)
                           && s'.proposals == s.proposals[id := s.proposals[id].(executed := true)]
                           && s'.counter == s.counter && s'.plan == s.plan))
  {
    hide DispatchConfig, DispatchEscrow, QuorumSound, Decimal, Admits, CouncilAfter, EscrowsAfter, LifecycleLaws.Inv, Phantom;
    if s.config.Some? && id in s.proposals {
      var p, c := s.proposals[id], s.config.value;
      assert ProposalSound(p);
      ConfigDispatch(s, c, p, net);
      if p.action.ReleaseEscrow? || p.action.ResolveDispute? {
        EscrowDispatch(s, c, p, feeRecipient, net);
      } else {
        NoEscrow(s.core, p, feeRecipient, net);
      }
    }
  }

  lemma NoEscrow(core: Lifecycle.State, p: Proposal, feeRecipient: Address, net: Net)
    requires !p.action.ReleaseEscrow? && !p.action.ResolveDispute?
    ensures DispatchEscrow(core, p, feeRecipient, net) == Outcome(core, Ok(()))
    ensures EscrowsAfter(core, core, p, feeRecipient, net)
  {}
}
