/** The admin council as the contract runs it, on top of the escrow contract that its executed
    proposals act on. */
module AdminContract {
  import opened Common
  import opened Codec
  import opened Lifecycle
  import LifecycleContract
  import LifecycleLaws
  import opened AdminCouncil
  import opened AdminLaws
  import opened AdminEffects

  /** All proposals but this one are what they were. */
  predicate OthersKept(before: map<string, Proposal>, after: map<string, Proposal>, id: string) {
    forall x :: x in before && x != id ==> x in after && after[x] == before[x]
  }

  lemma ProposeEffect(s: Council, proposer: Address, action: Action, target: Address, data: seq<Byte>)
    requires AdminLaws.Inv(s)
    ensures var (s', r) := Propose(s, proposer, action, target, data);
            && (r.Err? ==> s' == s)
            && (r.Ok? ==>
                  && r.value !in s.proposals && r.value in s'.proposals && s'.proposals[r.value].approvals == [proposer]
                  && OthersKept(s.proposals, s'.proposals, r.value))
  {
    hide Decimal;
    NewId(s);
  }

  lemma RemoveEffect(s: Council, caller: Address, admin: Address)
    requires AdminLaws.Inv(s)
    ensures var (s', r) := RemoveAdminDirectly(s, caller, admin);
            && (r.Err? ==> s' == s)
            && (r.Ok? ==>
                  && s.config.Some? && admin in s.config.value.admins && s'.config.Some?
                  && s'.config.value.required == s.config.value.required
                  && forall x :: x in s'.config.value.admins <==> x in s.config.value.admins && x != admin)
            && (r.Ok? <==> s.config.Some? && caller in s.config.value.admins && admin in s.config.value.admins
                           && s.config.value.required < s.config.value.total)
  {
    hide ProposalsSound;
    if s.config.Some? {
      WithoutMembers(s.config.value.admins, admin);
      WithoutDistinct(s.config.value.admins, admin);
    }
  }

  class AdminContract {
    const core: LifecycleContract.EscrowContract
    var config: Option<Config>
    var proposals: map<string, Proposal>
    var counter: nat
    var plan: Option<Plan>
    var executions: map<string, nat>
    var phantoms: nat

    constructor ()
      ensures Valid() && fresh(core) && fresh(core.queue) && State() == FOUNDED
    {
      core := new LifecycleContract.EscrowContract();
      config, proposals, counter, plan, executions, phantoms := None, map[], 0, None, map[], 0;
      new;
      FoundedInv();
    }

    function State(): Council
      reads this, core, core.queue
    {
      Council(config, proposals, counter, plan, core.State(), executions, phantoms)
    }

    ghost predicate Valid()
      reads this, core, core.queue
    {
      AdminLaws.Inv(State()) && core.Valid()
    }

    method InitializeCouncil(admin: Address) returns (r: Result<()>)
      requires Valid()
      modifies this
      ensures Valid() && (State(), r) == Initialize(old(State()), admin)
      ensures r.Ok? <==> old(config).None?
      ensures r.Err? ==> State() == old(State())
      ensures r.Ok? ==> config == Some(Config([admin], 1, 1, 604800)) && proposals == old(proposals)
    {
      hide ProposalsSound, LifecycleLaws.Inv;
      AdminsKeep(State(), Initializing(admin));
      if config.Some? {
        return Err(AlreadyInitialized);
      }
      config := Some(Config([admin], 1, 1, 604800));
      r := Ok(());
    }

    method AddNewAdmin(caller: Address, newAdmin: Address) returns (r: Result<()>)
      requires Valid()
      modifies this
      ensures Valid() && (State(), r) == AddAdminDirectly(old(State()), caller, newAdmin)
      ensures r.Ok? <==> old(config).Some? && caller in old(config).value.admins
      ensures r.Err? ==> State() == old(State())
      ensures r.Ok? ==> config.Some? && config.value.required == old(config).value.required
      ensures r.Ok? ==> config.value.total == old(config).value.total + if newAdmin in old(config).value.admins then 0 else 1
      ensures r.Ok? ==> forall x :: x in config.value.admins <==> x in old(config).value.admins || x == newAdmin
    {
      hide ProposalsSound, QuorumSound, LifecycleLaws.Inv;
      AdminsKeep(State(), AddingAdmin(caller, newAdmin));
      if config.None? {
        return Err(MultiSigNotInitialized);
      }
      var c := config.value;
      if caller !in c.admins {
        return Err(NotAnAdmin);
      }
      if newAdmin !in c.admins {
        c := c.(admins := c.admins + [newAdmin], total := c.total + 1);
        config := Some(c);
      }
      r := Ok(());
    }

    method RemoveOneAdmin(caller: Address, admin: Address) returns (r: Result<()>)
      requires Valid()
      modifies this
      ensures Valid() && (State(), r) == RemoveAdminDirectly(old(State()), caller, admin)
      ensures r.Err? ==> State() == old(State())
      ensures r.Ok? <==> old(config).Some? && caller in old(config).value.admins && admin in old(config).value.admins
                         && old(config).value.required < old(config).value.total
      ensures r.Ok? ==> config.Some? && config.value.required == old(config).value.required && config.value.total == old(config).value.total - 1
      ensures r.Ok? ==> forall x :: x in config.value.admins <==> x in old(config).value.admins && x != admin
    {
      hide ProposalsSound, QuorumSound, LifecycleLaws.Inv, Without;
      RemoveEffect(State(), caller, admin);
      AdminsKeep(State(), RemovingAdmin(caller, admin));
      if config.None? {
        return Err(MultiSigNotInitialized);
      }
      var c := config.value;
      if caller !in c.admins {
        return Err(NotAnAdmin);
      }
      if c.total <= c.required {
        return Err(InvalidStatus);
      }
      var kept := CopyWithout(c.admins, admin);
      if |kept| == |c.admins| {
        return Err(NotAnAdmin);
      }
      config := Some(c.(admins := kept, total := c.total - 1));
      r := Ok(());
    }

    method ProposeAction(proposer: Address, action: Action, target: Address, data: seq<Byte>) returns (r: Result<string>)
      requires Valid()
      modifies this
      ensures Valid() && (State(), r) == Propose(old(State()), proposer, action, target, data)
      ensures r.Err? ==> State() == old(State())
      ensures r.Ok? <==> old(config).Some? && proposer in old(config).value.admins && old(counter) < U64_MAX
      ensures r.Ok? ==> r.value !in old(proposals) && r.value in proposals && config == old(config)
                        && proposals[r.value] == Proposal(proposer, action, target, data, [proposer], 1, false, false, core.now,
                                                          core.now + old(config).value.proposalTtl)
      ensures r.Ok? ==> OthersKept(old(proposals), proposals, r.value)
    {
      hide OthersKept, ProposalsSound, QuorumSound, LifecycleLaws.Inv, Decimal, AdminLaws.Inv;
      ProposeEffect(State(), proposer, action, target, data);
      ProposeKeeps(State(), proposer, action, target, data);
      if config.None? {
        return Err(MultiSigNotInitialized);
      }
      var c := config.value;
      if proposer !in c.admins {
        return Err(NotAnAdmin);
      }
      if counter >= U64_MAX {
        return Err(CounterOverflow);
      }
      counter := counter + 1;
      var id := U64ToString(counter);
      var approvals: seq<Address> := [];
      approvals := approvals + [proposer];
      assert approvals == [proposer];
      proposals := proposals[id := Proposal(proposer, action, target, data, approvals, 1, false, false,
                                            core.now, core.now + c.proposalTtl)];
      executions := executions[id := 0];
      r := Ok(id);
    }

    method ApproveAction(approver: Address, id: string) returns (r: Result<()>)
      requires Valid()
      modifies this
      ensures Valid() && (State(), r) == Approve(old(State()), approver, id)
      ensures r.Err? ==> State() == old(State())
      ensures r.Ok? <==> old(config).Some? && approver in old(config).value.admins && id in old(proposals) && !Closed(old(proposals)[id])
                         && core.now <= old(proposals)[id].expiresAt && approver !in old(proposals)[id].approvals
      ensures r.Ok? ==> id in proposals && proposals[id].approvals == old(proposals)[id].approvals + [approver]
                        && proposals[id].approvalCount == old(proposals)[id].approvalCount + 1
      ensures r.Ok? ==> OthersKept(old(proposals), proposals, id) && config == old(config)
    {
      hide ProposalsSound, QuorumSound, LifecycleLaws.Inv, AdminLaws.Inv;
      ApproveKeeps(State(), approver, id);
      if config.None? {
        return Err(MultiSigNotInitialized);
      }
      if approver !in config.value.admins {
        return Err(NotAnAdmin);
      }
      if id !in proposals {
        return Err(Unauthorized);
      }
      var p := proposals[id];
      if p.executed || p.rejected {
        return Err(InvalidStatus);
      }
      if core.now > p.expiresAt {
        return Err(InvalidStatus);
      }
      if approver in p.approvals {
        return Err(AlreadyApproved);
      }
      p := p.(approvals := p.approvals + [approver]);
      p := p.(approvalCount := p.approvalCount + 1);
      proposals := proposals[id := p];
      r := Ok(());
    }

    method RejectAction(rejecter: Address, id: string) returns (r: Result<()>)
      requires Valid()
      modifies this
      ensures Valid() && (State(), r) == Reject(old(State()), rejecter, id)
      ensures r.Err? ==> State() == old(State())
      ensures r.Ok? <==> old(config).Some? && rejecter in old(config).value.admins && id in old(proposals) && !Closed(old(proposals)[id])
      ensures r.Ok? ==> id in proposals && proposals[id].rejected && !proposals[id].executed
      ensures r.Ok? ==> OthersKept(old(proposals), proposals, id) && config == old(config)
    {
      hide ProposalsSound, QuorumSound, LifecycleLaws.Inv, AdminLaws.Inv;
      RejectKeeps(State(), rejecter, id);
      if config.None? {
        return Err(MultiSigNotInitialized);
      }
      if rejecter !in config.value.admins {
        return Err(NotAnAdmin);
      }
      if id !in proposals {
        return Err(Unauthorized);
      }
      var p := proposals[id];
      if p.executed || p.rejected {
        return Err(InvalidStatus);
      }
      proposals := proposals[id := p.(rejected := true)];
      r := Ok(());
    }

    /** Changes the council itself. */
    method DispatchToConfig(p: Proposal) returns (r: Result<()>)
      requires config.Some?
      modifies this`config
      ensures var c := DispatchConfig(old(config).value, p);
              r == (if c.Ok? then Ok(()) else Err(c.error)) && config == if c.Ok? then Some(c.value) else old(config)
    {
      hide Window, FromBigEndian, Without;
      var c := config.value;
      match p.action {
        case AddAdmin =>
          if p.target !in c.admins {
            c := c.(admins := c.admins + [p.target]);
            c := c.(total := c.total + 1);
          }
        case RemoveAdmin =>
          if c.total <= c.required {
            return Err(InvalidStatus);
          }
          var kept := CopyWithout(c.admins, p.target);
          c := c.(admins := kept, total := c.total - 1);
        case UpdateRequiredSignatures =>
          var word := ReadU64FromBytes(p.data, 0);
          var required := word % TWO_32;
          if required == 0 || required > c.total {
            return Err(InvalidThreshold);
          }
          c := c.(required := required);
        case UpdateThreshold(newThreshold) =>
          if newThreshold == 0 {
            return Err(InvalidThreshold);
          }
          if newThreshold > c.total {
            return Err(InsufficientAdmins);
          }
          c := c.(required := newThreshold);
        case _ =>
      }
      config := Some(c);
      r := Ok(());
    }

    /** Acts on the escrow that the data names. */
    method DispatchToEscrow(p: Proposal, feeRecipient: Address, net: Net) returns (r: Result<()>)
      requires core.Valid()
      modifies core, core.queue
      ensures core.Valid()
      ensures var o := DispatchEscrow(old(core.State()), p, feeRecipient, net);
              r == o.result && core.State() == Commit(old(core.State()), o)
    {
      hide Window, FromBigEndian, DispatchRelease, DispatchResolve, LifecycleLaws.Inv;
      var id := ReadU64FromBytes(p.data, 0);
      var flag := ByteAt(p.data, 8) != 0;
      match p.action {
        case ReleaseEscrow => r := core.ExecuteReleaseProposal(id, flag, feeRecipient, net);
        case ResolveDispute => r := core.ExecuteResolveProposal(id, flag, net);
        case _ => r := Ok(());
      }
    }

    method ExecuteAction(id: string, feeRecipient: Address, net: Net) returns (r: Result<()>)
      requires Valid()
      modifies this, core, core.queue
      ensures Valid() && (State(), r) == Execute(old(State()), id, feeRecipient, net)
      ensures r.Err? ==> State() == old(State())
      ensures r.Ok? <==> old(Carried(State(), id)) && old(Admits(State(), config.value, proposals[id], net))
      ensures r.Ok? ==> config.Some? && CouncilAfter(old(config).value, config.value, old(proposals)[id])
      ensures r.Ok? ==> EscrowsAfter(old(core.State()), core.State(), old(proposals)[id], feeRecipient, net)
      ensures r.Ok? ==> proposals == old(proposals)[id := old(proposals)[id].(executed := true)] && plan == old(plan)
    {
      hide Carried, Admits, CouncilAfter, EscrowsAfter, Closed, ProposalsSound, QuorumSound, LifecycleLaws.Inv, AdminLaws.Inv, DispatchConfig,
        DispatchEscrow, Phantom, Advance;
      ExecutionDoes(State(), id, feeRecipient, net);
      ExecuteKeeps(State(), id, feeRecipient, net);
      if config.None? {
        return Err(MultiSigNotInitialized);
      }
      if id !in proposals {
        return Err(Unauthorized);
      }
      var p := proposals[id];
      if p.executed || p.rejected {
        return Err(InvalidStatus);
      }
      if core.now > p.expiresAt {
        return Err(InvalidStatus);
      }
      if p.approvalCount < config.value.required {
        return Err(InvalidStatus);
      }
      var saved := config;
      var savedProposals := proposals;
      proposals := proposals[id := p.(executed := true)];
      r := DispatchToConfig(p);
      if r.Ok? {
        r := DispatchToEscrow(p, feeRecipient, net);
      }
      if r.Err? {
        config, proposals := saved, savedProposals;
        return;
      }
      executions := executions[id := Executions(State(), id) + 1];
      phantoms := phantoms + Phantom(saved.value, p);
      r := Ok(());
    }

    method DesignateSuccessor(admin: Address, successor: Address, delaySeconds: nat) returns (r: Result<()>)
      requires Valid()
      modifies this
      ensures Valid() && (State(), r) == Designate(old(State()), admin, successor, delaySeconds)
      ensures r.Err? ==> State() == old(State())
      ensures r.Ok? <==> old(config).Some? && admin in old(config).value.admins && successor != ZERO_ADDRESS && successor != admin
                         && (old(plan).None? || old(plan).value.activated)
      ensures r.Ok? ==> plan == Some(Plan(successor, admin, core.now, SaturatingAdd(core.now, delaySeconds), false)) && config == old(config)
    {
      hide ProposalsSound, QuorumSound, LifecycleLaws.Inv, AdminLaws.Inv;
      StepKeeps(State(), Designating(admin, successor, delaySeconds));
      if config.None? {
        return Err(MultiSigNotInitialized);
      }
      if admin !in config.value.admins {
        return Err(NotAnAdmin);
      }
      if successor == ZERO_ADDRESS {
        return Err(InvalidAddress);
      }
      if successor == admin {
        return Err(SameBeneficiary);
      }
      if plan.Some? && !plan.value.activated {
        return Err(SuccessionPlanExists);
      }
      plan := Some(Plan(successor, admin, core.now, SaturatingAdd(core.now, delaySeconds), false));
      r := Ok(());
    }

    method ActivateSuccession(successor: Address) returns (r: Result<()>)
      requires Valid()
      modifies this
      ensures Valid() && (State(), r) == Activate(old(State()), successor)
      ensures r.Err? ==> State() == old(State())
      ensures r.Ok? <==> old(plan).Some? && !old(plan).value.activated && old(plan).value.successor == successor
                         && old(plan).value.activatableAfter <= core.now && old(config).Some?
      ensures r.Ok? ==> config.Some? && plan == Some(old(plan).value.(activated := true)) && config.value.required == old(config).value.required
      ensures r.Ok? ==> forall x :: x in config.value.admins <==> x in old(config).value.admins || x == successor
    {
      hide ProposalsSound, QuorumSound, LifecycleLaws.Inv, AdminLaws.Inv;
      StepKeeps(State(), Activating(successor));
      if plan.None? {
        return Err(Unauthorized);
      }
      var p := plan.value;
      if p.activated {
        return Err(AlreadyProcessed);
      }
      if p.successor != successor {
        return Err(Unauthorized);
      }
      if core.now < p.activatableAfter {
        return Err(NotReady);
      }
      if config.None? {
        return Err(MultiSigNotInitialized);
      }
      var c := config.value;
      if successor !in c.admins {
        c := c.(admins := c.admins + [successor], total := c.total + 1);
        config := Some(c);
      }
      plan := Some(p.(activated := true));
      r := Ok(());
    }

    method RevokeSuccession(admin: Address) returns (r: Result<()>)
      requires Valid()
      modifies this
      ensures Valid() && (State(), r) == Revoke(old(State()), admin)
      ensures r.Err? ==> State() == old(State())
      ensures r.Ok? <==> old(config).Some? && admin in old(config).value.admins && old(plan).Some? && !old(plan).value.activated
      ensures r.Ok? ==> plan.None? && config == old(config)
    {
      hide ProposalsSound, QuorumSound, LifecycleLaws.Inv, AdminLaws.Inv;
      StepKeeps(State(), Revoking(admin));
      if config.None? {
        return Err(MultiSigNotInitialized);
      }
      if admin !in config.value.admins {
        return Err(NotAnAdmin);
      }
      if plan.None? {
        return Err(Unauthorized);
      }
      if plan.value.activated {
        return Err(AlreadyProcessed);
      }
      plan := None;
      r := Ok(());
    }
  }
}
