/** The admins of the contract: who they are, the proposals they approve, what executing one does,
    and the succession plan. Executed proposals act on the single-escrow state machine. */
module AdminCouncil {
  import opened Common
  import opened Codec
  import opened Lifecycle
  import LifecycleLaws

  datatype Action =
    | ReleaseEscrow
    | ResolveDispute
    | CompletePayment
    | RefundPayment
    | AddAdmin
    | RemoveAdmin
    | UpdateRequiredSignatures
    | UpdateThreshold(newThreshold: nat)

  datatype Config = Config(admins: seq<Address>, required: nat, total: nat, proposalTtl: nat)

  datatype Proposal = Proposal(
    proposer: Address,
    action: Action,
    target: Address,
    data: seq<Byte>,
    approvals: seq<Address>,
    approvalCount: nat,
    executed: bool,
    rejected: bool,
    createdAt: nat,
    expiresAt: nat)

  datatype Plan = Plan(successor: Address, designatedBy: Address, designatedAt: nat, activatableAfter: nat, activated: bool)

  /** The storage. `executions` and `phantoms` are not stored: they count, per proposal, how often it
      took effect, and how often an executed proposal has removed somebody who was no admin. */
  datatype Council = Council(
    config: Option<Config>,
    proposals: map<string, Proposal>,
    counter: nat,
    plan: Option<Plan>,
    core: Lifecycle.State,
    executions: map<string, nat>,
    phantoms: nat)

  const FOUNDED := Council(None, map[], 0, None, INITIAL, map[], 0)

  /** The address of 32 zero bytes. */
  const ZERO_ADDRESS := Address(1)

  const TWO_32: nat := 0x1_0000_0000

  // ----- Admins -----

  /** A second initialization panics. */
  function Initialize(s: Council, admin: Address): (Council, Result<()>) {
    if s.config.Some? then (s, Err(AlreadyInitialized))
    else (s.(config := Some(Config([admin], 1, 1, 604800))), Ok(()))
  }

  function WithAdmin(c: Config, a: Address): Config {
    if a in c.admins then c else c.(admins := c.admins + [a], total := c.total + 1)
  }

  function AddAdminDirectly(s: Council, caller: Address, a: Address): (Council, Result<()>) {
    if s.config.None? then (s, Err(MultiSigNotInitialized))
    else if caller !in s.config.value.admins then (s, Err(NotAnAdmin))
    else (s.(config := Some(WithAdmin(s.config.value, a))), Ok(()))
  }

  function RemoveAdminDirectly(s: Council, caller: Address, a: Address): (Council, Result<()>) {
    if s.config.None? then (s, Err(MultiSigNotInitialized))
    else
      var c := s.config.value;
      if caller !in c.admins then (s, Err(NotAnAdmin))
      else if c.total <= c.required then (s, Err(InvalidStatus))
      else if |Without(c.admins, a)| == |c.admins| then (s, Err(NotAnAdmin))
      else (s.(config := Some(c.(admins := Without(c.admins, a), total := c.total - 1))), Ok(()))
  }

  // ----- Proposals -----

  /** The id is the decimal numeral of the counter. Counting past the largest number panics. */
  function Propose(s: Council, proposer: Address, action: Action, target: Address, data: seq<Byte>): (Council, Result<string>) {
    if s.config.None? then (s, Err(MultiSigNotInitialized))
    else if proposer !in s.config.value.admins then (s, Err(NotAnAdmin))
    else if s.counter >= U64_MAX then (s, Err(CounterOverflow))
    else
      var id := Decimal(s.counter + 1);
      var p := Proposal(proposer, action, target, data, [proposer], 1, false, false, s.core.now,
                        s.core.now + s.config.value.proposalTtl);
      (s.(counter := s.counter + 1, proposals := s.proposals[id := p], executions := s.executions[id := 0]), Ok(id))
  }

  function Approve(s: Council, approver: Address, id: string): (Council, Result<()>) {
    if s.config.None? then (s, Err(MultiSigNotInitialized))
    else if approver !in s.config.value.admins then (s, Err(NotAnAdmin))
    else if id !in s.proposals then (s, Err(Unauthorized))
    else
      var p := s.proposals[id];
      if p.executed || p.rejected || s.core.now > p.expiresAt then (s, Err(InvalidStatus))
      else if approver in p.approvals then (s, Err(AlreadyApproved))
      else (s.(proposals := s.proposals[id := p.(approvals := p.approvals + [approver], approvalCount := p.approvalCount + 1)]), Ok(()))
  }

  function Reject(s: Council, rejecter: Address, id: string): (Council, Result<()>) {
    if s.config.None? then (s, Err(MultiSigNotInitialized))
    else if rejecter !in s.config.value.admins then (s, Err(NotAnAdmin))
    else if id !in s.proposals then (s, Err(Unauthorized))
    else
      var p := s.proposals[id];
      if p.executed || p.rejected then (s, Err(InvalidStatus))
      else (s.(proposals := s.proposals[id := p.(rejected := true)]), Ok(()))
  }

  /** Removal by proposal does not ask whether the target is an admin, and counts one down anyway. */
  function DispatchConfig(c: Config, p: Proposal): Result<Config> {
    match p.action
    case AddAdmin => Ok(WithAdmin(c, p.target))
    case RemoveAdmin =>
      if c.total <= c.required then Err(InvalidStatus)
      else Ok(c.(admins := Without(c.admins, p.target), total := c.total - 1))
    case UpdateRequiredSignatures =>
      var required := FromBigEndian(Window(p.data, 0, 8)) % TWO_32;
      if required == 0 || required > c.total then Err(InvalidThreshold) else Ok(c.(required := required))
    case UpdateThreshold(required) =>
      if required == 0 then Err(InvalidThreshold)
      else if required > c.total then Err(InsufficientAdmins)
      else Ok(c.(required := required))
    case _ => Ok(c)
  }

  /** Escrow id and flag stand in the first nine bytes of the data. */
  function DispatchEscrow(core: Lifecycle.State, p: Proposal, feeRecipient: Address, net: Net): Outcome {
    var id := FromBigEndian(Window(p.data, 0, 8));
    var flag := ByteAt(p.data, 8) != 0;
    match p.action
    case ReleaseEscrow => DispatchRelease(core, id, flag, feeRecipient, net)
    case ResolveDispute => DispatchResolve(core, id, flag, net)
    case _ => Outcome(core, Ok(()))
  }

  function Phantom(c: Config, p: Proposal): nat {
    if p.action.RemoveAdmin? && p.target !in c.admins then 1 else 0
  }

  function Executions(s: Council, id: string): nat {
    if id in s.executions then s.executions[id] else 0
  }

  /** Enough approvals and in time; whatever the action fails with undoes the execution. */
  function Execute(s: Council, id: string, feeRecipient: Address, net: Net): (Council, Result<()>) {
    if s.config.None? then (s, Err(MultiSigNotInitialized))
    else if id !in s.proposals then (s, Err(Unauthorized))
    else
      var p, c := s.proposals[id], s.config.value;
      if p.executed || p.rejected || s.core.now > p.expiresAt || p.approvalCount < c.required then (s, Err(InvalidStatus))
      else
        var config, o := DispatchConfig(c, p), DispatchEscrow(s.core, p, feeRecipient, net);
        if config.Err? then (s, Err(config.error))
        else if o.result.Err? then (s, Err(o.result.error))
        else (s.(config := Some(config.value),
                 proposals := s.proposals[id := p.(executed := true)],
                 core := o.state,
                 executions := s.executions[id := Executions(s, id) + 1],
                 phantoms := s.phantoms + Phantom(c, p)), Ok(()))
  }

  // ----- Succession -----

  function Designate(s: Council, admin: Address, successor: Address, delaySeconds: nat): (Council, Result<()>) {
    if s.config.None? then (s, Err(MultiSigNotInitialized))
    else if admin !in s.config.value.admins then (s, Err(NotAnAdmin))
    else if successor == ZERO_ADDRESS then (s, Err(InvalidAddress))
    else if successor == admin then (s, Err(SameBeneficiary))
    else if s.plan.Some? && !s.plan.value.activated then (s, Err(SuccessionPlanExists))
    else
      (s.(plan := Some(Plan(successor, admin, s.core.now, SaturatingAdd(s.core.now, delaySeconds), false))), Ok(()))
  }

  function Activate(s: Council, successor: Address): (Council, Result<()>) {
    if s.plan.None? then (s, Err(Unauthorized))
    else
      var plan := s.plan.value;
      if plan.activated then (s, Err(AlreadyProcessed))
      else if plan.successor != successor then (s, Err(Unauthorized))
      else if s.core.now < plan.activatableAfter then (s, Err(NotReady))
      else if s.config.None? then (s, Err(MultiSigNotInitialized))
      else (s.(config := Some(WithAdmin(s.config.value, successor)), plan := Some(plan.(activated := true))), Ok(()))
  }

  function Revoke(s: Council, admin: Address): (Council, Result<()>) {
    if s.config.None? then (s, Err(MultiSigNotInitialized))
    else if admin !in s.config.value.admins then (s, Err(NotAnAdmin))
    else if s.plan.None? then (s, Err(Unauthorized))
    else if s.plan.value.activated then (s, Err(AlreadyProcessed))
    else (s.(plan := None), Ok(()))
  }
}
