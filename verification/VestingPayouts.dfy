/** Vesting escrows as the contract stores them: an ordinary record and a schedule beside it. Milestones
    are paid from the schedule and the record is settled like any other, and neither asks the other. */
module VestingPayouts {
  import opened Common
  import opened Lifecycle
  import LifecycleLaws
  import opened Settlement
  import Vesting
  import VestingLaws

  /** Every schedule with its histories; the clock is that of the escrow machine. */
  datatype Joint = Joint(core: Lifecycle.State, schedules: map<nat, Vesting.State>)

  datatype Op = Calling(call: LifecycleLaws.Call) | Scheduling(id: nat, op: VestingLaws.Op)

  const EMPTY_JOINT := Joint(INITIAL, map[])

  function NewSchedule(now: nat, op: LifecycleLaws.Op): Vesting.State
    requires op.CreatingVesting?
  {
    Vesting.Create(Vesting.INITIAL.(now := now), op.amount, op.cliff, op.end, op.milestones).0
  }

  /** The call creates a vesting escrow. */
  predicate Creates(core: Lifecycle.State, call: LifecycleLaws.Call) {
    call.op.CreatingVesting? && Vesting.Admissible(core.now, call.op.amount, call.op.cliff, call.op.end, call.op.milestones)
  }

  /** A schedule as a call at this time finds it. */
  function At(v: Vesting.State, now: nat): Vesting.State {
    v.(now := now)
  }

  function Step(j: Joint, op: Op): Joint {
    match op
    case Calling(call) =>
      var core' := LifecycleLaws.Step(j.core, call);
      Joint(core', if Creates(j.core, call) then j.schedules[core'.counter := NewSchedule(j.core.now, call.op)] else j.schedules)
    case Scheduling(id, vop) =>
      if id !in j.schedules || vop.Creating? || vop.Ticking? then j
      else j.(schedules := j.schedules[id := VestingLaws.Step(At(j.schedules[id], j.core.now), vop)])
  }

  function Run(j: Joint, ops: seq<Op>): Joint
    decreases |ops|
  {
    if ops == [] then j else Run(Step(j, ops[0]), ops[1..])
  }

  // ----- One schedule -----

  /** The milestones paid are among those marked as released, and all milestones fit the total. */
  ghost predicate MilestonesPaid(v: Vesting.State) {
    && v.schedule.Some? && VestingLaws.Safe(v)
    && 0 <= v.transferred <= VestingLaws.ReleasedSum(v.schedule.value.milestones)
  }

  lemma PaidWithinTotal(v: Vesting.State)
    requires MilestonesPaid(v)
    ensures 0 <= v.transferred <= v.schedule.value.total
  {
    VestingLaws.RoomForUnreleased(v.schedule.value.milestones, 0);
  }

  lemma {:induction false} MarkingAdds(ms: seq<Vesting.Milestone>, now: nat, released: int)
    requires VestingLaws.NonNegative(ms)
    ensures VestingLaws.ReleasedSum(ms) <= VestingLaws.ReleasedSum(Vesting.MarkReleased(ms, now, released))
  {
    if ms != [] {
      var n := |ms| - 1;
      assert Vesting.MarkReleased(ms, now, released)[..n] == Vesting.MarkReleased(ms[..n], now, released);
      MarkingAdds(ms[..n], now, released);
    }
  }

  lemma AppendingAdds(ms: seq<Vesting.Milestone>, m: Vesting.Milestone)
    requires m.amount >= 0
    ensures VestingLaws.ReleasedSum(ms) <= VestingLaws.ReleasedSum(ms + [m])
  {
    assert (ms + [m])[..|ms|] == ms;
  }

  lemma DrawKeepsPaid(v: Vesting.State)
    requires MilestonesPaid(v)
    ensures MilestonesPaid(Vesting.ReleaseVested(v).0)
  {
    VestingLaws.ReleaseVestedSafe(v);
    var s := v.schedule.value;
    assert VestingLaws.NonNegative(s.milestones);
    hide VestingLaws.Safe, Vesting.VestedNow;
    MarkingAdds(s.milestones, v.now, s.released + (Vesting.VestedNow(v) - s.released));
  }

  lemma MilestoneKeepsPaid(v: Vesting.State, admin: Address, id: nat, refused: bool)
    requires MilestonesPaid(v)
    ensures MilestonesPaid(Vesting.ApproveMilestone(v, admin, id).0) && MilestonesPaid(Vesting.ReleaseMilestone(v, id, refused).0)
  {
    VestingLaws.MilestoneStepSafe(v, admin, id, refused);
    var ms := v.schedule.value.milestones;
    assert VestingLaws.NonNegative(ms);
    var i := Vesting.FirstWithId(ms, id);
    hide VestingLaws.Safe, VestingLaws.ReleasedSum;
    if i.Some? && !ms[i.value].released {
      VestingLaws.ReleasedUpdate(ms, i.value, ms[i.value].(approvedBy := Some(admin), approvedAt := Some(v.now)));
      VestingLaws.ReleasedUpdate(ms, i.value, ms[i.value].(released := true));
    }
  }

  /** Only a milestone that is paid adds to what was transferred, and nothing changes the total. */
  lemma ScheduleTotals(v: Vesting.State, op: VestingLaws.Op)
    requires v.schedule.Some?
    ensures var v' := VestingLaws.Step(v, op);
            && v'.schedule.Some? && v'.schedule.value.total == v.schedule.value.total
            && v'.transferred == v.transferred +
               if op.ReleasingMilestone? && Vesting.ReleaseMilestone(v, op.id, op.refused).1.Ok?
               then Vesting.ReleaseMilestone(v, op.id, op.refused).1.value else 0
  {
    hide Vesting.VestedNow, Vesting.MarkReleased, Vesting.FirstWithId, Vesting.AmountSum;
  }

  lemma ScheduleStep(v: Vesting.State, op: VestingLaws.Op)
    requires MilestonesPaid(v) && VestingLaws.Ordinary(op)
    ensures MilestonesPaid(VestingLaws.Step(v, op))
  {
    match op {
      case ReleasingVested => DrawKeepsPaid(v);
      case ApprovingMilestone(admin, id) => MilestoneKeepsPaid(v, admin, id, false);
      case ReleasingMilestone(id, refused) => MilestoneKeepsPaid(v, Address(0), id, refused);
      case AddingMilestone(m) => AdditionKeepsPaid(v, m);
      case _ =>
        hide VestingLaws.Safe, VestingLaws.ReleasedSum, Vesting.Create;
        VestingLaws.StepSafe(v, op);
    }
  }

  lemma AdditionKeepsPaid(v: Vesting.State, m: Vesting.Milestone)
    requires MilestonesPaid(v) && m.amount >= 0
    ensures MilestonesPaid(Vesting.AddMilestone(v, m).0)
  {
    VestingLaws.AddSafe(v, m);
    hide VestingLaws.Safe, VestingLaws.ReleasedSum, Vesting.AmountSum;
    var ms := v.schedule.value.milestones;
    AppendingAdds(ms, if m.id == 0 then m.(id := |ms| + 1) else m);
  }

  lemma NewSchedulePaid(now: nat, op: LifecycleLaws.Op)
    requires op.CreatingVesting? && Vesting.Admissible(now, op.amount, op.cliff, op.end, op.milestones)
    requires op.amount >= 0 && VestingLaws.NonNegative(op.milestones)
    ensures var v := NewSchedule(now, op); MilestonesPaid(v) && v.transferred == 0 && v.schedule.value.total == op.amount
  {
    VestingLaws.CreateSafe(Vesting.INITIAL.(now := now), op.amount, op.cliff, op.end, op.milestones);
    assert VestingLaws.NonNegative(Vesting.AssignIds(op.milestones));
    VestingLaws.RoomForUnreleased(Vesting.AssignIds(op.milestones), 0);
  }

  // ----- Record and schedule together -----

  /** Ordinary calls name no negative amounts. */
  ghost predicate Ordinary(op: Op) {
    match op
    case Calling(call) => call.op.CreatingVesting? ==> call.op.amount >= 0 && VestingLaws.NonNegative(call.op.milestones)
    case Scheduling(_, vop) => VestingLaws.Ordinary(vop)
  }

  ghost predicate Linked(j: Joint, id: nat) {
    id in j.schedules ==>
      id in j.core.escrows && MilestonesPaid(j.schedules[id]) && j.schedules[id].schedule.value.total == j.core.escrows[id].amount
  }

  ghost predicate Inv(j: Joint) {
    LifecycleLaws.Inv(j.core) && forall id :: Linked(j, id)
  }

  lemma CreatedRecord(core: Lifecycle.State, call: LifecycleLaws.Call)
    requires LifecycleLaws.RecordsSound(core) && Creates(core, call)
    ensures var core' := LifecycleLaws.Step(core, call);
            && core'.counter == core.counter + 1 && core'.counter !in core.escrows && core'.counter in core'.escrows
            && core'.escrows[core'.counter].amount == call.op.amount && core'.escrows[core'.counter].status.Locked?
            && PaidFor(core', core'.counter) == []
            && forall id :: id != core'.counter ==> PaidFor(core', id) == PaidFor(core, id)
  {
    hide Vesting.Admissible;
  }

  lemma CallKeeps(j: Joint, call: LifecycleLaws.Call)
    requires Inv(j) && Ordinary(Calling(call))
    ensures Inv(Step(j, Calling(call)))
  {
    var j' := Step(j, Calling(call));
    RecordsOf(j.core);
    LifecycleLaws.StepKeeps(j.core, call);
    if Creates(j.core, call) {
      CreatedRecord(j.core, call);
      NewSchedulePaid(j.core.now, call.op);
    }
    hide LifecycleLaws.Inv, LifecycleLaws.Step, LifecycleLaws.RecordsSound, Creates, NewSchedule, MilestonesPaid, LifecycleLaws.Accounted;
    forall id ensures Linked(j', id) {
      assert Linked(j, id);
      assert id in j.core.escrows ==>
          LifecycleLaws.EscrowStep(j.core.escrows[id], PaidFor(j.core, id), j'.core.escrows[id], PaidFor(j'.core, id));
    }
  }

  lemma RecordsOf(core: Lifecycle.State)
    requires LifecycleLaws.Inv(core)
    ensures LifecycleLaws.RecordsSound(core)
  {}

  lemma SchedulingKeeps(j: Joint, id: nat, vop: VestingLaws.Op)
    requires Inv(j) && Ordinary(Scheduling(id, vop))
    ensures Inv(Step(j, Scheduling(id, vop)))
  {
    var j' := Step(j, Scheduling(id, vop));
    if j' != j {
      assert Linked(j, id);
      var v := At(j.schedules[id], j.core.now);
      assert MilestonesPaid(v);
      ScheduleStep(v, vop);
      ScheduleTotals(v, vop);
      hide MilestonesPaid, VestingLaws.Step, LifecycleLaws.Inv;
      forall x ensures Linked(j', x) {
        assert Linked(j, x);
      }
    }
  }

  lemma StepKeeps(j: Joint, op: Op)
    requires Inv(j) && Ordinary(op)
    ensures Inv(Step(j, op))
  {
    hide Inv, Step, Ordinary;
    match op
    case Calling(call) => CallKeeps(j, call);
    case Scheduling(id, vop) => SchedulingKeeps(j, id, vop);
  }

  // ----- What a vesting escrow has been paid -----

  /** By the settlement of its record and by its milestones. */
  function PaidOut(j: Joint, id: nat): int
    requires id in j.schedules
  {
    LifecycleLaws.Total(PaidFor(j.core, id)) + j.schedules[id].transferred
  }

  ghost predicate WithinAmount(j: Joint, id: nat) {
    id in j.schedules && id in j.core.escrows && LifecycleLaws.Sane(j.core.escrows[id]) ==> PaidOut(j, id) <= j.core.escrows[id].amount
  }

  ghost predicate Clean(j: Joint, op: Op, id: nat) {
    op.Calling? ==> CleanCall(j.core, op.call, id)
  }

  /** The record is settled. */
  predicate IsSettled(core: Lifecycle.State, id: nat) {
    id in core.escrows && LifecycleLaws.Settled(core.escrows[id])
  }

  /** The calls that pay a vesting escrow beyond its amount: a milestone of some amount is paid after the
      record was settled, or the record is settled after milestones were paid. */
  predicate Overpays(j: Joint, op: Op, id: nat) {
    && id in j.schedules && id in j.core.escrows && LifecycleLaws.Sane(j.core.escrows[id])
    && match op
       case Calling(call) =>
         !IsSettled(j.core, id) && IsSettled(LifecycleLaws.Step(j.core, call), id) && j.schedules[id].transferred > 0
       case Scheduling(x, vop) =>
         && x == id && vop.ReleasingMilestone? && IsSettled(j.core, id)
         && var r := Vesting.ReleaseMilestone(At(j.schedules[id], j.core.now), vop.id, vop.refused).1;
         r.Ok? && r.value > 0
  }

  /** The record paid in full once settled, and not before; the milestones on top. */
  lemma PaidOutIs(j: Joint, id: nat)
    requires Inv(j) && InFull(j.core, id) && id in j.schedules && id in j.core.escrows && LifecycleLaws.Sane(j.core.escrows[id])
    ensures PaidOut(j, id) == (if IsSettled(j.core, id) then j.core.escrows[id].amount else 0) + j.schedules[id].transferred
    ensures 0 <= j.schedules[id].transferred <= j.core.escrows[id].amount
    ensures WithinAmount(j, id) <==> !IsSettled(j.core, id) || j.schedules[id].transferred == 0
  {
    RecordsOf(j.core);
    assert Linked(j, id);
    PaidWithinTotal(j.schedules[id]);
    hide LifecycleLaws.Inv, MilestonesPaid;
  }

  lemma CallOverpaysIff(j: Joint, call: LifecycleLaws.Call, id: nat)
    requires Inv(j) && Ordinary(Calling(call)) && InFull(j.core, id) && CleanCall(j.core, call, id) && WithinAmount(j, id)
    ensures var j' := Step(j, Calling(call)); InFull(j'.core, id) && (WithinAmount(j', id) <==> !Overpays(j, Calling(call), id))
  {
    var j' := Step(j, Calling(call));
    CleanStepInFull(j.core, call, id);
    CallKeeps(j, call);
    RecordsOf(j.core);
    LifecycleLaws.StepKeeps(j.core, call);
    if id in j.schedules {
      assert Linked(j, id);
      assert LifecycleLaws.EscrowStep(j.core.escrows[id], PaidFor(j.core, id), j'.core.escrows[id], PaidFor(j'.core, id));
      OldSchedule(j, call, id);
      hide Inv, InFull, LifecycleLaws.Inv, LifecycleLaws.Step, Step, LifecycleLaws.Accounted, CleanCall, WithinAmount, Creates;
      if LifecycleLaws.Sane(j.core.escrows[id]) {
        PaidOutIs(j, id);
        PaidOutIs(j', id);
      } else {
        NotSane(j, id);
        NotSane(j', id);
      }
    } else if id in j'.schedules {
      NewWithin(j, call, id);
    } else {
      assert WithinAmount(j', id);
    }
  }

  lemma NotSane(j: Joint, id: nat)
    requires id in j.core.escrows && !LifecycleLaws.Sane(j.core.escrows[id])
    ensures WithinAmount(j, id)
  {}

  lemma OldSchedule(j: Joint, call: LifecycleLaws.Call, id: nat)
    requires LifecycleLaws.RecordsSound(j.core) && id in j.schedules && id in j.core.escrows
    ensures var j' := Step(j, Calling(call)); id in j'.schedules && j'.schedules[id] == j.schedules[id]
  {
    if Creates(j.core, call) {
      CreatedRecord(j.core, call);
    }
  }

  lemma NewWithin(j: Joint, call: LifecycleLaws.Call, id: nat)
    requires Inv(j) && Ordinary(Calling(call)) && id !in j.schedules && id in Step(j, Calling(call)).schedules
    ensures WithinAmount(Step(j, Calling(call)), id)
  {
    RecordsOf(j.core);
    CreatedRecord(j.core, call);
    NewSchedulePaid(j.core.now, call.op);
    hide LifecycleLaws.Step, NewSchedule, MilestonesPaid, Inv;
  }

  lemma ScheduleOverpaysIff(j: Joint, x: nat, vop: VestingLaws.Op, id: nat)
    requires Inv(j) && Ordinary(Scheduling(x, vop)) && InFull(j.core, id) && WithinAmount(j, id)
    ensures var op := Scheduling(x, vop);
            var j' := Step(j, op); InFull(j'.core, id) && (WithinAmount(j', id) <==> !Overpays(j, op, id))
  {
    var op := Scheduling(x, vop);
    var j' := Step(j, op);
    SchedulingKeeps(j, x, vop);
    if j' != j && x == id {
      assert Linked(j, id);
      var v := At(j.schedules[id], j.core.now);
      assert MilestonesPaid(v);
      ScheduleStep(v, vop);
      ScheduleTotals(v, vop);
      hide Inv, InFull, MilestonesPaid, WithinAmount, VestingLaws.Step, Vesting.ReleaseMilestone, VestingLaws.Ordinary;
      if LifecycleLaws.Sane(j.core.escrows[id]) {
        PaidOutIs(j, id);
        PaidOutIs(j', id);
      } else {
        NotSane(j, id);
        NotSane(j', id);
      }
    } else {
      SameElsewhere(j, x, vop, id);
    }
  }

  lemma SameElsewhere(j: Joint, x: nat, vop: VestingLaws.Op, id: nat)
    requires Step(j, Scheduling(x, vop)) == j || x != id
    requires Inv(j) && InFull(j.core, id) && Ordinary(Scheduling(x, vop))
    ensures WithinAmount(Step(j, Scheduling(x, vop)), id) <==> WithinAmount(j, id)
    ensures WithinAmount(j, id) ==> !Overpays(j, Scheduling(x, vop), id)
  {
    if x == id && Overpays(j, Scheduling(x, vop), id) {
      assert Linked(j, id);
      var v := At(j.schedules[id], j.core.now);
      assert MilestonesPaid(v);
      ScheduleStep(v, vop);
      ScheduleTotals(v, vop);
    }
  }

  // ----- Whole runs -----

  ghost predicate CleanRunFor(j: Joint, ops: seq<Op>, id: nat)
    decreases |ops|
  {
    ops != [] ==> Ordinary(ops[0]) && Clean(j, ops[0], id) && CleanRunFor(Step(j, ops[0]), ops[1..], id)
  }

  ghost predicate AlwaysWithinAmount(j: Joint, ops: seq<Op>, id: nat)
    decreases |ops|
  {
    WithinAmount(j, id) && (ops != [] ==> AlwaysWithinAmount(Step(j, ops[0]), ops[1..], id))
  }

  predicate NoneOverpays(j: Joint, ops: seq<Op>, id: nat)
    decreases |ops|
  {
    ops != [] ==> !Overpays(j, ops[0], id) && NoneOverpays(Step(j, ops[0]), ops[1..], id)
  }

  lemma {:induction false} RunOverpaysIff(j: Joint, ops: seq<Op>, id: nat)
    requires Inv(j) && InFull(j.core, id) && WithinAmount(j, id) && CleanRunFor(j, ops, id)
    ensures AlwaysWithinAmount(j, ops, id) <==> NoneOverpays(j, ops, id)
    decreases |ops|
  {
    if ops != [] {
      StepKeeps(j, ops[0]);
      match ops[0] {
        case Calling(call) => CallOverpaysIff(j, call, id);
        case Scheduling(x, vop) => ScheduleOverpaysIff(j, x, vop, id);
      }
      hide Inv, InFull, Step, WithinAmount, Overpays;
      if WithinAmount(Step(j, ops[0]), id) {
        RunOverpaysIff(Step(j, ops[0]), ops[1..], id);
      } else {
        assert !AlwaysWithinAmount(Step(j, ops[0]), ops[1..], id);
      }
    }
  }

  /** Over every joint run with ordinary amounts in which the record of a vesting escrow, if it is settled,
      is settled cleanly: record and milestones together never pay more than the amount if and only if no
      milestone is paid after the record was settled and the record is not settled after a milestone was
      paid. */
  lemma WithinAmountIff(ops: seq<Op>, id: nat)
    requires CleanRunFor(EMPTY_JOINT, ops, id)
    ensures AlwaysWithinAmount(EMPTY_JOINT, ops, id) <==> NoneOverpays(EMPTY_JOINT, ops, id)
  {
    assert forall x :: Linked(EMPTY_JOINT, x);
    assert LifecycleLaws.Inv(INITIAL);
    RunOverpaysIff(EMPTY_JOINT, ops, id);
  }

  // ----- The stored figure -----

  /** Milestones come unreleased, and nothing is drawn from schedule `id` by time. */
  ghost predicate ByMilestone(op: Op, id: nat) {
    match op
    case Calling(call) => call.op.CreatingVesting? ==> VestingLaws.ByMilestone(AsCreation(call.op))
    case Scheduling(x, vop) => x == id ==> VestingLaws.ByMilestone(vop)
  }

  function AsCreation(op: LifecycleLaws.Op): VestingLaws.Op
    requires op.CreatingVesting?
  {
    VestingLaws.Creating(op.amount, op.cliff, op.end, op.milestones)
  }

  ghost predicate LedgerOf(j: Joint, id: nat) {
    id in j.schedules ==> j.schedules[id].schedule.Some? && VestingLaws.Ledger(j.schedules[id])
  }

  lemma LedgerStepOf(j: Joint, op: Op, id: nat)
    requires LedgerOf(j, id) && ByMilestone(op, id)
    ensures LedgerOf(Step(j, op), id)
  {
    hide VestingLaws.Ledger;
    match op
    case Calling(call) =>
      hide LifecycleLaws.Step;
      if Creates(j.core, call) {
        var v := Vesting.INITIAL.(now := j.core.now);
        assert VestingLaws.Ledger(v) by { InitialLedger(j.core.now); }
        VestingLaws.LedgerStep(v, AsCreation(call.op));
      }
    case Scheduling(x, vop) =>
      if x == id && id in j.schedules {
        SameLedger(j.schedules[id], j.core.now);
        VestingLaws.LedgerStep(At(j.schedules[id], j.core.now), vop);
        ScheduleTotals(At(j.schedules[id], j.core.now), vop);
      }
  }

  lemma InitialLedger(now: nat)
    ensures VestingLaws.Ledger(Vesting.INITIAL.(now := now))
  {}

  lemma SameLedger(v: Vesting.State, now: nat)
    requires VestingLaws.Ledger(v)
    ensures VestingLaws.Ledger(At(v, now))
  {}

  ghost predicate AllByMilestone(ops: seq<Op>, id: nat) {
    forall i :: 0 <= i < |ops| ==> ByMilestone(ops[i], id)
  }

  lemma {:induction false} LedgerRunOf(j: Joint, ops: seq<Op>, id: nat)
    requires LedgerOf(j, id) && AllByMilestone(ops, id)
    ensures LedgerOf(Run(j, ops), id)
    decreases |ops|
  {
    hide LedgerOf, ByMilestone, Step;
    if ops != [] {
      assert ByMilestone(ops[0], id);
      assert AllByMilestone(ops[1..], id) by {
        forall i | 0 <= i < |ops| - 1 ensures ByMilestone(ops[1..][i], id) { assert ops[1..][i] == ops[i + 1]; }
      }
      LedgerStepOf(j, ops[0], id);
      LedgerRunOf(Step(j, ops[0]), ops[1..], id);
    }
  }

  /** As long as nothing was drawn by time, what the milestones have paid is the stored released amount,
      so a caller can tell from the storage whether the settlement would overpay. */
  lemma TransferredIsReleased(ops: seq<Op>, id: nat)
    requires AllByMilestone(ops, id) && id in Run(EMPTY_JOINT, ops).schedules
    ensures var v := Run(EMPTY_JOINT, ops).schedules[id];
            v.schedule.Some? && v.transferred == v.schedule.value.released
  {
    LedgerRunOf(EMPTY_JOINT, ops, id);
  }

  // ----- A run that overpays -----

  function Sole(amount: int): Vesting.Milestone {
    Vesting.Milestone(1, 20, amount, false, None, None)
  }

  /** The only milestone of a vesting escrow is paid, and then the record is released: the amount has been
      paid twice. */
  lemma VestingPaidTwice(customer: Address, merchant: Address, admin: Address, amount: int, net: Net, feeRecipient: Address)
    requires amount > 0 && LifecycleLaws.MovesFor(net, 1)
    ensures var create := Calling(LifecycleLaws.Call(LifecycleLaws.CreatingVesting(customer, merchant, amount, 0, 10, 20, [Sole(amount)]), net));
            var release := Calling(LifecycleLaws.Call(LifecycleLaws.Releasing(1, false, None, Gate(true, true, true), feeRecipient), net));
            var tick := Calling(LifecycleLaws.Call(LifecycleLaws.Ticking(20), net));
            var paid := Step(Step(Step(EMPTY_JOINT, create), Scheduling(1, VestingLaws.ApprovingMilestone(admin, 1))),
                             Scheduling(1, VestingLaws.ReleasingMilestone(1, false)));
            var j := Step(Step(paid, tick), release);
            1 in j.schedules && PaidOut(j, 1) == 2 * amount
  {
    var create := Calling(LifecycleLaws.Call(LifecycleLaws.CreatingVesting(customer, merchant, amount, 0, 10, 20, [Sole(amount)]), net));
    var j1 := Step(EMPTY_JOINT, create);
    SoleCreated(customer, merchant, amount, net);
    var j2 := Step(j1, Scheduling(1, VestingLaws.ApprovingMilestone(admin, 1)));
    var j3 := Step(j2, Scheduling(1, VestingLaws.ReleasingMilestone(1, false)));
    SolePaid(j1.schedules[1], admin, amount);
    var tick := LifecycleLaws.Call(LifecycleLaws.Ticking(20), net);
    var j4 := Step(j3, Calling(tick));
    assert j4.core == j1.core.(now := 20);
    VestedRecordReleased(j4.core, merchant, amount, net, feeRecipient);
    hide LifecycleLaws.Step, VestingLaws.Step;
  }

  lemma SoleCreated(customer: Address, merchant: Address, amount: int, net: Net)
    requires amount > 0
    ensures var create := Calling(LifecycleLaws.Call(LifecycleLaws.CreatingVesting(customer, merchant, amount, 0, 10, 20, [Sole(amount)]), net));
            var j := Step(EMPTY_JOINT, create);
            && j.core.now == 0 && PaidFor(j.core, 1) == []
            && 1 in j.core.escrows && j.core.escrows[1] == NewEscrow(VestingTerms(customer, merchant, amount, 0, 20), 0)
            && 1 in j.schedules && j.schedules[1].transferred == 0
            && j.schedules[1].schedule == Some(Vesting.Schedule(amount, 0, 0, 10, 20, [Sole(amount)]))
  {
    var ms := [Sole(amount)];
    assert ms[..0] == [];
    assert Vesting.AmountSum(ms) == amount;
    assert Vesting.AssignIds(ms) == ms;
  }

  lemma SolePaid(v: Vesting.State, admin: Address, amount: int)
    requires v.schedule == Some(Vesting.Schedule(amount, 0, 0, 10, 20, [Sole(amount)])) && v.transferred == 0 && v.now == 0
    ensures var v1 := VestingLaws.Step(At(v, 0), VestingLaws.ApprovingMilestone(admin, 1));
            VestingLaws.Step(At(v1, 0), VestingLaws.ReleasingMilestone(1, false)).transferred == amount
  {
    var m := Sole(amount);
    var m1 := m.(approvedBy := Some(admin), approvedAt := Some(0));
    assert [m][..0] == [] && [m1][..0] == [];
    assert Vesting.FirstWithId([m], 1) == Some(0);
    assert [m][0 := m1] == [m1];
    assert Vesting.FirstWithId([m1], 1) == Some(0);
  }

  lemma VestedRecordReleased(core: Lifecycle.State, merchant: Address, amount: int, net: Net, feeRecipient: Address)
    requires 1 in core.escrows && core.escrows[1].status.Locked? && core.now == 20 && core.escrows[1].releaseTimestamp == 20
    requires core.escrows[1].createdAt == 0 && core.escrows[1].minHoldPeriod == 0 && core.escrows[1].amount == amount
    requires core.escrows[1].feeBps == 0 && PaidFor(core, 1) == [] && LifecycleLaws.MovesFor(net, 1)
    ensures var release := LifecycleLaws.Call(LifecycleLaws.Releasing(1, false, None, Gate(true, true, true), feeRecipient), net);
            LifecycleLaws.Total(PaidFor(LifecycleLaws.Step(core, release), 1)) == amount
  {
    var e := core.escrows[1];
    var legs := FeeLegs(e, e.merchant, feeRecipient);
    LifecycleLaws.FeeLegsTotal(e, e.merchant, feeRecipient);
    LifecycleLaws.PayMoves([], legs, 1, net);
    assert [] + legs == legs;
    assert FeeOf(e.amount, e.feeBps) == 0;
    hide FeeLegs, Pay, LifecycleLaws.Total;
  }
}
