/** Vesting escrows as the contract creates them: the record in the escrow contract and the schedule
    beside it, under one id. */
module VestingEscrows {
  import opened Common
  import opened Lifecycle
  import LifecycleLaws
  import LifecycleContract
  import Vesting
  import VestingContract
  import opened VestingPayouts

  class VestingEscrows {
    const core: LifecycleContract.EscrowContract
    var schedules: map<nat, Vesting.State>

    constructor ()
      ensures Valid() && fresh(core) && fresh(core.queue) && State() == EMPTY_JOINT
    {
      core := new LifecycleContract.EscrowContract();
      schedules := map[];
    }

    function State(): Joint
      reads this, core, core.queue
    {
      Joint(core.State(), schedules)
    }

    ghost predicate Valid()
      reads this, core, core.queue
    {
      core.Valid()
    }

    /** Stores record and schedule under a new id, or refuses the times or the milestones with no change. */
    method CreateVestingEscrow(customer: Address, merchant: Address, amount: int, feeBps: int, cliff: nat, end: nat,
                               milestones: seq<Vesting.Milestone>, net: Net) returns (r: Result<nat>)
      requires Valid()
      modifies this, core
      ensures Valid()
      ensures State() == Step(old(State()), Calling(LifecycleLaws.Call(
                LifecycleLaws.CreatingVesting(customer, merchant, amount, feeBps, cliff, end, milestones), net)))
      ensures r.Err? ==> State() == old(State())
      ensures r.Ok? ==> r.value !in old(core.escrows) && r.value in core.escrows && r.value in schedules
      ensures r.Ok? ==> schedules[r.value].schedule ==
                        Some(Vesting.Schedule(amount, 0, old(core.now), cliff, end, Vesting.AssignIds(milestones)))
    {
      hide LifecycleLaws.Inv, Vesting.Admissible, CreateVesting, Vesting.AssignIds;
      VestingOutcome(core.State(), customer, merchant, amount, feeBps, cliff, end, milestones);
      r := core.CreateVestingRecord(customer, merchant, amount, feeBps, cliff, end, milestones);
      if r.Err? {
        return;
      }
      var indexed := VestingContract.IndexMilestones(milestones);
      schedules := schedules[r.value := Vesting.State(Some(Vesting.Schedule(amount, 0, core.now, cliff, end, indexed)), None, core.now, 0, 0)];
    }
  }

  lemma VestingOutcome(core: Lifecycle.State, customer: Address, merchant: Address, amount: int, feeBps: int, cliff: nat, end: nat,
                       milestones: seq<Vesting.Milestone>)
    ensures var o := CreateVesting(core, customer, merchant, amount, feeBps, cliff, end, milestones);
            && (o.result.Ok? <==> Vesting.Admissible(core.now, amount, cliff, end, milestones))
            && (o.result.Err? ==> o.state == core)
            && (o.result.Ok? ==> o.state.counter == core.counter + 1 && o.state.now == core.now)
  {
    hide Vesting.Admissible;
  }
}
