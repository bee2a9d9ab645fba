/** The vesting schedule as the contract runs it: loops over the stored milestones, and a failing
    call leaves nothing behind. */
module VestingContract {
  import opened Common
  import opened Vesting
  import opened VestingLaws
  import opened VestingCurve

  method MilestoneTotal(ms: seq<Milestone>) returns (sum: int)
    ensures sum == AmountSum(ms)
  {
    sum := 0;
    for i := 0 to |ms|
      invariant sum == AmountSum(ms[..i])
    {
      sum := sum + ms[i].amount;
      assert ms[..i + 1][..i] == ms[..i];
    }
    assert ms[..|ms|] == ms;
  }

  /** The checks of the milestones given at creation. */
  method CheckMilestones(ms: seq<Milestone>, amount: int, cliff: nat, end: nat) returns (ok: bool)
    ensures ok <==> AllWithin(ms, cliff, end) && AmountSum(ms) == amount
  {
    var total := 0;
    for i := 0 to |ms|
      invariant total == AmountSum(ms[..i])
      invariant forall j :: 0 <= j < i ==> WithinSchedule(ms[j], cliff, end)
    {
      total := total + ms[i].amount;
      assert ms[..i + 1][..i] == ms[..i];
      if ms[i].unlockTimestamp < cliff {
        return false;
      }
      if ms[i].unlockTimestamp > end {
        return false;
      }
    }
    assert ms[..|ms|] == ms;
    ok := total == amount;
  }

  method IndexMilestones(ms: seq<Milestone>) returns (indexed: seq<Milestone>)
    ensures indexed == AssignIds(ms)
  {
    indexed := [];
    for i := 0 to |ms|
      invariant indexed == AssignIds(ms)[..i]
    {
      var m := ms[i];
      if m.id == 0 {
        m := m.(id := i + 1);
      }
      indexed := indexed + [m];
    }
  }

  lemma FirstInPrefix(ms: seq<Milestone>, id: nat, i: nat)
    requires i < |ms| && ms[i].id == id && forall j :: 0 <= j < i ==> ms[j].id != id
    ensures FirstWithId(ms, id) == Some(i)
  {}

  class VestingContract {
    var schedule: Option<Schedule>
    var acceleration: Option<Acceleration>
    var now: nat
    var returned: int
    var transferred: int

    constructor ()
      ensures State() == INITIAL
    {
      schedule, acceleration, now, returned, transferred := None, None, 0, 0, 0;
    }

    function State(): State
      reads this
    {
      Vesting.State(schedule, acceleration, now, returned, transferred)
    }

    method CreateVestingEscrow(amount: int, cliff: nat, end: nat, milestones: seq<Milestone>) returns (r: Result<()>)
      requires schedule.None?
      modifies this
      ensures (State(), r) == Create(old(State()), amount, cliff, end, milestones)
      ensures r.Ok? <==> old(now) <= cliff < end
                         && (milestones == [] || (AllWithin(milestones, cliff, end) && AmountSum(milestones) == amount))
      ensures r.Ok? ==> schedule.Some? && |schedule.value.milestones| == |milestones|
                        && schedule.value == Schedule(amount, 0, old(now), cliff, end, schedule.value.milestones)
                        && forall i :: 0 <= i < |milestones| ==>
                             schedule.value.milestones[i] == (if milestones[i].id == 0 then milestones[i].(id := i + 1) else milestones[i])
    {
      if cliff < now {
        return Err(InvalidVestingSchedule);
      }
      if end <= cliff {
        return Err(InvalidVestingSchedule);
      }
      if milestones != [] {
        var ok := CheckMilestones(milestones, amount, cliff, end);
        if !ok {
          return Err(InvalidVestingSchedule);
        }
      }
      var indexed := IndexMilestones(milestones);
      schedule := Some(Schedule(amount, 0, now, cliff, end, indexed));
      r := Ok(());
    }

    method GetBaseVestedAmount() returns (amount: int)
      ensures amount == if schedule.Some? then BaseVested(schedule.value, now) else 0
      ensures schedule.Some? && schedule.value.total >= 0 ==> OnSchedule(schedule.value, now, amount)
    {
      hide OnSchedule;
      if schedule.None? {
        return 0;
      }
      var s := schedule.value;
      if s.total >= 0 {
        BaseOnSchedule(s, now);
      }
      if now < s.cliff {
        return 0;
      }
      if now >= s.end {
        return s.total;
      }
      if s.milestones != [] {
        amount := 0;
        for i := 0 to |s.milestones|
          invariant amount == UnlockedSum(s.milestones[..i], now)
        {
          if now >= s.milestones[i].unlockTimestamp {
            amount := amount + s.milestones[i].amount;
          }
          assert s.milestones[..i + 1][..i] == s.milestones[..i];
        }
        assert s.milestones[..|s.milestones|] == s.milestones;
      } else {
        var totalDuration := s.end - s.cliff;
        var elapsed := now - s.cliff;
        amount := TruncDiv(elapsed * s.total, totalDuration);
      }
    }

    method CalculateAcceleratedAmount() returns (amount: int)
      ensures amount == if schedule.Some? && acceleration.Some? then Accelerated(schedule.value, acceleration.value.totalBps, now) else 0
      ensures schedule.Some? && acceleration.Some? && Sane(schedule.value) ==>
                PartOf(amount, schedule.value.total - BaseVested(schedule.value, now), acceleration.value.totalBps, 10000)
    {
      hide BaseVested, OnSchedule, PartOf;
      if schedule.None? || acceleration.None? {
        return 0;
      }
      PartAccelerated(schedule.value, acceleration.value.totalBps, now);
      var base := GetBaseVestedAmount();
      amount := TruncDiv((schedule.value.total - base) * acceleration.value.totalBps, 10000);
    }

    method GetVestedAmount() returns (amount: int)
      ensures amount == if schedule.Some? then VestedNow(State()) else 0
      ensures schedule.Some? && Sane(schedule.value) ==> VestedRightly(State(), amount)
    {
      hide BaseVested, OnSchedule, PartOf, VestedRightly;
      if schedule.None? {
        return 0;
      }
      VestedIsRight(State());
      var base := GetBaseVestedAmount();
      var accelerated := CalculateAcceleratedAmount();
      assert Accelerated(schedule.value, 0, now) == 0;
      amount := base + accelerated;
      if amount > schedule.value.total {
        amount := schedule.value.total;
      }
    }

    method GetReleasableAmount() returns (amount: int)
      ensures amount == if schedule.Some? then VestedNow(State()) - schedule.value.released else 0
      ensures schedule.Some? && Sane(schedule.value) ==> VestedRightly(State(), amount + schedule.value.released)
    {
      if schedule.None? {
        return 0;
      }
      var vested := GetVestedAmount();
      amount := vested - schedule.value.released;
    }

    method SetVestingAccelerationConfig(milestoneBps: U32, maxBps: U32) returns (r: Result<()>)
      modifies this
      ensures (State(), r) == SetAcceleration(old(State()), milestoneBps, maxBps)
      ensures r.Ok? <==> 1 <= milestoneBps <= 10000 && milestoneBps <= maxBps && old(schedule).Some?
      ensures r.Ok? ==> State() == old(State()).(acceleration := Some(Acceleration(milestoneBps, maxBps, 0)))
    {
      if milestoneBps == 0 || milestoneBps > 10000 {
        return Err(InvalidVestingSchedule);
      }
      if milestoneBps > maxBps {
        return Err(InvalidVestingSchedule);
      }
      if schedule.None? {
        return Err(NotFound);
      }
      acceleration := Some(Acceleration(milestoneBps, maxBps, 0));
      r := Ok(());
    }

    method MarkMilestoneComplete() returns (r: Result<()>)
      modifies this
      ensures (State(), r) == MarkComplete(old(State()))
    {
      if acceleration.None? {
        return Err(NotFound);
      }
      var a := acceleration.value;
      if a.totalBps >= a.maxBps {
        return Err(MilestoneAlreadyReleased);
      }
      var nextTotal := SaturatingAdd32(a.totalBps, a.milestoneBps);
      if nextTotal > a.maxBps {
        return Err(AccelerationLimitExceeded);
      }
      acceleration := Some(a.(totalBps := nextTotal));
      r := Ok(());
    }

    method ReleaseVestedAmount() returns (r: Result<int>)
      modifies this
      ensures (State(), r) == ReleaseVested(old(State()))
      ensures r.Ok? <==> old(schedule).Some? && old(schedule).value.cliff <= old(now) && VestedNow(old(State())) != old(schedule).value.released
      ensures r.Err? ==> State() == old(State())
      ensures r.Ok? ==> schedule.Some? && HandedOut(old(schedule).value, schedule.value, old(now), r.value) && returned == old(returned) + r.value
      ensures r.Ok? && Sane(old(schedule).value) ==> VestedRightly(old(State()), schedule.value.released)
    {
      hide Vested, VestedRightly;
      if schedule.None? {
        return Err(NotFound);
      }
      var s := schedule.value;
      if now < s.cliff {
        return Err(CliffPeriodNotPassed);
      }
      var vested := GetVestedAmount();
      var releasable := vested - s.released;
      if releasable == 0 {
        return Err(InvalidStatus);
      }
      s := s.(released := s.released + releasable);
      if s.milestones != [] {
        var ms := s.milestones;
        for i := 0 to |ms|
          invariant |ms| == |s.milestones|
          invariant forall j :: 0 <= j < i ==> ms[j] == MarkReleased(s.milestones, now, s.released)[j]
          invariant forall j :: i <= j < |ms| ==> ms[j] == s.milestones[j]
          invariant State() == old(State())
        {
          var m := ms[i];
          if !m.released && now >= m.unlockTimestamp && s.released >= m.amount {
            ms := ms[i := m.(released := true)];
          }
        }
        s := s.(milestones := ms);
      }
      schedule := Some(s);
      returned := returned + releasable;
      assert s.milestones == MarkReleased(old(schedule).value.milestones, now, s.released);
      assert s.released == vested;
      r := Ok(releasable);
    }

    method ApproveVestingMilestone(admin: Address, id: nat) returns (r: Result<()>)
      modifies this
      ensures (State(), r) == ApproveMilestone(old(State()), admin, id)
      ensures r.Ok? ==> old(schedule).Some? && schedule.Some?
                        && ApprovedFirst(old(schedule).value, schedule.value, id, admin, old(now))
    {
      if schedule.None? {
        return Err(NotFound);
      }
      var ms := schedule.value.milestones;
      for i := 0 to |ms|
        invariant ms == schedule.value.milestones && State() == old(State())
        invariant forall j :: 0 <= j < i ==> ms[j].id != id
      {
        if ms[i].id == id {
          FirstInPrefix(ms, id, i);
          if ms[i].released {
            return Err(MilestoneAlreadyReleased);
          }
          ms := ms[i := ms[i].(approvedBy := Some(admin), approvedAt := Some(now))];
          assert FirstAt(schedule.value.milestones, id, i);
          schedule := Some(schedule.value.(milestones := ms));
          return Ok(());
        }
      }
      r := Err(InvalidStatus);
    }

    method ReleaseVestingMilestone(id: nat, refused: bool) returns (r: Result<int>)
      modifies this
      ensures (State(), r) == ReleaseMilestone(old(State()), id, refused)
      ensures r.Ok? ==> old(schedule).Some? && schedule.Some? && PaidFirst(old(schedule).value, schedule.value, id, r.value)
      ensures r.Ok? ==> !refused && transferred == old(transferred) + r.value
    {
      if schedule.None? {
        return Err(NotFound);
      }
      var before := schedule;
      var s := schedule.value;
      var ms := s.milestones;
      for i := 0 to |ms|
        invariant ms == s.milestones && State() == old(State())
        invariant forall j :: 0 <= j < i ==> ms[j].id != id
      {
        if ms[i].id == id {
          FirstInPrefix(ms, id, i);
          if ms[i].released {
            return Err(MilestoneAlreadyReleased);
          }
          if ms[i].approvedBy.None? {
            return Err(InvalidStatus);
          }
          var newTotal := s.released + ms[i].amount;
          if newTotal > s.total {
            return Err(InvalidStatus);
          }
          var amount := ms[i].amount;
          ms := ms[i := ms[i].(released := true)];
          schedule := Some(s.(milestones := ms, released := s.released + amount));
          if refused {
            schedule := before;
            return Err(InvalidStatus);
          }
          transferred := transferred + amount;
          assert FirstAt(before.value.milestones, id, i) && PaidMilestone(before.value, schedule.value, i, amount);
          return Ok(amount);
        }
      }
      r := Err(InvalidStatus);
    }

    method AddVestingMilestone(milestone: Milestone) returns (r: Result<()>)
      modifies this
      ensures (State(), r) == AddMilestone(old(State()), milestone)
      ensures r.Ok? <==> old(schedule).Some? && AmountSum(old(schedule).value.milestones) + milestone.amount <= old(schedule).value.total
                         && WithinSchedule(milestone, old(schedule).value.cliff, old(schedule).value.end)
      ensures r.Ok? ==> schedule == Some(old(schedule).value.(milestones := old(schedule).value.milestones +
                          [if milestone.id == 0 then milestone.(id := |old(schedule).value.milestones| + 1) else milestone]))
    {
      if schedule.None? {
        return Err(NotFound);
      }
      var s := schedule.value;
      var existing := MilestoneTotal(s.milestones);
      if existing + milestone.amount > s.total {
        return Err(InvalidStatus);
      }
      if milestone.unlockTimestamp < s.cliff {
        return Err(InvalidVestingSchedule);
      }
      if milestone.unlockTimestamp > s.end {
        return Err(InvalidVestingSchedule);
      }
      var m := milestone;
      if m.id == 0 {
        m := m.(id := |s.milestones| + 1);
      }
      schedule := Some(s.(milestones := s.milestones + [m]));
      r := Ok(());
    }
  }
}
