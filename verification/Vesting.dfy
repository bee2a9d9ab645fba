/** The vesting schedule of one escrow: what has vested by now, what has been handed out, and the
    milestones that can be approved and paid one by one. */
module Vesting {
  import opened Common

  datatype Milestone = Milestone(
    id: nat, unlockTimestamp: nat, amount: int, released: bool, approvedBy: Option<Address>, approvedAt: Option<nat>)

  datatype Schedule = Schedule(
    total: int, released: int, start: nat, cliff: nat, end: nat, milestones: seq<Milestone>)

  datatype Acceleration = Acceleration(milestoneBps: U32, maxBps: U32, totalBps: U32)

  /** The storage of one escrow. `returned` and `transferred` are not stored: they add up what
      `release_vested_amount` has returned and what `release_milestone` has paid. */
  datatype State = State(
    schedule: Option<Schedule>, acceleration: Option<Acceleration>, now: nat, returned: int, transferred: int)

  const INITIAL := State(None, None, 0, 0, 0)

  // ----- What has vested -----

  function AmountSum(ms: seq<Milestone>): int {
    if ms == [] then 0 else AmountSum(ms[..|ms| - 1]) + ms[|ms| - 1].amount
  }

  function UnlockedSum(ms: seq<Milestone>, now: nat): int {
    if ms == [] then 0
    else UnlockedSum(ms[..|ms| - 1], now) + if now >= ms[|ms| - 1].unlockTimestamp then ms[|ms| - 1].amount else 0
  }

  /** Nothing before the cliff and everything from the end on; in between the unlocked milestones,
      or the elapsed part of the time when there are none. */
  function BaseVested(s: Schedule, now: nat): int {
    if now < s.cliff then 0
    else if now >= s.end then s.total
    else if s.milestones != [] then UnlockedSum(s.milestones, now)
    else TruncDiv((now - s.cliff) * s.total, s.end - s.cliff)
  }

  /** What the completed milestones bring forward of the rest. */
  function Accelerated(s: Schedule, bps: nat, now: nat): int {
    TruncDiv((s.total - BaseVested(s, now)) * bps, 10000)
  }

  function Vested(s: Schedule, bps: nat, now: nat): int {
    var sum := BaseVested(s, now) + Accelerated(s, bps, now);
    if sum > s.total then s.total else sum
  }

  function BpsOf(a: Option<Acceleration>): nat {
    if a.Some? then a.value.totalBps else 0
  }

  function VestedNow(s: State): int
    requires s.schedule.Some?
  {
    Vested(s.schedule.value, BpsOf(s.acceleration), s.now)
  }

  // ----- Creation -----

  /** Milestones without an id get their position, counted from one. */
  function AssignIds(ms: seq<Milestone>): seq<Milestone> {
    seq(|ms|, i requires 0 <= i < |ms| => if ms[i].id == 0 then ms[i].(id := i + 1) else ms[i])
  }

  predicate WithinSchedule(m: Milestone, cliff: nat, end: nat) {
    cliff <= m.unlockTimestamp <= end
  }

  predicate AllWithin(ms: seq<Milestone>, cliff: nat, end: nat) {
    forall i :: 0 <= i < |ms| ==> WithinSchedule(ms[i], cliff, end)
  }

  /** The checks of times and milestones. */
  predicate Admissible(now: nat, amount: int, cliff: nat, end: nat, ms: seq<Milestone>) {
    && now <= cliff < end
    && (ms != [] ==> AllWithin(ms, cliff, end) && AmountSum(ms) == amount)
  }

  /** Each object of the model is one escrow, so it is created once. */
  function Create(s: State, amount: int, cliff: nat, end: nat, ms: seq<Milestone>): (State, Result<()>)
    requires s.schedule.None?
  {
    if !Admissible(s.now, amount, cliff, end, ms) then (s, Err(InvalidVestingSchedule))
    else (s.(schedule := Some(Schedule(amount, 0, s.now, cliff, end, AssignIds(ms)))), Ok(()))
  }

  // ----- Acceleration -----

  /** The caller is an admin. Setting the configuration again starts counting from nothing. */
  function SetAcceleration(s: State, milestoneBps: U32, maxBps: U32): (State, Result<()>) {
    if milestoneBps < 1 || milestoneBps > 10000 || milestoneBps > maxBps then (s, Err(InvalidVestingSchedule))
    else if s.schedule.None? then (s, Err(NotFound))
    else (s.(acceleration := Some(Acceleration(milestoneBps, maxBps, 0))), Ok(()))
  }

  /** The caller is an admin. */
  function MarkComplete(s: State): (State, Result<()>) {
    if s.acceleration.None? then (s, Err(NotFound))
    else
      var a := s.acceleration.value;
      var next := SaturatingAdd32(a.totalBps, a.milestoneBps);
      if a.totalBps >= a.maxBps then (s, Err(MilestoneAlreadyReleased))
      else if next > a.maxBps then (s, Err(AccelerationLimitExceeded))
      else (s.(acceleration := Some(a.(totalBps := next))), Ok(()))
  }

  // ----- Releasing what has vested -----

  function MarkReleased(ms: seq<Milestone>, now: nat, released: int): seq<Milestone> {
    seq(|ms|, i requires 0 <= i < |ms| =>
      if !ms[i].released && now >= ms[i].unlockTimestamp && released >= ms[i].amount then ms[i].(released := true) else ms[i])
  }

  /** Hands out whatever has vested and was not handed out before; only a difference of exactly
      nothing is refused. */
  function ReleaseVested(s: State): (State, Result<int>) {
    if s.schedule.None? then (s, Err(NotFound))
    else
      var v := s.schedule.value;
      var amount := VestedNow(s) - v.released;
      if s.now < v.cliff then (s, Err(CliffPeriodNotPassed))
      else if amount == 0 then (s, Err(InvalidStatus))
      else
        var released := v.released + amount;
        (s.(schedule := Some(v.(released := released, milestones := MarkReleased(v.milestones, s.now, released))),
            returned := s.returned + amount), Ok(amount))
  }

  // ----- Milestones one by one -----

  /** The first milestone with this id. */
  function FirstWithId(ms: seq<Milestone>, id: nat): (r: Option<nat>)
    ensures r.Some? ==> r.value < |ms| && ms[r.value].id == id && forall j :: 0 <= j < r.value ==> ms[j].id != id
    ensures r.None? ==> forall j :: 0 <= j < |ms| ==> ms[j].id != id
  {
    if ms == [] then None
    else
      var before := FirstWithId(ms[..|ms| - 1], id);
      if before.Some? then before else if ms[|ms| - 1].id == id then Some(|ms| - 1) else None
  }

  /** The caller is an admin. */
  function ApproveMilestone(s: State, admin: Address, id: nat): (State, Result<()>) {
    if s.schedule.None? then (s, Err(NotFound))
    else
      var v := s.schedule.value;
      var i := FirstWithId(v.milestones, id);
      if i.None? then (s, Err(InvalidStatus))
      else if v.milestones[i.value].released then (s, Err(MilestoneAlreadyReleased))
      else
        var m := v.milestones[i.value].(approvedBy := Some(admin), approvedAt := Some(s.now));
        (s.(schedule := Some(v.(milestones := v.milestones[i.value := m]))), Ok(()))
  }

  /** `refused` tells whether the transfer to the merchant fails. The unlock time is not asked for. */
  function ReleaseMilestone(s: State, id: nat, refused: bool): (State, Result<int>) {
    if s.schedule.None? then (s, Err(NotFound))
    else
      var v := s.schedule.value;
      var i := FirstWithId(v.milestones, id);
      if i.None? then (s, Err(InvalidStatus))
      else
        var m := v.milestones[i.value];
        if m.released then (s, Err(MilestoneAlreadyReleased))
        else if m.approvedBy.None? || v.released + m.amount > v.total || refused then (s, Err(InvalidStatus))
        else
          (s.(schedule := Some(v.(released := v.released + m.amount,
                                  milestones := v.milestones[i.value := m.(released := true)])),
              transferred := s.transferred + m.amount), Ok(m.amount))
  }

  /** The caller is an admin. */
  function AddMilestone(s: State, m: Milestone): (State, Result<()>) {
    if s.schedule.None? then (s, Err(NotFound))
    else
      var v := s.schedule.value;
      if AmountSum(v.milestones) + m.amount > v.total then (s, Err(InvalidStatus))
      else if !WithinSchedule(m, v.cliff, v.end) then (s, Err(InvalidVestingSchedule))
      else
        var m' := if m.id == 0 then m.(id := |v.milestones| + 1) else m;
        (s.(schedule := Some(v.(milestones := v.milestones + [m']))), Ok(()))
  }
}
