/** Releases that return a negative amount: which calls leave more handed out than has vested, over all
    runs, and runs in which it happens. */
module VestingOverdraw {
  import opened Common
  import opened Vesting
  import opened VestingLaws

  /** What a release hands out when the cliff is past. */
  function Releasable(s: State): int
    requires s.schedule.Some?
  {
    VestedNow(s) - s.schedule.value.released
  }

  predicate InBalance(s: State) {
    s.schedule.Some? ==> Releasable(s) >= 0
  }

  /** What has vested by a single milestone and the acceleration. */
  function VestedByOne(v: Schedule, m: Milestone, bps: nat, now: nat): int {
    var sum := WithPart(v.total, if now >= m.unlockTimestamp then m.amount else 0, bps);
    if sum > v.total then v.total else sum
  }

  /** The calls that overdraw, told from the storage they meet: a milestone is paid that is greater
      than what is releasable, the acceleration is set again after accelerated money was drawn, or the
      first milestone is added to a linear schedule from which more was drawn than it unlocks. */
  predicate Overdraws(s: State, op: Op) {
    && s.schedule.Some?
    && var v := s.schedule.value;
    match op
    case ReleasingMilestone(id, refused) =>
      var r := ReleaseMilestone(s, id, refused).1;
      r.Ok? && r.value > Releasable(s)
    case SettingAcceleration(milestoneBps, maxBps) =>
      SetAcceleration(s, milestoneBps, maxBps).1.Ok? && v.released > BaseVested(v, s.now)
    case AddingMilestone(m) =>
      && AddMilestone(s, m).1.Ok? && v.milestones == [] && v.cliff <= s.now < v.end
      && v.released > VestedByOne(v, m, BpsOf(s.acceleration), s.now)
    case _ => false
  }

  // ----- One call -----

  lemma CreatingBalances(s: State, op: Op)
    requires s.schedule.None? && op.Creating? && Ordinary(op)
    ensures InBalance(Step(s, op))
  {
    StepSafe(s, op);
    var s' := Step(s, op);
    if s'.schedule.Some? {
      VestedBounds(s'.schedule.value, BpsOf(s'.acceleration), s'.now);
    }
  }

  lemma TimeBalances(s: State, op: Op)
    requires Safe(s) && InBalance(s) && (op.Ticking? || op.MarkingComplete?)
    ensures InBalance(Step(s, op))
  {
    if s.schedule.Some? {
      var s' := Step(s, op);
      hide Vested, Sane;
      VestedMonotone(s.schedule.value, BpsOf(s.acceleration), BpsOf(s'.acceleration), s.now, s'.now);
    }
  }

  lemma ReleaseBalances(s: State)
    requires InBalance(s)
    ensures InBalance(ReleaseVested(s).0)
  {
    var (s', r) := ReleaseVested(s);
    if r.Ok? {
      hide Vested, Sane;
      SameTermsVested(s.schedule.value, s'.schedule.value, BpsOf(s.acceleration), s.now);
    }
  }

  lemma MilestoneBalances(s: State, op: Op)
    requires InBalance(s) && (op.ApprovingMilestone? || op.ReleasingMilestone?)
    ensures InBalance(Step(s, op)) <==> !Overdraws(s, op)
  {
    if s.schedule.Some? {
      hide Vested, Sane;
      SameTermsVested(s.schedule.value, Step(s, op).schedule.value, BpsOf(s.acceleration), s.now);
    }
  }

  lemma ResetBalances(s: State, milestoneBps: U32, maxBps: U32)
    requires Safe(s) && InBalance(s)
    ensures InBalance(SetAcceleration(s, milestoneBps, maxBps).0) <==> !Overdraws(s, SettingAcceleration(milestoneBps, maxBps))
  {
    if SetAcceleration(s, milestoneBps, maxBps).1.Ok? {
      hide Vested, BaseVested;
      ResetForgets(s, milestoneBps, maxBps);
    }
  }

  lemma UnlockedAppend(ms: seq<Milestone>, m: Milestone, now: nat)
    ensures UnlockedSum(ms + [m], now) == UnlockedSum(ms, now) + if now >= m.unlockTimestamp then m.amount else 0
  {
    assert (ms + [m])[..|ms|] == ms;
  }

  /** What a new milestone does to the amount vested by the schedule alone. */
  lemma AddedBase(s: State, m: Milestone)
    requires s.schedule.Some? && AddMilestone(s, m).1.Ok? && m.amount >= 0
    ensures var v, v' := s.schedule.value, AddMilestone(s, m).0.schedule.value;
            && v'.total == v.total && v'.released == v.released
            && if v.milestones == [] && v.cliff <= s.now < v.end
               then BaseVested(v', s.now) == if s.now >= m.unlockTimestamp then m.amount else 0
               else BaseVested(v, s.now) <= BaseVested(v', s.now)
  {
    var ms := s.schedule.value.milestones;
    UnlockedAppend(ms, if m.id == 0 then m.(id := |ms| + 1) else m, s.now);
  }

  lemma AddBalances(s: State, m: Milestone)
    requires Safe(s) && InBalance(s) && m.amount >= 0
    ensures InBalance(AddMilestone(s, m).0) <==> !Overdraws(s, AddingMilestone(m))
  {
    if AddMilestone(s, m).1.Ok? {
      var s' := AddMilestone(s, m).0;
      var v, v', bps := s.schedule.value, s'.schedule.value, BpsOf(s.acceleration);
      AddSafe(s, m);
      AddedBase(s, m);
      VestedIs(v, bps, s.now);
      VestedIs(v', bps, s.now);
      if !(v.milestones == [] && v.cliff <= s.now < v.end) {
        MoreBase(v, v', bps, s.now);
      }
    }
  }

  lemma MoreBase(v: Schedule, v': Schedule, bps: nat, now: nat)
    requires Sane(v) && Sane(v') && v.total == v'.total && BaseVested(v, now) <= BaseVested(v', now)
    ensures Vested(v, bps, now) <= Vested(v', bps, now)
  {
    BaseBounds(v, now);
    BaseBounds(v', now);
    VestedIs(v, bps, now);
    VestedIs(v', bps, now);
    hide Vested, BaseVested, WithPart, Sane;
    if bps <= 10000 {
      PartMonotone(v.total, BaseVested(v, now), BaseVested(v', now), bps);
    } else {
      PartFills(v.total, BaseVested(v', now), bps);
    }
  }

  lemma StepBalances(s: State, op: Op)
    requires Safe(s) && InBalance(s) && Ordinary(op)
    ensures InBalance(Step(s, op)) <==> !Overdraws(s, op)
  {
    hide Safe;
    match op
    case Creating(_, _, _, _) =>
      hide InBalance, Create;
      if s.schedule.None? { CreatingBalances(s, op); }
    case SettingAcceleration(milestoneBps, maxBps) =>
      hide InBalance, SetAcceleration, Overdraws;
      ResetBalances(s, milestoneBps, maxBps);
    case AddingMilestone(m) =>
      hide InBalance, AddMilestone, Overdraws;
      AddBalances(s, m);
    case ReleasingVested =>
      hide InBalance, ReleaseVested;
      ReleaseBalances(s);
    case ApprovingMilestone(_, _) =>
      hide InBalance, Step, Overdraws;
      MilestoneBalances(s, op);
    case ReleasingMilestone(_, _) =>
      hide InBalance, Step, Overdraws;
      MilestoneBalances(s, op);
    case _ =>
      hide InBalance, Step;
      TimeBalances(s, op);
  }

  // ----- Whole runs -----

  /** In every storage along the run what was handed out has vested. */
  predicate AlwaysInBalance(s: State, ops: seq<Op>)
    decreases |ops|
  {
    InBalance(s) && (ops != [] ==> AlwaysInBalance(Step(s, ops[0]), ops[1..]))
  }

  predicate NoneOverdraws(s: State, ops: seq<Op>)
    decreases |ops|
  {
    ops != [] ==> !Overdraws(s, ops[0]) && NoneOverdraws(Step(s, ops[0]), ops[1..])
  }

  lemma {:induction false} RunBalances(s: State, ops: seq<Op>)
    requires Safe(s) && InBalance(s) && AllOrdinary(ops)
    ensures AlwaysInBalance(s, ops) <==> NoneOverdraws(s, ops)
    ensures NoneOverdraws(s, ops) ==> InBalance(Run(s, ops))
    decreases |ops|
  {
    hide Safe, Ordinary, Step, InBalance, Overdraws;
    if ops != [] {
      assert Ordinary(ops[0]);
      assert AllOrdinary(ops[1..]) by {
        forall i | 0 <= i < |ops| - 1 ensures Ordinary(ops[1..][i]) { assert ops[1..][i] == ops[i + 1]; }
      }
      StepSafe(s, ops[0]);
      StepBalances(s, ops[0]);
      var s' := Step(s, ops[0]);
      if InBalance(s') {
        RunBalances(s', ops[1..]);
      } else {
        assert !AlwaysInBalance(s', ops[1..]);
      }
    }
  }

  /** Over every run with ordinary amounts: what was handed out stays within what has vested, in all
      storages of the run, if and only if no call overdraws when it is made. */
  lemma InBalanceIff(ops: seq<Op>)
    requires AllOrdinary(ops)
    ensures AlwaysInBalance(INITIAL, ops) <==> NoneOverdraws(INITIAL, ops)
  {
    RunBalances(INITIAL, ops);
  }

  /** As long as no call has overdrawn, the next call makes the release after it return a negative
      amount if and only if it overdraws. */
  lemma NegativeReleaseIff(ops: seq<Op>, op: Op)
    requires AllOrdinary(ops) && Ordinary(op) && NoneOverdraws(INITIAL, ops)
    requires var s' := Step(Run(INITIAL, ops), op); s'.schedule.Some? && s'.now >= s'.schedule.value.cliff
    ensures var s := Run(INITIAL, ops);
            var r := ReleaseVested(Step(s, op)).1;
            r.Ok? && r.value < 0 <==> Overdraws(s, op)
  {
    RunBalances(INITIAL, ops);
    RunSafe(INITIAL, ops);
    hide Run, Step, Safe, Overdraws, VestedNow;
    StepBalances(Run(INITIAL, ops), op);
  }

  // ----- Runs that get there -----

  lemma Unroll(s: State, op: Op, rest: seq<Op>)
    ensures Run(s, [op] + rest) == Run(Step(s, op), rest)
  {
    hide Step;
    assert ([op] + rest)[1..] == rest;
  }

  lemma FourSteps(s: State, a: Op, b: Op, c: Op, d: Op)
    ensures Run(s, [a, b, c, d]) == Step(Step(Step(Step(s, a), b), c), d)
  {
    hide Step;
    assert [a, b, c, d] == [a] + [b, c, d] && [b, c, d] == [b] + [c, d] && [c, d] == [c] + [d] && [d] == [d] + [];
    Unroll(s, a, [b, c, d]);
    Unroll(Step(s, a), b, [c, d]);
    Unroll(Step(Step(s, a), b), c, [d]);
    Unroll(Step(Step(Step(s, a), b), c), d, []);
  }

  lemma OneUnlocked(m: Milestone, now: nat)
    ensures UnlockedSum([m], now) == if now >= m.unlockTimestamp then m.amount else 0
    ensures AmountSum([m]) == m.amount
  {
    assert [m][..0] == [];
  }

  /** A milestone that unlocks at 15 is approved and paid at once; the release at 10, when the cliff is
      past, returns minus its amount. */
  lemma MilestonePaidEarly(admin: Address, amount: int)
    requires amount > 0
    ensures var s := Run(INITIAL, [Creating(amount, 10, 20, [Milestone(1, 15, amount, false, None, None)]),
                                   ApprovingMilestone(admin, 1), ReleasingMilestone(1, false), Ticking(10)]);
            s.transferred == amount && ReleaseVested(s).1 == Ok(-amount)
  {
    var m := Milestone(1, 15, amount, false, None, None);
    var a, b, c, d := Creating(amount, 10, 20, [m]), ApprovingMilestone(admin, 1), ReleasingMilestone(1, false), Ticking(10);
    FourSteps(INITIAL, a, b, c, d);
    OneUnlocked(m, 0);
    var v := Schedule(amount, 0, 0, 10, 20, [m]);
    assert AssignIds([m]) == [m];
    assert Step(INITIAL, a) == State(Some(v), None, 0, 0, 0);
    assert [m][..0] == [];
    assert FirstWithId([m], 1) == Some(0);
    var m1 := m.(approvedBy := Some(admin), approvedAt := Some(0));
    assert [m][0 := m1] == [m1];
    assert FirstWithId([m1], 1) == Some(0);
    assert [m1][0 := m1.(released := true)] == [m1.(released := true)];
    OneUnlocked(m1.(released := true), 10);
  }

  function Linear(total: int): Schedule {
    Schedule(total, 0, 0, 0, 100, [])
  }

  lemma LinearVested(v: Schedule, half: int)
    requires v.total == 2 * half > 0 && v.cliff == 0 && v.end == 100 && v.milestones == []
    ensures Vested(v, 0, 50) == half && Vested(v, 5000, 0) == half && Vested(v, 0, 0) == 0
  {
    assert BaseVested(v, 50) == half && BaseVested(v, 0) == 0;
    assert Accelerated(v, 0, 50) == 0 && Accelerated(v, 0, 0) == 0 && Accelerated(v, 5000, 0) == half;
  }

  lemma LinearCreated(total: int)
    ensures Create(INITIAL, total, 0, 100, []).0 == State(Some(Linear(total)), None, 0, 0, 0)
  {
    assert AssignIds([]) == [];
  }

  lemma LinearDrawn(s: State, v: Schedule)
    requires s.schedule == Some(v) && v.milestones == [] && v.released == 0 && v.cliff <= s.now && VestedNow(s) != 0
    ensures var amount := VestedNow(s);
            ReleaseVested(s) == (s.(schedule := Some(v.(released := amount)), returned := s.returned + amount), Ok(amount))
  {
    hide Vested;
    assert MarkReleased([], s.now, VestedNow(s)) == [];
  }

  /** A linear schedule is drawn halfway; then a milestone is added that unlocks at the end, and the
      next release returns minus what was drawn. */
  lemma MilestoneAddedLate(half: int, m: Milestone)
    requires half > 0 && 0 <= m.amount <= half && m.unlockTimestamp == 100
    ensures var s := Run(INITIAL, [Creating(2 * half, 0, 100, []), Ticking(50), ReleasingVested, AddingMilestone(m)]);
            s.returned == half && ReleaseVested(s).1 == Ok(-half)
  {
    var a, b, c, d := Creating(2 * half, 0, 100, []), Ticking(50), ReleasingVested, AddingMilestone(m);
    FourSteps(INITIAL, a, b, c, d);
    hide Run, Create, ReleaseVested, AddMilestone, Vested;
    var v := Linear(2 * half);
    LinearCreated(2 * half);
    LinearVested(v, half);
    LinearDrawn(State(Some(v), None, 50, 0, 0), v);
    LateMilestone(State(Some(v.(released := half)), None, 50, half, 0), half, m);
  }

  lemma LateMilestone(s: State, half: int, m: Milestone)
    requires s == State(Some(Linear(2 * half).(released := half)), None, 50, half, 0)
    requires half > 0 && 0 <= m.amount <= half && m.unlockTimestamp == 100
    ensures var s' := AddMilestone(s, m).0; s'.returned == half && ReleaseVested(s').1 == Ok(-half)
  {
    var m' := if m.id == 0 then m.(id := 1) else m;
    var v := s.schedule.value;
    assert AmountSum(v.milestones) == 0;
    var s' := AddMilestone(s, m).0;
    assert v.milestones + [m'] == [m'];
    assert s' == s.(schedule := Some(v.(milestones := [m'])));
    OneUnlocked(m', 50);
    assert BaseVested(s'.schedule.value, 50) == 0;
    hide BaseVested, UnlockedSum, AmountSum;
    assert Accelerated(s'.schedule.value, 0, 50) == 0;
  }

  /** Half is brought forward by a completed milestone and drawn; setting the configuration again
      forgets it, and the next release returns minus that half. */
  lemma AccelerationReset(half: int)
    requires half > 0
    ensures var s := Run(INITIAL, [Creating(2 * half, 0, 100, []), SettingAcceleration(5000, 5000), MarkingComplete, ReleasingVested]);
            s.returned == half && ReleaseVested(SetAcceleration(s, 5000, 5000).0).1 == Ok(-half)
  {
    FourSteps(INITIAL, Creating(2 * half, 0, 100, []), SettingAcceleration(5000, 5000), MarkingComplete, ReleasingVested);
    hide Run, Create, Vested, ReleaseVested;
    var v := Linear(2 * half);
    LinearCreated(2 * half);
    LinearVested(v, half);
    var s := State(Some(v), Some(Acceleration(5000, 5000, 5000)), 0, 0, 0);
    LinearDrawn(s, v);
    LinearVested(v.(released := half), half);
    NothingVested(SetAcceleration(s.(schedule := Some(v.(released := half)), returned := half), 5000, 5000).0, half);
  }

  lemma NothingVested(s: State, half: int)
    requires s.schedule.Some? && s.schedule.value.released == half > 0 && s.now >= s.schedule.value.cliff && VestedNow(s) == 0
    ensures ReleaseVested(s).1 == Ok(-half)
  {
    hide Vested;
  }
}
