/** Laws of vesting: the vested amount over time and acceleration, releases whose sum does not
    depend on when they were made, and the ledger of milestones. */
module VestingLaws {
  import opened Common
  import opened Vesting

  // ----- Runs -----

  datatype Op =
    | Creating(amount: int, cliff: nat, end: nat, milestones: seq<Milestone>)
    | SettingAcceleration(milestoneBps: U32, maxBps: U32)
    | MarkingComplete
    | ReleasingVested
    | ApprovingMilestone(admin: Address, id: nat)
    | ReleasingMilestone(id: nat, refused: bool)
    | AddingMilestone(m: Milestone)
    | Ticking(seconds: nat)

  function Step(s: State, op: Op): State {
    match op
    case Creating(amount, cliff, end, ms) => if s.schedule.Some? then s else Create(s, amount, cliff, end, ms).0
    case SettingAcceleration(milestoneBps, maxBps) => SetAcceleration(s, milestoneBps, maxBps).0
    case MarkingComplete => MarkComplete(s).0
    case ReleasingVested => ReleaseVested(s).0
    case ApprovingMilestone(admin, id) => ApproveMilestone(s, admin, id).0
    case ReleasingMilestone(id, refused) => ReleaseMilestone(s, id, refused).0
    case AddingMilestone(m) => AddMilestone(s, m).0
    case Ticking(seconds) => s.(now := s.now + seconds)
  }

  function Run(s: State, ops: seq<Op>): State
    decreases |ops|
  {
    if ops == [] then s else Run(Step(s, ops[0]), ops[1..])
  }

  ghost predicate NonNegative(ms: seq<Milestone>) {
    forall i :: 0 <= i < |ms| ==> ms[i].amount >= 0
  }

  /** Ordinary schedules: amounts that are not negative and milestones within the total. */
  ghost predicate Sane(s: Schedule) {
    s.total >= 0 && s.cliff < s.end && NonNegative(s.milestones) && AmountSum(s.milestones) <= s.total
  }

  // ----- The vested amount -----

  lemma {:induction false} UnlockedBounds(ms: seq<Milestone>, now: nat, later: nat)
    requires NonNegative(ms) && now <= later
    ensures 0 <= UnlockedSum(ms, now) <= UnlockedSum(ms, later) <= AmountSum(ms)
  {
    if ms != [] {
      UnlockedBounds(ms[..|ms| - 1], now, later);
    }
  }

  lemma Quotient(a: int, d: int)
    requires a >= 0 && d > 0
    ensures a == TruncDiv(a, d) * d + a % d && TruncDiv(a, d) >= 0
  {}

  lemma DivAtLeast(a: int, b: int, d: int)
    requires b * d <= a && b >= 0 && d > 0
    ensures TruncDiv(a, d) >= b
  {
    Product(0, b, d);
    Quotient(a, d);
    QuotientBetween(TruncDiv(a, d), a % d, b, TruncDiv(a, d) + 1, d);
  }

  lemma DivAtMost(a: int, b: int, d: int)
    requires 0 <= a <= b * d && d > 0
    ensures 0 <= TruncDiv(a, d) <= b
  {
    Quotient(a, d);
    QuotientBetween(TruncDiv(a, d), a % d, 0, b, d);
  }

  lemma DivMonotone(a: int, b: int, d: int)
    requires 0 <= a <= b && d > 0
    ensures 0 <= TruncDiv(a, d) <= TruncDiv(b, d)
  {
    Quotient(a, d);
    DivAtLeast(b, TruncDiv(a, d), d);
  }

  lemma BaseBounds(s: Schedule, now: nat)
    requires Sane(s)
    ensures 0 <= BaseVested(s, now) <= s.total
  {
    UnlockedBounds(s.milestones, now, now);
    if s.cliff <= now < s.end && s.milestones == [] {
      Product(now - s.cliff, s.end - s.cliff, s.total);
      DivAtMost((now - s.cliff) * s.total, s.total, s.end - s.cliff);
    }
  }

  lemma BaseMonotone(s: Schedule, now: nat, later: nat)
    requires Sane(s) && now <= later
    ensures BaseVested(s, now) <= BaseVested(s, later)
  {
    BaseBounds(s, now);
    BaseBounds(s, later);
    UnlockedBounds(s.milestones, now, later);
    if s.cliff <= now && later < s.end && s.milestones == [] {
      Product(now - s.cliff, later - s.cliff, s.total);
      DivMonotone((now - s.cliff) * s.total, (later - s.cliff) * s.total, s.end - s.cliff);
    }
  }

  /** What is vested together with a part `bps` of the rest, before it is capped at the total. */
  function WithPart(total: int, base: int, bps: nat): int {
    base + TruncDiv((total - base) * bps, 10000)
  }

  /** Up to the whole rest, more vested means more in all, although a part of less is added. */
  lemma PartMonotone(total: int, base: int, base': int, bps: nat)
    requires 0 <= base <= base' <= total && bps <= 10000
    ensures WithPart(total, base, bps) <= WithPart(total, base', bps)
  {
    var more := base' - base;
    var a, b := (total - base) * bps, (total - base') * bps;
    assert a == b + more * bps;
    assert 0 <= more * bps <= more * 10000;
    assert b >= 0;
    assert a / 10000 <= (b + more * 10000) / 10000 == b / 10000 + more;
  }

  lemma PartGrows(total: int, base: int, bps: nat, bps': nat)
    requires 0 <= base <= total && bps <= bps'
    ensures WithPart(total, base, bps) <= WithPart(total, base, bps')
  {
    hide TruncDiv;
    Product(bps, bps', total - base);
    assert (total - base) * bps == bps * (total - base) && (total - base) * bps' == bps' * (total - base);
    DivMonotone((total - base) * bps, (total - base) * bps', 10000);
  }

  /** Beyond the whole rest the sum reaches the total, so the cap applies. */
  lemma PartFills(total: int, base: int, bps: nat)
    requires 0 <= base <= total && bps >= 10000
    ensures WithPart(total, base, bps) >= total
  {
    hide TruncDiv;
    Product(10000, bps, total - base);
    assert (total - base) * bps == bps * (total - base) && (total - base) * 10000 == 10000 * (total - base);
    DivAtLeast((total - base) * bps, total - base, 10000);
  }

  lemma VestedIs(s: Schedule, bps: nat, now: nat)
    ensures Vested(s, bps, now) ==
            var sum := WithPart(s.total, BaseVested(s, now), bps); if sum > s.total then s.total else sum
  {}

  /** The vested amount lies between what the schedule alone gives and the total, for every
      acceleration, capped or not. */
  lemma VestedBounds(s: Schedule, bps: nat, now: nat)
    requires Sane(s)
    ensures 0 <= BaseVested(s, now) <= Vested(s, bps, now) <= s.total
  {
    BaseBounds(s, now);
    PartGrows(s.total, BaseVested(s, now), 0, bps);
  }

  /** The vested amount never goes down, in time or in acceleration, also when the maximal
      acceleration is set beyond the whole. */
  lemma VestedMonotone(s: Schedule, bps: nat, bps': nat, now: nat, later: nat)
    requires Sane(s) && bps <= bps' && now <= later
    ensures Vested(s, bps, now) <= Vested(s, bps', later)
  {
    var base, base' := BaseVested(s, now), BaseVested(s, later);
    BaseBounds(s, now);
    BaseBounds(s, later);
    BaseMonotone(s, now, later);
    VestedIs(s, bps, now);
    VestedIs(s, bps', later);
    hide Vested, BaseVested, WithPart;
    if bps <= 10000 {
      PartMonotone(s.total, base, base', bps);
      PartGrows(s.total, base', bps, bps');
    } else {
      PartFills(s.total, base', bps');
    }
  }

  // ----- What every run keeps -----

  /** An ordinary call names no negative amounts. */
  ghost predicate Ordinary(op: Op) {
    && (op.Creating? ==> op.amount >= 0 && NonNegative(op.milestones))
    && (op.AddingMilestone? ==> op.m.amount >= 0)
  }

  ghost predicate AllOrdinary(ops: seq<Op>) {
    forall i :: 0 <= i < |ops| ==> Ordinary(ops[i])
  }

  ghost predicate Safe(s: State) {
    s.schedule.Some? ==> Sane(s.schedule.value) && 0 <= s.schedule.value.released <= s.schedule.value.total
  }

  /** Two lists of milestones with the same amounts and unlock times. */
  ghost predicate SameTerms(ms: seq<Milestone>, ms': seq<Milestone>) {
    |ms| == |ms'| && forall i :: 0 <= i < |ms| ==> ms[i].amount == ms'[i].amount && ms[i].unlockTimestamp == ms'[i].unlockTimestamp
  }

  lemma {:induction false} SameTermsSums(ms: seq<Milestone>, ms': seq<Milestone>, now: nat)
    requires SameTerms(ms, ms')
    ensures AmountSum(ms) == AmountSum(ms') && UnlockedSum(ms, now) == UnlockedSum(ms', now)
  {
    if ms != [] {
      SameTermsSums(ms[..|ms| - 1], ms'[..|ms| - 1], now);
    }
  }

  /** Flags and approvals do not matter for what has vested. */
  lemma SameTermsVested(s: Schedule, s': Schedule, bps: nat, now: nat)
    requires SameTerms(s.milestones, s'.milestones) && s.total == s'.total && s.cliff == s'.cliff && s.end == s'.end
    ensures Vested(s, bps, now) == Vested(s', bps, now) && (Sane(s) <==> Sane(s'))
  {
    SameTermsSums(s.milestones, s'.milestones, now);
    assert BaseVested(s, now) == BaseVested(s', now);
    assert NonNegative(s.milestones) <==> NonNegative(s'.milestones) by {
      if NonNegative(s.milestones) {
        assert forall i :: 0 <= i < |s'.milestones| ==> s.milestones[i].amount >= 0;
      }
      if NonNegative(s'.milestones) {
        assert forall i :: 0 <= i < |s.milestones| ==> s'.milestones[i].amount >= 0;
      }
    }
  }

  lemma AppendSum(ms: seq<Milestone>, m: Milestone)
    ensures AmountSum(ms + [m]) == AmountSum(ms) + m.amount
  {
    assert (ms + [m])[..|ms|] == ms;
  }

  lemma CreateSafe(s: State, amount: int, cliff: nat, end: nat, ms: seq<Milestone>)
    requires s.schedule.None? && amount >= 0 && NonNegative(ms)
    ensures Safe(Create(s, amount, cliff, end, ms).0)
  {
    SameTermsSums(ms, AssignIds(ms), 0);
  }

  lemma ReleaseVestedSafe(s: State)
    requires Safe(s)
    ensures Safe(ReleaseVested(s).0)
  {
    if ReleaseVested(s).1.Ok? {
      var v, v' := s.schedule.value, ReleaseVested(s).0.schedule.value;
      hide Vested, Sane;
      VestedBounds(v, BpsOf(s.acceleration), s.now);
      SameTermsVested(v, v', 0, s.now);
    }
  }

  lemma MilestoneStepSafe(s: State, admin: Address, id: nat, refused: bool)
    requires Safe(s)
    ensures Safe(ApproveMilestone(s, admin, id).0) && Safe(ReleaseMilestone(s, id, refused).0)
  {
    if s.schedule.Some? {
      var v := s.schedule.value;
      assert NonNegative(v.milestones);
      hide Sane;
      SameTermsVested(v, ApproveMilestone(s, admin, id).0.schedule.value, 0, s.now);
      SameTermsVested(v, ReleaseMilestone(s, id, refused).0.schedule.value, 0, s.now);
    }
  }

  lemma AddSafe(s: State, m: Milestone)
    requires Safe(s) && m.amount >= 0
    ensures Safe(AddMilestone(s, m).0)
  {
    if AddMilestone(s, m).1.Ok? {
      var ms := s.schedule.value.milestones;
      AppendSum(ms, if m.id == 0 then m.(id := |ms| + 1) else m);
    }
  }

  lemma StepSafe(s: State, op: Op)
    requires Safe(s) && Ordinary(op)
    ensures Safe(Step(s, op))
  {
    hide Sane, Create, ReleaseVested, ApproveMilestone, ReleaseMilestone, AddMilestone;
    match op
    case Creating(amount, cliff, end, ms) => if s.schedule.None? { CreateSafe(s, amount, cliff, end, ms); }
    case ReleasingVested => ReleaseVestedSafe(s);
    case ApprovingMilestone(admin, id) => MilestoneStepSafe(s, admin, id, false);
    case ReleasingMilestone(id, refused) => MilestoneStepSafe(s, Address(0), id, refused);
    case AddingMilestone(m) => AddSafe(s, m);
    case _ =>
  }

  lemma {:induction false} RunSafe(s: State, ops: seq<Op>)
    requires Safe(s) && AllOrdinary(ops)
    ensures Safe(Run(s, ops))
    decreases |ops|
  {
    hide Safe, Ordinary, Step;
    if ops != [] {
      assert Ordinary(ops[0]);
      assert AllOrdinary(ops[1..]) by {
        forall i | 0 <= i < |ops| - 1 ensures Ordinary(ops[1..][i]) { assert ops[1..][i] == ops[i + 1]; }
      }
      StepSafe(s, ops[0]);
      RunSafe(Step(s, ops[0]), ops[1..]);
    }
  }

  /** Over every run of all the calls together, single milestones and vested releases mixed in any
      order, what counts as released lies between nothing and the total, and so do the milestones. */
  lemma NeverOverReleased(ops: seq<Op>)
    requires AllOrdinary(ops)
    ensures var s := Run(INITIAL, ops);
            s.schedule.Some? ==>
              && 0 <= s.schedule.value.released <= s.schedule.value.total
              && 0 <= VestedNow(s) <= s.schedule.value.total
              && AmountSum(s.schedule.value.milestones) <= s.schedule.value.total
  {
    RunSafe(INITIAL, ops);
    var s := Run(INITIAL, ops);
    if s.schedule.Some? {
      VestedBounds(s.schedule.value, BpsOf(s.acceleration), s.now);
    }
  }

  // ----- Drawing what has vested -----

  /** Time passes, milestones are completed, and what has vested is drawn. */
  predicate Drawing(op: Op) {
    op.Ticking? || op.MarkingComplete? || op.ReleasingVested?
  }

  ghost predicate AllDrawing(ops: seq<Op>) {
    forall i :: 0 <= i < |ops| ==> Drawing(ops[i])
  }

  /** Nothing was handed out that had not vested, and what was handed out is what was returned.
      The schedule is the given one, flags and released amount apart. */
  ghost predicate Drawn(s: State, v: Schedule) {
    && s.schedule.Some?
    && Sane(s.schedule.value) && SameTerms(s.schedule.value.milestones, v.milestones)
    && s.schedule.value.total == v.total && s.schedule.value.cliff == v.cliff && s.schedule.value.end == v.end
    && 0 <= s.returned == s.schedule.value.released <= VestedNow(s)
  }

  lemma DrawStep(s: State, op: Op, v: Schedule)
    requires Drawn(s, v) && Drawing(op)
    ensures Drawn(Step(s, op), v)
    ensures op.ReleasingVested? && s.now >= v.cliff ==> Step(s, op).returned == VestedNow(Step(s, op))
  {
    var s' := Step(s, op);
    var w, w' := s.schedule.value, s'.schedule.value;
    hide Vested, Sane;
    VestedMonotone(w, BpsOf(s.acceleration), BpsOf(s'.acceleration), s.now, s'.now);
    if op.ReleasingVested? {
      VestedBounds(w, BpsOf(s.acceleration), s.now);
      assert SameTerms(w.milestones, w'.milestones);
      SameTermsVested(w, w', BpsOf(s.acceleration), s.now);
    }
  }

  lemma {:induction false} DrawRun(s: State, ops: seq<Op>, v: Schedule)
    requires Drawn(s, v) && AllDrawing(ops)
    ensures Drawn(Run(s, ops), v)
    ensures ops != [] && ops[|ops| - 1].ReleasingVested? && Run(s, ops).now >= v.cliff ==>
              Run(s, ops).returned == VestedNow(Run(s, ops))
    decreases |ops|
  {
    hide Step, Drawn;
    if ops != [] {
      assert Drawing(ops[0]);
      forall i | 0 <= i < |ops| - 1 ensures Drawing(ops[1..][i]) { assert ops[1..][i] == ops[i + 1]; }
      DrawStep(s, ops[0], v);
      DrawRun(Step(s, ops[0]), ops[1..], v);
      LastDraw(s, ops);
    }
  }

  lemma LastDraw(s: State, ops: seq<Op>)
    requires ops != []
    ensures |ops| == 1 ==> Run(s, ops) == Step(s, ops[0]) && (ops[0].ReleasingVested? ==> Step(s, ops[0]).now == s.now)
    ensures |ops| > 1 ==> ops[1..][|ops[1..]| - 1] == ops[|ops| - 1]
  {
    if |ops| == 1 {
      assert ops[1..] == [];
    }
  }

  /** A new schedule with ordinary amounts. */
  ghost predicate JustCreated(s: State) {
    && s.schedule.Some? && Sane(s.schedule.value) && s.schedule.value.released == 0 && s.returned == 0
  }

  lemma CreatedDrawn(s: State)
    requires JustCreated(s)
    ensures Drawn(s, s.schedule.value)
  {
    VestedBounds(s.schedule.value, BpsOf(s.acceleration), s.now);
  }

  /** However often and whenever releases were made in between, what they returned adds up to the
      released amount, never to more than has vested; after an attempt made once the cliff is
      past it is exactly what has vested by then. */
  lemma DrawnTotals(s: State, ops: seq<Op>)
    requires JustCreated(s) && AllDrawing(ops)
    ensures var s' := Run(s, ops);
            && s'.schedule.Some? && s'.returned == s'.schedule.value.released
            && 0 <= s'.returned <= VestedNow(s')
            && (ops != [] && ops[|ops| - 1].ReleasingVested? && s'.now >= s.schedule.value.cliff ==>
                  s'.returned == Vested(s.schedule.value, BpsOf(s'.acceleration), s'.now))
  {
    hide Vested, Sane;
    CreatedDrawn(s);
    DrawRun(s, ops, s.schedule.value);
    var s' := Run(s, ops);
    SameTermsVested(s'.schedule.value, s.schedule.value, BpsOf(s'.acceleration), s'.now);
  }

  /** Path independence: two schedules of releases that both end in a release at the same time and
      with the same acceleration have returned the same total. */
  lemma PathIndependent(s: State, a: seq<Op>, b: seq<Op>)
    requires JustCreated(s) && AllDrawing(a) && AllDrawing(b)
    requires a != [] && a[|a| - 1].ReleasingVested? && b != [] && b[|b| - 1].ReleasingVested?
    requires Run(s, a).now == Run(s, b).now >= s.schedule.value.cliff
    requires BpsOf(Run(s, a).acceleration) == BpsOf(Run(s, b).acceleration)
    ensures Run(s, a).returned == Run(s, b).returned
  {
    hide Run, Vested;
    DrawnTotals(s, a);
    DrawnTotals(s, b);
  }

  // ----- Acceleration -----

  /** Setting the acceleration again forgets the progress: what has vested falls back to the
      schedule alone, which is less exactly when something had been brought forward. */
  lemma ResetForgets(s: State, milestoneBps: U32, maxBps: U32)
    requires s.schedule.Some? && Sane(s.schedule.value) && SetAcceleration(s, milestoneBps, maxBps).1.Ok?
    ensures var s' := SetAcceleration(s, milestoneBps, maxBps).0;
            var v := s.schedule.value;
            && VestedNow(s') == BaseVested(v, s.now) <= VestedNow(s)
            && (VestedNow(s') < VestedNow(s) <==> Accelerated(v, BpsOf(s.acceleration), s.now) > 0)
  {
    var v := s.schedule.value;
    BaseBounds(v, s.now);
    VestedBounds(v, BpsOf(s.acceleration), s.now);
    PartGrows(v.total, BaseVested(v, s.now), 0, BpsOf(s.acceleration));
    assert Accelerated(v, 0, s.now) == 0;
    if BaseVested(v, s.now) == v.total {
      assert Accelerated(v, BpsOf(s.acceleration), s.now) == 0;
    }
  }

  function CountMarks(ops: seq<Op>): nat
    decreases |ops|
  {
    if ops == [] then 0 else (if ops[0].MarkingComplete? then 1 else 0) + CountMarks(ops[1..])
  }

  /** How many milestones can be marked under a configuration: only at the greatest 32-bit number the
      last mark may be a part. */
  function MarksAllowed(milestoneBps: nat, maxBps: U32): nat
    requires milestoneBps > 0
  {
    maxBps / milestoneBps + if maxBps == U32_MAX && maxBps % milestoneBps != 0 then 1 else 0
  }

  ghost predicate MarkedSoFar(s: State, milestoneBps: U32, maxBps: U32, marks: nat)
    requires milestoneBps > 0
  {
    && s.acceleration.Some? && s.acceleration.value.milestoneBps == milestoneBps && s.acceleration.value.maxBps == maxBps
    && s.acceleration.value.totalBps ==
       if marks >= MarksAllowed(milestoneBps, maxBps) && maxBps == U32_MAX then maxBps
       else if marks >= MarksAllowed(milestoneBps, maxBps) then MarksAllowed(milestoneBps, maxBps) * milestoneBps
       else marks * milestoneBps
  }

  lemma MarkStep(s: State, milestoneBps: U32, maxBps: U32, marks: nat)
    requires 1 <= milestoneBps <= maxBps && MarkedSoFar(s, milestoneBps, maxBps, marks)
    ensures MarkedSoFar(MarkComplete(s).0, milestoneBps, maxBps, marks + 1)
    ensures MarkComplete(s).1.Ok? <==> marks < MarksAllowed(milestoneBps, maxBps)
    ensures MarkComplete(s).1 == Err(MilestoneAlreadyReleased) <==>
            marks >= MarksAllowed(milestoneBps, maxBps) && (maxBps % milestoneBps == 0 || maxBps == U32_MAX)
  {
    var q, r := maxBps / milestoneBps, maxBps % milestoneBps;
    assert maxBps == q * milestoneBps + r;
    assert (marks + 1) * milestoneBps == marks * milestoneBps + milestoneBps;
    if marks < q {
      Product(marks + 1, q, milestoneBps);
    } else {
      Product(q, marks, milestoneBps);
    }
  }

  ghost predicate NotReset(ops: seq<Op>) {
    forall i :: 0 <= i < |ops| ==> !ops[i].SettingAcceleration?
  }

  lemma {:induction false} MarksInRun(s: State, ops: seq<Op>, milestoneBps: U32, maxBps: U32, marks: nat)
    requires 1 <= milestoneBps <= maxBps && MarkedSoFar(s, milestoneBps, maxBps, marks) && NotReset(ops)
    ensures MarkedSoFar(Run(s, ops), milestoneBps, maxBps, marks + CountMarks(ops))
    decreases |ops|
  {
    hide MarkedSoFar, MarkComplete, Create, ReleaseVested, ApproveMilestone, ReleaseMilestone, AddMilestone;
    if ops != [] {
      MarkStep(s, milestoneBps, maxBps, marks);
      SameAcceleration(s, ops[0]);
      SameMarks(s, Step(s, ops[0]), milestoneBps, maxBps, marks);
      assert NotReset(ops[1..]) by {
        forall i | 0 <= i < |ops| - 1 ensures !ops[1..][i].SettingAcceleration? { assert ops[1..][i] == ops[i + 1]; }
      }
      MarksInRun(Step(s, ops[0]), ops[1..], milestoneBps, maxBps, if ops[0].MarkingComplete? then marks + 1 else marks);
    }
  }

  lemma SameAcceleration(s: State, op: Op)
    ensures !op.SettingAcceleration? && !op.MarkingComplete? ==> Step(s, op).acceleration == s.acceleration
  {
    hide VestedNow;
  }

  lemma SameMarks(s: State, s': State, milestoneBps: U32, maxBps: U32, marks: nat)
    requires milestoneBps > 0 && MarkedSoFar(s, milestoneBps, maxBps, marks)
    ensures s'.acceleration == s.acceleration ==> MarkedSoFar(s', milestoneBps, maxBps, marks)
  {}

  /** From a new configuration on, whatever else is called, a mark succeeds exactly as long as fewer
      were made than go into the maximal acceleration, and what has been brought forward is the number
      of marks made, up to that many, times the part each brings. */
  lemma MarksSucceedIff(s: State, milestoneBps: U32, maxBps: U32, ops: seq<Op>)
    requires SetAcceleration(s, milestoneBps, maxBps).1.Ok? && NotReset(ops)
    ensures milestoneBps > 0
    ensures var s' := Run(SetAcceleration(s, milestoneBps, maxBps).0, ops);
            var marks, allowed := CountMarks(ops), MarksAllowed(milestoneBps, maxBps);
            && (MarkComplete(s').1.Ok? <==> marks < allowed)
            && (marks <= allowed && marks * milestoneBps <= maxBps ==> BpsOf(s'.acceleration) == marks * milestoneBps)
            && (marks >= allowed && maxBps < U32_MAX ==> BpsOf(s'.acceleration) == allowed * milestoneBps)
  {
    var s0 := SetAcceleration(s, milestoneBps, maxBps).0;
    assert MarkedSoFar(s0, milestoneBps, maxBps, 0);
    hide Run;
    MarksInRun(s0, ops, milestoneBps, maxBps, 0);
    MarkStep(Run(s0, ops), milestoneBps, maxBps, CountMarks(ops));
  }

  // ----- The ledger of milestones -----

  function ReleasedSum(ms: seq<Milestone>): int {
    if ms == [] then 0 else ReleasedSum(ms[..|ms| - 1]) + if ms[|ms| - 1].released then ms[|ms| - 1].amount else 0
  }

  /** Milestones come unreleased, and nothing is drawn by time. */
  ghost predicate ByMilestone(op: Op) {
    && Ordinary(op) && !op.ReleasingVested?
    && (op.Creating? ==> forall i :: 0 <= i < |op.milestones| ==> !op.milestones[i].released)
    && (op.AddingMilestone? ==> !op.m.released)
  }

  ghost predicate Ledger(s: State) {
    && Safe(s)
    && (s.schedule.Some? ==> s.schedule.value.released == s.transferred == ReleasedSum(s.schedule.value.milestones))
    && (s.schedule.None? ==> s.transferred == 0)
  }

  lemma {:induction false} NoneReleasedSum(ms: seq<Milestone>)
    requires forall i :: 0 <= i < |ms| ==> !ms[i].released
    ensures ReleasedSum(ms) == 0
  {
    if ms != [] {
      NoneReleasedSum(ms[..|ms| - 1]);
    }
  }

  lemma {:induction false} ReleasedUpdate(ms: seq<Milestone>, i: nat, m: Milestone)
    requires i < |ms| && m.amount == ms[i].amount && !ms[i].released
    ensures ReleasedSum(ms[i := m]) == ReleasedSum(ms) + if m.released then m.amount else 0
  {
    var n := |ms| - 1;
    if i == n {
      assert ms[i := m][..n] == ms[..n];
    } else {
      ReleasedUpdate(ms[..n], i, m);
      assert ms[i := m][..n] == ms[..n][i := m];
    }
  }

  /** An unreleased milestone still fits beside all released ones. */
  lemma {:induction false} RoomForUnreleased(ms: seq<Milestone>, i: nat)
    requires NonNegative(ms)
    ensures 0 <= ReleasedSum(ms) <= AmountSum(ms)
    ensures i < |ms| && !ms[i].released ==> ReleasedSum(ms) + ms[i].amount <= AmountSum(ms)
  {
    if ms != [] {
      RoomForUnreleased(ms[..|ms| - 1], i);
    }
  }

  lemma LedgerStep(s: State, op: Op)
    requires Ledger(s) && ByMilestone(op)
    ensures Ledger(Step(s, op))
  {
    StepSafe(s, op);
    hide Safe;
    match op
    case Creating(amount, cliff, end, ms) => NoneReleasedSum(AssignIds(ms));
    case ApprovingMilestone(admin, id) =>
      if s.schedule.Some? && ApproveMilestone(s, admin, id).1.Ok? {
        var ms := s.schedule.value.milestones;
        var i := FirstWithId(ms, id).value;
        ReleasedUpdate(ms, i, ms[i].(approvedBy := Some(admin), approvedAt := Some(s.now)));
      }
    case ReleasingMilestone(id, refused) =>
      if s.schedule.Some? && ReleaseMilestone(s, id, refused).1.Ok? {
        var ms := s.schedule.value.milestones;
        var i := FirstWithId(ms, id).value;
        ReleasedUpdate(ms, i, ms[i].(released := true));
      }
    case AddingMilestone(m) =>
      if s.schedule.Some? {
        var ms := s.schedule.value.milestones;
        var m' := if m.id == 0 then m.(id := |ms| + 1) else m;
        assert (ms + [m'])[..|ms|] == ms;
      }
    case _ =>
  }

  lemma {:induction false} LedgerRun(s: State, ops: seq<Op>)
    requires Ledger(s) && forall i :: 0 <= i < |ops| ==> ByMilestone(ops[i])
    ensures Ledger(Run(s, ops))
    decreases |ops|
  {
    hide Ledger, ByMilestone, Step;
    if ops != [] {
      assert ByMilestone(ops[0]);
      forall i | 0 <= i < |ops| - 1 ensures ByMilestone(ops[1..][i]) { assert ops[1..][i] == ops[i + 1]; }
      LedgerStep(s, ops[0]);
      LedgerRun(Step(s, ops[0]), ops[1..]);
    }
  }

  /** Over every run of creating, adding, approving and releasing milestones the released amount is
      the sum of the released milestones and of everything paid for them, all milestones together
      stay within the total, and the guard against paying too much never turns a release down: an
      approved milestone that a call finds unreleased is paid, and exactly that one is marked. */
  lemma MilestoneLedger(ops: seq<Op>, id: nat)
    requires forall i :: 0 <= i < |ops| ==> ByMilestone(ops[i])
    requires Run(INITIAL, ops).schedule.Some?
    ensures var s := Run(INITIAL, ops);
            var v := s.schedule.value;
            && v.released == s.transferred == ReleasedSum(v.milestones)
            && ReleasedSum(v.milestones) <= AmountSum(v.milestones) <= v.total
            && var i := FirstWithId(v.milestones, id);
            && var (s', r) := ReleaseMilestone(s, id, false);
            && (i.Some? && !v.milestones[i.value].released && v.milestones[i.value].approvedBy.Some?
                <==> r.Ok?)
            && (r.Ok? ==> r == Ok(v.milestones[i.value].amount)
                          && s'.schedule.value.milestones == v.milestones[i.value := v.milestones[i.value].(released := true)])
  {
    LedgerRun(INITIAL, ops);
    var s := Run(INITIAL, ops);
    var v := s.schedule.value;
    var i := FirstWithId(v.milestones, id);
    RoomForUnreleased(v.milestones, if i.Some? then i.value else 0);
  }

  /** Ids may repeat, because one that is given can equal one that is made up from a position. The
      milestone at a position can be approved and paid by some pair of calls exactly when it is
      unreleased and no earlier milestone has its id. */
  lemma PayableIff(ops: seq<Op>, admin: Address, i: nat)
    requires forall k :: 0 <= k < |ops| ==> ByMilestone(ops[k])
    requires Run(INITIAL, ops).schedule.Some? && i < |Run(INITIAL, ops).schedule.value.milestones|
    ensures var s := Run(INITIAL, ops);
            var ms := s.schedule.value.milestones;
            PayableAt(s, admin, i) <==>
            !ms[i].released && forall j :: 0 <= j < i ==> ms[j].id != ms[i].id
  {
    LedgerRun(INITIAL, ops);
    var s := Run(INITIAL, ops);
    hide Run;
    var ms := s.schedule.value.milestones;
    forall id: nat ensures PayableBy(s, admin, id, i) <==> !ms[i].released && FirstWithId(ms, id) == Some(i) {
      ApproveThenRelease(s, admin, id, i);
    }
    if !ms[i].released && (forall j :: 0 <= j < i ==> ms[j].id != ms[i].id) {
      assert FirstWithId(ms, ms[i].id) == Some(i);
      assert PayableBy(s, admin, ms[i].id, i);
    }
  }

  /** Approving and then releasing this id pays the milestone at position `i`. */
  predicate PayableBy(s: State, admin: Address, id: nat, i: nat)
    requires s.schedule.Some? && i < |s.schedule.value.milestones|
  {
    var s1 := ApproveMilestone(s, admin, id).0;
    var s2 := ReleaseMilestone(s1, id, false).0;
    s2 != s1 && !s1.schedule.value.milestones[i].released && s2.schedule.value.milestones[i].released
  }

  ghost predicate PayableAt(s: State, admin: Address, i: nat)
    requires s.schedule.Some? && i < |s.schedule.value.milestones|
  {
    exists id: nat :: PayableBy(s, admin, id, i)
  }

  lemma ApproveThenRelease(s: State, admin: Address, id: nat, i: nat)
    requires Ledger(s) && s.schedule.Some? && i < |s.schedule.value.milestones|
    ensures PayableBy(s, admin, id, i) <==>
            !s.schedule.value.milestones[i].released && FirstWithId(s.schedule.value.milestones, id) == Some(i)
  {
    LedgerStep(s, ApprovingMilestone(admin, id));
    var s1 := ApproveMilestone(s, admin, id).0;
    var ms, ms1 := s.schedule.value.milestones, s1.schedule.value.milestones;
    assert FirstWithId(ms1, id) == FirstWithId(ms, id) by {
      assert |ms1| == |ms| && forall k :: 0 <= k < |ms| ==> ms1[k].id == ms[k].id;
    }
    RoomForUnreleased(ms1, i);
  }
}
