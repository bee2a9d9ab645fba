/** How much a schedule has vested at a time, in terms of elapsed time, unlocked milestones and marks,
    and what that makes of releases. */
module VestingCurve {
  import opened Common
  import opened Vesting
  import opened VestingLaws

  /** The milestones whose unlock time has come, in their order. */
  function Unlocked(ms: seq<Milestone>, now: nat): seq<Milestone> {
    if ms == [] then []
    else Unlocked(ms[..|ms| - 1], now) + if ms[|ms| - 1].unlockTimestamp <= now then [ms[|ms| - 1]] else []
  }

  lemma {:induction false} UnlockedAre(ms: seq<Milestone>, now: nat, m: Milestone)
    ensures multiset(Unlocked(ms, now))[m] == if m.unlockTimestamp <= now then multiset(ms)[m] else 0
  {
    if ms != [] {
      var n := |ms| - 1;
      UnlockedAre(ms[..n], now, m);
      assert ms == ms[..n] + [ms[n]];
    }
  }

  lemma {:induction false} UnlockedTotal(ms: seq<Milestone>, now: nat)
    ensures UnlockedSum(ms, now) == AmountSum(Unlocked(ms, now))
  {
    if ms != [] {
      var n := |ms| - 1;
      UnlockedTotal(ms[..n], now);
      if ms[n].unlockTimestamp <= now {
        AppendSum(Unlocked(ms[..n], now), ms[n]);
      } else {
        assert Unlocked(ms, now) == Unlocked(ms[..n], now);
      }
    }
  }

  /** The part `a / b` of a whole, rounded down. */
  predicate PartOf(part: int, whole: int, a: int, b: int) {
    part * b <= a * whole < (part + 1) * b
  }

  lemma Rounded(whole: int, a: nat, b: nat)
    requires whole >= 0 && b > 0
    ensures PartOf(TruncDiv(a * whole, b), whole, a, b)
  {
    Product(0, a, whole);
    assert a * whole >= 0;
    Quotient(a * whole, b);
  }

  /** What a schedule by itself has vested: nothing before the cliff and everything from the end on; in
      between the amounts of the unlocked milestones, and without milestones the same part of the total
      as of the time from cliff to end that has passed since the cliff. */
  ghost predicate OnSchedule(s: Schedule, now: nat, base: int) {
    && (now < s.cliff ==> base == 0)
    && (s.cliff <= now && s.end <= now ==> base == s.total)
    && (s.cliff <= now < s.end && s.milestones == [] ==> PartOf(base, s.total, now - s.cliff, s.end - s.cliff))
    && (s.cliff <= now < s.end && s.milestones != [] ==> base == AmountSum(Unlocked(s.milestones, now)))
  }

  lemma BaseOnSchedule(s: Schedule, now: nat)
    requires s.total >= 0
    ensures OnSchedule(s, now, BaseVested(s, now))
  {
    UnlockedTotal(s.milestones, now);
    if s.cliff <= now < s.end {
      Rounded(s.total, now - s.cliff, s.end - s.cliff);
    }
    hide PartOf, UnlockedSum, AmountSum, TruncDiv;
  }

  /** At the cliff itself a schedule without milestones has vested nothing. */
  lemma NothingAtTheCliff(s: Schedule, base: int)
    requires s.cliff < s.end && s.milestones == [] && OnSchedule(s, s.cliff, base)
    ensures base == 0
  {
    var d := s.end - s.cliff;
    assert base * d <= 0 < (base + 1) * d;
    if base > 0 {
      Product(1, base, d);
    } else if base < 0 {
      Product(base + 1, 0, d);
    }
  }

  /** Acceleration brings forward the part `bps` of ten thousand of the rest, and all of it from there on. */
  lemma AcceleratedPart(s: Schedule, bps: nat, now: nat)
    requires Sane(s)
    ensures var base, v := BaseVested(s, now), Vested(s, bps, now);
            if bps < 10000 then PartOf(v - base, s.total - base, bps, 10000) else v == s.total
    ensures bps == 0 ==> Vested(s, bps, now) == BaseVested(s, now)
  {
    var base := BaseVested(s, now);
    BaseBounds(s, now);
    VestedIs(s, bps, now);
    hide BaseVested, Vested;
    Rounded(s.total - base, bps, 10000);
    assert bps * (s.total - base) == (s.total - base) * bps;
    if bps < 10000 {
      Product(bps, 10000, s.total - base);
      DivAtMost((s.total - base) * bps, s.total - base, 10000);
    } else {
      PartFills(s.total, base, bps);
    }
  }

  lemma PartAccelerated(s: Schedule, bps: nat, now: nat)
    ensures Sane(s) ==> PartOf(Accelerated(s, bps, now), s.total - BaseVested(s, now), bps, 10000)
  {
    hide BaseVested, PartOf;
    if Sane(s) {
      BaseBounds(s, now);
      Rounded(s.total - BaseVested(s, now), bps, 10000);
      assert bps * (s.total - BaseVested(s, now)) == (s.total - BaseVested(s, now)) * bps;
    }
  }

  /** The amount is what has vested: what the schedule by itself gives, and the part that the completed
      milestones bring forward of the rest. */
  ghost predicate VestedRightly(s: State, v: int)
    requires s.schedule.Some?
  {
    var w, bps := s.schedule.value, BpsOf(s.acceleration);
    exists base :: OnSchedule(w, s.now, base) && (if bps < 10000 then PartOf(v - base, w.total - base, bps, 10000) else v == w.total)
  }

  lemma VestedIsRight(s: State)
    requires s.schedule.Some?
    ensures Sane(s.schedule.value) ==> VestedRightly(s, VestedNow(s))
  {
    hide BaseVested, PartOf, OnSchedule, Vested;
    var w, bps := s.schedule.value, BpsOf(s.acceleration);
    if Sane(w) {
      BaseOnSchedule(w, s.now);
      AcceleratedPart(w, bps, s.now);
      assert OnSchedule(w, s.now, BaseVested(w, s.now));
    }
  }

  /** The amount is handed out on top of what was, and each unlocked milestone within what is handed out
      now counts as released. */
  predicate HandedOut(v: Schedule, v': Schedule, now: nat, amount: int) {
    && v' == v.(released := v.released + amount, milestones := v'.milestones) && |v'.milestones| == |v.milestones|
    && forall i :: 0 <= i < |v.milestones| ==>
         v'.milestones[i] == (if v.milestones[i].unlockTimestamp <= now && v.milestones[i].amount <= v'.released
                              then v.milestones[i].(released := true) else v.milestones[i])
  }

  /** The first milestone with this id. */
  predicate FirstAt(ms: seq<Milestone>, id: nat, i: nat)
    requires i < |ms|
  {
    ms[i].id == id && forall j :: 0 <= j < i ==> ms[j].id != id
  }

  /** The first milestone with this id, until now unreleased, has been approved by this admin. */
  predicate ApprovedFirst(v: Schedule, v': Schedule, id: nat, admin: Address, now: nat) {
    exists i :: 0 <= i < |v.milestones| && FirstAt(v.milestones, id, i) && !v.milestones[i].released
                && v' == v.(milestones := v.milestones[i := v.milestones[i].(approvedBy := Some(admin), approvedAt := Some(now))])
  }

  /** An approved, unreleased milestone has been paid its amount within the total, and is marked. */
  predicate PaidMilestone(v: Schedule, v': Schedule, i: nat, amount: int)
    requires i < |v.milestones|
  {
    && !v.milestones[i].released && v.milestones[i].approvedBy.Some? && amount == v.milestones[i].amount && v.released + amount <= v.total
    && v' == v.(released := v.released + amount, milestones := v.milestones[i := v.milestones[i].(released := true)])
  }

  predicate PaidFirst(v: Schedule, v': Schedule, id: nat, amount: int) {
    exists i :: 0 <= i < |v.milestones| && FirstAt(v.milestones, id, i) && PaidMilestone(v, v', i, amount)
  }

  // ----- Releases -----

  /** A release at the cliff of a new schedule without milestones and marks finds nothing, whatever was
      tried before, and is refused. */
  lemma RefusedAtTheCliff(s: State, ops: seq<Op>)
    requires JustCreated(s) && s.schedule.value.milestones == [] && AllDrawing(ops)
    requires var s' := Run(s, ops); s'.now == s.schedule.value.cliff && BpsOf(s'.acceleration) == 0
    ensures var s' := Run(s, ops); s'.returned == 0 && ReleaseVested(s') == (s', Err(InvalidStatus))
  {
    hide Vested, BaseVested, Sane, Run, OnSchedule;
    var v := s.schedule.value;
    DrawnTotals(s, ops);
    CreatedDrawn(s);
    DrawRun(s, ops, v);
    var s' := Run(s, ops);
    var v' := s'.schedule.value;
    SameTermsVested(v', v, BpsOf(s'.acceleration), s'.now);
    SaneSchedule(v);
    BaseOnSchedule(v, v.cliff);
    NothingAtTheCliff(v, BaseVested(v, v.cliff));
    AcceleratedPart(v, 0, v.cliff);
  }

  lemma SaneSchedule(s: Schedule)
    requires Sane(s)
    ensures s.total >= 0 && s.cliff < s.end
  {}

  /** After a release at any time between cliff and end, however many were made before, a new schedule
      without milestones and marks has returned the part of its total that corresponds to the part of
      the time that has passed, rounded down. */
  lemma ReturnedIsElapsed(s: State, ops: seq<Op>)
    requires JustCreated(s) && s.schedule.value.milestones == [] && AllDrawing(ops)
    requires ops != [] && ops[|ops| - 1].ReleasingVested?
    requires var s', v := Run(s, ops), s.schedule.value; v.cliff <= s'.now < v.end && BpsOf(s'.acceleration) == 0
    ensures var s', v := Run(s, ops), s.schedule.value; PartOf(s'.returned, v.total, s'.now - v.cliff, v.end - v.cliff)
  {
    hide Vested, BaseVested, Run, PartOf;
    var s', v := Run(s, ops), s.schedule.value;
    DrawnTotals(s, ops);
    BaseOnSchedule(v, s'.now);
    AcceleratedPart(v, 0, s'.now);
  }
}
