/** Appeals against the outcome of a dispute: filing, resolution by an admin, expiry, and the round
    each escrow is in. They act on the records of the single-escrow state machine. */
module Appeals {
  import opened Common
  import opened Lifecycle
  import LifecycleLaws

  datatype Round = InitialRound | AppealRound | FinalRound

  datatype Appeal = Appeal(escrowId: nat, appellant: Address, filedAt: nat, deadline: nat, resolved: bool)

  datatype Court = Court(core: Lifecycle.State, appeals: map<nat, Appeal>, count: nat, rounds: map<nat, Round>)

  const OPENED := Court(INITIAL, map[], 0, map[])

  /** Three days. */
  const APPEAL_WINDOW: nat := 259200

  function RoundOf(s: Court, id: nat): Round {
    if id in s.rounds then s.rounds[id] else InitialRound
  }

  /** An unresolved appeal for this escrow among the first `n`. */
  predicate OpenAmong(appeals: map<nat, Appeal>, n: nat, id: nat) {
    exists i :: 0 <= i < n && i in appeals && appeals[i].escrowId == id && !appeals[i].resolved
  }

  function File(s: Court, appellant: Address, id: nat): (Court, Result<nat>) {
    if id !in s.core.escrows then (s, Err(NotFound))
    else
      var e := s.core.escrows[id];
      if appellant != e.customer && appellant != e.merchant then (s, Err(Unauthorized))
      else if RoundOf(s, id) == FinalRound then (s, Err(InvalidStatus))
      else if SaturatingSub(s.core.now, e.disputeStartedAt) > APPEAL_WINDOW then (s, Err(InvalidStatus))
      else if OpenAmong(s.appeals, s.count, id) then (s, Err(InvalidStatus))
      else
        var a := Appeal(id, appellant, s.core.now, SaturatingAdd(s.core.now, APPEAL_WINDOW), false);
        (s.(appeals := s.appeals[s.count := a], count := s.count + 1, rounds := s.rounds[id := AppealRound]), Ok(s.count))
  }

  function Close(s: Court, i: nat): Court
    requires i in s.appeals
  {
    s.(appeals := s.appeals[i := s.appeals[i].(resolved := true)], rounds := s.rounds[s.appeals[i].escrowId := FinalRound])
  }

  /** The caller is an admin. Whatever the escrow's status, it becomes resolved and its amount is
      paid to the favoured party. */
  function ResolveAppeal(s: Court, i: nat, inFavourOf: Address, net: Net): (Court, Result<()>) {
    if i !in s.appeals then (s, Err(NotFound))
    else if s.appeals[i].resolved then (s, Err(AlreadyProcessed))
    else
      var id := s.appeals[i].escrowId;
      if id !in s.core.escrows then (s, Err(NotFound))
      else
        var e := s.core.escrows[id];
        if inFavourOf != e.customer && inFavourOf != e.merchant then (s, Err(Unauthorized))
        else
          var (log, ok) := Pay(PaidFor(s.core, id), [Payment(Principal, inFavourOf, e.amount)], id, net);
          if !ok then (s, Err(InvalidStatus))
          else
            var e' := e.(status := Resolved, lastActivityAt := s.core.now);
            (Close(s, i).(core := s.core.(escrows := s.core.escrows[id := e'], paid := s.core.paid[id := log])), Ok(()))
  }

  /** Open to everybody once the deadline has passed; nothing is paid. */
  function ExpireAppeal(s: Court, i: nat): (Court, Result<()>) {
    if i !in s.appeals then (s, Err(NotFound))
    else if s.appeals[i].resolved then (s, Err(AlreadyProcessed))
    else if s.core.now <= s.appeals[i].deadline then (s, Err(TimeoutNotReached))
    else
      var id := s.appeals[i].escrowId;
      if id !in s.core.escrows then (s, Err(NotFound))
      else
        var e' := s.core.escrows[id].(lastActivityAt := s.core.now);
        (Close(s, i).(core := s.core.(escrows := s.core.escrows[id := e'])), Ok(()))
  }

  // ----- Runs -----

  datatype Op =
    | Filing(appellant: Address, id: nat)
    | ResolvingAppeal(i: nat, inFavourOf: Address, net: Net)
    | ExpiringAppeal(i: nat)
    | Calling(call: LifecycleLaws.Call)

  function Step(s: Court, op: Op): Court {
    match op
    case Filing(appellant, id) => File(s, appellant, id).0
    case ResolvingAppeal(i, favour, net) => ResolveAppeal(s, i, favour, net).0
    case ExpiringAppeal(i) => ExpireAppeal(s, i).0
    case Calling(call) => s.(core := LifecycleLaws.Step(s.core, call))
  }

  function Run(s: Court, ops: seq<Op>): Court
    decreases |ops|
  {
    if ops == [] then s else Run(Step(s, ops[0]), ops[1..])
  }

  // ----- Invariants -----

  /** Appeals are numbered without gaps, each for an existing escrow, no two for the same. */
  ghost predicate AppealsSound(s: Court) {
    && (forall i: nat :: i in s.appeals <==> i < s.count)
    && (forall i: nat :: i in s.appeals ==> s.appeals[i].escrowId in s.core.escrows)
    && (forall i: nat, j: nat :: i in s.appeals && j in s.appeals && i != j ==> s.appeals[i].escrowId != s.appeals[j].escrowId)
  }

  /** What the round of an escrow says about its one appeal. */
  ghost predicate RoundSound(s: Court, id: nat) {
    match RoundOf(s, id)
    case InitialRound => forall i: nat :: i in s.appeals ==> s.appeals[i].escrowId != id
    case AppealRound => exists i: nat :: i in s.appeals && s.appeals[i].escrowId == id && !s.appeals[i].resolved
    case FinalRound => exists i: nat :: i in s.appeals && s.appeals[i].escrowId == id && s.appeals[i].resolved
  }

  ghost predicate RoundsSound(s: Court) {
    forall id: nat :: RoundSound(s, id)
  }

  ghost predicate Inv(s: Court) {
    AppealsSound(s) && RoundsSound(s) && LifecycleLaws.Inv(s.core)
  }

  lemma FileKeeps(s: Court, appellant: Address, id: nat)
    requires Inv(s)
    ensures Inv(File(s, appellant, id).0)
  {
    hide LifecycleLaws.Inv, OpenAmong;
    OpenIffRound(s, id);
    var (s', r) := File(s, appellant, id);
    if r.Ok? {
      assert RoundSound(s, id);
      forall x: nat ensures RoundSound(s', x) {
        assert RoundSound(s, x);
        if x == id {
          assert s.count in s'.appeals && s'.appeals[s.count].escrowId == id;
        } else if RoundOf(s, x) != InitialRound {
          var i: nat :| i in s.appeals && s.appeals[i].escrowId == x && (s.appeals[i].resolved <==> RoundOf(s, x) == FinalRound);
          assert s'.appeals[i] == s.appeals[i];
        }
      }
    }
  }

  lemma CloseKeeps(s: Court, i: nat)
    requires AppealsSound(s) && RoundsSound(s) && i in s.appeals
    ensures AppealsSound(Close(s, i)) && RoundsSound(Close(s, i))
  {
    var s' := Close(s, i);
    forall x: nat ensures RoundSound(s', x) {
      assert RoundSound(s, x);
      if x == s.appeals[i].escrowId {
        assert s'.appeals[i].escrowId == x && s'.appeals[i].resolved;
      } else if RoundOf(s, x) != InitialRound {
        var j: nat :| j in s.appeals && s.appeals[j].escrowId == x && (s.appeals[j].resolved <==> RoundOf(s, x) == FinalRound);
        assert s'.appeals[j] == s.appeals[j];
      }
    }
  }

  /** Appeals and rounds do not depend on more of the records than that they exist. */
  lemma OtherCore(s: Court, core': Lifecycle.State)
    requires AppealsSound(s) && RoundsSound(s) && s.core.escrows.Keys <= core'.escrows.Keys
    ensures AppealsSound(s.(core := core')) && RoundsSound(s.(core := core'))
  {
    var s' := s.(core := core');
    forall x: nat ensures RoundSound(s', x) {
      assert RoundSound(s, x);
      assert RoundOf(s', x) == RoundOf(s, x);
    }
  }

  /** Touching a record of an escrow that is settled or stays what it was keeps the escrow machine sound. */
  lemma TouchedCore(core: Lifecycle.State, core': Lifecycle.State, id: nat, e': Escrow, log: seq<Payment>)
    requires LifecycleLaws.Inv(core) && id in core.escrows
    requires core' == core.(escrows := core.escrows[id := e'], paid := core.paid[id := log])
    requires e'.escalatedAt == core.escrows[id].escalatedAt && e'.escalationTimeout == core.escrows[id].escalationTimeout
    requires e'.status == core.escrows[id].status || e'.status.Resolved?
    requires e'.status.Resolved? || log == core.paid[id]
    ensures LifecycleLaws.Inv(core')
  {}

  lemma ResolveKeeps(s: Court, i: nat, favour: Address, net: Net)
    requires Inv(s)
    ensures Inv(ResolveAppeal(s, i, favour, net).0)
  {
    hide LifecycleLaws.Inv, AppealsSound, RoundsSound, Pay;
    var (s', r) := ResolveAppeal(s, i, favour, net);
    if r.Ok? {
      var id := s.appeals[i].escrowId;
      CloseKeeps(s, i);
      TouchedCore(s.core, s'.core, id, s'.core.escrows[id], s'.core.paid[id]);
      OtherCore(Close(s, i), s'.core);
    }
  }

  lemma ExpireKeeps(s: Court, i: nat)
    requires Inv(s)
    ensures Inv(ExpireAppeal(s, i).0)
  {
    hide AppealsSound, RoundsSound, LifecycleLaws.QueueLive;
    var (s', r) := ExpireAppeal(s, i);
    if r.Ok? {
      var id := s.appeals[i].escrowId;
      CloseKeeps(s, i);
      assert id in s.core.paid.Keys;
      assert s.core.paid[id := s.core.paid[id]] == s.core.paid;
      TouchedCore(s.core, s'.core, id, s'.core.escrows[id], s.core.paid[id]);
      OtherCore(Close(s, i), s'.core);
    }
  }

  lemma StepKeeps(s: Court, op: Op)
    requires Inv(s)
    ensures Inv(Step(s, op))
  {
    hide AppealsSound, RoundsSound, LifecycleLaws.Inv, File, ResolveAppeal, ExpireAppeal, LifecycleLaws.Step, LifecycleLaws.Accounted,
      LifecycleLaws.EscrowStep;
    match op
    case Filing(appellant, id) => FileKeeps(s, appellant, id);
    case ResolvingAppeal(i, favour, net) => ResolveKeeps(s, i, favour, net);
    case ExpiringAppeal(i) => ExpireKeeps(s, i);
    case Calling(call) =>
      LifecycleLaws.StepKeeps(s.core, call);
      OtherCore(s, LifecycleLaws.Step(s.core, call));
  }

  lemma {:induction false} RunKeeps(s: Court, ops: seq<Op>)
    requires Inv(s)
    ensures Inv(Run(s, ops))
    decreases |ops|
  {
    hide Inv, Step;
    if ops != [] {
      StepKeeps(s, ops[0]);
      RunKeeps(Step(s, ops[0]), ops[1..]);
    }
  }

  lemma OpenedInv()
    ensures Inv(OPENED)
  {
    forall id: nat ensures RoundSound(OPENED, id) {}
  }

  // ----- What the runs come to -----

  /** The scan over all appeals finds an open one for an escrow exactly when its round says so. */
  lemma OpenIffRound(s: Court, id: nat)
    requires AppealsSound(s) && RoundsSound(s)
    ensures OpenAmong(s.appeals, s.count, id) <==> RoundOf(s, id) == AppealRound
  {
    assert RoundSound(s, id);
  }

  /** In every reachable storage no two appeals are for the same escrow; a round is initial when no
      appeal was ever filed, in appeal when the one filed is unresolved, and final when that one is
      resolved; and the linear scan for an open appeal says the same as the round. */
  lemma OneAppealPerEscrow(ops: seq<Op>, id: nat, i: nat, j: nat)
    ensures var s := Run(OPENED, ops);
            && (i in s.appeals && j in s.appeals && s.appeals[i].escrowId == s.appeals[j].escrowId ==> i == j)
            && (RoundOf(s, id) == InitialRound <==> forall k: nat :: k in s.appeals ==> s.appeals[k].escrowId != id)
            && (i in s.appeals && s.appeals[i].escrowId == id ==>
                  RoundOf(s, id) == if s.appeals[i].resolved then FinalRound else AppealRound)
            && (OpenAmong(s.appeals, s.count, id) <==> RoundOf(s, id) == AppealRound)
  {
    OpenedInv();
    RunKeeps(OPENED, ops);
    var s := Run(OPENED, ops);
    hide Run, LifecycleLaws.Inv;
    assert RoundSound(s, id);
    OpenIffRound(s, id);
  }

  /** Filing succeeds exactly for a party of an escrow for which nobody has ever appealed, within
      the time; the appeal it makes is the only one the escrow will ever have. */
  lemma FilingIff(ops: seq<Op>, appellant: Address, id: nat, after: seq<Op>)
    ensures var s := Run(OPENED, ops);
            var (s', r) := File(s, appellant, id);
            && (r.Ok? <==>
                  && id in s.core.escrows
                  && (appellant == s.core.escrows[id].customer || appellant == s.core.escrows[id].merchant)
                  && (forall k: nat :: k in s.appeals ==> s.appeals[k].escrowId != id)
                  && SaturatingSub(s.core.now, s.core.escrows[id].disputeStartedAt) <= APPEAL_WINDOW)
            && (r.Ok? ==> File(Run(s', after), appellant, id).1.Err?)
  {
    OneAppealPerEscrow(ops, id, 0, 0);
    OpenedInv();
    RunKeeps(OPENED, ops);
    var s := Run(OPENED, ops);
    FileKeeps(s, appellant, id);
    var (s', r) := File(s, appellant, id);
    if r.Ok? {
      RoundsAdvance(s', after, id);
      RunKeeps(s', after);
      OpenIffRound(Run(s', after), id);
    }
  }

  function RoundRank(r: Round): nat {
    match r
    case InitialRound => 0
    case AppealRound => 1
    case FinalRound => 2
  }

  lemma RoundStep(s: Court, op: Op, id: nat)
    requires Inv(s)
    ensures RoundRank(RoundOf(s, id)) <= RoundRank(RoundOf(Step(s, op), id))
  {
    hide LifecycleLaws.Inv, LifecycleLaws.Step, AppealsSound, Pay;
    if op.Filing? {
      assert RoundSound(s, id);
      assert RoundOf(Step(s, op), id) == RoundOf(s, id) || op.id == id;
    }
  }

  lemma {:induction false} RoundsAdvance(s: Court, ops: seq<Op>, id: nat)
    requires Inv(s)
    ensures RoundRank(RoundOf(s, id)) <= RoundRank(RoundOf(Run(s, ops), id))
    decreases |ops|
  {
    hide Inv, Step;
    if ops != [] {
      StepKeeps(s, ops[0]);
      RoundStep(s, ops[0], id);
      RoundsAdvance(Step(s, ops[0]), ops[1..], id);
    }
  }

  /** An appeal is closed at most once: whichever way it was closed, in every later storage the
      round is final and neither resolving nor expiring it, nor filing again, goes through. */
  lemma ClosedForGood(ops: seq<Op>, i: nat, close: Op, after: seq<Op>, favour: Address, net: Net, appellant: Address)
    requires close == ExpiringAppeal(i) || (close.ResolvingAppeal? && close.i == i)
    requires var s := Run(OPENED, ops); Step(s, close) != s
    ensures var s := Run(OPENED, ops);
            var s2 := Run(Step(s, close), after);
            && i in s.appeals
            && var id := s.appeals[i].escrowId;
            RoundOf(s2, id) == FinalRound && i in s2.appeals && s2.appeals[i].resolved
            && ResolveAppeal(s2, i, favour, net).1.Err? && ExpireAppeal(s2, i).1.Err? && File(s2, appellant, id).1.Err?
  {
    hide Run, Inv, Step, ResolveAppeal, ExpireAppeal, File;
    OpenedInv();
    RunKeeps(OPENED, ops);
    var s := Run(OPENED, ops);
    Closing(s, i, close);
    StepKeeps(s, close);
    var s1, id := Step(s, close), s.appeals[i].escrowId;
    RunKeeps(s1, after);
    RoundsAdvance(s1, after, id);
    AppealsPersist(s1, after, i);
    Refused(Run(s1, after), i, id, favour, net, appellant);
  }

  lemma Closing(s: Court, i: nat, close: Op)
    requires close == ExpiringAppeal(i) || (close.ResolvingAppeal? && close.i == i)
    requires Step(s, close) != s
    ensures i in s.appeals && i in Step(s, close).appeals
    ensures Step(s, close).appeals[i] == s.appeals[i].(resolved := true)
    ensures RoundOf(Step(s, close), s.appeals[i].escrowId) == FinalRound
  {
    hide Pay;
  }

  lemma Refused(s: Court, i: nat, id: nat, favour: Address, net: Net, appellant: Address)
    requires i in s.appeals && s.appeals[i].resolved && RoundOf(s, id) == FinalRound
    ensures ResolveAppeal(s, i, favour, net).1.Err? && ExpireAppeal(s, i).1.Err? && File(s, appellant, id).1.Err?
  {
    hide Pay, OpenAmong;
  }

  lemma AppealStays(s: Court, op: Op, i: nat)
    requires AppealsSound(s) && i in s.appeals && s.appeals[i].resolved
    ensures i in Step(s, op).appeals && Step(s, op).appeals[i] == s.appeals[i]
  {
    assert s.count !in s.appeals;
    hide AppealsSound, LifecycleLaws.Step, Pay, OpenAmong;
  }

  lemma {:induction false} AppealsPersist(s: Court, ops: seq<Op>, i: nat)
    requires Inv(s) && i in s.appeals && s.appeals[i].resolved
    ensures i in Run(s, ops).appeals && Run(s, ops).appeals[i] == s.appeals[i]
    decreases |ops|
  {
    hide AppealsSound, RoundsSound, LifecycleLaws.Inv, Step;
    if ops != [] {
      StepKeeps(s, ops[0]);
      AppealStays(s, ops[0], i);
      AppealsPersist(Step(s, ops[0]), ops[1..], i);
    }
  }
}
