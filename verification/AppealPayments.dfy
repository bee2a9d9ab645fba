/** What appeals do to the payments for an escrow: they are the only thing that can pay for a settled
    one, and they pay without asking what was paid before. */
module AppealPayments {
  import opened Common
  import EscalationQueue
  import EscalationScan
  import opened Lifecycle
  import LifecycleLaws
  import opened Settlement
  import opened Appeals

  // ----- Appeals that pay -----

  /** This call resolves an appeal for the escrow, and the money moves. */
  predicate AppealPays(s: Court, op: Op, id: nat) {
    && op.ResolvingAppeal? && op.i in s.appeals && s.appeals[op.i].escrowId == id
    && ResolveAppeal(s, op.i, op.inFavourOf, op.net).1.Ok? && op.net(id, Principal).Moved?
  }

  predicate PaidOnAppeal(s: Court, ops: seq<Op>, id: nat)
    decreases |ops|
  {
    ops != [] && (AppealPays(s, ops[0], id) || PaidOnAppeal(Step(s, ops[0]), ops[1..], id))
  }

  function PaymentOf(s: Court, op: Op, id: nat): seq<Payment> {
    if AppealPays(s, op, id) && id in s.core.escrows then [Payment(Principal, op.inFavourOf, s.core.escrows[id].amount)] else []
  }

  function PaymentsOnAppeal(s: Court, ops: seq<Op>, id: nat): seq<Payment>
    decreases |ops|
  {
    if ops == [] then [] else PaymentOf(s, ops[0], id) + PaymentsOnAppeal(Step(s, ops[0]), ops[1..], id)
  }

  lemma AppealPayment(s: Court, op: Op, id: nat)
    requires id in s.core.escrows && op.ResolvingAppeal?
    ensures PaidFor(Step(s, op).core, id) == PaidFor(s.core, id) + PaymentOf(s, op, id)
    ensures id in Step(s, op).core.escrows
    ensures var e, e' := s.core.escrows[id], Step(s, op).core.escrows[id];
            e'.amount == e.amount && e'.feeBps == e.feeBps && (e'.status == e.status || e'.status.Resolved?)
  {
    var (s', r) := ResolveAppeal(s, op.i, op.inFavourOf, op.net);
    if r.Ok? {
      var x := s.appeals[op.i].escrowId;
      var p := Payment(Principal, op.inFavourOf, s.core.escrows[x].amount);
      PayLands(PaidFor(s.core, x), [p], x, op.net);
      LandedOne(p, x, op.net);
      hide Pay, Landed;
      assert PaidFor(s.core, id) + [] == PaidFor(s.core, id);
    } else {
      assert PaidFor(s.core, id) + [] == PaidFor(s.core, id);
    }
  }

  lemma CallPaysSettled(s: Court, call: LifecycleLaws.Call, id: nat)
    requires Inv(s) && id in s.core.escrows && LifecycleLaws.Settled(s.core.escrows[id])
    ensures var core' := Step(s, Calling(call)).core;
            && id in core'.escrows && LifecycleLaws.Settled(core'.escrows[id])
            && core'.escrows[id].amount == s.core.escrows[id].amount && PaidFor(core', id) == PaidFor(s.core, id)
  {
    CoreInv(s);
    hide LifecycleLaws.Step, Inv, LifecycleLaws.Inv;
    LifecycleLaws.StepKeeps(s.core, call);
    var core' := LifecycleLaws.Step(s.core, call);
    assert LifecycleLaws.EscrowStep(s.core.escrows[id], PaidFor(s.core, id), core'.escrows[id], PaidFor(core', id));
  }

  lemma OtherOpsPayNothing(s: Court, op: Op, id: nat)
    requires (op.Filing? || op.ExpiringAppeal?) && id in s.core.escrows
    ensures var core' := Step(s, op).core;
            && id in core'.escrows && core'.escrows[id].status == s.core.escrows[id].status
            && core'.escrows[id].amount == s.core.escrows[id].amount && PaidFor(core', id) == PaidFor(s.core, id)
  {
    hide OpenAmong;
  }

  lemma StepPaysSettled(s: Court, op: Op, id: nat)
    requires Inv(s) && id in s.core.escrows && LifecycleLaws.Settled(s.core.escrows[id])
    ensures id in Step(s, op).core.escrows && LifecycleLaws.Settled(Step(s, op).core.escrows[id])
    ensures Step(s, op).core.escrows[id].amount == s.core.escrows[id].amount
    ensures PaidFor(Step(s, op).core, id) == PaidFor(s.core, id) + PaymentOf(s, op, id)
  {
    hide Step, Inv;
    assert PaidFor(s.core, id) + [] == PaidFor(s.core, id);
    match op {
      case ResolvingAppeal(_, _, _) => AppealPayment(s, op, id);
      case Calling(call) => CallPaysSettled(s, call, id);
      case _ => OtherOpsPayNothing(s, op, id);
    }
  }

  lemma {:induction false} RunPaysSettled(s: Court, ops: seq<Op>, id: nat)
    requires Inv(s) && id in s.core.escrows && LifecycleLaws.Settled(s.core.escrows[id])
    ensures id in Run(s, ops).core.escrows && LifecycleLaws.Settled(Run(s, ops).core.escrows[id])
    ensures PaidFor(Run(s, ops).core, id) == PaidFor(s.core, id) + PaymentsOnAppeal(s, ops, id)
    decreases |ops|
  {
    hide Inv, Step, PaymentOf, LifecycleLaws.Settled;
    if ops == [] {
      assert PaidFor(s.core, id) + [] == PaidFor(s.core, id);
    } else {
      StepKeeps(s, ops[0]);
      StepPaysSettled(s, ops[0], id);
      RunPaysSettled(Step(s, ops[0]), ops[1..], id);
      var p, rest := PaymentOf(s, ops[0], id), PaymentsOnAppeal(Step(s, ops[0]), ops[1..], id);
      assert PaidFor(s.core, id) + p + rest == PaidFor(s.core, id) + (p + rest);
    }
  }

  /** Resolving an appeal makes the round final, and in a final round no appeal is left to resolve. */
  lemma PayingIsFinal(s: Court, op: Op, id: nat)
    requires Inv(s)
    ensures AppealPays(s, op, id) ==> RoundOf(Step(s, op), id) == FinalRound && RoundOf(s, id) == AppealRound && id in s.core.escrows
  {
    assert RoundSound(s, id);
    hide LifecycleLaws.Inv, Pay;
  }

  lemma {:induction false} FinalPaysNothing(s: Court, ops: seq<Op>, id: nat)
    requires Inv(s) && RoundOf(s, id) == FinalRound
    ensures PaymentsOnAppeal(s, ops, id) == [] && !PaidOnAppeal(s, ops, id)
    decreases |ops|
  {
    hide Inv, Step, AppealPays, RoundOf;
    if ops != [] {
      PayingIsFinal(s, ops[0], id);
      StepKeeps(s, ops[0]);
      RoundStep(s, ops[0], id);
      FinalPaysNothing(Step(s, ops[0]), ops[1..], id);
    }
  }

  lemma {:induction false} AtMostOnePayment(s: Court, ops: seq<Op>, id: nat)
    requires Inv(s)
    ensures |PaymentsOnAppeal(s, ops, id)| == if PaidOnAppeal(s, ops, id) then 1 else 0
    decreases |ops|
  {
    hide Inv, Step, AppealPays, RoundOf;
    if ops != [] {
      PayingIsFinal(s, ops[0], id);
      StepKeeps(s, ops[0]);
      AtMostOnePayment(Step(s, ops[0]), ops[1..], id);
      if AppealPays(s, ops[0], id) {
        FinalPaysNothing(Step(s, ops[0]), ops[1..], id);
      }
    }
  }

  /** Whatever is called after an escrow was settled, only the resolution of an appeal whose transfer
      moves pays for it, and that happens at most once: the payments stay what they were if and only
      if there is no such resolution. */
  lemma OnlyAnAppealPaysAgain(before: seq<Op>, id: nat, after: seq<Op>)
    requires var s := Run(OPENED, before); id in s.core.escrows && LifecycleLaws.Settled(s.core.escrows[id])
    ensures var s := Run(OPENED, before);
            var was, now := PaidFor(s.core, id), PaidFor(Run(s, after).core, id);
            && now == was + PaymentsOnAppeal(s, after, id)
            && |now| == |was| + (if PaidOnAppeal(s, after, id) then 1 else 0)
            && (now == was <==> !PaidOnAppeal(s, after, id))
  {
    hide Inv, Run, PaidOnAppeal, PaymentsOnAppeal, LifecycleLaws.Settled;
    OpenedInv();
    RunKeeps(OPENED, before);
    var s := Run(OPENED, before);
    RunPaysSettled(s, after, id);
    AtMostOnePayment(s, after, id);
    assert PaymentsOnAppeal(s, after, id) == [] ==> PaidFor(s.core, id) + [] == PaidFor(s.core, id);
  }

  // ----- Escrows that are settled and not paid -----

  /** A dispute resolved by evidence is settled without a payment, and it stays unpaid if and only if
      no appeal for it is resolved with its transfer moved. */
  lemma AutoResolvedUnpaidIff(before: seq<Op>, id: nat, toMerchant: bool, net: Net, after: seq<Op>)
    requires AutoResolve(Run(OPENED, before).core, id, toMerchant).result.Ok?
    ensures var s := Step(Run(OPENED, before), Calling(LifecycleLaws.Call(LifecycleLaws.AutoResolving(id, toMerchant), net)));
            && id in s.core.escrows && LifecycleLaws.Settled(s.core.escrows[id]) && PaidFor(s.core, id) == []
            && (PaidFor(Run(s, after).core, id) == [] <==> !PaidOnAppeal(s, after, id))
  {
    var op := Calling(LifecycleLaws.Call(LifecycleLaws.AutoResolving(id, toMerchant), net));
    OpenedInv();
    RunKeeps(OPENED, before);
    UnpaidByEvidence(Run(OPENED, before), id, toMerchant, net);
    hide Step, Inv, Run, PaidOnAppeal, LifecycleLaws.Settled;
    RunAppend(OPENED, before, [op]);
    RunOne(Run(OPENED, before), op);
    OnlyAnAppealPaysAgain(before + [op], id, after);
  }

  lemma UnpaidByEvidence(s: Court, id: nat, toMerchant: bool, net: Net)
    requires Inv(s) && AutoResolve(s.core, id, toMerchant).result.Ok?
    ensures var s' := Step(s, Calling(LifecycleLaws.Call(LifecycleLaws.AutoResolving(id, toMerchant), net)));
            id in s'.core.escrows && LifecycleLaws.Settled(s'.core.escrows[id]) && PaidFor(s'.core, id) == []
  {
    hide AppealsSound, RoundsSound;
  }

  lemma {:induction false} RunAppend(s: Court, a: seq<Op>, b: seq<Op>)
    ensures Run(s, a + b) == Run(Run(s, a), b)
    decreases |a|
  {
    hide Step;
    if a == [] {
      assert a + b == b;
    } else {
      assert (a + b)[1..] == a[1..] + b;
      RunAppend(Step(s, a[0]), a[1..], b);
    }
  }

  lemma RunOne(s: Court, op: Op)
    ensures Run(s, [op]) == Step(s, op)
  {
    hide Step;
    assert [op][1..] == [];
    assert Run(Step(s, op), []) == Step(s, op);
  }

  /** A refused transfer inside a batch of timeouts is swallowed together with the status already
      stored: the escrow is settled and stays queued with what had landed before the refusal, which
      for a split may be the first half and otherwise is nothing. That stays all it is paid if and
      only if no appeal for it is resolved with its transfer moved. */
  lemma SwallowedRefusalStrandsIff(before: seq<Op>, limit: nat, net: Net, id: nat, after: seq<Op>)
    requires var s := Run(OPENED, before).core;
             id in EscalationScan.Chosen(s, EscalationQueue.Entries(s.queue), limit, net) && !EscalationScan.Clears(s, id, net)
    ensures var s := Run(OPENED, before);
            var t := Step(s, Calling(LifecycleLaws.Call(LifecycleLaws.Processing(limit), net)));
            && id in s.core.escrows && id in t.core.escrows
            && LifecycleLaws.Settled(t.core.escrows[id]) && id in t.core.queue.deadlineOf
            && var e := s.core.escrows[id];
            && PaidFor(t.core, id) ==
               (if e.favor.SplitEqual? && net(id, Principal).Moved? then [Payment(Principal, e.customer, TruncDiv(e.amount, 2))] else [])
            && (PaidFor(Run(t, after).core, id) == PaidFor(t.core, id) <==> !PaidOnAppeal(t, after, id))
  {
    var op := Calling(LifecycleLaws.Call(LifecycleLaws.Processing(limit), net));
    hide Inv, Run, PaidOnAppeal, LifecycleLaws.Settled, Process, EscalationScan.Chosen, EscalationScan.Clears, EscalationQueue.Entries;
    OpenedInv();
    RunKeeps(OPENED, before);
    var s := Run(OPENED, before);
    CoreInv(s);
    RefusedInBatch(s, limit, net, id);
    hide Step;
    RunAppend(OPENED, before, [op]);
    RunOne(s, op);
    OnlyAnAppealPaysAgain(before + [op], id, after);
  }

  lemma RefusedInBatch(s: Court, limit: nat, net: Net, id: nat)
    requires LifecycleLaws.Inv(s.core)
    requires id in EscalationScan.Chosen(s.core, EscalationQueue.Entries(s.core.queue), limit, net) && !EscalationScan.Clears(s.core, id, net)
    ensures var t := Step(s, Calling(LifecycleLaws.Call(LifecycleLaws.Processing(limit), net)));
            && id in s.core.escrows && id in t.core.escrows
            && LifecycleLaws.Settled(t.core.escrows[id]) && id in t.core.queue.deadlineOf
            && var e := s.core.escrows[id];
            PaidFor(t.core, id) ==
            if e.favor.SplitEqual? && net(id, Principal).Moved? then [Payment(Principal, e.customer, TruncDiv(e.amount, 2))] else []
  {
    hide LifecycleLaws.Inv, Process, EscalationScan.Chosen, EscalationScan.Clears, EscalationQueue.Entries, Trigger, EscalationScan.Due;
    EscalationScan.ChosenMembers(s.core, EscalationQueue.Entries(s.core.queue), limit, net, id);
    EscalationScan.RefusedStaysQueued(s.core, limit, net, id);
    RefusedLands(s.core, id, net);
  }

  lemma CoreInv(s: Court)
    requires Inv(s)
    ensures LifecycleLaws.Inv(s.core)
  {}

  /** What a refused timeout resolution has paid. */
  lemma RefusedLands(s: Lifecycle.State, id: nat, net: Net)
    requires LifecycleLaws.Inv(s) && EscalationScan.Due(s, id) && !EscalationScan.Clears(s, id, net)
    ensures var e := s.escrows[id];
            PaidFor(Trigger(s, id, net).state, id) ==
            if e.favor.SplitEqual? && net(id, Principal).Moved? then [Payment(Principal, e.customer, TruncDiv(e.amount, 2))] else []
  {
    var e := s.escrows[id];
    var legs := TimeoutLegs(e);
    assert PaidFor(s, id) == [];
    PayLands([], legs, id, net);
    assert [] + Landed(legs, id, net) == Landed(legs, id, net);
    EscalationScan.ObstacleIffNotDue(s, id);
    if e.favor.SplitEqual? {
      LandedTwo(legs[0], legs[1], id, net);
      assert legs == [legs[0], legs[1]];
      assert [legs[0]] + [] == [legs[0]];
    } else {
      LandedOne(legs[0], id, net);
      assert legs == [legs[0]];
    }
    hide Landed, Pay, LifecycleLaws.Inv;
  }

  // ----- Escrows that are paid twice -----

  /** The escrow machine's own settlement of this escrow is clean. */
  ghost predicate CleanOps(s: Court, ops: seq<Op>, id: nat)
    decreases |ops|
  {
    ops == [] || ((ops[0].Calling? ==> CleanCall(s.core, ops[0].call, id)) && CleanOps(Step(s, ops[0]), ops[1..], id))
  }

  lemma CleanOpStep(s: Court, op: Op, id: nat)
    requires Inv(s) && (op.Calling? ==> CleanCall(s.core, op.call, id))
    requires RoundOf(s, id) == FinalRound || InFull(s.core, id)
    ensures RoundOf(Step(s, op), id) == FinalRound || InFull(Step(s, op).core, id)
  {
    CoreInv(s);
    RoundStep(s, op, id);
    match op {
      case Calling(call) =>
        hide LifecycleLaws.Step, Inv, LifecycleLaws.Inv, InFull, CleanCall;
        if RoundOf(s, id) != FinalRound {
          CleanStepInFull(s.core, call, id);
        }
      case _ => hide LifecycleLaws.Inv, AppealsSound, RoundsSound, Pay, OpenAmong;
    }
  }

  lemma {:induction false} CleanOpsInFull(s: Court, ops: seq<Op>, id: nat)
    requires Inv(s) && CleanOps(s, ops, id) && (RoundOf(s, id) == FinalRound || InFull(s.core, id))
    ensures RoundOf(Run(s, ops), id) == FinalRound || InFull(Run(s, ops).core, id)
    decreases |ops|
  {
    hide Inv, Step, CleanCall, InFull, RoundOf;
    if ops != [] {
      StepKeeps(s, ops[0]);
      CleanOpStep(s, ops[0], id);
      CleanOpsInFull(Step(s, ops[0]), ops[1..], id);
    }
  }

  /** When an appeal for an escrow with ordinary money is resolved and the money moves, the stored
      status tells whether it is paid twice: if the escrow was settled, cleanly as in `CleanOps`, its
      amount is now paid twice over; if it was locked or disputed, exactly once. */
  lemma PaidTwiceIffSettledBefore(ops: seq<Op>, op: Op, id: nat)
    requires CleanOps(OPENED, ops, id) && AppealPays(Run(OPENED, ops), op, id)
    requires var s := Run(OPENED, ops).core; id in s.escrows && LifecycleLaws.Sane(s.escrows[id])
    ensures var s := Run(OPENED, ops);
            var e, paid := s.core.escrows[id], LifecycleLaws.Total(PaidFor(Step(s, op).core, id));
            && paid == (if LifecycleLaws.Settled(e) then 2 * e.amount else e.amount)
            && (e.amount > 0 ==> (paid > e.amount <==> e.status.Released? || e.status.Resolved? || e.status.Cancelled?))
  {
    hide Inv, Step, CleanOps, Run, AppealPays, InFull, LifecycleLaws.Total, PaidFor;
    OpenedInv();
    OpenedInFull(id);
    RunKeeps(OPENED, ops);
    CleanOpsInFull(OPENED, ops, id);
    var s := Run(OPENED, ops);
    PayingIsFinal(s, op, id);
    PaidBefore(s, id);
    PaysAmount(s, op, id);
  }

  lemma OpenedInFull(id: nat)
    ensures InFull(OPENED.core, id)
  {}

  lemma PaidBefore(s: Court, id: nat)
    requires Inv(s) && id in s.core.escrows && InFull(s.core, id) && LifecycleLaws.Sane(s.core.escrows[id])
    ensures LifecycleLaws.Total(PaidFor(s.core, id)) == if LifecycleLaws.Settled(s.core.escrows[id]) then s.core.escrows[id].amount else 0
  {
    hide AppealsSound, RoundsSound;
  }

  lemma PaysAmount(s: Court, op: Op, id: nat)
    requires Inv(s) && AppealPays(s, op, id) && id in s.core.escrows
    ensures LifecycleLaws.Total(PaidFor(Step(s, op).core, id)) == LifecycleLaws.Total(PaidFor(s.core, id)) + s.core.escrows[id].amount
  {
    hide Inv, Step, LifecycleLaws.Total;
    AppealPayment(s, op, id);
    var p := Payment(Principal, op.inFavourOf, s.core.escrows[id].amount);
    LifecycleLaws.TotalAppend(PaidFor(s.core, id), [p]);
    LifecycleLaws.SingleTotal(p);
  }

  /** Such an input: a dispute resolved for the merchant, and the customer's appeal resolved for the
      customer. Both have the whole amount. */
  lemma PaidTwice(customer: Address, merchant: Address, amount: int, net: Net)
    requires LifecycleLaws.MovesFor(net, 1)
    ensures var t := Terms(customer, merchant, amount, 0, 0, 0, 0, 0, FavorCustomer);
            var ops := [Calling(LifecycleLaws.Call(LifecycleLaws.Creating(t), net)),
                        Calling(LifecycleLaws.Call(LifecycleLaws.Disputing(customer, 1), net)),
                        Calling(LifecycleLaws.Call(LifecycleLaws.Resolving(1, true), net)),
                        Filing(customer, 1),
                        ResolvingAppeal(0, customer, net)];
            PaidFor(Run(OPENED, ops).core, 1) == [Payment(Principal, merchant, amount), Payment(Principal, customer, amount)]
  {
    var t := Terms(customer, merchant, amount, 0, 0, 0, 0, 0, FavorCustomer);
    var o1 := Calling(LifecycleLaws.Call(LifecycleLaws.Creating(t), net));
    var o2 := Calling(LifecycleLaws.Call(LifecycleLaws.Disputing(customer, 1), net));
    var o3 := Calling(LifecycleLaws.Call(LifecycleLaws.Resolving(1, true), net));
    var o4, o5 := Filing(customer, 1), ResolvingAppeal(0, customer, net);
    var s1 := Step(OPENED, o1);
    var s2 := Step(s1, o2);
    var s3 := Step(s2, o3);
    DisputedThenPaid(s2, merchant, amount, net);
    var s4 := Step(s3, o4);
    AppealedThenPaid(s4, customer, amount, net);
    var ops := [o1, o2, o3, o4, o5];
    FiveSteps(OPENED, o1, o2, o3, o4, o5);
    assert [Payment(Principal, merchant, amount)] + [Payment(Principal, customer, amount)]
        == [Payment(Principal, merchant, amount), Payment(Principal, customer, amount)];
  }

  lemma FiveSteps(s: Court, o1: Op, o2: Op, o3: Op, o4: Op, o5: Op)
    ensures Run(s, [o1, o2, o3, o4, o5]) == Step(Step(Step(Step(Step(s, o1), o2), o3), o4), o5)
  {
    hide Step;
    assert [o1, o2, o3, o4, o5][1..] == [o2, o3, o4, o5];
    assert [o2, o3, o4, o5][1..] == [o3, o4, o5];
    assert [o3, o4, o5][1..] == [o4, o5];
    assert [o4, o5][1..] == [o5];
    RunOne(Step(Step(Step(Step(s, o1), o2), o3), o4), o5);
    assert Run(Step(Step(Step(s, o1), o2), o3), [o4, o5]) == Run(Step(Step(Step(Step(s, o1), o2), o3), o4), [o5]);
    assert Run(Step(Step(s, o1), o2), [o3, o4, o5]) == Run(Step(Step(Step(s, o1), o2), o3), [o4, o5]);
  }

  lemma DisputedThenPaid(s: Court, merchant: Address, amount: int, net: Net)
    requires 1 in s.core.escrows && s.core.escrows[1].status.Disputed? && LifecycleLaws.MovesFor(net, 1) && PaidFor(s.core, 1) == []
    requires s.core.escrows[1].merchant == merchant && s.core.escrows[1].amount == amount
    ensures var s' := Step(s, Calling(LifecycleLaws.Call(LifecycleLaws.Resolving(1, true), net)));
            && PaidFor(s'.core, 1) == [Payment(Principal, merchant, amount)] && s'.core.now == s.core.now
            && s'.core.escrows == s.core.escrows[1 := s.core.escrows[1].(status := Released)]
            && s'.appeals == s.appeals && s'.count == s.count && s'.rounds == s.rounds
  {
    var legs := DisputeLegs(s.core.escrows[1], true);
    PayLands([], legs, 1, net);
    AllLand(legs, 1, net);
    assert [] + legs == legs;
    hide Pay, Landed, EscalationQueue.Dequeued;
  }

  lemma AppealedThenPaid(s: Court, customer: Address, amount: int, net: Net)
    requires 0 in s.appeals && s.appeals[0].escrowId == 1 && !s.appeals[0].resolved && LifecycleLaws.MovesFor(net, 1)
    requires 1 in s.core.escrows && s.core.escrows[1].customer == customer && s.core.escrows[1].amount == amount
    ensures PaidFor(Step(s, ResolvingAppeal(0, customer, net)).core, 1) == PaidFor(s.core, 1) + [Payment(Principal, customer, amount)]
  {
    var p := Payment(Principal, customer, amount);
    PayLands(PaidFor(s.core, 1), [p], 1, net);
    AllLand([p], 1, net);
    hide Pay, Landed;
  }
}
