/** How one escrow comes to be settled: what each entry point asks for, which of its payments land,
    and what that makes of the principal. */
module Settlement {
  import opened Common
  import opened EscalationQueue
  import opened Lifecycle
  import opened LifecycleLaws
  import Vesting

  // ----- Payments that land -----

  /** The payments that the tokens really move: those answered so, up to the first refusal. */
  function Landed(legs: seq<Payment>, id: nat, net: Net): seq<Payment>
    decreases |legs|
  {
    if legs == [] || net(id, legs[0].leg).Refused? then []
    else (if net(id, legs[0].leg).Moved? then [legs[0]] else []) + Landed(legs[1..], id, net)
  }

  predicate NoneRefused(legs: seq<Payment>, id: nat, net: Net) {
    forall i :: 0 <= i < |legs| ==> !net(id, legs[i].leg).Refused?
  }

  lemma {:induction false} PayLands(log: seq<Payment>, legs: seq<Payment>, id: nat, net: Net)
    ensures Pay(log, legs, id, net) == (log + Landed(legs, id, net), NoneRefused(legs, id, net))
    decreases legs
  {
    if legs == [] {
      assert log + [] == log;
    } else {
      var rest := legs[1..];
      assert legs == [legs[0]] + rest;
      PayLands(log, rest, id, net);
      PayLands(log + [legs[0]], rest, id, net);
      assert log + [legs[0]] + Landed(rest, id, net) == log + ([legs[0]] + Landed(rest, id, net));
      assert log + [] == log;
      assert [] + Landed(rest, id, net) == Landed(rest, id, net);
      assert NoneRefused(legs, id, net) <==> !net(id, legs[0].leg).Refused? && NoneRefused(rest, id, net) by {
        if NoneRefused(legs, id, net) {
          assert forall i :: 0 <= i < |rest| ==> rest[i] == legs[i + 1];
        }
      }
    }
  }

  lemma {:induction false} AllLand(legs: seq<Payment>, id: nat, net: Net)
    requires MovesFor(net, id)
    ensures Landed(legs, id, net) == legs && NoneRefused(legs, id, net)
    decreases |legs|
  {
    if legs != [] {
      AllLand(legs[1..], id, net);
    }
  }

  lemma LandedOne(p: Payment, id: nat, net: Net)
    ensures Landed([p], id, net) == if net(id, p.leg).Moved? then [p] else []
  {
    assert [p][1..] == [];
  }

  lemma LandedTwo(p: Payment, q: Payment, id: nat, net: Net)
    ensures Landed([p, q], id, net) ==
            if net(id, p.leg).Refused? then []
            else (if net(id, p.leg).Moved? then [p] else []) + if net(id, q.leg).Moved? then [q] else []
  {
    assert [p, q][1..] == [q];
    LandedOne(q, id, net);
  }

  // ----- Settling one escrow -----

  /** An open escrow gets its final status, the payments that land are its only ones, and no other
      escrow and no payment for another is touched. */
  ghost predicate SettledBy(s: State, s': State, id: nat, status: Status, legs: seq<Payment>, net: Net) {
    && id in s.escrows && !Settled(s.escrows[id]) && PaidFor(s, id) == []
    && id in s'.escrows && s'.escrows[id] == s.escrows[id].(status := status) && Settled(s'.escrows[id])
    && PaidFor(s', id) == Landed(legs, id, net)
    && OthersUntouched(s, s', id)
  }

  ghost predicate OthersUntouched(s: State, s': State, id: nat) {
    && s'.escrows.Keys == s.escrows.Keys
    && forall x :: x in s.escrows && x != id ==> s'.escrows[x] == s.escrows[x] && PaidFor(s', x) == PaidFor(s, x)
  }

  lemma SettleIs(s: State, id: nat, status: Status, legs: seq<Payment>, net: Net, s': State)
    requires Inv(s) && id in s.escrows && !Settled(s.escrows[id]) && Rank(status) == 2
    requires s' == Settle(s, id, status, legs, net).state.(queue := s'.queue, conditions := s'.conditions)
    ensures SettledBy(s, s', id, status, legs, net)
    ensures Settle(s, id, status, legs, net).result.Ok? <==> NoneRefused(legs, id, net)
  {
    hide Pay, Landed;
    PayLands(PaidFor(s, id), legs, id, net);
    assert PaidFor(s, id) == [];
    assert [] + Landed(legs, id, net) == Landed(legs, id, net);
  }

  // ----- What each entry point asks for and does -----

  /** The hold period and the release time are over, or do not count. */
  predicate TimeHasCome(s: State, id: nat, early: bool)
    requires id in s.escrows
  {
    early || (s.escrows[id].releaseTimestamp <= s.now && s.escrows[id].createdAt + s.escrows[id].minHoldPeriod <= s.now)
  }

  /** A release succeeds exactly for a locked escrow whose time has come, with children, sub-accounts
      and signers content, and with no transfer refused; then the escrow is released, fee and rest
      have landed, nobody else is touched and the queue is left alone. */
  lemma ReleaseEffect(s: State, id: nat, early: bool, to: Option<Address>, gate: Gate, feeRecipient: Address, net: Net)
    requires Inv(s)
    ensures var o := Release(s, id, early, to, gate, feeRecipient, net);
            && (o.result.Ok? <==>
                  && id in s.escrows && s.escrows[id].status.Locked? && TimeHasCome(s, id, early)
                  && gate.childrenSettled && gate.subAccountsReleased && gate.approvalsMet
                  && NoneRefused(FeeLegs(s.escrows[id], if to.Some? then to.value else s.escrows[id].merchant, feeRecipient), id, net))
            && (o.result.Ok? ==>
                  && SettledBy(s, o.state, id, Released,
                               FeeLegs(s.escrows[id], if to.Some? then to.value else s.escrows[id].merchant, feeRecipient), net)
                  && o.state.queue == s.queue)
  {
    if id in s.escrows && s.escrows[id].status.Locked? {
      var legs := FeeLegs(s.escrows[id], if to.Some? then to.value else s.escrows[id].merchant, feeRecipient);
      SettleIs(s, id, Released, legs, net, Settle(s, id, Released, legs, net).state);
    }
    hide Inv, Settle, SettledBy, FeeLegs, NoneRefused;
  }

  /** The proposal path asks for the record, its status and its time alone, and pays the merchant. */
  lemma DispatchReleaseEffect(s: State, id: nat, early: bool, feeRecipient: Address, net: Net)
    requires Inv(s)
    ensures var o := DispatchRelease(s, id, early, feeRecipient, net);
            && (o.result.Ok? <==>
                  && id in s.escrows && s.escrows[id].status.Locked? && TimeHasCome(s, id, early)
                  && NoneRefused(FeeLegs(s.escrows[id], s.escrows[id].merchant, feeRecipient), id, net))
            && (o.result.Ok? ==>
                  && SettledBy(s, o.state, id, Released, FeeLegs(s.escrows[id], s.escrows[id].merchant, feeRecipient), net)
                  && o.state.queue == s.queue)
  {
    if id in s.escrows && s.escrows[id].status.Locked? {
      var legs := FeeLegs(s.escrows[id], s.escrows[id].merchant, feeRecipient);
      SettleIs(s, id, Released, legs, net, Settle(s, id, Released, legs, net).state);
    }
    hide Inv, Settle, SettledBy, FeeLegs, NoneRefused;
  }

  /** A dispute is resolved exactly when there is one and the payment is not refused; the winner is
      paid the amount and the escrow leaves the queue. */
  lemma ResolveEffect(s: State, id: nat, toMerchant: bool, net: Net)
    requires Inv(s)
    ensures var o := ResolveDispute(s, id, toMerchant, net);
            && (o.result.Ok? <==> id in s.escrows && s.escrows[id].status.Disputed? && !net(id, Principal).Refused?)
            && (o.result.Ok? ==>
                  && SettledBy(s, o.state, id, DisputeStatus(toMerchant), DisputeLegs(s.escrows[id], toMerchant), net)
                  && id !in o.state.queue.deadlineOf)
  {
    if id in s.escrows && s.escrows[id].status.Disputed? {
      var legs := DisputeLegs(s.escrows[id], toMerchant);
      SettleIs(s, id, DisputeStatus(toMerchant), legs, net, ResolveDispute(s, id, toMerchant, net).state);
    }
    hide Inv, Settle, SettledBy;
  }

  /** The proposal path resolves under the same conditions, but what was queued stays queued. */
  lemma DispatchResolveEffect(s: State, id: nat, toMerchant: bool, net: Net)
    requires Inv(s)
    ensures var o := DispatchResolve(s, id, toMerchant, net);
            && (o.result.Ok? <==> id in s.escrows && s.escrows[id].status.Disputed? && !net(id, Principal).Refused?)
            && (o.result.Ok? ==>
                  && SettledBy(s, o.state, id, DisputeStatus(toMerchant), DisputeLegs(s.escrows[id], toMerchant), net)
                  && o.state.queue == s.queue)
  {
    if id in s.escrows && s.escrows[id].status.Disputed? {
      var legs := DisputeLegs(s.escrows[id], toMerchant);
      SettleIs(s, id, DisputeStatus(toMerchant), legs, net, DispatchResolve(s, id, toMerchant, net).state);
    }
    hide Inv, Settle, SettledBy;
  }

  /** The customer gets the principal back. */
  function BackLegs(e: Escrow): seq<Payment> {
    [Payment(Principal, e.customer, e.amount)]
  }

  /** A refund succeeds exactly when a party asks for an escrow that is disputed, or locked and past
      its hold period, and the payment is not refused. */
  lemma RefundEffect(s: State, caller: Address, id: nat, net: Net)
    requires Inv(s)
    ensures var o := Refund(s, caller, id, net);
            && (o.result.Ok? <==>
                  && id in s.escrows && (caller == s.escrows[id].customer || caller == s.escrows[id].merchant)
                  && (s.escrows[id].status.Disputed?
                      || (s.escrows[id].status.Locked? && s.escrows[id].createdAt + s.escrows[id].minHoldPeriod <= s.now))
                  && !net(id, Principal).Refused?)
            && (o.result.Ok? ==> SettledBy(s, o.state, id, Resolved, BackLegs(s.escrows[id]), net) && o.state.queue == s.queue)
  {
    if id in s.escrows && !Settled(s.escrows[id]) {
      SettleIs(s, id, Resolved, BackLegs(s.escrows[id]), net, Settle(s, id, Resolved, BackLegs(s.escrows[id]), net).state);
    }
    hide Inv, Settle, SettledBy;
  }

  /** The watchdog settles exactly a locked escrow after the inactivity period, for its side. */
  lemma WatchdogEffect(s: State, id: nat, w: Watchdog, net: Net)
    requires Inv(s)
    ensures var o := WatchdogRelease(s, id, w, net);
            && (o.result.Ok? <==>
                  && w.enabled && id in s.escrows && s.escrows[id].status.Locked?
                  && s.escrows[id].releaseTimestamp + w.inactivitySeconds <= s.now && !net(id, Principal).Refused?)
            && (o.result.Ok? ==>
                  && SettledBy(s, o.state, id, DisputeStatus(!w.favorCustomer), DisputeLegs(s.escrows[id], !w.favorCustomer), net)
                  && o.state.queue == s.queue)
  {
    if id in s.escrows && s.escrows[id].status.Locked? {
      var legs := DisputeLegs(s.escrows[id], !w.favorCustomer);
      var status := DisputeStatus(!w.favorCustomer);
      SettleIs(s, id, status, legs, net, Settle(s, id, status, legs, net).state);
    }
    hide Inv, Settle, SettledBy;
  }

  /** An evaluation succeeds exactly once per condition, on a locked escrow, unless a payment of the
      release is refused; only a condition that is met settles anything. */
  lemma EvaluateEffect(s: State, id: nat, met: bool, feeRecipient: Address, net: Net)
    requires Inv(s)
    ensures var o := Evaluate(s, id, met, feeRecipient, net);
            && (o.result.Ok? <==>
                  && id in s.conditions && !s.conditions[id].evaluated && id in s.escrows && s.escrows[id].status.Locked?
                  && (met ==> NoneRefused(FeeLegs(s.escrows[id], s.escrows[id].merchant, feeRecipient), id, net)))
            && (o.result.Ok? ==> id in o.state.conditions && o.state.conditions[id] == Condition(true, met))
            && (o.result.Ok? && met ==>
                  SettledBy(s, o.state, id, Released, FeeLegs(s.escrows[id], s.escrows[id].merchant, feeRecipient), net))
            && (o.result.Ok? && !met ==> o.state.escrows == s.escrows && o.state.paid == s.paid)
  {
    if id in s.escrows && s.escrows[id].status.Locked? && id in s.conditions {
      var legs := FeeLegs(s.escrows[id], s.escrows[id].merchant, feeRecipient);
      SettleIs(s, id, Released, legs, net,
               Settle(s.(conditions := s.conditions[id := Condition(true, met)]), id, Released, legs, net).state);
    }
    hide Inv, SettledBy, FeeLegs, NoneRefused, Pay;
  }

  /** An escrow expires exactly when it is locked, has an expiry and that has come, and the payment
      back is not refused. */
  lemma ExpireEffect(s: State, id: nat, net: Net)
    requires Inv(s)
    ensures var o := Expire(s, id, net);
            && (o.result.Ok? <==>
                  && id in s.escrows && s.escrows[id].status.Locked?
                  && s.escrows[id].expiryTimestamp != 0 && s.escrows[id].expiryTimestamp <= s.now && !net(id, Principal).Refused?)
            && (o.result.Ok? ==> SettledBy(s, o.state, id, Cancelled, BackLegs(s.escrows[id]), net) && o.state.queue == s.queue)
  {
    if id in s.escrows && s.escrows[id].status.Locked? {
      SettleIs(s, id, Cancelled, BackLegs(s.escrows[id]), net, Settle(s, id, Cancelled, BackLegs(s.escrows[id]), net).state);
    }
    hide Inv, Settle, SettledBy;
  }

  // ----- The plan behind a settlement -----

  /** What was paid is what landed of a plan that hands out the whole principal. */
  ghost predicate PaidByPlan(e: Escrow, log: seq<Payment>, id: nat, net: Net) {
    exists legs :: log == Landed(legs, id, net) && (Sane(e) ==> FullPlan(legs, e.amount))
  }

  /** This step settles the escrow. */
  predicate SettledNow(s: State, s': State, id: nat) {
    id in s.escrows && !Settled(s.escrows[id]) && id in s'.escrows && Settled(s'.escrows[id])
  }

  /** An open escrow that this step settles is paid by such a plan. */
  ghost predicate Planned(s: State, s': State, id: nat, net: Net) {
    SettledNow(s, s', id) ==> PaidByPlan(s.escrows[id], PaidFor(s', id), id, net)
  }

  lemma PlannedBy(s: State, s': State, x: nat, id: nat, status: Status, legs: seq<Payment>, net: Net)
    requires SettledBy(s, s', x, status, legs, net) && (Sane(s.escrows[x]) ==> FullPlan(legs, s.escrows[x].amount))
    ensures Planned(s, s', id, net)
  {
    hide Landed, FullPlan;
    if id == x {
      assert PaidFor(s', id) == Landed(legs, id, net);
    }
  }

  /** A settlement stores its status and pays by its plan, whether or not a transfer is refused. */
  lemma SettlePlanned(s: State, x: nat, id: nat, status: Status, legs: seq<Payment>, net: Net, s': State)
    requires Inv(s) && x in s.escrows && !Settled(s.escrows[x]) && Rank(status) == 2
    requires Sane(s.escrows[x]) ==> FullPlan(legs, s.escrows[x].amount)
    requires s' == Settle(s, x, status, legs, net).state.(queue := s'.queue, conditions := s'.conditions)
    ensures Planned(s, s', id, net)
  {
    hide Planned, SettledBy, Settle, Inv;
    SettleIs(s, x, status, legs, net, s');
    PlannedBy(s, s', x, id, status, legs, net);
  }

  lemma SamePlanned(s: State, s': State, id: nat, net: Net)
    requires !SettledNow(s, s', id)
    ensures Planned(s, s', id, net)
  {}

  lemma TriggerPlanned(s: State, x: nat, id: nat, net: Net)
    requires Inv(s)
    ensures Planned(s, Trigger(s, x, net).state, id, net)
  {
    hide Inv, Planned, Settle, TimeoutLegs;
    if TimeoutObstacle(s, x).None? {
      TimeoutPlan(s.escrows[x]);
      SettlePlanned(s, x, id, TimeoutStatus(s.escrows[x].favor), TimeoutLegs(s.escrows[x]), net, Trigger(s, x, net).state);
    } else {
      SamePlanned(s, s, id, net);
    }
  }

  lemma FeePlanned(s: State, x: nat, id: nat, to: Address, feeRecipient: Address, net: Net, s': State)
    requires Inv(s) && x in s.escrows && s.escrows[x].status.Locked?
    requires s' == Settle(s, x, Released, FeeLegs(s.escrows[x], to, feeRecipient), net).state.(conditions := s'.conditions)
    ensures Planned(s, s', id, net)
  {
    hide Inv, Planned, Settle, FeeLegs;
    if Sane(s.escrows[x]) {
      FeePlan(s.escrows[x], to, feeRecipient);
    }
    SettlePlanned(s, x, id, Released, FeeLegs(s.escrows[x], to, feeRecipient), net, s');
  }

  lemma ReleasePlanned(s: State, x: nat, early: bool, to: Option<Address>, gate: Gate, feeRecipient: Address, net: Net, id: nat)
    requires Inv(s)
    ensures Planned(s, Release(s, x, early, to, gate, feeRecipient, net).state, id, net)
  {
    hide Inv, Planned, Settle, FeeLegs;
    SamePlanned(s, s, id, net);
    var s' := Release(s, x, early, to, gate, feeRecipient, net).state;
    if s' != s {
      FeePlanned(s, x, id, if to.Some? then to.value else s.escrows[x].merchant, feeRecipient, net, s');
    }
  }

  /** Two steps in a row, of which at most one settles. */
  lemma PlannedThen(a: State, b: State, c: State, id: nat, net: Net)
    requires Advance(a, b) && Advance(b, c) && Planned(a, b, id, net) && Planned(b, c, id, net)
    ensures Planned(a, c, id, net)
  {
    hide Landed, FullPlan, Total;
    if id in a.escrows {
      assert EscrowStep(a.escrows[id], PaidFor(a, id), b.escrows[id], PaidFor(b, id));
      assert EscrowStep(b.escrows[id], PaidFor(b, id), c.escrows[id], PaidFor(c, id));
    }
  }

  lemma {:induction false} WalkPlanned(s: State, es: seq<Entry>, limit: nat, done: nat, net: Net, id: nat)
    requires Inv(s)
    ensures Planned(s, Walk(s, es, limit, done, net).0, id, net)
    decreases |es|
  {
    hide Inv, Planned, Trigger, Accounted, Advance;
    SamePlanned(s, s, id, net);
    if es != [] && es[0].deadline <= s.now && done < limit {
      var o := Trigger(s, es[0].id, net);
      var done' := if o.result.Ok? then done + 1 else done;
      TriggerKeeps(s, es[0].id, net);
      TriggerPlanned(s, es[0].id, id, net);
      WalkKeeps(o.state, es[1..], limit, done', net);
      WalkPlanned(o.state, es[1..], limit, done', net, id);
      PlannedThen(s, o.state, Walk(o.state, es[1..], limit, done', net).0, id, net);
    }
  }

  lemma {:induction false} ReleaseAllPlanned(s: State, ids: seq<nat>, to: Option<Address>, gates: nat -> Gate, feeRecipient: Address,
                                             net: Net, id: nat)
    requires Inv(s)
    ensures Planned(s, ReleaseAll(s, ids, to, gates, feeRecipient, net).0, id, net)
    decreases |ids|
  {
    hide Inv, Planned, Release, Accounted, Advance;
    SamePlanned(s, s, id, net);
    if ids != [] {
      var last := |ids| - 1;
      var s1 := ReleaseAll(s, ids[..last], to, gates, feeRecipient, net).0;
      var s2 := Release(s1, ids[last], false, to, gates(last), feeRecipient, net).state;
      ReleaseAllKeeps(s, ids[..last], to, gates, feeRecipient, net);
      ReleaseAllPlanned(s, ids[..last], to, gates, feeRecipient, net, id);
      ReleaseKeeps(s1, ids[last], false, to, gates(last), feeRecipient, net);
      ReleasePlanned(s1, ids[last], false, to, gates(last), feeRecipient, net, id);
      PlannedThen(s, s1, s2, id, net);
    }
  }

  lemma {:induction false} CreateAllUnsettled(s: State, entries: seq<BatchEntry>, id: nat)
    requires Inv(s)
    ensures var s' := CreateAll(s, entries).0;
            id in s.escrows ==> id in s'.escrows && s'.escrows[id] == s.escrows[id]
    decreases |entries|
  {
    if entries != [] {
      var last := |entries| - 1;
      CreateAllKeeps(s, entries[..last]);
      CreateAllUnsettled(s, entries[..last], id);
    }
  }

  lemma DecisionPlanned(s: State, c: Call, id: nat)
    requires Inv(s) && (c.op.Resolving? || c.op.DispatchingResolve? || c.op.WatchdogReleasing?)
    ensures Planned(s, Step(s, c), id, c.net)
  {
    hide Inv, Planned, Settle, DisputeLegs;
    SamePlanned(s, s, id, c.net);
    var s' := Step(s, c);
    if s' != s {
      match c.op {
        case Resolving(x, m) =>
          DisputePlan(s.escrows[x], m);
          SettlePlanned(s, x, id, DisputeStatus(m), DisputeLegs(s.escrows[x], m), c.net, s');
        case DispatchingResolve(x, m) =>
          DisputePlan(s.escrows[x], m);
          SettlePlanned(s, x, id, DisputeStatus(m), DisputeLegs(s.escrows[x], m), c.net, s');
        case WatchdogReleasing(x, w) =>
          DisputePlan(s.escrows[x], !w.favorCustomer);
          SettlePlanned(s, x, id, DisputeStatus(!w.favorCustomer), DisputeLegs(s.escrows[x], !w.favorCustomer), c.net, s');
      }
    }
  }

  lemma BackPlanned(s: State, c: Call, id: nat)
    requires Inv(s) && (c.op.Refunding? || c.op.Expiring?)
    ensures Planned(s, Step(s, c), id, c.net)
  {
    hide Inv, Planned, Settle, Total;
    SamePlanned(s, s, id, c.net);
    var s' := Step(s, c);
    if s' != s {
      var legs := BackLegs(s.escrows[c.op.id]);
      SingleTotal(legs[0]);
      SettlePlanned(s, c.op.id, id, if c.op.Refunding? then Resolved else Cancelled, legs, c.net, s');
    }
  }

  lemma FeeStepPlanned(s: State, c: Call, id: nat)
    requires Inv(s) && (c.op.Releasing? || c.op.DispatchingRelease? || c.op.Evaluating?)
    ensures Planned(s, Step(s, c), id, c.net)
  {
    hide Inv, Planned, Settle, FeeLegs;
    SamePlanned(s, s, id, c.net);
    var s' := Step(s, c);
    if s' != s {
      match c.op {
        case Releasing(x, early, to, gate, fr) =>
          FeePlanned(s, x, id, if to.Some? then to.value else s.escrows[x].merchant, fr, c.net, s');
        case DispatchingRelease(x, early, fr) => FeePlanned(s, x, id, s.escrows[x].merchant, fr, c.net, s');
        case Evaluating(x, met, fr) =>
          if met {
            EvaluatedState(s, x, fr, c.net);
            FeePlanned(s, x, id, s.escrows[x].merchant, fr, c.net, s');
          } else {
            SamePlanned(s, s', id, c.net);
          }
      }
    }
  }

  lemma EvaluatedState(s: State, id: nat, feeRecipient: Address, net: Net)
    requires Evaluate(s, id, true, feeRecipient, net).result.Ok?
    ensures id in s.escrows
    ensures var s' := Evaluate(s, id, true, feeRecipient, net).state;
            s' == Settle(s, id, Released, FeeLegs(s.escrows[id], s.escrows[id].merchant, feeRecipient), net).state.(conditions := s'.conditions)
  {
    hide FeeLegs, Pay;
  }

  lemma OpenPlanned(s: State, c: Call, id: nat)
    requires Inv(s) && (CreationOp(c.op) || c.op.Disputing? || c.op.Escalating? || c.op.Ticking?)
    ensures Planned(s, Step(s, c), id, c.net)
  {
    if c.op.CreatingBatch? {
      CreateAllUnsettled(s, c.op.entries, id);
    }
    assert s.counter + 1 !in s.escrows;
    hide Inv, CreateAll, Enqueued, PaidByPlan, Vesting.Admissible;
  }

  /** Every call but the resolution by evidence settles an escrow by a plan that hands out its whole
      principal. */
  lemma StepPlanned(s: State, c: Call, id: nat)
    requires Inv(s) && !c.op.AutoResolving?
    ensures Planned(s, Step(s, c), id, c.net)
  {
    hide Inv, Planned, Walk, ReleaseAll, Entries;
    SamePlanned(s, s, id, c.net);
    if c.op.Processing? {
      WalkPlanned(s, Entries(s.queue), c.op.limit, 0, c.net, id);
    } else if c.op.BatchReleasing? {
      ReleaseAllPlanned(s, c.op.ids, c.op.recipient, c.op.gates, c.op.feeRecipient, c.net, id);
    } else if c.op.Triggering? {
      TriggerPlanned(s, c.op.id, id, c.net);
    } else if c.op.Resolving? || c.op.DispatchingResolve? || c.op.WatchdogReleasing? {
      DecisionPlanned(s, c, id);
    } else if c.op.Refunding? || c.op.Expiring? {
      BackPlanned(s, c, id);
    } else if c.op.Releasing? || c.op.DispatchingRelease? || c.op.Evaluating? {
      FeeStepPlanned(s, c, id);
    } else {
      OpenPlanned(s, c, id);
    }
  }

  // ----- Whole runs -----

  /** If this call settles the escrow, it is not by evidence, and the escrow's own payments move. What
      happens to other escrows does not matter. */
  ghost predicate CleanCall(s: State, c: Call, id: nat) {
    SettledNow(s, Step(s, c), id) ==> !c.op.AutoResolving? && MovesFor(c.net, id)
  }

  ghost predicate CleanRun(s: State, calls: seq<Call>, id: nat)
    decreases |calls|
  {
    calls == [] || (CleanCall(s, calls[0], id) && CleanRun(Step(s, calls[0]), calls[1..], id))
  }

  /** An escrow with ordinary money that is settled has been paid its amount. */
  ghost predicate InFull(s: State, id: nat) {
    id in s.escrows && Sane(s.escrows[id]) && Settled(s.escrows[id]) ==> Total(PaidFor(s, id)) == s.escrows[id].amount
  }

  lemma CleanStepInFull(s: State, c: Call, id: nat)
    requires Inv(s) && CleanCall(s, c, id) && InFull(s, id)
    ensures InFull(Step(s, c), id)
  {
    hide Inv, Step, Accounted;
    StepKeeps(s, c);
    NewIsOpen(s, c, id);
    var s' := Step(s, c);
    if SettledNow(s, s', id) {
      StepPlanned(s, c, id);
      if Sane(s.escrows[id]) {
        PlanInFull(s.escrows[id], PaidFor(s', id), id, c.net);
      }
      assert EscrowStep(s.escrows[id], PaidFor(s, id), s'.escrows[id], PaidFor(s', id));
    } else if id in s.escrows {
      assert EscrowStep(s.escrows[id], PaidFor(s, id), s'.escrows[id], PaidFor(s', id));
    }
  }

  lemma PlanInFull(e: Escrow, log: seq<Payment>, id: nat, net: Net)
    requires PaidByPlan(e, log, id, net) && MovesFor(net, id) && Sane(e)
    ensures Total(log) == e.amount
  {
    var legs :| log == Landed(legs, id, net) && (Sane(e) ==> FullPlan(legs, e.amount));
    AllLand(legs, id, net);
  }

  lemma {:induction false} CreateAllOpen(s: State, entries: seq<BatchEntry>, id: nat)
    requires id !in s.escrows
    ensures var s' := CreateAll(s, entries).0; id in s'.escrows ==> s'.escrows[id].status.Locked?
    decreases |entries|
  {
    if entries != [] {
      CreateAllOpen(s, entries[..|entries| - 1], id);
    }
  }

  lemma {:induction false} WalkKeys(s: State, es: seq<Entry>, limit: nat, done: nat, net: Net)
    ensures Walk(s, es, limit, done, net).0.escrows.Keys == s.escrows.Keys
    decreases |es|
  {
    hide TimeoutLegs, Pay, Dequeued;
    if es != [] && es[0].deadline <= s.now && done < limit {
      var o := Trigger(s, es[0].id, net);
      WalkKeys(o.state, es[1..], limit, if o.result.Ok? then done + 1 else done, net);
    }
  }

  lemma ReleaseKeys(s: State, id: nat, early: bool, to: Option<Address>, gate: Gate, feeRecipient: Address, net: Net)
    ensures Release(s, id, early, to, gate, feeRecipient, net).state.escrows.Keys == s.escrows.Keys
  {
    hide FeeLegs, Pay;
  }

  lemma {:induction false} ReleaseAllKeys(s: State, ids: seq<nat>, to: Option<Address>, gates: nat -> Gate, feeRecipient: Address, net: Net)
    ensures ReleaseAll(s, ids, to, gates, feeRecipient, net).0.escrows.Keys == s.escrows.Keys
    decreases |ids|
  {
    hide Release;
    if ids != [] {
      var last := |ids| - 1;
      ReleaseAllKeys(s, ids[..last], to, gates, feeRecipient, net);
      ReleaseKeys(ReleaseAll(s, ids[..last], to, gates, feeRecipient, net).0, ids[last], false, to, gates(last), feeRecipient, net);
    }
  }

  /** An escrow that a call brings into being is locked after it. */
  lemma NewIsOpen(s: State, c: Call, id: nat)
    ensures id !in s.escrows && id in Step(s, c).escrows ==> Step(s, c).escrows[id].status.Locked?
  {
    hide Walk, ReleaseAll, Entries, Pay, FeeLegs, TimeoutLegs, Enqueued, Dequeued, Release, CreateAll;
    match c.op {
      case CreatingBatch(entries, limit) =>
        if id !in s.escrows {
          CreateAllOpen(s, entries, id);
        }
      case Processing(limit) =>
        WalkKeys(s, Entries(s.queue), limit, 0, c.net);
        assert id in s.escrows.Keys <==> id in Step(s, c).escrows.Keys;
      case BatchReleasing(ids, to, gates, fr) =>
        ReleaseAllKeys(s, ids, to, gates, fr, c.net);
        assert id in s.escrows.Keys <==> id in Step(s, c).escrows.Keys;
      case Releasing(x, early, to, gate, fr) =>
        ReleaseKeys(s, x, early, to, gate, fr, c.net);
        assert id in s.escrows.Keys <==> id in Step(s, c).escrows.Keys;
      case _ =>
    }
  }

  lemma {:induction false} CleanRunInFull(s: State, calls: seq<Call>, id: nat)
    requires Inv(s) && CleanRun(s, calls, id) && InFull(s, id)
    ensures InFull(Run(s, calls), id)
    decreases |calls|
  {
    hide Inv, CleanCall, InFull, Step, Advance, Accounted;
    if calls != [] {
      StepKeeps(s, calls[0]);
      CleanStepInFull(s, calls[0], id);
      CleanRunInFull(Step(s, calls[0]), calls[1..], id);
    }
  }

  /** A settled escrow with ordinary money has been paid out exactly, principal plus fee, whenever the
      call that settled it was not a resolution by evidence and moved the escrow's own payments;
      whatever else happened in the run, to it or to others. */
  lemma SettledInFull(calls: seq<Call>, id: nat)
    requires CleanRun(INITIAL, calls, id)
    requires var s := Run(INITIAL, calls); id in s.escrows && Settled(s.escrows[id]) && Sane(s.escrows[id])
    ensures var s := Run(INITIAL, calls); Total(PaidFor(s, id)) == s.escrows[id].amount
  {
    CleanRunInFull(INITIAL, calls, id);
  }

  // ----- The fee against the amount -----

  lemma LandedTotal(e: Escrow, to: Address, feeRecipient: Address, id: nat, net: Net)
    ensures var fee := FeeOf(e.amount, e.feeBps);
            var f, p := if fee > 0 then net(id, Fee) else Synthetic, net(id, Principal);
            Total(Landed(FeeLegs(e, to, feeRecipient), id, net)) ==
            (if f.Moved? then fee else 0) + (if !f.Refused? && p.Moved? then e.amount - fee else 0)
  {
    var fee := FeeOf(e.amount, e.feeBps);
    var q := Payment(Principal, to, e.amount - fee);
    SingleTotal(q);
    LandedOne(q, id, net);
    if fee > 0 {
      var p := Payment(Fee, feeRecipient, fee);
      assert FeeLegs(e, to, feeRecipient) == [p, q];
      LandedTwo(p, q, id, net);
      SingleTotal(p);
      PairTotal(p, q);
      assert [p] + [q] == [p, q] && [p] + [] == [p] && [] + [q] == [q];
    } else {
      assert FeeLegs(e, to, feeRecipient) == [q];
    }
  }

  /** Whatever the tokens answer, also when a refused payment is swallowed, a release pays no more than
      the amount if and only if the fee is neither negative nor more than the amount. */
  lemma ReleaseWithinAmountIff(e: Escrow, to: Address, feeRecipient: Address, id: nat)
    ensures (forall net: Net :: Total(Landed(FeeLegs(e, to, feeRecipient), id, net)) <= e.amount)
            <==> 0 <= FeeOf(e.amount, e.feeBps) <= e.amount
  {
    hide FeeLegs, Landed, FeeOf, Total;
    var fee := FeeOf(e.amount, e.feeBps);
    if 0 <= fee <= e.amount {
      forall net: Net ensures Total(Landed(FeeLegs(e, to, feeRecipient), id, net)) <= e.amount {
        LandedTotal(e, to, feeRecipient, id, net);
      }
    } else {
      var net: Net := (x: nat, leg: Leg) => if leg.Principal? == (fee < 0) then Moved else Refused;
      var none: Net := (x: nat, leg: Leg) => Refused;
      LandedTotal(e, to, feeRecipient, id, net);
      LandedTotal(e, to, feeRecipient, id, none);
      assert Total(Landed(FeeLegs(e, to, feeRecipient), id, net)) > e.amount
             || Total(Landed(FeeLegs(e, to, feeRecipient), id, none)) > e.amount;
    }
  }
}
