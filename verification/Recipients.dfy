/** Who is paid when an escrow is settled: for every way of settling one, the status it gets and what
    each address receives, in terms of its record and of what the tokens answer. */
module Recipients {
  import opened Common
  import opened EscalationQueue
  import opened EscalationScan
  import opened Lifecycle
  import opened LifecycleLaws
  import opened Settlement
  import Vesting

  /** What an address has received altogether. */
  function Received(log: seq<Payment>, a: Address): int {
    if log == [] then 0
    else Received(log[..|log| - 1], a) + if log[|log| - 1].to == a then log[|log| - 1].amount else 0
  }

  // ----- The outcomes -----

  /** One address is paid the whole amount in one payment, if its token moves, and nobody else. */
  ghost predicate WholeTo(e: Escrow, log: seq<Payment>, to: Address, id: nat, net: Net) {
    log == if net(id, Principal).Moved? then [Payment(Principal, to, e.amount)] else []
  }

  /** A decision for the merchant releases the escrow to the merchant, one for the customer resolves it
      to the customer; the rest of the record stays. */
  ghost predicate PaidToSide(e: Escrow, e': Escrow, log: seq<Payment>, toMerchant: bool, id: nat, net: Net) {
    if toMerchant then e' == e.(status := Released) && WholeTo(e, log, e.merchant, id, net)
    else e' == e.(status := Resolved) && WholeTo(e, log, e.customer, id, net)
  }

  /** A timeout pays the favoured side; an equal split pays the customer half of the amount, rounded
      toward nothing, and the merchant what is left, and resolves the escrow. */
  ghost predicate PaidByFavor(e: Escrow, e': Escrow, log: seq<Payment>, id: nat, net: Net) {
    match e.favor
    case FavorCustomer => e' == e.(status := Resolved) && WholeTo(e, log, e.customer, id, net)
    case FavorMerchant => e' == e.(status := Released) && WholeTo(e, log, e.merchant, id, net)
    case SplitEqual =>
      && e' == e.(status := Resolved)
      && log == (if net(id, Principal).Moved? then [Payment(Principal, e.customer, TruncDiv(e.amount, 2))] else [])
                + if net(id, OtherHalf).Moved? then [Payment(OtherHalf, e.merchant, e.amount - TruncDiv(e.amount, 2))] else []
  }

  /** A release pays the fee when there is one and then the rest: the recipient receives the amount less
      the fee, the fee recipient the fee, and nobody else anything. */
  ghost predicate PaidLessFee(e: Escrow, e': Escrow, log: seq<Payment>, to: Address, feeRecipient: Address, id: nat, net: Net) {
    var fee := TruncDiv(e.amount * e.feeBps, 10000);
    && e' == e.(status := Released)
    && log == (if fee > 0 && net(id, Fee).Moved? then [Payment(Fee, feeRecipient, fee)] else [])
              + (if net(id, Principal).Moved? then [Payment(Principal, to, e.amount - fee)] else [])
    && forall a :: Received(log, a) == (if a == to && net(id, Principal).Moved? then e.amount - fee else 0)
                                       + if a == feeRecipient && fee > 0 && net(id, Fee).Moved? then fee else 0
  }

  /** No transfer that a release makes is refused. */
  predicate FeeUnrefused(e: Escrow, id: nat, net: Net) {
    !net(id, Principal).Refused? && (TruncDiv(e.amount * e.feeBps, 10000) > 0 ==> !net(id, Fee).Refused?)
  }

  /** No transfer that a timeout makes is refused. */
  predicate FavorUnrefused(e: Escrow, id: nat, net: Net) {
    !net(id, Principal).Refused? && (e.favor.SplitEqual? ==> !net(id, OtherHalf).Refused?)
  }

  // ----- From the plans to the recipients -----

  lemma ReceivedOne(p: Payment, a: Address)
    ensures Received([p], a) == if p.to == a then p.amount else 0
  {
    assert [p][..0] == [];
  }

  lemma ReceivedTwo(p: Payment, q: Payment, a: Address)
    ensures Received([p, q], a) == (if p.to == a then p.amount else 0) + if q.to == a then q.amount else 0
  {
    assert [p, q][..1] == [p];
    ReceivedOne(p, a);
  }

  lemma FeeLands(e: Escrow, to: Address, feeRecipient: Address, id: nat, net: Net)
    requires FeeUnrefused(e, id, net)
    ensures var fee := TruncDiv(e.amount * e.feeBps, 10000);
            Landed(FeeLegs(e, to, feeRecipient), id, net) ==
            (if fee > 0 && net(id, Fee).Moved? then [Payment(Fee, feeRecipient, fee)] else [])
            + (if net(id, Principal).Moved? then [Payment(Principal, to, e.amount - fee)] else [])
  {
    var fee := TruncDiv(e.amount * e.feeBps, 10000);
    assert FeeOf(e.amount, e.feeBps) == fee;
    hide TruncDiv, FeeOf;
    var p, q := Payment(Fee, feeRecipient, fee), Payment(Principal, to, e.amount - fee);
    if fee > 0 {
      assert FeeLegs(e, to, feeRecipient) == [p, q];
      LandedTwo(p, q, id, net);
    } else {
      assert FeeLegs(e, to, feeRecipient) == [q];
      LandedOne(q, id, net);
    }
  }

  lemma AtMostTwo(p: Payment, q: Payment, first: bool, second: bool, a: Address)
    ensures Received((if first then [p] else []) + (if second then [q] else []), a) ==
            (if first && p.to == a then p.amount else 0) + if second && q.to == a then q.amount else 0
  {
    ReceivedOne(p, a);
    ReceivedOne(q, a);
    ReceivedTwo(p, q, a);
    assert [p] + [q] == [p, q] && [p] + [] == [p] && [] + [q] == [q];
  }

  lemma FeeRefusals(e: Escrow, to: Address, feeRecipient: Address, id: nat, net: Net)
    ensures NoneRefused(FeeLegs(e, to, feeRecipient), id, net) <==> FeeUnrefused(e, id, net)
  {
    var fee := TruncDiv(e.amount * e.feeBps, 10000);
    assert FeeOf(e.amount, e.feeBps) == fee;
    hide TruncDiv, FeeOf;
    var p, q := Payment(Fee, feeRecipient, fee), Payment(Principal, to, e.amount - fee);
    var legs := FeeLegs(e, to, feeRecipient);
    if fee > 0 {
      assert legs == [p, q] && legs[0] == p && legs[1] == q;
    } else {
      assert legs == [q] && legs[0] == q;
    }
  }

  lemma SettledLessFee(s: State, s': State, id: nat, to: Address, feeRecipient: Address, net: Net)
    requires id in s.escrows && FeeUnrefused(s.escrows[id], id, net)
    requires SettledBy(s, s', id, Released, FeeLegs(s.escrows[id], to, feeRecipient), net)
    ensures PaidLessFee(s.escrows[id], s'.escrows[id], PaidFor(s', id), to, feeRecipient, id, net)
  {
    hide FeeLegs, Landed, FeeUnrefused, TruncDiv, Received;
    var e := s.escrows[id];
    var fee := TruncDiv(e.amount * e.feeBps, 10000);
    FeeLands(e, to, feeRecipient, id, net);
    forall a
      ensures Received(PaidFor(s', id), a) == (if a == to && net(id, Principal).Moved? then e.amount - fee else 0)
                                              + if a == feeRecipient && fee > 0 && net(id, Fee).Moved? then fee else 0
    {
      AtMostTwo(Payment(Fee, feeRecipient, fee), Payment(Principal, to, e.amount - fee),
                fee > 0 && net(id, Fee).Moved?, net(id, Principal).Moved?, a);
    }
  }

  lemma SettledToSide(s: State, s': State, id: nat, toMerchant: bool, net: Net)
    requires id in s.escrows
    requires SettledBy(s, s', id, DisputeStatus(toMerchant), DisputeLegs(s.escrows[id], toMerchant), net)
    ensures PaidToSide(s.escrows[id], s'.escrows[id], PaidFor(s', id), toMerchant, id, net)
  {
    LandedOne(DisputeLegs(s.escrows[id], toMerchant)[0], id, net);
    hide Landed;
  }

  lemma SettledBack(s: State, s': State, id: nat, status: Status, net: Net)
    requires id in s.escrows && SettledBy(s, s', id, status, BackLegs(s.escrows[id]), net)
    ensures s'.escrows[id] == s.escrows[id].(status := status)
    ensures WholeTo(s.escrows[id], PaidFor(s', id), s.escrows[id].customer, id, net)
  {
    LandedOne(BackLegs(s.escrows[id])[0], id, net);
    hide Landed;
  }

  // ----- Timeouts -----

  lemma FavorLands(e: Escrow, id: nat, net: Net)
    requires FavorUnrefused(e, id, net)
    ensures PaidByFavor(e, e.(status := TimeoutStatus(e.favor)), Landed(TimeoutLegs(e), id, net), id, net)
  {
    var legs := TimeoutLegs(e);
    if e.favor.SplitEqual? {
      LandedTwo(legs[0], legs[1], id, net);
      assert legs == [legs[0], legs[1]];
    } else {
      LandedOne(legs[0], id, net);
      assert legs == [legs[0]];
    }
    hide Landed, TruncDiv;
  }

  lemma FavorRefusals(e: Escrow, id: nat, net: Net)
    ensures NoneRefused(TimeoutLegs(e), id, net) <==> FavorUnrefused(e, id, net)
  {
    hide TruncDiv;
    var legs := TimeoutLegs(e);
    assert e.favor.SplitEqual? ==> legs[1].leg == OtherHalf;
    assert legs[0].leg == Principal;
  }

  lemma TriggerPays(s: State, id: nat, net: Net)
    requires Inv(s) && Due(s, id)
    ensures var o := Trigger(s, id, net);
            && (o.result.Ok? <==> FavorUnrefused(s.escrows[id], id, net))
            && (o.result.Ok? ==> (id in o.state.escrows && PaidByFavor(s.escrows[id], o.state.escrows[id], PaidFor(o.state, id), id, net)))
  {
    ObstacleIffNotDue(s, id);
    var e := s.escrows[id];
    var s' := Trigger(s, id, net).state;
    SettleIs(s, id, TimeoutStatus(e.favor), TimeoutLegs(e), net, s');
    hide Inv, Landed, Settle, TimeoutLegs, PaidByFavor, NoneRefused, FavorUnrefused, TimeoutObstacle, OthersUntouched, Dequeued;
    FavorRefusals(e, id, net);
    if FavorUnrefused(e, id, net) {
      FavorLands(e, id, net);
    }
  }

  lemma NotQueued(q: Queue, id: nat)
    ensures id !in Dequeued(q, id).deadlineOf
  {}

  /** A timeout resolution goes through exactly for a due dispute none of whose transfers is refused;
      then the escrow is paid as its favour says and leaves the queue, and no other is touched. */
  lemma TimeoutPays(s: State, id: nat, net: Net)
    requires Inv(s)
    ensures var o := Trigger(s, id, net);
            && (o.result.Ok? <==> Due(s, id) && FavorUnrefused(s.escrows[id], id, net))
            && (o.result.Ok? ==> (id in o.state.escrows && OthersUntouched(s, o.state, id) && id !in o.state.queue.deadlineOf
                                  && PaidByFavor(s.escrows[id], o.state.escrows[id], PaidFor(o.state, id), id, net)))
  {
    hide Inv, Due, Trigger, PaidByFavor, FavorUnrefused, Clears, Settled, Dequeued;
    if Due(s, id) {
      TriggerPays(s, id, net);
      TriggerDue(s, id, net);
      NotQueued(s.queue, id);
    } else {
      TriggerNotDue(s, id, net);
    }
  }

  /** A due escrow is counted and leaves the queue exactly when none of its transfers is refused. */
  lemma ClearsIff(s: State, id: nat, net: Net)
    requires Inv(s) && Due(s, id)
    ensures Clears(s, id, net) <==> FavorUnrefused(s.escrows[id], id, net)
  {
    hide Inv, Due, Trigger, PaidByFavor, FavorUnrefused, Clears, Settled;
    TriggerPays(s, id, net);
    TriggerDue(s, id, net);
  }

  /** Each attempted escrow is due, and paid by its favour unless one of its transfers is refused; every
      other record and payment is left alone. */
  ghost predicate AttemptsPaid(s: State, t: State, chosen: seq<nat>, net: Net) {
    && t.escrows.Keys == s.escrows.Keys
    && (forall id :: id in s.escrows && id !in chosen ==> t.escrows[id] == s.escrows[id] && PaidFor(t, id) == PaidFor(s, id))
    && (forall id :: id in chosen ==> Due(s, id) && id in t.escrows)
    && (forall id :: id in chosen && FavorUnrefused(s.escrows[id], id, net) ==>
          PaidByFavor(s.escrows[id], t.escrows[id], PaidFor(t, id), id, net))
  }

  /** Processing pays the escrows it attempts in the same way as a direct timeout resolution. */
  lemma ProcessPays(s: State, limit: nat, net: Net)
    requires Inv(s)
    ensures AttemptsPaid(s, Process(s, limit, net).0, Chosen(s, Entries(s.queue), limit, net), net)
  {
    hide Process, Chosen, Entries, PaidByFavor, FavorUnrefused, Trigger, Due, Inv, Cleared;
    var t := Process(s, limit, net).0;
    var chosen := Chosen(s, Entries(s.queue), limit, net);
    ProcessEffect(s, limit, net);
    forall id | id in chosen
      ensures Due(s, id) && id in s.escrows
      ensures FavorUnrefused(s.escrows[id], id, net) ==> PaidByFavor(s.escrows[id], t.escrows[id], PaidFor(t, id), id, net)
    {
      ChosenMembers(s, Entries(s.queue), limit, net, id);
      TimeoutPays(s, id, net);
      DueIn(s, id);
    }
  }

  lemma DueIn(s: State, id: nat)
    requires Due(s, id)
    ensures id in s.escrows
  {}

  // ----- Decisions, refunds, expiry -----

  /** A decision on a dispute, taken directly or by an executed proposal, pays the side it names. */
  lemma DecisionPays(s: State, id: nat, toMerchant: bool, net: Net)
    requires Inv(s)
    ensures var o := ResolveDispute(s, id, toMerchant, net);
            o.result.Ok? ==> (id in s.escrows && id in o.state.escrows && OthersUntouched(s, o.state, id)
                              && PaidToSide(s.escrows[id], o.state.escrows[id], PaidFor(o.state, id), toMerchant, id, net))
    ensures var o := DispatchResolve(s, id, toMerchant, net);
            o.result.Ok? ==> (id in s.escrows && id in o.state.escrows && OthersUntouched(s, o.state, id)
                              && PaidToSide(s.escrows[id], o.state.escrows[id], PaidFor(o.state, id), toMerchant, id, net))
  {
    hide Inv, ResolveDispute, DispatchResolve, DisputeLegs, DisputeStatus, Landed, PaidToSide;
    ResolveEffect(s, id, toMerchant, net);
    DispatchResolveEffect(s, id, toMerchant, net);
    var o, p := ResolveDispute(s, id, toMerchant, net), DispatchResolve(s, id, toMerchant, net);
    if o.result.Ok? {
      SettledToSide(s, o.state, id, toMerchant, net);
    }
    if p.result.Ok? {
      SettledToSide(s, p.state, id, toMerchant, net);
    }
  }

  /** The watchdog pays the side it is configured for. */
  lemma WatchdogPays(s: State, id: nat, w: Watchdog, net: Net)
    requires Inv(s)
    ensures var o := WatchdogRelease(s, id, w, net);
            o.result.Ok? ==> (id in s.escrows && id in o.state.escrows && OthersUntouched(s, o.state, id)
                              && PaidToSide(s.escrows[id], o.state.escrows[id], PaidFor(o.state, id), !w.favorCustomer, id, net))
  {
    hide Inv, WatchdogRelease, DisputeLegs, DisputeStatus, Landed, PaidToSide;
    WatchdogEffect(s, id, w, net);
    var o := WatchdogRelease(s, id, w, net);
    if o.result.Ok? {
      SettledToSide(s, o.state, id, !w.favorCustomer, net);
    }
  }

  /** Refunds and expiries pay the customer everything. */
  lemma BackPays(s: State, caller: Address, id: nat, net: Net)
    requires Inv(s)
    ensures var o := Refund(s, caller, id, net);
            o.result.Ok? ==> (id in s.escrows && id in o.state.escrows && OthersUntouched(s, o.state, id) && o.state.escrows[id] == s.escrows[id].(status := Resolved)
                              && WholeTo(s.escrows[id], PaidFor(o.state, id), s.escrows[id].customer, id, net))
    ensures var o := Expire(s, id, net);
            o.result.Ok? ==> (id in s.escrows && id in o.state.escrows && OthersUntouched(s, o.state, id) && o.state.escrows[id] == s.escrows[id].(status := Cancelled)
                              && WholeTo(s.escrows[id], PaidFor(o.state, id), s.escrows[id].customer, id, net))
  {
    hide Inv, Refund, Expire, BackLegs, Landed, WholeTo;
    RefundEffect(s, caller, id, net);
    ExpireEffect(s, id, net);
    var o, p := Refund(s, caller, id, net), Expire(s, id, net);
    if o.result.Ok? {
      SettledBack(s, o.state, id, Resolved, net);
    }
    if p.result.Ok? {
      SettledBack(s, p.state, id, Cancelled, net);
    }
  }

  // ----- Releases -----

  /** A release pays the merchant, or the recipient named instead, less the fee. It goes through
      exactly for a locked escrow whose time has come, with children, sub-accounts and signers content,
      and none of its transfers refused. */
  lemma ReleasePays(s: State, id: nat, early: bool, to: Option<Address>, gate: Gate, feeRecipient: Address, net: Net)
    requires Inv(s)
    ensures var o := Release(s, id, early, to, gate, feeRecipient, net);
            && (o.result.Ok? <==>
                  && id in s.escrows && s.escrows[id].status.Locked? && TimeHasCome(s, id, early)
                  && gate.childrenSettled && gate.subAccountsReleased && gate.approvalsMet && FeeUnrefused(s.escrows[id], id, net))
            && (o.result.Ok? ==> (id in o.state.escrows && OthersUntouched(s, o.state, id)
                                  && PaidLessFee(s.escrows[id], o.state.escrows[id], PaidFor(o.state, id),
                                                 if to.Some? then to.value else s.escrows[id].merchant, feeRecipient, id, net)))
  {
    hide Inv, Release, FeeLegs, Landed, FeeUnrefused, PaidLessFee, NoneRefused, TimeHasCome;
    ReleaseEffect(s, id, early, to, gate, feeRecipient, net);
    var o := Release(s, id, early, to, gate, feeRecipient, net);
    if id in s.escrows {
      var a := if to.Some? then to.value else s.escrows[id].merchant;
      FeeRefusals(s.escrows[id], a, feeRecipient, id, net);
      if o.result.Ok? {
        SettledLessFee(s, o.state, id, a, feeRecipient, net);
      }
    }
  }

  /** So does the release by an executed proposal, always to the merchant. */
  lemma DispatchReleasePays(s: State, id: nat, early: bool, feeRecipient: Address, net: Net)
    requires Inv(s)
    ensures var o := DispatchRelease(s, id, early, feeRecipient, net);
            && (o.result.Ok? <==>
                  && id in s.escrows && s.escrows[id].status.Locked? && TimeHasCome(s, id, early) && FeeUnrefused(s.escrows[id], id, net))
            && (o.result.Ok? ==> (id in o.state.escrows && OthersUntouched(s, o.state, id)
                                  && PaidLessFee(s.escrows[id], o.state.escrows[id], PaidFor(o.state, id), s.escrows[id].merchant,
                                                 feeRecipient, id, net)))
  {
    hide Inv, DispatchRelease, FeeLegs, Landed, FeeUnrefused, PaidLessFee, NoneRefused, TimeHasCome;
    DispatchReleaseEffect(s, id, early, feeRecipient, net);
    var o := DispatchRelease(s, id, early, feeRecipient, net);
    if id in s.escrows {
      FeeRefusals(s.escrows[id], s.escrows[id].merchant, feeRecipient, id, net);
      if o.result.Ok? {
        SettledLessFee(s, o.state, id, s.escrows[id].merchant, feeRecipient, net);
      }
    }
  }

  /** And so does a condition that is met. An evaluation succeeds exactly once per condition, on a locked
      escrow, unless a payment it makes is refused; a condition that is not met pays nobody. */
  lemma EvaluationPays(s: State, id: nat, met: bool, feeRecipient: Address, net: Net)
    requires Inv(s)
    ensures var o := Evaluate(s, id, met, feeRecipient, net);
            && (o.result.Ok? <==>
                  && id in s.conditions && !s.conditions[id].evaluated && id in s.escrows && s.escrows[id].status.Locked?
                  && (met ==> FeeUnrefused(s.escrows[id], id, net)))
            && (o.result.Ok? ==> id in o.state.conditions && o.state.conditions[id] == Condition(true, met))
            && (o.result.Ok? && !met ==> o.state.escrows == s.escrows && o.state.paid == s.paid)
            && (o.result.Ok? && met ==> (id in o.state.escrows && OthersUntouched(s, o.state, id)
                                         && PaidLessFee(s.escrows[id], o.state.escrows[id], PaidFor(o.state, id), s.escrows[id].merchant,
                                                        feeRecipient, id, net)))
  {
    hide Inv, Evaluate, FeeLegs, Landed, FeeUnrefused, PaidLessFee, NoneRefused;
    EvaluateEffect(s, id, met, feeRecipient, net);
    var o := Evaluate(s, id, met, feeRecipient, net);
    if id in s.escrows {
      FeeRefusals(s.escrows[id], s.escrows[id].merchant, feeRecipient, id, net);
      if o.result.Ok? && met {
        SettledLessFee(s, o.state, id, s.escrows[id].merchant, feeRecipient, net);
      }
    }
  }

  /** What a batch of releases makes of one escrow: if its id is reported as released, it was locked and
      is paid less the fee; otherwise nothing happened to it, unless one of its transfers was refused. */
  ghost predicate BatchOutcome(s: State, t: State, succeeded: seq<nat>, id: nat, to: Option<Address>, feeRecipient: Address, net: Net) {
    && (id in succeeded ==> id in s.escrows)
    && (id in s.escrows ==> (
          && id in t.escrows
          && var e := s.escrows[id];
          if id in succeeded then
            e.status.Locked? && PaidLessFee(e, t.escrows[id], PaidFor(t, id), if to.Some? then to.value else e.merchant, feeRecipient, id, net)
          else
            (t.escrows[id] == e && PaidFor(t, id) == PaidFor(s, id)) || (Settled(t.escrows[id]) && !FeeUnrefused(e, id, net))))
  }

  lemma {:induction false} BatchPays(s: State, ids: seq<nat>, to: Option<Address>, gates: nat -> Gate, feeRecipient: Address, net: Net,
                                     id: nat)
    requires Inv(s)
    ensures var (t, succeeded, _, _) := ReleaseAll(s, ids, to, gates, feeRecipient, net);
            BatchOutcome(s, t, succeeded, id, to, feeRecipient, net)
    decreases |ids|
  {
    hide Inv, Release, FeeUnrefused, PaidLessFee, TimeHasCome, BatchOutcome;
    if ids == [] {
      NoBatch(s, id, to, feeRecipient, net);
    } else {
      var last := |ids| - 1;
      var (s1, succeeded, _, _) := ReleaseAll(s, ids[..last], to, gates, feeRecipient, net);
      ReleaseAllKeeps(s, ids[..last], to, gates, feeRecipient, net);
      ReleaseAllKeys(s, ids[..last], to, gates, feeRecipient, net);
      BatchPays(s, ids[..last], to, gates, feeRecipient, net, id);
      BatchStep(s, s1, succeeded, ids[last], gates(last), id, to, feeRecipient, net);
    }
  }

  lemma NoBatch(s: State, id: nat, to: Option<Address>, feeRecipient: Address, net: Net)
    ensures BatchOutcome(s, s, [], id, to, feeRecipient, net)
  {}

  /** What a release that fails leaves behind: nothing, or a settled escrow one of whose transfers was
      refused; and nobody but the escrow is touched in any case. */
  lemma FailedRelease(s: State, x: nat, early: bool, to: Option<Address>, gate: Gate, feeRecipient: Address, net: Net)
    requires Inv(s)
    ensures var o := Release(s, x, early, to, gate, feeRecipient, net);
            && o.state.escrows.Keys == s.escrows.Keys
            && (forall y :: y in s.escrows && y != x ==> o.state.escrows[y] == s.escrows[y] && PaidFor(o.state, y) == PaidFor(s, y))
            && (o.result.Err? ==> o.state == s || (x in s.escrows && Settled(o.state.escrows[x]) && !FeeUnrefused(s.escrows[x], x, net)))
            && (x in s.escrows && !s.escrows[x].status.Locked? ==> o.result.Err? && o.state == s)
  {
    if x in s.escrows && s.escrows[x].status.Locked? {
      var a := if to.Some? then to.value else s.escrows[x].merchant;
      var legs := FeeLegs(s.escrows[x], a, feeRecipient);
      SettleIs(s, x, Released, legs, net, Settle(s, x, Released, legs, net).state);
      FeeRefusals(s.escrows[x], a, feeRecipient, x, net);
    }
    hide Inv, Pay, Landed, FeeLegs, NoneRefused, FeeUnrefused;
  }

  lemma BatchStep(s: State, s1: State, succeeded: seq<nat>, x: nat, gate: Gate, id: nat, to: Option<Address>, feeRecipient: Address, net: Net)
    requires Inv(s1) && BatchOutcome(s, s1, succeeded, id, to, feeRecipient, net) && s1.escrows.Keys == s.escrows.Keys
    ensures var o := Release(s1, x, false, to, gate, feeRecipient, net);
            BatchOutcome(s, o.state, if o.result.Ok? then succeeded + [x] else succeeded, id, to, feeRecipient, net)
  {
    hide Inv, Release, FeeUnrefused, TimeHasCome, Received, TruncDiv;
    ReleasePays(s1, x, false, to, gate, feeRecipient, net);
    FailedRelease(s1, x, false, to, gate, feeRecipient, net);
    assert id in s.escrows <==> id in s1.escrows.Keys;
    hide PaidLessFee;
  }

  // ----- Whole runs -----

  lemma OrdinaryFee(e: Escrow)
    requires Sane(e)
    ensures TruncDiv(e.amount * e.feeBps, 10000) == e.amount * e.feeBps / 10000
    ensures 0 <= e.amount * e.feeBps / 10000 <= e.amount
  {
    FeeRange(e.amount, e.feeBps);
  }

  /** With ordinary money and tokens that move, a release to anybody but the fee recipient hands that
      address the amount less the fee, the fee recipient the fee, and nobody else anything. */
  lemma OrdinaryRelease(s: State, id: nat, early: bool, to: Option<Address>, gate: Gate, feeRecipient: Address, net: Net, a: Address)
    requires Inv(s) && Release(s, id, early, to, gate, feeRecipient, net).result.Ok? && MovesFor(net, id)
    requires id in s.escrows && Sane(s.escrows[id])
    requires feeRecipient != if to.Some? then to.value else s.escrows[id].merchant
    ensures var e, log := s.escrows[id], PaidFor(Release(s, id, early, to, gate, feeRecipient, net).state, id);
            Received(log, a) == if a == (if to.Some? then to.value else e.merchant) then e.amount - e.amount * e.feeBps / 10000
                                else if a == feeRecipient then e.amount * e.feeBps / 10000
                                else 0
  {
    hide Release, Inv, TruncDiv, Received;
    OrdinaryFee(s.escrows[id]);
    ReleasePays(s, id, early, to, gate, feeRecipient, net);
  }

  /** What the record and the payments of an escrow have to be once this call has settled it. */
  ghost predicate RightlyPaid(c: Call, e: Escrow, e': Escrow, log: seq<Payment>, id: nat) {
    match c.op
    case Triggering(_) => PaidByFavor(e, e', log, id, c.net)
    case Processing(_) => PaidByFavor(e, e', log, id, c.net)
    case Resolving(_, toMerchant) => PaidToSide(e, e', log, toMerchant, id, c.net)
    case DispatchingResolve(_, toMerchant) => PaidToSide(e, e', log, toMerchant, id, c.net)
    case WatchdogReleasing(_, w) => PaidToSide(e, e', log, !w.favorCustomer, id, c.net)
    case AutoResolving(_, toMerchant) => e' == e.(status := if toMerchant then Released else Resolved) && log == []
    case Refunding(_, _) => e' == e.(status := Resolved) && WholeTo(e, log, e.customer, id, c.net)
    case Expiring(_) => e' == e.(status := Cancelled) && WholeTo(e, log, e.customer, id, c.net)
    case Releasing(_, _, to, _, fr) => PaidLessFee(e, e', log, if to.Some? then to.value else e.merchant, fr, id, c.net)
    case BatchReleasing(_, to, _, fr) => PaidLessFee(e, e', log, if to.Some? then to.value else e.merchant, fr, id, c.net)
    case DispatchingRelease(_, _, fr) => PaidLessFee(e, e', log, e.merchant, fr, id, c.net)
    case Evaluating(_, met, fr) => met && PaidLessFee(e, e', log, e.merchant, fr, id, c.net)
    case _ => false
  }

  ghost predicate StepPaysRightly(s: State, c: Call, id: nat) {
    SettledNow(s, Step(s, c), id) ==> RightlyPaid(c, s.escrows[id], Step(s, c).escrows[id], PaidFor(Step(s, c), id), id)
  }

  lemma SingleStepPays(s: State, c: Call, id: nat)
    requires Inv(s) && (c.op.Resolving? || c.op.DispatchingResolve? || c.op.WatchdogReleasing? || c.op.Refunding? || c.op.Expiring?)
    ensures StepPaysRightly(s, c, id)
  {
    hide Inv, ResolveDispute, DispatchResolve, WatchdogRelease, Refund, Expire, PaidToSide, WholeTo;
    match c.op
    case Resolving(x, toMerchant) => DecisionPays(s, x, toMerchant, c.net);
    case DispatchingResolve(x, toMerchant) => DecisionPays(s, x, toMerchant, c.net);
    case WatchdogReleasing(x, w) => WatchdogPays(s, x, w, c.net);
    case Refunding(caller, x) => BackPays(s, caller, x, c.net);
    case Expiring(x) => BackPays(s, Address(0), x, c.net);
  }

  lemma ReleasingStepPays(s: State, c: Call, id: nat)
    requires Inv(s) && (c.op.Releasing? || c.op.DispatchingRelease? || c.op.Evaluating?)
    ensures StepPaysRightly(s, c, id)
  {
    hide Inv, Release, DispatchRelease, Evaluate, PaidLessFee, FeeUnrefused, TimeHasCome;
    match c.op
    case Releasing(x, early, to, gate, fr) => ReleasePays(s, x, early, to, gate, fr, c.net);
    case DispatchingRelease(x, early, fr) => DispatchReleasePays(s, x, early, fr, c.net);
    case Evaluating(x, met, fr) => EvaluationPays(s, x, met, fr, c.net);
  }

  lemma BatchingStepPays(s: State, c: Call, id: nat)
    requires Inv(s) && MovesFor(c.net, id) && (c.op.Triggering? || c.op.Processing? || c.op.BatchReleasing?)
    ensures StepPaysRightly(s, c, id)
  {
    hide Inv, Trigger, Process, ReleaseAll, Chosen, Entries, PaidByFavor, PaidLessFee, Due;
    match c.op
    case Triggering(x) => TimeoutPays(s, x, c.net);
    case Processing(limit) => ProcessPays(s, limit, c.net);
    case BatchReleasing(ids, to, gates, fr) => BatchPays(s, ids, to, gates, fr, c.net, id);
  }

  lemma CreationStepPays(s: State, c: Call, id: nat)
    requires Inv(s) && CreationOp(c.op)
    ensures StepPaysRightly(s, c, id)
  {
    assert s.counter + 1 !in s.escrows;
    hide CreateAll, Inv, Vesting.Admissible, RightlyPaid;
    if c.op.CreatingBatch? {
      CreateAllUnsettled(s, c.op.entries, id);
    }
  }

  lemma OpenStepPays(s: State, c: Call, id: nat)
    requires c.op.Disputing? || c.op.Escalating? || c.op.Ticking?
    ensures StepPaysRightly(s, c, id)
  {
    hide Enqueued, RightlyPaid;
  }

  lemma EvidencePaysNobody(s: State, c: Call, id: nat)
    requires Inv(s) && c.op.AutoResolving?
    ensures StepPaysRightly(s, c, id)
  {
    hide QueueLive, EscalationQueue.WellFormed;
  }

  /** Whatever call settles an escrow whose transfers move, pays for it rightly. */
  lemma SettlingCallPays(s: State, c: Call, id: nat)
    requires Inv(s) && SettledNow(s, Step(s, c), id) && MovesFor(c.net, id)
    ensures RightlyPaid(c, s.escrows[id], Step(s, c).escrows[id], PaidFor(Step(s, c), id), id)
  {
    hide Inv, Step, RightlyPaid;
    var op := c.op;
    if op.Resolving? || op.DispatchingResolve? || op.WatchdogReleasing? || op.Refunding? || op.Expiring? {
      SingleStepPays(s, c, id);
    } else if op.Releasing? || op.DispatchingRelease? || op.Evaluating? {
      ReleasingStepPays(s, c, id);
    } else if op.Triggering? || op.Processing? || op.BatchReleasing? {
      BatchingStepPays(s, c, id);
    } else if op.AutoResolving? {
      EvidencePaysNobody(s, c, id);
    } else if CreationOp(op) {
      CreationStepPays(s, c, id);
    } else {
      OpenStepPays(s, c, id);
    }
  }

  /** The `i`-th call of the run settled the escrow, and if the escrow's transfers moved in it, record and
      payments are at the end of the run what that call has to make of them. */
  ghost predicate SettledAt(calls: seq<Call>, i: nat, id: nat)
    requires i < |calls|
  {
    var s, t := Run(INITIAL, calls[..i]), Run(INITIAL, calls);
    && SettledNow(s, Step(s, calls[i]), id) && id in t.escrows
    && (MovesFor(calls[i].net, id) ==> RightlyPaid(calls[i], s.escrows[id], t.escrows[id], PaidFor(t, id), id))
  }

  /** Every settled escrow of every run has a call that settled it, and has been paid as that call
      says: after a decision the side decided for, after a timeout the favoured side, after a refund or
      an expiry the customer, after a release the recipient and the platform, after a resolution by
      evidence nobody. */
  lemma {:induction false} EverybodyRightlyPaid(calls: seq<Call>, id: nat)
    requires var t := Run(INITIAL, calls); id in t.escrows && Settled(t.escrows[id])
    ensures exists i :: 0 <= i < |calls| && SettledAt(calls, i, id)
    decreases |calls|
  {
    hide Step, Inv, RightlyPaid, Accounted, MovesFor;
    var last := |calls| - 1;
    assert calls != [];
    assert calls[..last] + [calls[last]] == calls;
    RunAppend(INITIAL, calls[..last], [calls[last]]);
    var s, c := Run(INITIAL, calls[..last]), calls[last];
    LastStep(s, c);
    RunKeeps(INITIAL, calls[..last]);
    StepKeeps(s, c);
    NewIsOpen(s, c, id);
    var t := Step(s, c);
    if id in s.escrows && Settled(s.escrows[id]) {
      EverybodyRightlyPaid(calls[..last], id);
      var i :| 0 <= i < last && SettledAt(calls[..last], i, id);
      assert calls[..last][..i] == calls[..i];
      assert EscrowStep(s.escrows[id], PaidFor(s, id), t.escrows[id], PaidFor(t, id));
      assert SettledAt(calls, i, id);
    } else {
      assert SettledNow(s, t, id);
      if MovesFor(c.net, id) {
        SettlingCallPays(s, c, id);
      }
      assert SettledAt(calls, last, id);
    }
  }

  lemma LastStep(s: State, c: Call)
    ensures Run(s, [c]) == Step(s, c)
  {
    hide Step;
    assert [c][1..] == [];
    assert Run(Step(s, c), []) == Step(s, c);
  }
}
