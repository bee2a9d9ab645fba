/** The single-escrow machine and the pooled escrows on one account: what the calls of the first pay
    leaves the account of the second. */
module JointAccount {
  import opened Common
  import Lifecycle
  import LifecycleLaws
  import Settlement
  import opened PooledEscrow
  import opened PooledMoney
  import opened PooledLaws
  import opened SharedAccount

  datatype Joint = Joint(core: Lifecycle.State, pool: State)

  /** A call of the single-escrow machine, with the order in which it settled escrows, or one of the pooled
      machine. Time passes with the calls of the former. */
  datatype JointOp = Single(call: LifecycleLaws.Call, order: seq<nat>) | Pooled(op: Op)

  /** The token of each escrow is chosen when it is created and stays. */
  type Tokens = nat -> Address

  /** The payments by which the log of an escrow has grown. */
  function NewPayments(core: Lifecycle.State, core': Lifecycle.State, id: nat): seq<Lifecycle.Payment> {
    var was, now := Lifecycle.PaidFor(core, id), Lifecycle.PaidFor(core', id);
    if |was| <= |now| then now[|was|..] else []
  }

  /** What a call pays, escrow by escrow. */
  function Outgoing(tokens: Tokens, core: Lifecycle.State, core': Lifecycle.State, order: seq<nat>): seq<Op> {
    if order == [] then []
    else Payouts(tokens(order[0]), NewPayments(core, core', order[0])) + Outgoing(tokens, core, core', order[1..])
  }

  /** Each escrow for which something was paid stands in the order, once. */
  ghost predicate Covers(core: Lifecycle.State, core': Lifecycle.State, order: seq<nat>) {
    Distinct(order) && forall id :: id in core'.paid && NewPayments(core, core', id) != [] ==> id in order
  }

  /** The account can make these payouts one after the other. */
  predicate AllMove(s: State, outs: seq<Op>)
    decreases |outs|
  {
    outs != [] ==> outs[0].PayingOut? && PayOut(s, outs[0].token, outs[0].to, outs[0].amount).1 && AllMove(Step(s, outs[0]), outs[1..])
  }

  /** The answers of the tokens are those of the account: whatever the call paid could be paid. */
  ghost predicate Happens(tokens: Tokens, j: Joint, call: LifecycleLaws.Call, order: seq<nat>) {
    var core' := LifecycleLaws.Step(j.core, call);
    Covers(j.core, core', order) && AllMove(j.pool, Outgoing(tokens, j.core, core', order))
  }

  ghost function JointStep(tokens: Tokens, j: Joint, op: JointOp): Joint {
    match op
    case Single(call, order) =>
      var core' := LifecycleLaws.Step(j.core, call);
      if !Happens(tokens, j, call, order) then j
      else Joint(core', Run(j.pool, Outgoing(tokens, j.core, core', order)).(now := core'.now))
    case Pooled(op) => if op.Ticking? then j else j.(pool := Step(j.pool, op))
  }

  ghost predicate JointInv(j: Joint) {
    LifecycleLaws.Inv(j.core) && Inv(j.pool)
  }

  // ----- A series of payouts -----

  /** What the payouts take out of the account in one token. */
  function OutTotal(outs: seq<Op>, t: Address): int {
    if outs == [] then 0
    else (if outs[0].PayingOut? && outs[0].token == t && outs[0].to != SELF then outs[0].amount else 0) + OutTotal(outs[1..], t)
  }

  lemma {:induction false} OutTotalAppend(a: seq<Op>, b: seq<Op>, t: Address)
    ensures OutTotal(a + b, t) == OutTotal(a, t) + OutTotal(b, t)
  {
    if a == [] {
      assert a + b == b;
    } else {
      assert (a + b)[1..] == a[1..] + b;
      OutTotalAppend(a[1..], b, t);
    }
  }

  lemma OneMoves(s: State, op: Op, t: Address)
    requires Inv(s) && op.PayingOut? && PayOut(s, op.token, op.to, op.amount).1
    ensures Inv(Step(s, op)) && Surplus(Step(s, op), t) == Surplus(s, t) - if op.token == t && op.to != SELF then op.amount else 0
  {
    PayOutKeepsIff(s, op.token, op.to, op.amount);
    TransferEffect(s.bank, op.token, SELF, op.to, op.amount, t, SELF);
    hide Inv;
  }

  lemma {:induction false} AllMoveSurplus(s: State, outs: seq<Op>, t: Address)
    requires Inv(s) && AllMove(s, outs)
    ensures Inv(Run(s, outs)) && Surplus(Run(s, outs), t) == Surplus(s, t) - OutTotal(outs, t)
    decreases |outs|
  {
    if outs != [] {
      hide Inv, Step, Surplus, PayOut;
      OneMoves(s, outs[0], t);
      AllMoveSurplus(Step(s, outs[0]), outs[1..], t);
    }
  }

  lemma SolventIsSurplus(s: State)
    ensures Solvent(s) <==> forall t :: Surplus(s, t) >= 0
  {
    if forall t :: Surplus(s, t) >= 0 {
      forall t ensures Owed(s, t) <= Balance(s.bank, t, SELF) {
        assert Surplus(s, t) >= 0;
      }
    }
    if Solvent(s) {
      forall t ensures Surplus(s, t) >= 0 {
        assert Owed(s, t) <= Balance(s.bank, t, SELF);
      }
    }
  }

  lemma ClockKeeps(s: State, now: nat)
    requires Inv(s)
    ensures Inv(s.(now := now)) && forall t :: Surplus(s.(now := now), t) == Surplus(s, t)
  {
    hide PartySound, VotesSound;
    SameParties(s, s.(now := now));
  }

  // ----- One call -----

  /** This call takes no more out of the account than is left beside what is owed for pooled escrows. */
  ghost predicate WithinJointSurplus(tokens: Tokens, j: Joint, op: JointOp) {
    match op
    case Single(call, order) =>
      Happens(tokens, j, call, order) ==>
        forall t :: OutTotal(Outgoing(tokens, j.core, LifecycleLaws.Step(j.core, call), order), t) <= Surplus(j.pool, t)
    case Pooled(op) => WithinSurplus(j.pool, op)
  }

  lemma SingleKeeps(tokens: Tokens, j: Joint, call: LifecycleLaws.Call, order: seq<nat>)
    requires JointInv(j)
    ensures var op := Single(call, order);
            var j' := JointStep(tokens, j, op);
            JointInv(j') && (Solvent(j.pool) ==> (Solvent(j'.pool) <==> WithinJointSurplus(tokens, j, op)))
  {
    var core' := LifecycleLaws.Step(j.core, call);
    var outs := Outgoing(tokens, j.core, core', order);
    var j' := JointStep(tokens, j, Single(call, order));
    LifecycleLaws.StepKeeps(j.core, call);
    if Happens(tokens, j, call, order) {
      var paid := Run(j.pool, outs);
      AllMoveSurplus(j.pool, outs, SELF);
      ClockKeeps(paid, core'.now);
      hide Inv, LifecycleLaws.Inv, LifecycleLaws.Step, Outgoing, Run, Surplus, Solvent, Covers, AllMove, OutTotal;
      forall t ensures Surplus(j'.pool, t) == Surplus(j.pool, t) - OutTotal(outs, t) {
        AllMoveSurplus(j.pool, outs, t);
      }
      SolventIsSurplus(j.pool);
      SolventIsSurplus(j'.pool);
      forall t ensures Surplus(j'.pool, t) >= 0 <==> OutTotal(outs, t) <= Surplus(j.pool, t) {}
    }
  }

  lemma JointStepKeeps(tokens: Tokens, j: Joint, op: JointOp)
    requires JointInv(j)
    ensures var j' := JointStep(tokens, j, op);
            JointInv(j') && (Solvent(j.pool) ==> (Solvent(j'.pool) <==> WithinJointSurplus(tokens, j, op)))
  {
    match op
    case Single(call, order) => SingleKeeps(tokens, j, call, order);
    case Pooled(op) =>
      hide Inv, Solvent, Step;
      StepKeeps(j.pool, op);
  }

  // ----- Whole runs -----

  ghost function JointRun(tokens: Tokens, j: Joint, ops: seq<JointOp>): Joint
    decreases |ops|
  {
    if ops == [] then j else JointRun(tokens, JointStep(tokens, j, ops[0]), ops[1..])
  }

  ghost predicate AlwaysJointSolvent(tokens: Tokens, j: Joint, ops: seq<JointOp>)
    decreases |ops|
  {
    Solvent(j.pool) && (ops != [] ==> AlwaysJointSolvent(tokens, JointStep(tokens, j, ops[0]), ops[1..]))
  }

  ghost predicate AllWithinJointSurplus(tokens: Tokens, j: Joint, ops: seq<JointOp>)
    decreases |ops|
  {
    ops != [] ==> WithinJointSurplus(tokens, j, ops[0]) && AllWithinJointSurplus(tokens, JointStep(tokens, j, ops[0]), ops[1..])
  }

  lemma {:induction false} JointRunSolvent(tokens: Tokens, j: Joint, ops: seq<JointOp>)
    requires JointInv(j) && Solvent(j.pool)
    ensures AlwaysJointSolvent(tokens, j, ops) <==> AllWithinJointSurplus(tokens, j, ops)
    ensures JointInv(JointRun(tokens, j, ops))
    decreases |ops|
  {
    hide JointInv, Solvent, JointStep, WithinJointSurplus;
    if ops != [] {
      JointStepKeeps(tokens, j, ops[0]);
      var j' := JointStep(tokens, j, ops[0]);
      if Solvent(j'.pool) {
        JointRunSolvent(tokens, j', ops[1..]);
      } else {
        assert !AlwaysJointSolvent(tokens, j', ops[1..]);
        JointRunKeeps(tokens, j', ops[1..]);
      }
    }
  }

  lemma {:induction false} JointRunKeeps(tokens: Tokens, j: Joint, ops: seq<JointOp>)
    requires JointInv(j)
    ensures JointInv(JointRun(tokens, j, ops))
    decreases |ops|
  {
    hide JointInv, JointStep, WithinJointSurplus, Solvent;
    if ops != [] {
      JointStepKeeps(tokens, j, ops[0]);
      JointRunKeeps(tokens, JointStep(tokens, j, ops[0]), ops[1..]);
    }
  }

  ghost function StartOf(bank: Bank): Joint {
    Joint(Lifecycle.INITIAL, Initial(bank))
  }

  lemma StartKeeps(bank: Bank)
    ensures JointInv(StartOf(bank)) && Solvent(StartOf(bank).pool)
  {
    InitialInv(bank);
  }

  /** Over every run in which single and pooled escrows share the account, releases, refunds, disputes,
      timeouts and batches included: the contract is solvent for its pooled escrows in all storages if and
      only if each call paid, in each token, no more than was left beside what it owed for them. */
  lemma JointSolventIff(tokens: Tokens, bank: Bank, ops: seq<JointOp>)
    ensures AlwaysJointSolvent(tokens, StartOf(bank), ops) <==> AllWithinJointSurplus(tokens, StartOf(bank), ops)
  {
    StartKeeps(bank);
    JointRunSolvent(tokens, StartOf(bank), ops);
  }

  // ----- Settling one escrow -----

  /** The call settles this escrow and pays for no other, and nobody it pays is the contract. */
  ghost predicate OnlySettles(core: Lifecycle.State, core': Lifecycle.State, id: nat) {
    && id in core.escrows && !LifecycleLaws.Settled(core.escrows[id])
    && id in core'.escrows && LifecycleLaws.Settled(core'.escrows[id])
    && (forall x :: x != id ==> NewPayments(core, core', x) == [])
    && (forall i :: 0 <= i < |NewPayments(core, core', id)| ==> NewPayments(core, core', id)[i].to != SELF)
  }

  lemma {:induction false} OnlyOnePays(tokens: Tokens, core: Lifecycle.State, core': Lifecycle.State, order: seq<nat>, id: nat)
    requires Distinct(order) && forall x :: x != id ==> NewPayments(core, core', x) == []
    ensures Outgoing(tokens, core, core', order) == if id in order then Payouts(tokens(id), NewPayments(core, core', id)) else []
  {
    hide NewPayments;
    if order != [] {
      OnlyOnePays(tokens, core, core', order[1..], id);
      if order[0] == id {
        assert id !in order[1..];
      }
    }
  }

  lemma {:induction false} PayoutsTotal(token: Address, log: seq<Lifecycle.Payment>, t: Address)
    requires forall i :: 0 <= i < |log| ==> log[i].to != SELF
    ensures OutTotal(Payouts(token, log), t) == if t == token then LifecycleLaws.Total(log) else 0
  {
    if log != [] {
      var n := |log| - 1;
      var last := [PayingOut(token, log[n].to, log[n].amount)];
      PayoutsTotal(token, log[..n], t);
      assert Payouts(token, log) == Payouts(token, log[..n]) + last;
      OutTotalAppend(Payouts(token, log[..n]), last, t);
      assert last[1..] == [];
    }
  }

  lemma SettlementOut(tokens: Tokens, core: Lifecycle.State, call: LifecycleLaws.Call, order: seq<nat>, id: nat, t: Address)
    requires LifecycleLaws.Inv(core) && Covers(core, LifecycleLaws.Step(core, call), order)
    requires OnlySettles(core, LifecycleLaws.Step(core, call), id)
    requires Settlement.CleanCall(core, call, id) && LifecycleLaws.Sane(core.escrows[id])
    ensures OutTotal(Outgoing(tokens, core, LifecycleLaws.Step(core, call), order), t) ==
            if t == tokens(id) then core.escrows[id].amount else 0
  {
    var core' := LifecycleLaws.Step(core, call);
    SettlesInFull(core, call, id);
    InOrder(core, core', order, id);
    OnlyOnePays(tokens, core, core', order, id);
    hide LifecycleLaws.Inv, LifecycleLaws.Step, NewPayments, Outgoing, Settlement.CleanCall, OutTotal, Payouts, LifecycleLaws.Total;
    PayoutsTotal(tokens(id), NewPayments(core, core', id), t);
    NothingOut(t);
  }

  /** Settling one escrow cleanly, with its principal and fee, leaves a solvent contract solvent if and only
      if its stored amount is within the surplus of its token. */
  lemma SettlementWithinIff(tokens: Tokens, j: Joint, call: LifecycleLaws.Call, order: seq<nat>, id: nat)
    requires JointInv(j) && Solvent(j.pool) && Happens(tokens, j, call, order)
    requires OnlySettles(j.core, LifecycleLaws.Step(j.core, call), id)
    requires Settlement.CleanCall(j.core, call, id) && LifecycleLaws.Sane(j.core.escrows[id])
    ensures Solvent(JointStep(tokens, j, Single(call, order)).pool) <==> j.core.escrows[id].amount <= Surplus(j.pool, tokens(id))
  {
    var core' := LifecycleLaws.Step(j.core, call);
    var outs := Outgoing(tokens, j.core, core', order);
    SingleKeeps(tokens, j, call, order);
    assert Covers(j.core, core', order);
    hide LifecycleLaws.Inv, LifecycleLaws.Step, Inv, Outgoing, Settlement.CleanCall, Surplus, Solvent, JointStep, OutTotal, Happens,
      OnlySettles, Covers, LifecycleLaws.Sane;
    forall t ensures OutTotal(outs, t) == if t == tokens(id) then j.core.escrows[id].amount else 0 {
      SettlementOut(tokens, j.core, call, order, id, t);
    }
    SolventIsSurplus(j.pool);
  }

  lemma NothingOut(t: Address)
    ensures OutTotal([], t) == 0 && LifecycleLaws.Total([]) == 0
  {}

  lemma InOrder(core: Lifecycle.State, core': Lifecycle.State, order: seq<nat>, id: nat)
    requires Covers(core, core', order)
    ensures id in order || NewPayments(core, core', id) == []
  {}

  lemma SettlesInFull(core: Lifecycle.State, call: LifecycleLaws.Call, id: nat)
    requires LifecycleLaws.Inv(core) && OnlySettles(core, LifecycleLaws.Step(core, call), id)
    requires Settlement.CleanCall(core, call, id) && LifecycleLaws.Sane(core.escrows[id])
    ensures var core' := LifecycleLaws.Step(core, call);
            LifecycleLaws.Total(NewPayments(core, core', id)) == core.escrows[id].amount
  {
    var core' := LifecycleLaws.Step(core, call);
    assert Lifecycle.PaidFor(core, id) == [];
    Settlement.CleanStepInFull(core, call, id);
    LifecycleLaws.StepKeeps(core, call);
    assert LifecycleLaws.EscrowStep(core.escrows[id], Lifecycle.PaidFor(core, id), core'.escrows[id], Lifecycle.PaidFor(core', id));
    assert NewPayments(core, core', id) == Lifecycle.PaidFor(core', id);
    hide LifecycleLaws.Step, LifecycleLaws.Inv;
  }
}
