/** The hierarchy as the contract keeps and walks it: nodes in storage beside the escrow records,
    and two work-list loops. */
module HierarchyContract {
  import opened Common
  import opened Lifecycle
  import LifecycleLaws
  import LifecycleContract
  import opened Recipients
  import opened Settlement
  import opened Hierarchy
  import opened HierarchySearch

  /** The stored node of an escrow, or the one made up for it. */
  function Nodes(nodes: map<nat, Node>, ids: seq<nat>): seq<Node> {
    seq(|ids|, i requires 0 <= i < |ids| => NodeOf(nodes, ids[i]))
  }

  /** Where the work list stands: `index` of its nodes are done, and it holds exactly the root and
      the children of those. */
  ghost predicate WorkList(f: Forest, root: nat, queue: seq<nat>, index: nat) {
    index <= |queue| && queue == [root] + Kids(f.nodes, queue[..index]) && queue <= LevelOrder(f.nodes, root)
  }

  lemma StartWork(f: Forest, root: nat)
    requires NodesSound(f)
    ensures WorkList(f, root, [root], 0)
  {
    LevelOrderClosed(f, root);
    assert [root][..0] == [];
  }

  /** Taking the next node from the work list and appending its children. */
  lemma NextWork(f: Forest, root: nat, queue: seq<nat>, index: nat)
    requires NodesSound(f) && WorkList(f, root, queue, index) && index < |queue|
    ensures WorkList(f, root, queue + NodeOf(f.nodes, queue[index]).children, index + 1)
    ensures index < |LevelOrder(f.nodes, root)|
  {
    hide NodesSound, LevelOrder, Kids, NodeOf;
    assert queue[..index + 1] == queue[..index] + [queue[index]];
    var children := NodeOf(f.nodes, queue[index]).children;
    QueueGrows(f, root, queue[..index], queue[index]);
    assert (queue + children)[..index + 1] == queue[..index + 1];
    assert [root] + (Kids(f.nodes, queue[..index]) + children) == queue + children;
  }

  lemma WorkDone(f: Forest, root: nat, queue: seq<nat>)
    requires NodesSound(f) && WorkList(f, root, queue, |queue|)
    ensures queue == LevelOrder(f.nodes, root)
  {
    assert queue[..|queue|] == queue;
    FinishedIsAll(f, root, queue);
  }

  /** A child met on the way is properly below the root. */
  lemma WorkBelow(f: Forest, root: nat, queue: seq<nat>, index: nat, c: nat)
    requires NodesSound(f) && WorkList(f, root, queue, index) && index < |queue| && c in NodeOf(f.nodes, queue[index]).children
    ensures c != root && Descends(f.nodes, root, c)
  {
    LevelOrderIsTheSubtree(f, root);
    hide LevelOrder, NodesSound;
    var x := queue[index];
    assert LevelOrder(f.nodes, root)[index] == x;
    assert Descends(f.nodes, root, x);
    ChildSound(f, x, c);
    DescendsBelow(f.nodes, root, x);
  }

  /** A child as it is first stored: locked, for the customer, merchant and amount given, with the times of
      its parent; its node hangs under the parent's, one deeper, and no other node or record differs. */
  ghost predicate ChildAdded(f: Forest, f': Forest, parent: nat, child: nat, t: ChildTerms) {
    && parent in f.core.escrows && child !in f.core.escrows && child in f'.core.escrows
    && f'.core.escrows == f.core.escrows[child := f'.core.escrows[child]]
    && var p, c := f.core.escrows[parent], f'.core.escrows[child];
    && LifecycleContract.OpenedFor(c, t.customer, t.merchant, t.amount, t.feeBps, f.core.now)
    && c.releaseTimestamp == p.releaseTimestamp && c.minHoldPeriod == p.minHoldPeriod && c.expiryTimestamp == p.expiryTimestamp
    && c.escalationTimeout == t.escalationTimeout && c.favor == t.favor
    && parent in f'.nodes && child in f'.nodes && child != parent
    && f'.nodes[child] == Node(Some(parent), [], NodeOf(f.nodes, parent).depth + 1)
    && f'.nodes[parent] == NodeOf(f.nodes, parent).(children := NodeOf(f.nodes, parent).children + [child])
    && forall x :: x in f.nodes && x != parent && x != child ==> x in f'.nodes && f'.nodes[x] == f.nodes[x]
  }

  /** Attaching succeeds exactly below a stored escrow less than three deep whose expiry, if any, lies
      beyond its release and its hold period; then the child is added and nothing else changes. */
  lemma AttachAdds(f: Forest, parent: nat, t: ChildTerms)
    requires ForestInv(f)
    ensures var (f', r) := Attach(f, parent, t);
            && (r.Ok? <==>
                  && parent in f.core.escrows && NodeOf(f.nodes, parent).depth < 3
                  && (var p := f.core.escrows[parent];
                      p.expiryTimestamp == 0 || (p.expiryTimestamp > p.releaseTimestamp
                                                 && p.expiryTimestamp > SaturatingAdd(f.core.now, p.minHoldPeriod))))
            && (r.Err? ==> f' == f)
            && (r.Ok? ==> ChildAdded(f, f', parent, r.value, t))
  {
    NewIdIsFree(f, parent);
    hide ForestInv, Inherited, NewEscrow, Linked, LifecycleContract.OpenedFor;
    var (f', r) := Attach(f, parent, t);
    if r.Ok? {
      InheritedTerms(f.core.escrows[parent], t, f.core.now);
      LinkedIs(f.nodes, parent, r.value);
    } else if parent in f.core.escrows {
      InheritedTerms(f.core.escrows[parent], t, f.core.now);
    }
  }

  lemma NewIdIsFree(f: Forest, parent: nat)
    requires ForestInv(f)
    ensures f.core.counter + 1 !in f.core.escrows && (parent in f.core.escrows ==> parent <= f.core.counter)
  {
    hide NodesSound, LifecycleLaws.QueueLive;
  }

  lemma InheritedTerms(p: Escrow, t: ChildTerms, now: nat)
    ensures var terms := Inherited(p, t);
            && terms.releaseTimestamp == p.releaseTimestamp && terms.minHoldPeriod == p.minHoldPeriod
            && terms.expiryTimestamp == p.expiryTimestamp
            && var c := NewEscrow(terms, now);
            && LifecycleContract.OpenedFor(c, t.customer, t.merchant, t.amount, t.feeBps, now)
            && c.releaseTimestamp == p.releaseTimestamp && c.minHoldPeriod == p.minHoldPeriod && c.expiryTimestamp == p.expiryTimestamp
            && c.escalationTimeout == t.escalationTimeout && c.favor == t.favor
  {}

  class HierarchyContract {
    const core: LifecycleContract.EscrowContract
    var nodes: map<nat, Node>

    constructor ()
      ensures Valid() && fresh(core) && fresh(core.queue) && State() == EMPTY_FOREST
    {
      core := new LifecycleContract.EscrowContract();
      nodes := map[];
      new;
      EmptyForestInv();
    }

    function State(): Forest
      reads this, core, core.queue
    {
      Forest(core.State(), nodes)
    }

    ghost predicate Valid()
      reads this, core, core.queue
    {
      ForestInv(State())
    }

    method CreateChildEscrow(parent: nat, t: ChildTerms) returns (r: Result<nat>)
      requires Valid()
      modifies this, core
      ensures (State(), r) == Attach(old(State()), parent, t)
      ensures Valid()
      ensures r.Ok? ==> ChildAdded(old(State()), State(), parent, r.value, t)
      ensures r.Err? ==> State() == old(State())
    {
      hide ForestInv, Create, Inherited, NewEscrow, NodesSound, Linked, LifecycleLaws.Inv, ChildAdded;
      AttachAdds(State(), parent, t);
      ValidCore();
      AttachKeeps(State(), parent, t);
      if parent !in core.escrows {
        return Err(ParentEscrowNotFound);
      }
      var parentNode := if parent in nodes then nodes[parent] else Node(None, [], 0);
      if parentNode.depth + 1 > MAX_DEPTH {
        return Err(MaxHierarchyDepth);
      }
      var childDepth := parentNode.depth + 1;
      r := core.CreateEscrow(Inherited(core.escrows[parent], t));
      if r.Err? {
        return;
      }
      parentNode := parentNode.(children := parentNode.children + [r.value]);
      nodes := nodes[parent := parentNode];
      nodes := nodes[r.value := Node(Some(parent), [], childDepth)];
      LinkedIs(old(nodes), parent, r.value);
    }

    lemma ValidCore()
      requires Valid()
      ensures core.Valid() && NodesSound(State())
    {}

    /** The nodes of an escrow and of everything below it, level by level. */
    method GetEscrowHierarchy(root: nat) returns (result: seq<Node>)
      requires Valid()
      ensures result == if root in core.escrows then Nodes(nodes, LevelOrder(nodes, root)) else []
    {
      hide ForestInv, NodesSound, WorkList, LevelOrder;
      ValidCore();
      result := [];
      if root !in core.escrows {
        return;
      }
      var queue := [root];
      var index := 0;
      StartWork(State(), root);
      while index < |queue|
        invariant 0 <= index <= |queue| && WorkList(State(), root, queue, index)
        invariant result == Nodes(nodes, queue[..index])
        decreases |LevelOrder(nodes, root)| - index
      {
        NextWork(State(), root, queue, index);
        var currentId := queue[index];
        var node := if currentId in nodes then nodes[currentId] else Node(None, [], 0);
        assert queue[..index + 1] == queue[..index] + [currentId];
        result := result + [node];
        ghost var before := queue;
        for i := 0 to |node.children|
          invariant queue == before + node.children[..i]
        {
          queue := queue + [node.children[i]];
        }
        assert node.children[..|node.children|] == node.children;
        assert queue[..index + 1] == before[..index + 1];
        index := index + 1;
      }
      WorkDone(State(), root, queue);
      assert queue[..|queue|] == queue;
    }

    method IsEscrowResolved(id: nat) returns (resolved: bool)
      ensures resolved == EscrowResolved(core.State(), id)
    {
      if id in core.escrows {
        match core.escrows[id].status
        case Released => resolved := true;
        case Resolved => resolved := true;
        case Cancelled => resolved := true;
        case _ => resolved := false;
      } else {
        resolved := true;
      }
    }

    /** True exactly when the escrow exists and everything below it is settled. */
    method CanParentRelease(parent: nat) returns (r: bool)
      requires Valid()
      ensures r <==> parent in core.escrows && DescendantsSettled(State(), parent)
    {
      hide ForestInv, NodesSound, WorkList, LevelOrder, Kids;
      ValidCore();
      if parent !in core.escrows {
        return false;
      }
      var queue := [parent];
      var index := 0;
      StartWork(State(), parent);
      while index < |queue|
        invariant 0 < |queue| && 0 <= index <= |queue| && WorkList(State(), parent, queue, index)
        invariant forall i :: 1 <= i < |queue| ==> EscrowResolved(core.State(), queue[i])
        decreases |LevelOrder(nodes, parent)| - index
      {
        NextWork(State(), parent, queue, index);
        var currentId := queue[index];
        ghost var before := queue;
        if currentId in nodes {
          var children := nodes[currentId].children;
          for i := 0 to |children|
            invariant queue == before + children[..i]
            invariant forall j :: 1 <= j < |queue| ==> EscrowResolved(core.State(), queue[j])
          {
            var resolved := IsEscrowResolved(children[i]);
            if !resolved {
              WorkBelow(State(), parent, before, index, children[i]);
              return false;
            }
            queue := queue + [children[i]];
          }
          assert children[..|children|] == children;
        }
        assert queue == before + NodeOf(nodes, currentId).children;
        index := index + 1;
      }
      WorkDone(State(), parent, queue);
      AllBelowResolved(State(), parent, queue);
      r := true;
    }

    /** The release entry point: the guard is asked in the storage the call meets. */
    method ReleaseEscrow(id: nat, early: bool, recipient: Option<Address>, subAccountsReleased: bool, approvalsMet: bool,
                         feeRecipient: Address, net: Net) returns (r: Result<()>, ghost call: LifecycleLaws.Call)
      requires Valid()
      modifies core, core.queue
      ensures Valid() && State() == Step(old(State()), Calling(call)) && Honest(old(State()), Calling(call))
      ensures r.Ok? && id in core.escrows ==> core.escrows[id].status.Released? && DescendantsSettled(State(), id)
      ensures r.Ok? <==> id in old(core.escrows) && old(core.escrows)[id].status.Locked? && old(TimeHasCome(core.State(), id, early))
                         && old(DescendantsSettled(State(), id)) && subAccountsReleased && approvalsMet
                         && FeeUnrefused(old(core.escrows)[id], id, net)
    {
      hide ForestInv, DescendantsSettled, Release, ReleaseAll, NodesSound, LifecycleLaws.Inv, TimeHasCome, FeeUnrefused, PaidLessFee;
      ValidCore();
      var childrenSettled := CanParentRelease(id);
      var gate := Gate(childrenSettled, subAccountsReleased, approvalsMet);
      call := LifecycleLaws.Call(LifecycleLaws.Releasing(id, early, recipient, gate, feeRecipient), net);
      StepKeepsForest(State(), Calling(call));
      r := core.ReleaseEscrow(id, early, recipient, gate, feeRecipient, net);
      if r.Ok? {
        ReleasedNow(old(core.State()), id, early, recipient, gate, feeRecipient, net);
        ReleaseIsGuarded(old(State()), call, id);
      }
    }

    /** A batch of releases: for each of the escrows the guard is asked in the storage that the earlier
        releases of the batch have left. */
    method BatchReleaseEscrows(ids: seq<nat>, recipient: Option<Address>, subAccountsReleased: nat -> bool, approvalsMet: nat -> bool,
                               feeRecipient: Address, net: Net)
      returns (r: Result<(seq<nat>, seq<nat>, seq<Error>)>, ghost call: LifecycleLaws.Call)
      requires Valid()
      modifies core, core.queue
      ensures Valid() && State() == Step(old(State()), Calling(call)) && Honest(old(State()), Calling(call))
      ensures |ids| > 20 ==> r == Err(BatchReleaseSizeLimitExceeded) && State() == old(State())
      ensures |ids| <= 20 ==> r.Ok? && forall x :: x in r.value.0 ==> DescendantsSettled(State(), x)
    {
      hide ForestInv, DescendantsSettled, Release, ReleaseAll, HonestTurns, LifecycleLaws.Advance, LifecycleLaws.Inv, NodesSound;
      ghost var f := State();
      ghost var asked: seq<Gate> := [];
      if |ids| > 20 {
        call := BatchCall(ids, recipient, asked, feeRecipient, net);
        return Err(BatchReleaseSizeLimitExceeded), call;
      }
      var succeeded: seq<nat>, failed: seq<nat>, errors: seq<Error> := [], [], [];
      StartBatch(f, ids, recipient, feeRecipient, net);
      for i := 0 to |ids|
        invariant Valid() && nodes == f.nodes && |asked| == i
        invariant (core.State(), succeeded, failed, errors) == ReleaseAll(f.core, ids[..i], recipient, GateList(asked), feeRecipient, net)
        invariant HonestTurns(f, ids, i, recipient, GateList(asked), feeRecipient, net)
        invariant forall x :: x in succeeded ==> DescendantsSettled(State(), x)
      {
        ValidCore();
        ghost var before := State();
        var childrenSettled := CanParentRelease(ids[i]);
        var gate := Gate(childrenSettled, subAccountsReleased(i), approvalsMet(i));
        TurnHonest(f, ids, i, recipient, asked, gate, feeRecipient, net);
        TurnEffect(f, ids, i, recipient, asked, gate, feeRecipient, net);
        asked := asked + [gate];
        TurnKeeps(before, ids[i], recipient, gate, feeRecipient, net, succeeded);
        var released := core.InternalRelease(ids[i], false, recipient, gate, feeRecipient, net);
        if released.Ok? {
          succeeded := succeeded + [ids[i]];
        } else {
          failed := failed + [ids[i]];
          errors := errors + [released.error];
        }
      }
      assert ids[..|ids|] == ids;
      call := BatchCall(ids, recipient, asked, feeRecipient, net);
      r := Ok((succeeded, failed, errors));
    }
  }

  /** The answers of the gate, turn by turn. */
  function GateList(asked: seq<Gate>): nat -> Gate {
    (i: nat) => if i < |asked| then asked[i] else Gate(false, false, false)
  }

  function BatchCall(ids: seq<nat>, to: Option<Address>, asked: seq<Gate>, fr: Address, net: Net): LifecycleLaws.Call {
    LifecycleLaws.Call(LifecycleLaws.BatchReleasing(ids, to, GateList(asked), fr), net)
  }

  /** A batch asks its gate about its own turns only. */
  lemma {:induction false} SameTurns(s: Lifecycle.State, ids: seq<nat>, to: Option<Address>, asked: seq<Gate>, gate: Gate, fr: Address, net: Net)
    requires |ids| <= |asked|
    ensures ReleaseAll(s, ids, to, GateList(asked + [gate]), fr, net) == ReleaseAll(s, ids, to, GateList(asked), fr, net)
    decreases |ids|
  {
    hide Release;
    if ids != [] {
      SameTurns(s, ids[..|ids| - 1], to, asked, gate, fr, net);
    }
  }

  lemma StartBatch(f: Forest, ids: seq<nat>, to: Option<Address>, fr: Address, net: Net)
    ensures ReleaseAll(f.core, ids[..0], to, GateList([]), fr, net) == (f.core, [], [], [])
    ensures HonestTurns(f, ids, 0, to, GateList([]), fr, net)
  {}

  /** One more answer, given about the storage the turn meets, keeps the turns honest. */
  lemma TurnHonest(f: Forest, ids: seq<nat>, i: nat, to: Option<Address>, asked: seq<Gate>, gate: Gate, fr: Address, net: Net)
    requires i < |ids| && |asked| == i && HonestTurns(f, ids, i, to, GateList(asked), fr, net)
    requires HonestGate(f.(core := ReleaseAll(f.core, ids[..i], to, GateList(asked), fr, net).0), ids[i], gate)
    ensures HonestTurns(f, ids, i + 1, to, GateList(asked + [gate]), fr, net)
  {
    hide ReleaseAll, HonestGate;
    forall j | 0 <= j <= i
      ensures HonestGate(f.(core := ReleaseAll(f.core, ids[..j], to, GateList(asked + [gate]), fr, net).0), ids[j], GateList(asked + [gate])(j))
    {
      SameTurns(f.core, ids[..j], to, asked, gate, fr, net);
      assert j < i ==> GateList(asked + [gate])(j) == GateList(asked)(j);
    }
  }

  lemma TurnEffect(f: Forest, ids: seq<nat>, i: nat, to: Option<Address>, asked: seq<Gate>, gate: Gate, fr: Address, net: Net)
    requires i < |ids| && |asked| == i
    ensures var (s, succeeded, failed, errors) := ReleaseAll(f.core, ids[..i], to, GateList(asked), fr, net);
            var o := Release(s, ids[i], false, to, gate, fr, net);
            ReleaseAll(f.core, ids[..i + 1], to, GateList(asked + [gate]), fr, net)
            == if o.result.Ok? then (o.state, succeeded + [ids[i]], failed, errors)
               else (o.state, succeeded, failed + [ids[i]], errors + [o.result.error])
  {
    hide Release;
    SameTurns(f.core, ids[..i], to, asked, gate, fr, net);
    assert ids[..i + 1][..i] == ids[..i];
  }

  /** What one turn leaves settled, and that it leaves the forest sound. */
  lemma TurnKeeps(f: Forest, id: nat, to: Option<Address>, gate: Gate, fr: Address, net: Net, succeeded: seq<nat>)
    requires ForestInv(f) && HonestGate(f, id, gate)
    requires forall x :: x in succeeded ==> DescendantsSettled(f, x)
    ensures var o := Release(f.core, id, false, to, gate, fr, net);
            var f' := f.(core := o.state);
            && ForestInv(f')
            && (forall x :: x in succeeded ==> DescendantsSettled(f', x))
            && (o.result.Ok? ==> DescendantsSettled(f', id))
  {
    var o := Release(f.core, id, false, to, gate, fr, net);
    LifecycleLaws.ReleaseKeeps(f.core, id, false, to, gate, fr, net);
    assert o.result.Ok? ==> gate.childrenSettled;
    hide Release, DescendantsSettled, LifecycleLaws.Inv, LifecycleLaws.EscrowStep, NodeSound;
    forall x | x in succeeded ensures DescendantsSettled(f.(core := o.state), x) {
      SettledStays(f, o.state, x);
    }
    if o.result.Ok? {
      SettledStays(f, o.state, id);
    }
  }

  lemma LinkedIs(nodes: map<nat, Node>, parent: nat, child: nat)
    ensures var p := NodeOf(nodes, parent);
            Linked(nodes, parent, child) ==
            nodes[parent := Node(p.parentId, p.children + [child], p.depth)][child := Node(Some(parent), [], p.depth + 1)]
  {}

  lemma ReleasedNow(s: Lifecycle.State, id: nat, early: bool, to: Option<Address>, gate: Gate, fr: Address, net: Net)
    requires Release(s, id, early, to, gate, fr, net).result.Ok?
    ensures NewlyReleased(s, Release(s, id, early, to, gate, fr, net).state, id)
  {
    hide Pay, FeeLegs;
  }

  lemma AllBelowResolved(f: Forest, parent: nat, queue: seq<nat>)
    requires NodesSound(f) && queue == LevelOrder(f.nodes, parent) && 0 < |queue|
    requires WorkList(f, parent, queue, |queue|)
    requires forall i :: 1 <= i < |queue| ==> EscrowResolved(f.core, queue[i])
    ensures DescendantsSettled(f, parent)
  {
    LevelOrderIsTheSubtree(f, parent);
    hide LevelOrder;
    forall d: nat | d != parent && Descends(f.nodes, parent, d)
      ensures d in f.core.escrows && LifecycleLaws.Settled(f.core.escrows[d])
    {
      var i :| 0 <= i < |queue| && queue[i] == d;
      assert queue[0] == parent;
      DescendantStored(f, parent, d);
    }
  }

  lemma DescendantStored(f: Forest, a: nat, d: nat)
    requires NodesSound(f) && Descends(f.nodes, a, d) && d != a
    ensures d in f.nodes && d in f.core.escrows
  {}
}
