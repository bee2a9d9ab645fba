/** Walking the hierarchy: the level order that the work-list loops follow, the tree below an
    escrow as the stored parents define it, and what the release guard is worth. */
module HierarchySearch {
  import opened Common
  import opened Lifecycle
  import LifecycleLaws
  import opened Hierarchy

  // ----- Children of a list -----

  lemma {:induction false} KidsAppend(nodes: map<nat, Node>, a: seq<nat>, b: seq<nat>)
    ensures Kids(nodes, a + b) == Kids(nodes, a) + Kids(nodes, b)
  {
    if b == [] {
      assert a + b == a;
    } else {
      var n := |b| - 1;
      assert (a + b)[..|a| + n] == a + b[..n];
      KidsAppend(nodes, a, b[..n]);
    }
  }

  lemma {:induction false} KidsMember(nodes: map<nat, Node>, ids: seq<nat>, c: nat)
    ensures c in Kids(nodes, ids) <==> exists x :: x in ids && c in NodeOf(nodes, x).children
  {
    if ids != [] {
      var n := |ids| - 1;
      assert ids == ids[..n] + [ids[n]];
      KidsMember(nodes, ids[..n], c);
    }
  }

  lemma ChildSound(f: Forest, x: nat, c: nat)
    requires NodesSound(f) && c in NodeOf(f.nodes, x).children
    ensures x in f.nodes && c in f.nodes && c in f.core.escrows && x < c
    ensures NodeOf(f.nodes, c).parentId == Some(x) && NodeOf(f.nodes, c).depth == NodeOf(f.nodes, x).depth + 1 <= MAX_DEPTH
  {
    assert NodeSound(f.nodes, x) && NodeSound(f.nodes, c);
  }

  // ----- Level order -----

  /** The given nodes, then their children, and so on, `k` levels down. */
  function Levels(nodes: map<nat, Node>, ids: seq<nat>, k: nat): seq<nat>
    decreases k
  {
    ids + if k == 0 then [] else Levels(nodes, Kids(nodes, ids), k - 1)
  }

  /** The hierarchy below `root`, level by level; three levels below it are all there can be. */
  function LevelOrder(nodes: map<nat, Node>, root: nat): seq<nat> {
    Levels(nodes, [root], MAX_DEPTH)
  }

  lemma {:induction false} OneLevelMore(nodes: map<nat, Node>, ids: seq<nat>, k: nat)
    ensures ids + Kids(nodes, Levels(nodes, ids, k)) == Levels(nodes, ids, k + 1)
    decreases k
  {
    hide Kids;
    var kids := Kids(nodes, ids);
    if k == 0 {
      assert Levels(nodes, ids, 0) == ids;
      assert Levels(nodes, kids, 0) == kids;
    } else {
      OneLevelMore(nodes, kids, k - 1);
      KidsAppend(nodes, ids, Levels(nodes, kids, k - 1));
    }
  }

  /** All these nodes have this depth. */
  ghost predicate AtDepth(nodes: map<nat, Node>, ids: seq<nat>, depth: nat) {
    forall x :: x in ids ==> NodeOf(nodes, x).depth == depth
  }

  lemma KidsAtDepth(f: Forest, ids: seq<nat>, depth: nat)
    requires NodesSound(f) && AtDepth(f.nodes, ids, depth)
    ensures AtDepth(f.nodes, Kids(f.nodes, ids), depth + 1)
    ensures depth >= MAX_DEPTH ==> Kids(f.nodes, ids) == []
  {
    forall c | c in Kids(f.nodes, ids) ensures NodeOf(f.nodes, c).depth == depth + 1 <= MAX_DEPTH {
      KidsMember(f.nodes, ids, c);
      var x :| x in ids && c in NodeOf(f.nodes, x).children;
      ChildSound(f, x, c);
    }
    HeadIn(Kids(f.nodes, ids));
  }

  lemma {:induction false} NoLevels(nodes: map<nat, Node>, k: nat)
    ensures Levels(nodes, [], k) == []
    decreases k
  {
    if k > 0 {
      NoLevels(nodes, k - 1);
    }
  }

  /** Below the deepest level there is nothing more. */
  lemma {:induction false} LevelsEnd(f: Forest, ids: seq<nat>, depth: nat, k: nat)
    requires NodesSound(f) && AtDepth(f.nodes, ids, depth) && depth + k >= MAX_DEPTH
    ensures Levels(f.nodes, ids, k + 1) == Levels(f.nodes, ids, k)
    decreases k
  {
    KidsAtDepth(f, ids, depth);
    if k == 0 {
      NoLevels(f.nodes, 0);
    } else {
      LevelsEnd(f, Kids(f.nodes, ids), depth + 1, k - 1);
    }
  }

  /** The equation that the work list satisfies when nothing is left to do. */
  lemma LevelOrderClosed(f: Forest, root: nat)
    requires NodesSound(f)
    ensures LevelOrder(f.nodes, root) == [root] + Kids(f.nodes, LevelOrder(f.nodes, root))
  {
    OneLevelMore(f.nodes, [root], MAX_DEPTH);
    LevelsEnd(f, [root], NodeOf(f.nodes, root).depth, MAX_DEPTH);
  }

  /** No non-empty list of nodes is the list of its own children. */
  lemma {:induction false} NoSelfKids(f: Forest, ids: seq<nat>, low: nat)
    requires NodesSound(f) && ids == Kids(f.nodes, ids)
    ensures forall x :: x in ids ==> x >= low
    decreases low
  {
    if low > 0 {
      NoSelfKids(f, ids, low - 1);
      forall c | c in ids ensures c >= low {
        KidsMember(f.nodes, ids, c);
        var x :| x in ids && c in NodeOf(f.nodes, x).children;
        ChildSound(f, x, c);
      }
    }
  }

  /** A finished work list that begins like the level order is the level order. */
  lemma FinishedIsAll(f: Forest, root: nat, queue: seq<nat>)
    requires NodesSound(f) && queue == [root] + Kids(f.nodes, queue) && queue <= LevelOrder(f.nodes, root)
    ensures queue == LevelOrder(f.nodes, root)
  {
    hide LevelOrder, Kids, NodesSound;
    var all := LevelOrder(f.nodes, root);
    var rest := all[|queue|..];
    PrefixSplit(queue, all);
    LevelOrderClosed(f, root);
    KidsAppend(f.nodes, queue, rest);
    var more := Kids(f.nodes, rest);
    assert [root] + (Kids(f.nodes, queue) + more) == queue + more;
    SameTail(queue, rest, more);
    NoSelfKids(f, rest, if rest == [] then 0 else rest[0] + 1);
    HeadIn(rest);
    assert queue + [] == queue;
  }

  lemma PrefixSplit(p: seq<nat>, s: seq<nat>)
    requires p <= s
    ensures s == p + s[|p|..]
  {}

  lemma SameTail(p: seq<nat>, a: seq<nat>, b: seq<nat>)
    requires p + a == p + b
    ensures a == b
  {
    assert (p + a)[|p|..] == a && (p + b)[|p|..] == b;
  }

  /** One step of the work list stays within the level order. */
  lemma QueueGrows(f: Forest, root: nat, done: seq<nat>, next: nat)
    requires NodesSound(f) && done + [next] <= LevelOrder(f.nodes, root)
    ensures [root] + Kids(f.nodes, done + [next]) <= LevelOrder(f.nodes, root)
    ensures Kids(f.nodes, done + [next]) == Kids(f.nodes, done) + NodeOf(f.nodes, next).children
  {
    OneKid(f.nodes, next);
    hide LevelOrder, Kids, NodesSound, NodeOf;
    var all := LevelOrder(f.nodes, root);
    var rest := all[|done + [next]|..];
    PrefixSplit(done + [next], all);
    LevelOrderClosed(f, root);
    KidsAppend(f.nodes, done + [next], rest);
    KidsAppend(f.nodes, done, [next]);
    var kids, more := Kids(f.nodes, done + [next]), Kids(f.nodes, rest);
    assert [root] + (kids + more) == [root] + kids + more;
  }

  lemma OneKid(nodes: map<nat, Node>, x: nat)
    ensures Kids(nodes, [x]) == NodeOf(nodes, x).children
  {
    assert [x][..0] == [];
  }

  // ----- The level order against the stored parents -----

  lemma {:induction false} DescendsBelow(nodes: map<nat, Node>, a: nat, d: nat)
    requires Descends(nodes, a, d)
    ensures a <= d
    decreases d
  {
    if d != a {
      DescendsBelow(nodes, a, NodeOf(nodes, d).parentId.value);
    }
  }

  lemma {:induction false} LevelsDescend(f: Forest, root: nat, ids: seq<nat>, k: nat)
    requires NodesSound(f) && forall x :: x in ids ==> Descends(f.nodes, root, x)
    ensures forall x :: x in Levels(f.nodes, ids, k) ==> Descends(f.nodes, root, x)
    decreases k
  {
    if k > 0 {
      forall c | c in Kids(f.nodes, ids) ensures Descends(f.nodes, root, c) {
        KidsMember(f.nodes, ids, c);
        var x :| x in ids && c in NodeOf(f.nodes, x).children;
        ChildSound(f, x, c);
      }
      LevelsDescend(f, root, Kids(f.nodes, ids), k - 1);
    }
  }

  lemma {:induction false} DescendantsListed(f: Forest, root: nat, d: nat)
    requires NodesSound(f) && Descends(f.nodes, root, d)
    ensures d in LevelOrder(f.nodes, root)
    decreases d
  {
    var all := LevelOrder(f.nodes, root);
    LevelOrderClosed(f, root);
    if d == root {
      assert all[0] == root;
    } else {
      assert NodeSound(f.nodes, d);
      var p := NodeOf(f.nodes, d).parentId.value;
      DescendantsListed(f, root, p);
      KidsMember(f.nodes, all, d);
      assert all == [root] + Kids(f.nodes, all);
    }
  }

  lemma {:induction false} KidsDistinct(f: Forest, ids: seq<nat>)
    requires NodesSound(f) && Distinct(ids)
    ensures Distinct(Kids(f.nodes, ids))
  {
    if ids != [] {
      var n := |ids| - 1;
      KidsDistinct(f, ids[..n]);
      var a, b := Kids(f.nodes, ids[..n]), NodeOf(f.nodes, ids[n]).children;
      assert Distinct(b) by {
        assert ids[n] in f.nodes ==> NodeSound(f.nodes, ids[n]);
      }
      forall c | c in a ensures c !in b {
        KidsMember(f.nodes, ids[..n], c);
        var x :| x in ids[..n] && c in NodeOf(f.nodes, x).children;
        ChildSound(f, x, c);
        if c in b {
          ChildSound(f, ids[n], c);
          assert false;
        }
      }
      DisjointDistinct(a, b);
    }
  }

  lemma DisjointDistinct(a: seq<nat>, b: seq<nat>)
    requires Distinct(a) && Distinct(b) && forall x :: x in a ==> x !in b
    ensures Distinct(a + b)
  {
    forall i, j | 0 <= i < j < |a + b| ensures (a + b)[i] != (a + b)[j] {
      assert i < |a| ==> (a + b)[i] in a;
      assert j >= |a| ==> (a + b)[j] in b;
    }
  }

  /** Depths never go down along the list. */
  ghost predicate DepthOrdered(nodes: map<nat, Node>, ids: seq<nat>) {
    forall i, j :: 0 <= i < j < |ids| ==> NodeOf(nodes, ids[i]).depth <= NodeOf(nodes, ids[j]).depth
  }

  lemma {:induction false} LevelsOrdered(f: Forest, ids: seq<nat>, depth: nat, k: nat)
    requires NodesSound(f) && Distinct(ids) && AtDepth(f.nodes, ids, depth)
    ensures Distinct(Levels(f.nodes, ids, k)) && DepthOrdered(f.nodes, Levels(f.nodes, ids, k))
    ensures forall x :: x in Levels(f.nodes, ids, k) ==> NodeOf(f.nodes, x).depth >= depth
    decreases k
  {
    if k > 0 {
      var kids := Kids(f.nodes, ids);
      KidsAtDepth(f, ids, depth);
      KidsDistinct(f, ids);
      LevelsOrdered(f, kids, depth + 1, k - 1);
      var rest := Levels(f.nodes, kids, k - 1);
      DisjointDistinct(ids, rest);
      forall i, j | 0 <= i < j < |ids + rest| ensures NodeOf(f.nodes, (ids + rest)[i]).depth <= NodeOf(f.nodes, (ids + rest)[j]).depth {
        assert i < |ids| ==> (ids + rest)[i] in ids;
        assert j < |ids| ==> (ids + rest)[j] in ids;
        assert j >= |ids| ==> (ids + rest)[j] in rest;
      }
    }
  }

  /** The level order lists an escrow and everything below it, as the stored parents have it, each
      exactly once and with depths that never go down. */
  lemma LevelOrderIsTheSubtree(f: Forest, root: nat)
    requires NodesSound(f)
    ensures var all := LevelOrder(f.nodes, root);
            && Distinct(all) && DepthOrdered(f.nodes, all)
            && (forall d :: d in all <==> Descends(f.nodes, root, d))
  {
    hide Levels, DepthOrdered;
    var all := LevelOrder(f.nodes, root);
    LevelsOrdered(f, [root], NodeOf(f.nodes, root).depth, MAX_DEPTH);
    LevelsDescend(f, root, [root], MAX_DEPTH);
    forall d: nat | Descends(f.nodes, root, d) ensures d in all {
      DescendantsListed(f, root, d);
    }
  }

  // ----- What every run comes to -----

  lemma EmptyForestInv()
    ensures ForestInv(EMPTY_FOREST)
  {}

  /** In every reachable storage the nodes form a forest: ids grow away from the roots, no node is
      deeper than three, parents and children name each other, and the tree below any escrow is
      listed completely and without repetition. */
  lemma ReachableForest(ops: seq<Op>, root: nat)
    ensures var f := Run(EMPTY_FOREST, ops);
            && (forall x :: x in f.nodes ==> x in f.core.escrows && NodeSound(f.nodes, x))
            && Distinct(LevelOrder(f.nodes, root))
            && (forall d :: d in LevelOrder(f.nodes, root) <==> Descends(f.nodes, root, d))
            && (forall d :: Descends(f.nodes, root, d) ==> root <= d)
  {
    EmptyForestInv();
    RunKeepsForest(EMPTY_FOREST, ops);
    var f := Run(EMPTY_FOREST, ops);
    hide Run;
    LevelOrderIsTheSubtree(f, root);
    forall d: nat | Descends(f.nodes, root, d) ensures root <= d {
      DescendsBelow(f.nodes, root, d);
    }
  }

  // ----- The release guard -----

  /** Released in this call, and not before. */
  ghost predicate NewlyReleased(s: Lifecycle.State, s': Lifecycle.State, id: nat) {
    id in s'.escrows && s'.escrows[id].status.Released? && (id in s.escrows ==> s.escrows[id].status != Released)
  }

  /** What has been settled below an escrow stays so, as long as the nodes do not change. */
  lemma SettledStays(f: Forest, core': Lifecycle.State, id: nat)
    requires DescendantsSettled(f, id) && LifecycleLaws.Advance(f.core, core')
    ensures DescendantsSettled(f.(core := core'), id)
  {
    hide Descends;
    forall d: nat | d != id && Descends(f.nodes, id, d) ensures d in core'.escrows && LifecycleLaws.Settled(core'.escrows[d]) {
      assert d in f.core.escrows && LifecycleLaws.Settled(f.core.escrows[d]);
    }
  }

  /** A release changes nobody else's record and needs the guard. */
  lemma OnlyGuarded(s: Lifecycle.State, id: nat, early: bool, to: Option<Address>, gate: Gate, fr: Address, net: Net, x: nat)
    requires NewlyReleased(s, Release(s, id, early, to, gate, fr, net).state, x)
    ensures x == id && gate.childrenSettled && id in s.escrows
  {
    hide FeeLegs, Pay;
  }

  lemma {:induction false} BatchGuarded(f: Forest, ids: seq<nat>, to: Option<Address>, gates: nat -> Gate, fr: Address, net: Net, x: nat)
    requires LifecycleLaws.Inv(f.core)
    requires HonestTurns(f, ids, |ids|, to, gates, fr, net)
    requires NewlyReleased(f.core, ReleaseAll(f.core, ids, to, gates, fr, net).0, x)
    ensures DescendantsSettled(f.(core := ReleaseAll(f.core, ids, to, gates, fr, net).0), x)
    decreases |ids|
  {
    hide Release, DescendantsSettled, LifecycleLaws.Inv, LifecycleLaws.Accounted;
    if ids != [] {
      var last := |ids| - 1;
      var s1 := ReleaseAll(f.core, ids[..last], to, gates, fr, net).0;
      var s2 := Release(s1, ids[last], false, to, gates(last), fr, net).state;
      LifecycleLaws.ReleaseAllKeeps(f.core, ids[..last], to, gates, fr, net);
      LifecycleLaws.ReleaseKeeps(s1, ids[last], false, to, gates(last), fr, net);
      if NewlyReleased(s1, s2, x) {
        OnlyGuarded(s1, ids[last], false, to, gates(last), fr, net, x);
        assert gates(last).childrenSettled;
        assert DescendantsSettled(f.(core := s1), x);
      } else {
        assert forall i :: 0 <= i < last ==> ids[..last][..i] == ids[..i];
        BatchGuarded(f, ids[..last], to, gates, fr, net, x);
      }
      SettledStays(f.(core := s1), s2, x);
    }
  }

  /** Whatever `release_escrow` or a batch of releases has released, everything that was below it
      had been settled by then. */
  lemma ReleaseIsGuarded(f: Forest, call: LifecycleLaws.Call, x: nat)
    requires ForestInv(f) && Honest(f, Calling(call))
    requires call.op.Releasing? || call.op.BatchReleasing?
    requires NewlyReleased(f.core, Step(f, Calling(call)).core, x)
    ensures DescendantsSettled(Step(f, Calling(call)), x)
  {
    hide LifecycleLaws.Inv, LifecycleLaws.Accounted, Release, DescendantsSettled;
    match call.op {
      case Releasing(id, early, to, gate, fr) =>
        var s' := Release(f.core, id, early, to, gate, fr, call.net).state;
        OnlyGuarded(f.core, id, early, to, gate, fr, call.net, x);
        LifecycleLaws.ReleaseKeeps(f.core, id, early, to, gate, fr, call.net);
        SettledStays(f, s', x);
      case BatchReleasing(ids, to, gates, fr) =>
        BatchGuarded(f, ids, to, gates, fr, call.net, x);
    }
  }

  lemma {:induction false} RunFixesSettled(f: Forest, ops: seq<Op>, d: nat)
    requires ForestInv(f) && d in f.core.escrows && LifecycleLaws.Settled(f.core.escrows[d])
    ensures d in Run(f, ops).core.escrows && Run(f, ops).core.escrows[d] == f.core.escrows[d]
    decreases |ops|
  {
    hide LifecycleLaws.Inv, LifecycleLaws.Accounted, NodesSound, LifecycleLaws.Step, LifecycleLaws.Settled, Create;
    if ops != [] {
      StepKeepsForest(f, ops[0]);
      match ops[0] {
        case Attaching(parent, t) => AttachAdvances(f, parent, t);
        case Calling(call) => LifecycleLaws.StepKeeps(f.core, call);
      }
      RunFixesSettled(Step(f, ops[0]), ops[1..], d);
    }
  }

  lemma AttachAdvances(f: Forest, parent: nat, t: ChildTerms)
    requires ForestInv(f)
    ensures LifecycleLaws.Advance(f.core, Attach(f, parent, t).0.core)
  {
    hide LifecycleLaws.Inv, LifecycleLaws.Accounted, NodesSound;
    LifecycleLaws.KeepsReflexive(f.core);
    if Attach(f, parent, t).1.Ok? {
      LifecycleLaws.StoredKeeps(f.core, Inherited(f.core.escrows[parent], t), Attach(f, parent, t).0.core);
    }
  }

  /** Release guard, over whole runs: when an escrow is released by `release_escrow` or in a batch,
      every escrow below it is released, resolved or cancelled, and in every later storage each of
      those records is exactly what it was then. */
  lemma ReleasedAfterDescendants(before: seq<Op>, call: LifecycleLaws.Call, after: seq<Op>, x: nat, d: nat)
    requires call.op.Releasing? || call.op.BatchReleasing?
    requires var f := Run(EMPTY_FOREST, before);
             Honest(f, Calling(call)) && NewlyReleased(f.core, Step(f, Calling(call)).core, x)
    requires d != x && Descends(Run(EMPTY_FOREST, before).nodes, x, d)
    ensures var f := Step(Run(EMPTY_FOREST, before), Calling(call));
            && d in f.core.escrows && LifecycleLaws.Settled(f.core.escrows[d])
            && d in Run(f, after).core.escrows && Run(f, after).core.escrows[d] == f.core.escrows[d]
  {
    hide ForestInv, Run, Honest, Descends, NewlyReleased, LifecycleLaws.Settled;
    var f := Run(EMPTY_FOREST, before);
    EmptyForestInv();
    RunKeepsForest(EMPTY_FOREST, before);
    ReleaseIsGuarded(f, call, x);
    StepKeepsForest(f, Calling(call));
    var f' := Step(f, Calling(call));
    assert f'.nodes == f.nodes;
    assert d in f'.core.escrows && LifecycleLaws.Settled(f'.core.escrows[d]);
    RunFixesSettled(f', after, d);
  }

  /** Attaching asks for the parent's record, its depth and the inherited expiry, never for the
      parent's status; and the child it adds is unsettled, so the guard of the parent fails. */
  lemma AttachAllowedIff(f: Forest, parent: nat, t: ChildTerms)
    requires ForestInv(f)
    ensures Attach(f, parent, t).1.Ok? <==>
              && parent in f.core.escrows && NodeOf(f.nodes, parent).depth < MAX_DEPTH
              && (var p := f.core.escrows[parent];
                  p.expiryTimestamp == 0 || (p.expiryTimestamp > p.releaseTimestamp
                                             && p.expiryTimestamp > SaturatingAdd(f.core.now, p.minHoldPeriod)))
    ensures var (f', r) := Attach(f, parent, t);
            r.Ok? ==> f'.core.escrows[parent] == f.core.escrows[parent] && !DescendantsSettled(f', parent)
  {
    hide LifecycleLaws.QueueLive, LifecycleLaws.Accounted;
    var (f', r) := Attach(f, parent, t);
    if r.Ok? {
      assert parent <= f.core.counter;
      assert NodeOf(f'.nodes, r.value).parentId == Some(parent);
      assert Descends(f'.nodes, parent, parent);
      assert Descends(f'.nodes, parent, r.value);
      assert !LifecycleLaws.Settled(f'.core.escrows[r.value]);
    }
  }

  // ----- What stays settled -----

  /** Attaching a child adds itself below whatever its parent is below, and nothing else. */
  lemma {:induction false} DescendsLinked(f: Forest, parent: nat, child: nat, x: nat, d: nat)
    requires NodesSound(f) && child !in f.nodes && parent < child
    ensures Descends(Linked(f.nodes, parent, child), x, d) <==>
            Descends(f.nodes, x, d) || (d == child && Descends(f.nodes, x, parent))
    decreases d
  {
    var nodes' := Linked(f.nodes, parent, child);
    if d == child {
      DescendsLinked(f, parent, child, x, parent);
      assert NodeOf(nodes', child).parentId == Some(parent);
      assert NodeOf(f.nodes, child).parentId == None;
    } else {
      assert NodeOf(nodes', d).parentId == NodeOf(f.nodes, d).parentId;
      if d in f.nodes && f.nodes[d].parentId.Some? {
        assert NodeSound(f.nodes, d);
        DescendsLinked(f, parent, child, x, f.nodes[d].parentId.value);
      }
    }
  }

  /** What the call does to the records of the escrow machine, and the new child. */
  lemma AttachedChild(f: Forest, parent: nat, t: ChildTerms)
    requires ForestInv(f) && Attach(f, parent, t).1.Ok?
    ensures var (f', r) := Attach(f, parent, t);
            && f'.nodes == Linked(f.nodes, parent, r.value) && parent < r.value && r.value !in f.nodes && r.value !in f.core.escrows
            && r.value in f'.core.escrows && !LifecycleLaws.Settled(f'.core.escrows[r.value])
            && forall d :: d in f.core.escrows ==> d in f'.core.escrows && f'.core.escrows[d] == f.core.escrows[d]
  {
    hide LifecycleLaws.QueueLive, LifecycleLaws.Accounted, NodeSound;
  }

  /** This call puts a child below `x`. */
  predicate AttachesBelow(f: Forest, op: Op, x: nat) {
    op.Attaching? && Attach(f, op.parent, op.terms).1.Ok? && Descends(f.nodes, x, op.parent)
  }

  /** When everything below an escrow is settled, an attach leaves it so if and only if it fails or its
      parent is neither that escrow nor below it. */
  lemma AttachLeavesSettledIff(f: Forest, parent: nat, t: ChildTerms, x: nat)
    requires ForestInv(f) && DescendantsSettled(f, x)
    ensures DescendantsSettled(Attach(f, parent, t).0, x) <==> Attach(f, parent, t).1.Err? || !Descends(f.nodes, x, parent)
  {
    var (f', r) := Attach(f, parent, t);
    if r.Ok? {
      AttachedChild(f, parent, t);
      hide Attach, LifecycleLaws.Inv, Linked, LifecycleLaws.Settled, NodeSound;
      forall d: nat
        ensures Descends(f'.nodes, x, d) <==> Descends(f.nodes, x, d) || (d == r.value && Descends(f.nodes, x, parent))
      {
        DescendsLinked(f, parent, r.value, x, d);
      }
      if Descends(f.nodes, x, parent) {
        DescendsBelow(f.nodes, x, parent);
        assert Descends(f'.nodes, x, r.value);
      }
    }
  }

  lemma StepLeavesSettledIff(f: Forest, op: Op, x: nat)
    requires ForestInv(f) && DescendantsSettled(f, x)
    ensures DescendantsSettled(Step(f, op), x) <==> !AttachesBelow(f, op, x)
  {
    hide DescendantsSettled, LifecycleLaws.Step, LifecycleLaws.Inv, NodesSound, Attach;
    match op
    case Attaching(parent, t) => AttachLeavesSettledIff(f, parent, t, x);
    case Calling(call) =>
      LifecycleLaws.StepKeeps(f.core, call);
      SettledStays(f, LifecycleLaws.Step(f.core, call), x);
  }

  /** In every storage along the run everything below `x` is settled. */
  ghost predicate AlwaysSettledBelow(f: Forest, ops: seq<Op>, x: nat)
    decreases |ops|
  {
    DescendantsSettled(f, x) && (ops != [] ==> AlwaysSettledBelow(Step(f, ops[0]), ops[1..], x))
  }

  predicate NoneAttachesBelow(f: Forest, ops: seq<Op>, x: nat)
    decreases |ops|
  {
    ops != [] ==> !AttachesBelow(f, ops[0], x) && NoneAttachesBelow(Step(f, ops[0]), ops[1..], x)
  }

  lemma {:induction false} RunLeavesSettledIff(f: Forest, ops: seq<Op>, x: nat)
    requires ForestInv(f) && DescendantsSettled(f, x)
    ensures AlwaysSettledBelow(f, ops, x) <==> NoneAttachesBelow(f, ops, x)
    decreases |ops|
  {
    hide ForestInv, Step, AttachesBelow, DescendantsSettled;
    if ops != [] {
      StepKeepsForest(f, ops[0]);
      StepLeavesSettledIff(f, ops[0], x);
      if DescendantsSettled(Step(f, ops[0]), x) {
        RunLeavesSettledIff(Step(f, ops[0]), ops[1..], x);
      } else {
        assert !AlwaysSettledBelow(Step(f, ops[0]), ops[1..], x);
      }
    }
  }

  /** Once everything below an escrow is settled, as the release guard asks, it stays settled in all
      storages of a run if and only if no attach to that escrow or to one below it succeeds in the run. */
  lemma StaysSettledIff(before: seq<Op>, after: seq<Op>, x: nat)
    requires DescendantsSettled(Run(EMPTY_FOREST, before), x)
    ensures var f := Run(EMPTY_FOREST, before); AlwaysSettledBelow(f, after, x) <==> NoneAttachesBelow(f, after, x)
  {
    hide ForestInv, Run, DescendantsSettled;
    EmptyForestInv();
    RunKeepsForest(EMPTY_FOREST, before);
    RunLeavesSettledIff(Run(EMPTY_FOREST, before), after, x);
  }

  /** So the guard says nothing about children that come later: an escrow that has been released
      can still be given a child, which is then locked below it. */
  lemma ReleasedParentGetsLockedChild(customer: Address, merchant: Address, amount: int, t: ChildTerms, net: Net)
    requires LifecycleLaws.MovesFor(net, 1)
    ensures var create := Calling(LifecycleLaws.Call(LifecycleLaws.Creating(Terms(customer, merchant, amount, 0, 0, 0, 0, 0, FavorCustomer)), net));
            var release := Calling(LifecycleLaws.Call(LifecycleLaws.Releasing(1, false, None, Gate(true, true, true), merchant), net));
            var f1 := Step(EMPTY_FOREST, create);
            var f2 := Step(f1, release);
            var f3 := Step(f2, Attaching(1, t));
            && Honest(f1, release)
            && 1 in f3.core.escrows && f3.core.escrows[1].status.Released?
            && 2 in f3.core.escrows && f3.core.escrows[2].status.Locked? && Descends(f3.nodes, 1, 2)
  {
    var e := NewEscrow(Terms(customer, merchant, amount, 0, 0, 0, 0, 0, FavorCustomer), 0);
    var f1 := Forest(Stored(INITIAL, Terms(customer, merchant, amount, 0, 0, 0, 0, 0, FavorCustomer)), map[]);
    NoDescendants(f1.nodes, 1);
    assert DescendantsSettled(f1, 1);
    LifecycleLaws.PayMoves([], FeeLegs(e, merchant, merchant), 1, net);
    hide FeeLegs, Pay;
    var f2 := f1.(core := Release(f1.core, 1, false, None, Gate(true, true, true), merchant, net).state);
    assert f2.core.escrows[1].status.Released?;
    var f3 := Attach(f2, 1, t).0;
    assert f3.nodes[2].parentId == Some(1);
    assert Descends(f3.nodes, 1, 1);
  }

  lemma NoDescendants(nodes: map<nat, Node>, id: nat)
    requires nodes == map[]
    ensures forall d: nat :: Descends(nodes, id, d) ==> d == id
  {}
}
