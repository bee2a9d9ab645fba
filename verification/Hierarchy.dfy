/** Parent and child escrows. The hierarchy is stored flat: each node names its parent, its children
    and its depth. The nodes are kept beside the records of the single-escrow state machine. */
module Hierarchy {
  import opened Common
  import opened Lifecycle
  import opened LifecycleLaws

  datatype Node = Node(parentId: Option<nat>, children: seq<nat>, depth: nat)

  datatype Forest = Forest(core: Lifecycle.State, nodes: map<nat, Node>)

  const MAX_DEPTH: nat := 3

  /** A node that has not been stored stands for a root without children. */
  function NodeOf(nodes: map<nat, Node>, id: nat): Node {
    if id in nodes then nodes[id] else Node(None, [], 0)
  }

  function Kids(nodes: map<nat, Node>, ids: seq<nat>): seq<nat> {
    if ids == [] then [] else Kids(nodes, ids[..|ids| - 1]) + NodeOf(nodes, ids[|ids| - 1]).children
  }

  // ----- Attaching a child -----

  /** What the caller and the settings in force say about a child; the rest comes from the parent. */
  datatype ChildTerms = ChildTerms(
    customer: Address, merchant: Address, amount: int, feeBps: int, escalationTimeout: nat, favor: Favor)

  function Inherited(p: Escrow, t: ChildTerms): Terms {
    Terms(t.customer, t.merchant, t.amount, t.feeBps, p.releaseTimestamp, p.minHoldPeriod, p.expiryTimestamp,
          t.escalationTimeout, t.favor)
  }

  function Linked(nodes: map<nat, Node>, parent: nat, child: nat): map<nat, Node> {
    var p := NodeOf(nodes, parent);
    nodes[parent := p.(children := p.children + [child])][child := Node(Some(parent), [], p.depth + 1)]
  }

  /** The caller is an admin. */
  function Attach(f: Forest, parent: nat, t: ChildTerms): (Forest, Result<nat>) {
    if parent !in f.core.escrows then (f, Err(ParentEscrowNotFound))
    else if NodeOf(f.nodes, parent).depth + 1 > MAX_DEPTH then (f, Err(MaxHierarchyDepth))
    else
      var o := Create(f.core, Inherited(f.core.escrows[parent], t));
      if o.result.Err? then (f, Err(o.result.error))
      else
        var child := f.core.counter + 1;
        (Forest(o.state, Linked(f.nodes, parent, child)), Ok(child))
  }

  // ----- Settled or not -----

  /** A missing record counts as resolved. */
  predicate EscrowResolved(core: Lifecycle.State, id: nat) {
    id in core.escrows ==> Settled(core.escrows[id])
  }

  /** `d` is `a` or below it, following the stored parents. */
  predicate Descends(nodes: map<nat, Node>, a: nat, d: nat)
    decreases d
  {
    d == a || (NodeOf(nodes, d).parentId.Some? && NodeOf(nodes, d).parentId.value < d
               && Descends(nodes, a, NodeOf(nodes, d).parentId.value))
  }

  /** Every escrow properly below `id` is released, resolved or cancelled. */
  ghost predicate DescendantsSettled(f: Forest, id: nat) {
    forall d: nat :: d != id && Descends(f.nodes, id, d) ==> d in f.core.escrows && Settled(f.core.escrows[d])
  }

  // ----- Runs -----

  datatype Op = Attaching(parent: nat, terms: ChildTerms) | Calling(call: Call)

  function Step(f: Forest, op: Op): Forest {
    match op
    case Attaching(parent, t) => Attach(f, parent, t).0
    case Calling(call) => f.(core := LifecycleLaws.Step(f.core, call))
  }

  /** The gate says of an escrow's children what the storage says. */
  ghost predicate HonestGate(f: Forest, id: nat, gate: Gate) {
    gate.childrenSettled <==> id in f.core.escrows && DescendantsSettled(f, id)
  }

  /** In the first `n` turns of a batch the gate speaks about the storage that the earlier releases of
      the batch have left. */
  ghost predicate HonestTurns(f: Forest, ids: seq<nat>, n: nat, to: Option<Address>, gates: nat -> Gate, fr: Address, net: Net)
    requires n <= |ids|
  {
    forall i {:trigger gates(i)} :: 0 <= i < n ==>
      HonestGate(f.(core := ReleaseAll(f.core, ids[..i], to, gates, fr, net).0), ids[i], gates(i))
  }

  /** A release asks about the children in the storage it meets; a batch that is too long asks nothing. */
  ghost predicate Honest(f: Forest, op: Op) {
    op.Calling? ==>
      match op.call.op
      case Releasing(id, _, _, gate, _) => HonestGate(f, id, gate)
      case BatchReleasing(ids, to, gates, fr) => |ids| <= 20 ==> HonestTurns(f, ids, |ids|, to, gates, fr, op.call.net)
      case _ => true
  }

  function Run(f: Forest, ops: seq<Op>): Forest
    decreases |ops|
  {
    if ops == [] then f else Run(Step(f, ops[0]), ops[1..])
  }

  const EMPTY_FOREST := Forest(INITIAL, map[])

  // ----- The forest invariant -----

  ghost predicate NodeSound(nodes: map<nat, Node>, x: nat)
    requires x in nodes
  {
    var n := nodes[x];
    && n.depth <= MAX_DEPTH && Distinct(n.children)
    && (n.parentId.None? ==> n.depth == 0)
    && (n.parentId.Some? ==>
          var p := n.parentId.value;
          p < x && p in nodes && x in nodes[p].children && n.depth == nodes[p].depth + 1)
    && (forall c :: c in n.children ==> c in nodes && nodes[c].parentId == Some(x))
  }

  /** Children have greater ids than their parents, a child's node and its parent's node name each
      other, depths count up to three, and there is a record for every node. */
  ghost predicate NodesSound(f: Forest) {
    forall x :: x in f.nodes ==> x in f.core.escrows && NodeSound(f.nodes, x)
  }

  ghost predicate ForestInv(f: Forest) {
    Inv(f.core) && NodesSound(f)
  }

  lemma LinkedSound(f: Forest, core': Lifecycle.State, parent: nat, child: nat)
    requires NodesSound(f) && parent in f.core.escrows && NodeOf(f.nodes, parent).depth + 1 <= MAX_DEPTH
    requires parent < child && child !in f.core.escrows
    requires core'.escrows.Keys == f.core.escrows.Keys + {child}
    ensures NodesSound(Forest(core', Linked(f.nodes, parent, child)))
  {
    var nodes, nodes' := f.nodes, Linked(f.nodes, parent, child);
    var p := NodeOf(nodes, parent);
    assert child !in nodes;
    assert child !in p.children;
    DistinctAppend(p.children, child);
    forall x | x in nodes' ensures x in core'.escrows && NodeSound(nodes', x) {
      if x == child {
        assert nodes'[parent].children[|p.children|] == child;
      } else if x == parent {
        assert x in nodes ==> NodeSound(nodes, x);
        assert forall c :: c in nodes'[x].children ==> c in p.children || c == child;
      } else {
        assert NodeSound(nodes, x);
        assert forall c :: c in nodes'[x].children ==> c != parent || nodes[parent].parentId == Some(x);
      }
    }
  }

  lemma AttachKeeps(f: Forest, parent: nat, t: ChildTerms)
    requires ForestInv(f)
    ensures ForestInv(Attach(f, parent, t).0)
  {
    var (f', r) := Attach(f, parent, t);
    if r.Ok? {
      hide NodesSound, Inv, Accounted, Advance;
      var terms := Inherited(f.core.escrows[parent], t);
      StoredKeeps(f.core, terms, f'.core);
      LinkedSound(f, f'.core, parent, r.value);
    }
  }

  lemma StepKeepsForest(f: Forest, op: Op)
    requires ForestInv(f)
    ensures ForestInv(Step(f, op))
  {
    hide Inv, LifecycleLaws.Step, Accounted, NodeSound, EscrowStep;
    match op
    case Attaching(parent, t) => AttachKeeps(f, parent, t);
    case Calling(call) => StepKeeps(f.core, call);
  }

  lemma {:induction false} RunKeepsForest(f: Forest, ops: seq<Op>)
    requires ForestInv(f)
    ensures ForestInv(Run(f, ops))
    decreases |ops|
  {
    hide ForestInv, Step;
    if ops != [] {
      StepKeepsForest(f, ops[0]);
      RunKeepsForest(Step(f, ops[0]), ops[1..]);
    }
  }
}
