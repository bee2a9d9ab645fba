/** Processing the indexed queue against the full scan of all escrows that it replaces. */
module EscalationScan {
  import opened Common
  import opened EscalationQueue
  import opened Lifecycle
  import opened LifecycleLaws

  // ----- The reference: look at every escrow -----

  /** The escrow's dispute was escalated at least its timeout ago. */
  predicate Due(s: State, id: nat) {
    && id in s.escrows
    && s.escrows[id].status.Disputed?
    && s.escrows[id].escalatedAt.Some?
    && s.escrows[id].escalatedAt.value + s.escrows[id].escalationTimeout <= s.now
  }

  function NaiveScan(s: State): set<nat> {
    set id | id in s.escrows && Due(s, id)
  }

  /** The due escrows in the order of a list of entries. */
  function DueIds(s: State, es: seq<Entry>): seq<nat> {
    if es == [] then []
    else if Due(s, es[0].id) then [es[0].id] + DueIds(s, es[1..])
    else DueIds(s, es[1..])
  }

  /** No transfer of the escrow's timeout resolution is refused. */
  predicate Clears(s: State, id: nat, net: Net) {
    id in s.escrows && Pay(PaidFor(s, id), TimeoutLegs(s.escrows[id]), id, net).1
  }

  /** The escrows that processing attempts: the due ones, in order, until the limit is used up;
      an attempt whose transfer is refused does not count. */
  function Chosen(s: State, es: seq<Entry>, limit: nat, net: Net): seq<nat>
    decreases |es|
  {
    if es == [] || limit == 0 then []
    else if !Due(s, es[0].id) then Chosen(s, es[1..], limit, net)
    else [es[0].id] + Chosen(s, es[1..], if Clears(s, es[0].id, net) then limit - 1 else limit, net)
  }

  /** Those of the attempted escrows whose transfers went through. */
  function Cleared(s: State, ids: seq<nat>, net: Net): seq<nat>
    decreases |ids|
  {
    if ids == [] then []
    else if Clears(s, ids[0], net) then [ids[0]] + Cleared(s, ids[1..], net)
    else Cleared(s, ids[1..], net)
  }

  function RemoveAll(es: seq<Entry>, ids: seq<nat>): seq<Entry>
    decreases |ids|
  {
    if ids == [] then es else RemoveAll(RemoveEntry(es, ids[0]), ids[1..])
  }

  // ----- One escrow -----

  /** A timeout resolution is let through exactly when the full scan would list the escrow. The
      queue's saturating deadline makes no difference. */
  lemma ObstacleIffNotDue(s: State, id: nat)
    requires Inv(s)
    ensures TimeoutObstacle(s, id).None? <==> Due(s, id)
  {}

  lemma EntriesMember(q: Queue, e: Entry)
    requires WellFormed(q)
    ensures e in Entries(q) <==> e.id in q.deadlineOf && q.deadlineOf[e.id] == e.deadline
  {
    EntriesMembers(q);
  }

  /** How a direct timeout resolution leaves one escrow and its payments. */
  function After(s: State, id: nat, net: Net): (Escrow, seq<Payment>)
    requires id in s.escrows
  {
    var s' := Trigger(s, id, net).state;
    (s'.escrows[id], PaidFor(s', id))
  }

  ghost predicate SameAt(s: State, t: State, id: nat) {
    && id in s.escrows && id in t.escrows
    && s.escrows[id] == t.escrows[id] && PaidFor(s, id) == PaidFor(t, id) && s.now == t.now
  }

  lemma TriggerNotDue(s: State, id: nat, net: Net)
    requires Inv(s) && !Due(s, id)
    ensures Trigger(s, id, net).state == s && Trigger(s, id, net).result.Err?
  {
    ObstacleIffNotDue(s, id);
  }

  /** A due escrow is settled whatever becomes of its transfers; it leaves the queue exactly when
      they all go through. No other escrow is touched. */
  lemma TriggerDue(s: State, id: nat, net: Net)
    requires Inv(s) && Due(s, id)
    ensures var o := Trigger(s, id, net);
            && Settled(o.state.escrows[id])
            && (o.result.Ok? <==> Clears(s, id, net))
            && (forall x :: x in s.escrows && x != id ==> SameAt(s, o.state, x))
            && o.state.now == s.now && o.state.escrows.Keys == s.escrows.Keys
            && o.state.queue == if o.result.Ok? then Dequeued(s.queue, id) else s.queue
  {
    ObstacleIffNotDue(s, id);
    hide Dequeued;
    var o := Trigger(s, id, net);
    assert o.state.escrows == s.escrows[id := o.state.escrows[id]];
    assert forall x :: x != id ==> PaidFor(s, x) == PaidFor(o.state, x);
  }

  lemma AfterLocal(s: State, t: State, id: nat, net: Net)
    requires SameAt(s, t, id)
    ensures Due(s, id) == Due(t, id) && Clears(s, id, net) == Clears(t, id, net) && After(s, id, net) == After(t, id, net)
  {}

  lemma {:induction false} ChosenLocal(s: State, t: State, es: seq<Entry>, limit: nat, net: Net)
    requires forall i :: 0 <= i < |es| ==> SameAt(s, t, es[i].id)
    ensures Chosen(s, es, limit, net) == Chosen(t, es, limit, net)
    decreases |es|
  {
    if es != [] && limit > 0 {
      AfterLocal(s, t, es[0].id, net);
      ChosenLocal(s, t, es[1..], limit, net);
      ChosenLocal(s, t, es[1..], if Clears(s, es[0].id, net) then limit - 1 else limit, net);
    }
  }

  ghost predicate Listed(es: seq<Entry>, id: nat) {
    exists j :: 0 <= j < |es| && es[j].id == id
  }

  lemma {:induction false} ChosenMembers(s: State, es: seq<Entry>, limit: nat, net: Net, id: nat)
    requires id in Chosen(s, es, limit, net)
    ensures Due(s, id) && Listed(es, id)
    decreases |es|
  {
    var limit' := if Due(s, es[0].id) && Clears(s, es[0].id, net) then limit - 1 else limit;
    if !(Due(s, es[0].id) && id == es[0].id) {
      ChosenMembers(s, es[1..], limit', net, id);
      var j :| 0 <= j < |es[1..]| && es[1..][j].id == id;
      assert es[j + 1].id == id;
    }
  }

  lemma {:induction false} ClearedLocal(s: State, t: State, ids: seq<nat>, net: Net)
    requires forall i :: 0 <= i < |ids| ==> SameAt(s, t, ids[i])
    ensures Cleared(s, ids, net) == Cleared(t, ids, net)
    decreases |ids|
  {
    if ids != [] {
      AfterLocal(s, t, ids[0], net);
      ClearedLocal(s, t, ids[1..], net);
    }
  }

  // ----- The walk -----

  /** The entries are where the queue has them. */
  ghost predicate Filed(s: State, es: seq<Entry>) {
    forall i :: 0 <= i < |es| ==> es[i].id in s.queue.deadlineOf && s.queue.deadlineOf[es[i].id] == es[i].deadline
  }

  lemma {:induction false} NoneDue(s: State, es: seq<Entry>, limit: nat, net: Net)
    requires Inv(s) && Filed(s, es)
    requires forall i :: 0 <= i < |es| ==> es[i].deadline > s.now
    ensures Chosen(s, es, limit, net) == []
    decreases |es|
  {
    if es != [] {
      assert !Due(s, es[0].id);
      NoneDue(s, es[1..], limit, net);
    }
  }

  ghost predicate AttemptedRecords(s: State, t: State, chosen: seq<nat>, net: Net) {
    && t.now == s.now && t.escrows.Keys == s.escrows.Keys
    && (forall id :: id in s.escrows && id in chosen ==> (t.escrows[id], PaidFor(t, id)) == After(s, id, net))
    && (forall id :: id in s.escrows && id !in chosen ==> SameAt(s, t, id))
  }

  /** The storage `t` is what attempting the chosen escrows makes of `s`: each of them is exactly
      as a direct timeout resolution would leave it, every other escrow is untouched, and those
      whose transfers went through have left the queue. */
  ghost predicate Attempted(s: State, t: State, chosen: seq<nat>, net: Net) {
    && AttemptedRecords(s, t, chosen, net)
    && Entries(t.queue) == RemoveAll(Entries(s.queue), Cleared(s, chosen, net))
  }

  lemma ConsRecords(s: State, s1: State, t: State, id: nat, chosen: seq<nat>, net: Net)
    requires id in s.escrows && id !in chosen
    requires s1.now == s.now && s1.escrows.Keys == s.escrows.Keys
    requires (s1.escrows[id], PaidFor(s1, id)) == After(s, id, net)
    requires forall x :: x in s.escrows && x != id ==> SameAt(s, s1, x)
    requires AttemptedRecords(s1, t, chosen, net)
    ensures AttemptedRecords(s, t, [id] + chosen, net)
  {
    forall x | x in s.escrows && x in [id] + chosen ensures (t.escrows[x], PaidFor(t, x)) == After(s, x, net) {
      hide After;
      if x == id {
        assert SameAt(s1, t, id);
      } else {
        AfterLocal(s, s1, x, net);
      }
    }
    forall x | x in s.escrows && x !in [id] + chosen ensures SameAt(s, t, x) {
      hide After;
      assert SameAt(s, s1, x) && SameAt(s1, t, x);
    }
  }

  lemma ConsQueue(s: State, s1: State, t: State, id: nat, chosen: seq<nat>, net: Net)
    requires forall i :: 0 <= i < |chosen| ==> SameAt(s, s1, chosen[i])
    requires Entries(s1.queue) == if Clears(s, id, net) then RemoveEntry(Entries(s.queue), id) else Entries(s.queue)
    requires Entries(t.queue) == RemoveAll(Entries(s1.queue), Cleared(s1, chosen, net))
    ensures Entries(t.queue) == RemoveAll(Entries(s.queue), Cleared(s, [id] + chosen, net))
    ensures |Cleared(s, [id] + chosen, net)| == |Cleared(s1, chosen, net)| + if Clears(s, id, net) then 1 else 0
  {
    hide Clears, Entries, RemoveEntry, SameAt;
    ClearedLocal(s, s1, chosen, net);
    assert ([id] + chosen)[1..] == chosen;
    var rest := Cleared(s, chosen, net);
    assert ([id] + rest)[1..] == rest;
  }

  lemma AttemptedCons(s: State, t: State, id: nat, chosen: seq<nat>, net: Net)
    requires Inv(s) && Due(s, id) && Attempted(Trigger(s, id, net).state, t, chosen, net)
    requires id !in chosen && forall x :: x in chosen ==> x in s.escrows
    ensures Attempted(s, t, [id] + chosen, net)
    ensures |Cleared(s, [id] + chosen, net)| ==
            |Cleared(Trigger(s, id, net).state, chosen, net)| + if Clears(s, id, net) then 1 else 0
  {
    var s1 := Trigger(s, id, net).state;
    TriggerDue(s, id, net);
    assert (s1.escrows[id], PaidFor(s1, id)) == After(s, id, net);
    DequeuedEntries(s.queue, id) by { assert Inv(s); }
    hide Clears, Trigger, Inv, Entries, RemoveEntry, After, AttemptedRecords, SameAt;
    ConsRecords(s, s1, t, id, chosen, net);
    forall i | 0 <= i < |chosen| ensures SameAt(s, s1, chosen[i]) {
      assert chosen[i] in chosen;
    }
    ConsQueue(s, s1, t, id, chosen, net);
  }

  /** What a walk from `s` has to come to. */
  ghost predicate WalkLaw(s: State, es: seq<Entry>, limit: nat, done: nat, net: Net)
    requires done <= limit
  {
    var (t, n) := Walk(s, es, limit, done, net);
    var chosen := Chosen(s, es, limit - done, net);
    Attempted(s, t, chosen, net) && n == done + |Cleared(s, chosen, net)|
  }

  lemma {:induction false} WalkEffect(s: State, es: seq<Entry>, limit: nat, done: nat, net: Net)
    requires Inv(s) && Sorted(es) && DistinctIds(es) && Filed(s, es) && done <= limit
    ensures WalkLaw(s, es, limit, done, net)
    decreases |es|
  {
    hide Trigger, Attempted, Inv, Due;
    if es == [] || done == limit {
      AttemptNobody(s, net);
    } else if es[0].deadline > s.now {
      NoneDue(s, es, limit - done, net);
      AttemptNobody(s, net);
    } else if !Due(s, es[0].id) {
      TriggerNotDue(s, es[0].id, net);
      WalkEffect(s, es[1..], limit, done, net);
      assert Walk(s, es, limit, done, net) == Walk(s, es[1..], limit, done, net);
    } else {
      WalkDue(s, es, limit, done, net);
    }
  }

  lemma AttemptNobody(s: State, net: Net)
    ensures Attempted(s, s, [], net) && |Cleared(s, [], net)| == 0
    requires Inv(s)
  {}

  lemma {:induction false} WalkDue(s: State, es: seq<Entry>, limit: nat, done: nat, net: Net)
    requires Inv(s) && Sorted(es) && DistinctIds(es) && Filed(s, es) && done < limit
    requires es != [] && es[0].deadline <= s.now && Due(s, es[0].id)
    ensures WalkLaw(s, es, limit, done, net)
    decreases |es|, 0
  {
    hide Trigger, Attempted, Inv, Clears, SameAt, Cleared, Due, Advance, Dequeued;
    var id, rest := es[0].id, es[1..];
    var o := Trigger(s, id, net);
    var done' := if o.result.Ok? then done + 1 else done;
    TriggerDue(s, id, net);
    TriggerKeeps(s, id, net);
    AfterTriggerFiled(s, o.state, id, rest);
    WalkEffect(o.state, rest, limit, done', net);
    ChosenAfter(s, o.state, es, limit - done, limit - done', net);
    var chosen := Chosen(o.state, rest, limit - done', net);
    AttemptedCons(s, Walk(o.state, rest, limit, done', net).0, id, chosen, net);
  }

  lemma AfterTriggerFiled(s: State, s1: State, id: nat, rest: seq<Entry>)
    requires Inv(s) && Filed(s, rest) && (s1.queue == s.queue || s1.queue == Dequeued(s.queue, id))
    requires forall i :: 0 <= i < |rest| ==> rest[i].id != id
    ensures Filed(s1, rest)
  {
    DequeuedWellFormed(s.queue, id);
  }

  lemma ChosenAfter(s: State, s1: State, es: seq<Entry>, limit: nat, limit': nat, net: Net)
    requires Inv(s) && es != [] && DistinctIds(es) && Filed(s, es) && limit > 0
    requires Due(s, es[0].id) && limit' == if Clears(s, es[0].id, net) then limit - 1 else limit
    requires forall x :: x in s.escrows && x != es[0].id ==> SameAt(s, s1, x)
    ensures Chosen(s, es, limit, net) == [es[0].id] + Chosen(s1, es[1..], limit', net)
    ensures es[0].id !in Chosen(s1, es[1..], limit', net)
    ensures forall x :: x in Chosen(s1, es[1..], limit', net) ==> x in s.escrows
  {
    forall i | 0 <= i < |es[1..]| ensures SameAt(s, s1, es[1..][i].id) {
      assert es[i + 1].id != es[0].id;
      assert es[i + 1].id in s.queue.deadlineOf;
    }
    ChosenLocal(s, s1, es[1..], limit', net);
    forall x | x in Chosen(s, es[1..], limit', net) ensures x in s.escrows && x != es[0].id {
      ChosenMembers(s, es[1..], limit', net, x);
      var j :| 0 <= j < |es[1..]| && es[1..][j].id == x;
      assert es[j + 1].id == x;
    }
  }

  // ----- Against the full scan -----

  lemma {:induction false} DueIdsMembers(s: State, es: seq<Entry>, id: nat)
    ensures id in DueIds(s, es) <==> Due(s, id) && Listed(es, id)
    decreases |es|
  {
    if es != [] {
      DueIdsMembers(s, es[1..], id);
      if Listed(es[1..], id) {
        var j :| 0 <= j < |es[1..]| && es[1..][j].id == id;
        assert es[j + 1].id == id;
      }
      if Listed(es, id) && es[0].id != id {
        var j :| 0 <= j < |es| && es[j].id == id;
        assert es[1..][j - 1].id == id;
      }
      if es[0].id == id {
        assert Listed(es, id);
      }
    } else {
      assert !Listed(es, id);
    }
  }

  lemma {:induction false} DueIdsDistinct(s: State, es: seq<Entry>)
    requires DistinctIds(es)
    ensures Distinct(DueIds(s, es))
    decreases |es|
  {
    if es != [] {
      DueIdsDistinct(s, es[1..]);
      var rest := DueIds(s, es[1..]);
      assert es[0].id !in rest by {
        DueIdsMembers(s, es[1..], es[0].id);
        assert forall j :: 0 <= j < |es[1..]| ==> es[1..][j].id == es[j + 1].id;
      }
      assert forall i :: 0 <= i < |rest| ==> rest[i] in rest;
    }
  }

  /** The queue misses nobody and lists nobody twice: its due entries are the full scan. */
  lemma QueueListsTheScan(s: State)
    requires Inv(s)
    ensures var due := DueIds(s, Entries(s.queue));
            Distinct(due) && ToSet(due) == NaiveScan(s) && |due| == |NaiveScan(s)|
  {
    var es := Entries(s.queue);
    var due := DueIds(s, es);
    EntriesSortedDistinct(s.queue);
    DueIdsDistinct(s, es);
    forall id ensures id in due <==> id in NaiveScan(s) {
      DueIdsMembers(s, es, id);
      if Due(s, id) {
        var e := Entry(s.queue.deadlineOf[id], id);
        EntriesMember(s.queue, e);
        var j :| 0 <= j < |es| && es[j] == e;
        assert Listed(es, id);
      }
    }
    DistinctCount(due);
    assert ToSet(due) == NaiveScan(s);
  }

  function ToSet(ids: seq<nat>): set<nat> {
    set id | id in ids
  }

  lemma {:induction false} DistinctCount(ids: seq<nat>)
    requires Distinct(ids)
    ensures |ToSet(ids)| == |ids|
  {
    if ids != [] {
      var rest := ToSet(ids[1..]);
      DistinctCount(ids[1..]);
      assert ids == [ids[0]] + ids[1..];
      assert ToSet(ids) == {ids[0]} + rest;
      assert ids[0] !in rest;
    }
  }

  ghost predicate NeverRefused(net: Net) {
    forall id, leg :: net(id, leg) != Refused
  }

  lemma {:induction false} PayClears(log: seq<Payment>, legs: seq<Payment>, id: nat, net: Net)
    requires NeverRefused(net)
    ensures Pay(log, legs, id, net).1
    decreases legs
  {
    if legs != [] {
      PayClears(log, legs[1..], id, net);
      PayClears(log + [legs[0]], legs[1..], id, net);
    }
  }

  function Min(a: nat, b: nat): nat {
    if a <= b then a else b
  }

  lemma {:induction false} ChosenIsPrefix(s: State, es: seq<Entry>, limit: nat, net: Net)
    requires NeverRefused(net)
    ensures Chosen(s, es, limit, net) == DueIds(s, es)[..Min(limit, |DueIds(s, es)|)]
    ensures Cleared(s, Chosen(s, es, limit, net), net) == Chosen(s, es, limit, net)
    decreases |es|
  {
    if es != [] && limit > 0 {
      if Due(s, es[0].id) {
        PayClears(PaidFor(s, es[0].id), TimeoutLegs(s.escrows[es[0].id]), es[0].id, net);
        ChosenIsPrefix(s, es[1..], limit - 1, net);
        var rest := Chosen(s, es[1..], limit - 1, net);
        assert ([es[0].id] + rest)[1..] == rest;
      } else {
        ChosenIsPrefix(s, es[1..], limit, net);
      }
    }
  }

  /** For any answers of the tokens: processing attempts the due escrows in the order of the queue
      until the limit is used up, leaves each of them exactly as a direct timeout resolution would,
      counts and dequeues those whose transfers went through, and touches nobody else. Entries of
      escrows that are no longer in dispute are passed over. */
  lemma ProcessEffect(s: State, limit: nat, net: Net)
    requires Inv(s)
    ensures var (t, n) := Process(s, limit, net);
            var chosen := Chosen(s, Entries(s.queue), limit, net);
            Attempted(s, t, chosen, net) && n == |Cleared(s, chosen, net)|
  {
    EntriesSortedDistinct(s.queue);
    EntriesFiled(s);
    WalkEffect(s, Entries(s.queue), limit, 0, net);
  }

  lemma EntriesFiled(s: State)
    requires Inv(s)
    ensures Filed(s, Entries(s.queue))
  {
    var es := Entries(s.queue);
    forall i | 0 <= i < |es|
      ensures es[i].id in s.queue.deadlineOf && s.queue.deadlineOf[es[i].id] == es[i].deadline
    {
      EntriesMember(s.queue, es[i]);
      assert es[i] in es;
    }
  }

  /** In every reachable storage, as long as no transfer is refused, processing with a limit
      resolves exactly the first `limit` of the escrows that the full scan would find, taken by
      deadline and then by time of queuing; it returns their number, takes them out of the queue
      and touches nothing else. */
  lemma ProcessRefinesScan(calls: seq<Call>, limit: nat, net: Net)
    requires NeverRefused(net)
    ensures var s := Run(INITIAL, calls);
            var (t, n) := Process(s, limit, net);
            var due := DueIds(s, Entries(s.queue));
            var k := Min(limit, |NaiveScan(s)|);
            && ToSet(due) == NaiveScan(s) && |due| == |NaiveScan(s)|
            && n == k
            && AttemptedRecords(s, t, due[..k], net)
            && Entries(t.queue) == RemoveAll(Entries(s.queue), due[..k])
  {
    var s := Run(INITIAL, calls);
    InitialInv();
    RunKeeps(INITIAL, calls);
    hide Inv, Entries, DueIds, NaiveScan, AttemptedRecords, Chosen, Cleared, Process;
    QueueListsTheScan(s);
    ChosenIsPrefix(s, Entries(s.queue), limit, net);
    ProcessEffect(s, limit, net);
  }

  lemma InitialInv()
    ensures Inv(INITIAL)
  {}

  /** A refused transfer is swallowed together with the status already stored: the attempted escrow is
      settled, keeps the payments made before the refusal, and stays in the queue. */
  lemma RefusedStaysQueued(s: State, limit: nat, net: Net, id: nat)
    requires Inv(s) && id in Chosen(s, Entries(s.queue), limit, net) && !Clears(s, id, net)
    ensures var t := Process(s, limit, net).0;
            && id in s.escrows && s.escrows[id].status.Disputed?
            && id in t.escrows && Settled(t.escrows[id]) && id in t.queue.deadlineOf
            && PaidFor(t, id) == PaidFor(Trigger(s, id, net).state, id)
  {
    var t := Process(s, limit, net).0;
    var chosen := Chosen(s, Entries(s.queue), limit, net);
    ProcessEffect(s, limit, net);
    ChosenMembers(s, Entries(s.queue), limit, net, id);
    TriggerDue(s, id, net);
    WalkKeeps(s, Entries(s.queue), limit, 0, net);
    StillQueued(s, t, chosen, net, id);
  }

  lemma StillQueued(s: State, t: State, chosen: seq<nat>, net: Net, id: nat)
    requires Inv(s) && Inv(t) && Attempted(s, t, chosen, net)
    requires id in s.queue.deadlineOf && !Clears(s, id, net)
    ensures id in t.queue.deadlineOf
  {
    var e := Entry(s.queue.deadlineOf[id], id);
    EntriesMember(s.queue, e);
    ClearedMember(s, chosen, net, id);
    RemoveAllMember(Entries(s.queue), Cleared(s, chosen, net), e);
    EntriesMember(t.queue, e);
  }

  lemma {:induction false} ClearedMember(s: State, ids: seq<nat>, net: Net, id: nat)
    requires !Clears(s, id, net)
    ensures id !in Cleared(s, ids, net)
    decreases |ids|
  {
    if ids != [] {
      ClearedMember(s, ids[1..], net, id);
    }
  }

  lemma {:induction false} RemoveAllMember(es: seq<Entry>, ids: seq<nat>, e: Entry)
    ensures e in RemoveAll(es, ids) <==> e in es && e.id !in ids
    decreases |ids|
  {
    if ids != [] {
      RemoveEntryMember(es, ids[0], e);
      RemoveAllMember(RemoveEntry(es, ids[0]), ids[1..], e);
      assert e.id in ids <==> e.id == ids[0] || e.id in ids[1..] by { assert ids == [ids[0]] + ids[1..]; }
    }
  }

  lemma {:induction false} RemoveEntryMember(es: seq<Entry>, id: nat, e: Entry)
    ensures e in RemoveEntry(es, id) <==> e in es && e.id != id
  {
    if es != [] {
      RemoveEntryMember(es[1..], id, e);
      assert es == [es[0]] + es[1..];
    }
  }
}
