/** The escalation queue: a sorted index of deadlines, a bucket of escrow ids per deadline and
    a reverse map from escrow id to deadline, kept together under separate storage keys.

    The meaning of the three pieces is one list of (deadline, id) entries, ordered by deadline
    and, inside a deadline, by time of insertion. */
module EscalationQueue {
  import opened Common

  datatype Queue = Queue(index: seq<nat>, buckets: map<nat, seq<nat>>, deadlineOf: map<nat, nat>)

  datatype Entry = Entry(deadline: nat, id: nat)

  const EMPTY := Queue([], map[], map[])

  ghost predicate Ascending(index: seq<nat>) {
    forall i, j :: 0 <= i < j < |index| ==> index[i] < index[j]
  }

  /** The index lists the stored buckets, in ascending order. */
  ghost predicate Indexed(q: Queue) {
    && Ascending(q.index)
    && (forall d :: d in q.index <==> d in q.buckets)
  }

  /** Stored buckets are neither empty nor repetitive. */
  ghost predicate BucketsSound(q: Queue) {
    forall d :: d in q.buckets ==> q.buckets[d] != [] && Distinct(q.buckets[d])
  }

  /** An escrow lies in bucket `d` exactly when `d` is its recorded deadline. */
  ghost predicate Agreeing(q: Queue) {
    && (forall d, id :: id in Bucket(q.buckets, d) ==> id in q.deadlineOf && q.deadlineOf[id] == d)
    && (forall id :: id in q.deadlineOf ==> id in Bucket(q.buckets, q.deadlineOf[id]))
  }

  /** The queue's representation invariant. */
  ghost predicate WellFormed(q: Queue) {
    Indexed(q) && BucketsSound(q) && Agreeing(q)
  }

  // ----- The three pieces, operation by operation -----

  function Bucket(buckets: map<nat, seq<nat>>, d: nat): seq<nat> {
    if d in buckets then buckets[d] else []
  }

  /** Puts `d` in front of the first larger deadline. */
  function InsertSorted(index: seq<nat>, d: nat): seq<nat> {
    if index == [] then [d]
    else if index[0] > d then [d] + index
    else [index[0]] + InsertSorted(index[1..], d)
  }

  function InsertIndex(index: seq<nat>, d: nat): seq<nat> {
    if d in index then index else InsertSorted(index, d)
  }

  function Dequeued(q: Queue, id: nat): Queue {
    if id !in q.deadlineOf then q
    else
      var d := q.deadlineOf[id];
      var q' := q.(deadlineOf := q.deadlineOf - {id});
      if d !in q.buckets then q'
      else
        var remaining := Without(q.buckets[d], id);
        if remaining == [] then q'.(index := Without(q.index, d), buckets := q.buckets - {d})
        else q'.(buckets := q.buckets[d := remaining])
  }

  function Enqueued(q: Queue, id: nat, d: nat): Queue {
    var q' := Dequeued(q, id);
    Queue(InsertIndex(q'.index, d),
          q'.buckets[d := Bucket(q'.buckets, d) + [id]],
          q'.deadlineOf[id := d])
  }

  // ----- The meaning: one ordered list -----

  function BucketEntries(d: nat, ids: seq<nat>): seq<Entry> {
    if ids == [] then [] else [Entry(d, ids[0])] + BucketEntries(d, ids[1..])
  }

  function Flatten(index: seq<nat>, buckets: map<nat, seq<nat>>): seq<Entry> {
    if index == [] then []
    else BucketEntries(index[0], Bucket(buckets, index[0])) + Flatten(index[1..], buckets)
  }

  function Entries(q: Queue): seq<Entry> {
    Flatten(q.index, q.buckets)
  }

  /** The list without the entry of escrow `id`. */
  function RemoveEntry(es: seq<Entry>, id: nat): seq<Entry> {
    if es == [] then []
    else if es[0].id == id then RemoveEntry(es[1..], id)
    else [es[0]] + RemoveEntry(es[1..], id)
  }

  /** Stable insertion: after every entry with the same or an earlier deadline. */
  function InsertEntry(es: seq<Entry>, e: Entry): seq<Entry> {
    if es == [] then [e]
    else if es[0].deadline > e.deadline then [e] + es
    else [es[0]] + InsertEntry(es[1..], e)
  }

  // ----- Preservation of the representation invariant -----

  lemma {:induction false} InsertSortedAscending(index: seq<nat>, d: nat)
    requires Ascending(index) && d !in index
    ensures Ascending(InsertSorted(index, d))
    ensures forall x :: x in InsertSorted(index, d) <==> x in index || x == d
  {
    if index != [] && index[0] < d {
      InsertSortedAscending(index[1..], d);
      assert index == [index[0]] + index[1..];
      var r := InsertSorted(index[1..], d);
      assert forall i :: 0 <= i < |r| ==> r[i] in r;
      assert forall x :: x in r ==> index[0] < x;
    }
  }

  lemma {:induction false} WithoutAscending(index: seq<nat>, d: nat)
    requires Ascending(index)
    ensures Ascending(Without(index, d))
    ensures forall x :: x in Without(index, d) <==> x in index && x != d
  {
    WithoutMembers(index, d);
    if index != [] {
      WithoutAscending(index[1..], d);
      var r := Without(index[1..], d);
      assert forall i :: 0 <= i < |r| ==> r[i] in r;
      assert forall x :: x in r ==> index[0] < x;
    }
  }

  /** What dequeuing does to each bucket. */
  lemma DequeuedBuckets(q: Queue, id: nat, x: nat)
    requires WellFormed(q)
    ensures Bucket(Dequeued(q, id).buckets, x) == Without(Bucket(q.buckets, x), id)
  {
    if id !in q.deadlineOf || x != q.deadlineOf[id] {
      WithoutAbsent(Bucket(q.buckets, x), id);
    }
  }

  lemma DequeuedIndexed(q: Queue, id: nat)
    requires WellFormed(q)
    ensures Indexed(Dequeued(q, id))
  {
    if id in q.deadlineOf {
      WithoutAscending(q.index, q.deadlineOf[id]);
    }
  }

  lemma DequeuedSound(q: Queue, id: nat)
    requires WellFormed(q)
    ensures BucketsSound(Dequeued(q, id))
  {
    if id in q.deadlineOf {
      WithoutDistinct(q.buckets[q.deadlineOf[id]], id);
    }
  }

  lemma DropAbsent(m: map<nat, nat>, id: nat)
    ensures id !in m ==> m - {id} == m
  {}

  lemma DropPut(m: map<nat, nat>, id: nat, d: nat)
    ensures (m - {id})[id := d] == m[id := d]
  {}

  lemma DequeuedFiling(q: Queue, id: nat, d: nat, x: nat)
    requires WellFormed(q)
    ensures x in Bucket(Dequeued(q, id).buckets, d) <==> x in q.deadlineOf && q.deadlineOf[x] == d && x != id
  {
    DequeuedBuckets(q, id, d);
    WithoutMember(Bucket(q.buckets, d), id, x);
  }

  lemma DequeuedAgreeing(q: Queue, id: nat)
    requires WellFormed(q)
    ensures Agreeing(Dequeued(q, id))
    ensures Dequeued(q, id).deadlineOf == q.deadlineOf - {id}
  {
    var q' := Dequeued(q, id);
    DropAbsent(q.deadlineOf, id);
    assert q'.deadlineOf == q.deadlineOf - {id};
    hide Dequeued, WellFormed, Bucket;
    forall d, x | x in Bucket(q'.buckets, d) ensures x in q'.deadlineOf && q'.deadlineOf[x] == d {
      DequeuedFiling(q, id, d, x);
    }
    forall x | x in q'.deadlineOf ensures x in Bucket(q'.buckets, q'.deadlineOf[x]) {
      DequeuedFiling(q, id, q.deadlineOf[x], x);
    }
  }

  /** Taking an escrow out keeps the queue well formed and leaves that escrow nowhere in it. */
  lemma DequeuedWellFormed(q: Queue, id: nat)
    requires WellFormed(q)
    ensures WellFormed(Dequeued(q, id))
    ensures Dequeued(q, id).deadlineOf == q.deadlineOf - {id}
  {
    DequeuedIndexed(q, id);
    DequeuedSound(q, id);
    DequeuedAgreeing(q, id);
  }

  /** Filing an escrow that is not queued. */
  lemma FiledWellFormed(q: Queue, id: nat, d: nat)
    requires WellFormed(q) && id !in q.deadlineOf
    ensures WellFormed(Queue(InsertIndex(q.index, d), q.buckets[d := Bucket(q.buckets, d) + [id]], q.deadlineOf[id := d]))
  {
    var q' := Queue(InsertIndex(q.index, d), q.buckets[d := Bucket(q.buckets, d) + [id]], q.deadlineOf[id := d]);
    assert Indexed(q') by {
      if d !in q.index {
        InsertSortedAscending(q.index, d);
      }
    }
    assert BucketsSound(q') by {
      assert id !in Bucket(q.buckets, d);
      DistinctAppend(Bucket(q.buckets, d), id);
    }
    assert Agreeing(q') by {
      assert forall x :: Bucket(q'.buckets, x) == if x == d then Bucket(q.buckets, d) + [id] else Bucket(q.buckets, x);
      forall x | x in q'.deadlineOf ensures x in Bucket(q'.buckets, q'.deadlineOf[x]) {
        if x != id { assert x in Bucket(q.buckets, q.deadlineOf[x]); }
      }
    }
  }

  /** Queuing an escrow, also one that is queued already, keeps the queue well formed and files
      it under the new deadline alone. */
  lemma EnqueuedWellFormed(q: Queue, id: nat, d: nat)
    requires WellFormed(q)
    ensures WellFormed(Enqueued(q, id, d))
    ensures Enqueued(q, id, d).deadlineOf == q.deadlineOf[id := d]
  {
    DequeuedWellFormed(q, id);
    FiledWellFormed(Dequeued(q, id), id, d);
    DropPut(q.deadlineOf, id, d);
  }

  // ----- Facts about the list -----

  lemma {:induction false} BucketEntriesAt(d: nat, ids: seq<nat>)
    ensures |BucketEntries(d, ids)| == |ids|
    ensures forall i :: 0 <= i < |ids| ==> BucketEntries(d, ids)[i] == Entry(d, ids[i])
  {
    if ids != [] {
      BucketEntriesAt(d, ids[1..]);
    }
  }

  lemma {:induction false} FlattenMembers(index: seq<nat>, buckets: map<nat, seq<nat>>)
    ensures forall e :: e in Flatten(index, buckets) <==> e.deadline in index && e.id in Bucket(buckets, e.deadline)
  {
    if index != [] {
      var b := Bucket(buckets, index[0]);
      BucketEntriesAt(index[0], b);
      FlattenMembers(index[1..], buckets);
      assert index == [index[0]] + index[1..];
      var be := BucketEntries(index[0], b);
      forall e ensures e in be <==> e.deadline == index[0] && e.id in b {
        if e.deadline == index[0] && e.id in b {
          var i :| 0 <= i < |b| && b[i] == e.id;
          assert be[i] == e;
        }
      }
    }
  }

  /** The entries of a well-formed queue are exactly its recorded deadlines. */
  lemma EntriesMembers(q: Queue)
    requires WellFormed(q)
    ensures forall e :: e in Entries(q) <==> e.id in q.deadlineOf && q.deadlineOf[e.id] == e.deadline
  {
    FlattenMembers(q.index, q.buckets);
  }

  /** Earlier deadlines come first. */
  ghost predicate Sorted(es: seq<Entry>) {
    forall i, j :: 0 <= i < j < |es| ==> es[i].deadline <= es[j].deadline
  }

  /** No escrow is listed twice. */
  ghost predicate DistinctIds(es: seq<Entry>) {
    forall i, j :: 0 <= i < j < |es| ==> es[i].id != es[j].id
  }

  lemma {:induction false} FlattenSortedDistinct(index: seq<nat>, q: Queue)
    requires WellFormed(q) && Ascending(index)
    requires forall d :: d in index ==> d in q.buckets
    ensures Sorted(Flatten(index, q.buckets)) && DistinctIds(Flatten(index, q.buckets))
  {
    if index != [] {
      var d := index[0];
      var be := BucketEntries(d, q.buckets[d]);
      var rest := Flatten(index[1..], q.buckets);
      FlattenSortedDistinct(index[1..], q);
      forall i, j | 0 <= i < |be| && 0 <= j < |rest|
        ensures be[i].deadline < rest[j].deadline && be[i].id != rest[j].id
      {
        BucketBeforeRest(index, q, i, j);
      }
      BucketEntriesAt(d, q.buckets[d]);
      JoinSortedDistinct(be, rest);
    }
  }

  lemma BucketBeforeRest(index: seq<nat>, q: Queue, i: nat, j: nat)
    requires WellFormed(q) && Ascending(index) && index != [] && index[0] in q.buckets
    requires i < |BucketEntries(index[0], q.buckets[index[0]])| && j < |Flatten(index[1..], q.buckets)|
    ensures BucketEntries(index[0], q.buckets[index[0]])[i].deadline < Flatten(index[1..], q.buckets)[j].deadline
    ensures BucketEntries(index[0], q.buckets[index[0]])[i].id != Flatten(index[1..], q.buckets)[j].id
  {
    var d := index[0];
    var e := Flatten(index[1..], q.buckets)[j];
    BucketEntriesAt(d, q.buckets[d]);
    hide WellFormed, Flatten, BucketEntries;
    FlattenMember(index[1..], q.buckets, e);
    Recorded(q, e.deadline, e.id);
    Recorded(q, d, q.buckets[d][i]);
  }

  lemma Recorded(q: Queue, d: nat, id: nat)
    requires WellFormed(q) && id in Bucket(q.buckets, d)
    ensures id in q.deadlineOf && q.deadlineOf[id] == d
  {}

  lemma FlattenMember(index: seq<nat>, buckets: map<nat, seq<nat>>, e: Entry)
    ensures e in Flatten(index, buckets) <==> e.deadline in index && e.id in Bucket(buckets, e.deadline)
  {
    FlattenMembers(index, buckets);
  }

  lemma JoinSortedDistinct(a: seq<Entry>, b: seq<Entry>)
    requires Sorted(a) && Sorted(b) && DistinctIds(a) && DistinctIds(b)
    requires forall i, j :: 0 <= i < |a| && 0 <= j < |b| ==> a[i].deadline < b[j].deadline && a[i].id != b[j].id
    ensures Sorted(a + b) && DistinctIds(a + b)
  {}

  /** A well-formed queue lists every queued escrow once, in order of deadline. */
  lemma EntriesSortedDistinct(q: Queue)
    requires WellFormed(q)
    ensures Sorted(Entries(q)) && DistinctIds(Entries(q))
  {
    FlattenSortedDistinct(q.index, q);
  }

  lemma {:induction false} RemoveEntryAppend(a: seq<Entry>, b: seq<Entry>, id: nat)
    ensures RemoveEntry(a + b, id) == RemoveEntry(a, id) + RemoveEntry(b, id)
  {
    if a == [] {
      assert a + b == b;
    } else {
      assert (a + b)[1..] == a[1..] + b;
      RemoveEntryAppend(a[1..], b, id);
    }
  }

  lemma {:induction false} RemoveFromBucket(d: nat, ids: seq<nat>, id: nat)
    ensures RemoveEntry(BucketEntries(d, ids), id) == BucketEntries(d, Without(ids, id))
  {
    if ids != [] {
      RemoveFromBucket(d, ids[1..], id);
      assert BucketEntries(d, ids)[1..] == BucketEntries(d, ids[1..]);
    }
  }

  lemma {:induction false} FlattenRemove(index: seq<nat>, b: map<nat, seq<nat>>, b': map<nat, seq<nat>>, d: nat, id: nat)
    requires forall x :: x in index ==> Bucket(b', x) == Without(Bucket(b, x), id)
    ensures Flatten(index, b') == RemoveEntry(Flatten(index, b), id)
  {
    if index != [] {
      var be := BucketEntries(index[0], Bucket(b, index[0]));
      RemoveEntryAppend(be, Flatten(index[1..], b), id);
      RemoveFromBucket(index[0], Bucket(b, index[0]), id);
      FlattenRemove(index[1..], b, b', d, id);
    }
  }

  lemma {:induction false} FlattenSkipsEmpty(index: seq<nat>, b: map<nat, seq<nat>>, d: nat)
    requires Bucket(b, d) == []
    ensures Flatten(Without(index, d), b) == Flatten(index, b)
  {
    if index != [] {
      FlattenSkipsEmpty(index[1..], b, d);
    }
  }

  /** Dequeuing removes the escrow's entry from the list and disturbs no other. */
  lemma DequeuedEntries(q: Queue, id: nat)
    requires WellFormed(q)
    ensures Entries(Dequeued(q, id)) == RemoveEntry(Entries(q), id)
  {
    if id in q.deadlineOf {
      var d := q.deadlineOf[id];
      var q' := Dequeued(q, id);
      forall x | x in q.index ensures Bucket(q'.buckets, x) == Without(Bucket(q.buckets, x), id) {
        DequeuedBuckets(q, id, x);
      }
      FlattenRemove(q.index, q.buckets, q'.buckets, d, id);
      if q'.index != q.index {
        FlattenSkipsEmpty(q.index, q'.buckets, d);
      }
    } else {
      FlattenMembers(q.index, q.buckets);
      RemoveAbsent(Entries(q), id);
    }
  }

  lemma {:induction false} RemoveAbsent(es: seq<Entry>, id: nat)
    requires forall e :: e in es ==> e.id != id
    ensures RemoveEntry(es, id) == es
  {
    if es != [] {
      assert es[0] in es;
      RemoveAbsent(es[1..], id);
    }
  }

  lemma {:induction false} InsertSkips(a: seq<Entry>, b: seq<Entry>, e: Entry)
    requires forall x :: x in a ==> x.deadline <= e.deadline
    ensures InsertEntry(a + b, e) == a + InsertEntry(b, e)
  {
    if a == [] {
      assert a + b == b;
    } else {
      assert a[0] in a;
      assert (a + b)[1..] == a[1..] + b;
      InsertSkips(a[1..], b, e);
    }
  }

  lemma {:induction false} BucketEntriesAppend(d: nat, ids: seq<nat>, id: nat)
    ensures BucketEntries(d, ids + [id]) == BucketEntries(d, ids) + [Entry(d, id)]
  {
    if ids == [] {
      assert ids + [id] == [id];
    } else {
      assert (ids + [id])[1..] == ids[1..] + [id];
      BucketEntriesAppend(d, ids[1..], id);
    }
  }

  lemma {:induction false} FlattenSame(index: seq<nat>, b: map<nat, seq<nat>>, b': map<nat, seq<nat>>)
    requires forall x :: x in index ==> Bucket(b, x) == Bucket(b', x)
    ensures Flatten(index, b) == Flatten(index, b')
  {
    if index != [] {
      FlattenSame(index[1..], b, b');
    }
  }

  /** With every indexed deadline later than `d`, a new bucket for `d` goes in front. */
  lemma FlattenInsertFront(index: seq<nat>, b: map<nat, seq<nat>>, d: nat, id: nat)
    requires forall x :: x in index ==> d < x
    requires Bucket(b, d) == []
    ensures Flatten([d] + index, b[d := [id]]) == [Entry(d, id)] + Flatten(index, b)
    ensures InsertEntry(Flatten(index, b), Entry(d, id)) == [Entry(d, id)] + Flatten(index, b)
  {
    LaterInsertFront(index, b, Entry(d, id));
    FlattenSame(index, b, b[d := [id]]);
    assert ([d] + index)[1..] == index;
    assert BucketEntries(d, [id]) == [Entry(d, id)];
  }

  /** With `d` at the head of the index, its bucket grows at the end. */
  lemma FlattenInsertHead(index: seq<nat>, b: map<nat, seq<nat>>, d: nat, id: nat)
    requires index != [] && Ascending(index) && index[0] == d
    ensures Flatten(index, b[d := Bucket(b, d) + [id]]) == InsertEntry(Flatten(index, b), Entry(d, id))
  {
    var e := Entry(d, id);
    var be := BucketEntries(d, Bucket(b, d));
    var fr := Flatten(index[1..], b);
    BucketEntriesAppend(d, Bucket(b, d), id);
    assert Flatten(index, b[d := Bucket(b, d) + [id]]) == (be + [e]) + fr by {
      FlattenSame(index[1..], b, b[d := Bucket(b, d) + [id]]);
    }
    BucketEntriesAt(d, Bucket(b, d));
    InsertSkips(be, fr, e);
    LaterInsertFront(index[1..], b, e);
    assert be + ([e] + fr) == (be + [e]) + fr;
  }

  lemma LaterInsertFront(index: seq<nat>, b: map<nat, seq<nat>>, e: Entry)
    requires forall x :: x in index ==> e.deadline < x
    ensures InsertEntry(Flatten(index, b), e) == [e] + Flatten(index, b)
  {
    var f := Flatten(index, b);
    FlattenMembers(index, b);
    assert f == [] || f[0] in f;
  }

  lemma {:induction false} FlattenInsert(index: seq<nat>, b: map<nat, seq<nat>>, d: nat, id: nat)
    requires Ascending(index) && (d !in index ==> Bucket(b, d) == [])
    ensures Flatten(InsertIndex(index, d), b[d := Bucket(b, d) + [id]]) == InsertEntry(Flatten(index, b), Entry(d, id))
  {
    if index == [] || index[0] > d {
      FlattenInsertFront(index, b, d, id);
      assert [d] + index == InsertIndex(index, d);
      assert Bucket(b, d) + [id] == [id];
    } else if index[0] == d {
      FlattenInsertHead(index, b, d, id);
    } else {
      assert d in index <==> d in index[1..] by { assert index == [index[0]] + index[1..]; }
      FlattenInsert(index[1..], b, d, id);
      FlattenInsertLater(index, b, d, id);
    }
  }

  /** With `d` due later than the head of the index, the insertion happens in the tail. */
  lemma FlattenInsertLater(index: seq<nat>, b: map<nat, seq<nat>>, d: nat, id: nat)
    requires index != [] && index[0] < d && (d in index <==> d in index[1..])
    ensures var b' := b[d := Bucket(b, d) + [id]];
            Flatten(InsertIndex(index, d), b') == BucketEntries(index[0], Bucket(b, index[0])) + Flatten(InsertIndex(index[1..], d), b')
    ensures InsertEntry(Flatten(index, b), Entry(d, id)) ==
            BucketEntries(index[0], Bucket(b, index[0])) + InsertEntry(Flatten(index[1..], b), Entry(d, id))
  {
    var be := BucketEntries(index[0], Bucket(b, index[0]));
    BucketEntriesAt(index[0], Bucket(b, index[0]));
    InsertSkips(be, Flatten(index[1..], b), Entry(d, id));
    var ins := InsertIndex(index, d);
    assert ins == [index[0]] + InsertIndex(index[1..], d);
    assert ins[1..] == InsertIndex(index[1..], d);
  }

  /** Enqueuing moves the escrow to its place among the entries of the new deadline: behind
      every entry that is due no later, in front of every entry that is due later. */
  lemma EnqueuedEntries(q: Queue, id: nat, d: nat)
    requires WellFormed(q)
    ensures Entries(Enqueued(q, id, d)) == InsertEntry(RemoveEntry(Entries(q), id), Entry(d, id))
  {
    DequeuedWellFormed(q, id);
    DequeuedEntries(q, id);
    var q1 := Dequeued(q, id);
    FlattenInsert(q1.index, q1.buckets, d, id);
  }

  // ----- The list determines the stored pieces -----

  function IdsAt(es: seq<Entry>, d: nat): seq<nat> {
    if es == [] then []
    else if es[0].deadline == d then [es[0].id] + IdsAt(es[1..], d)
    else IdsAt(es[1..], d)
  }

  lemma {:induction false} IdsAtAppend(a: seq<Entry>, b: seq<Entry>, d: nat)
    ensures IdsAt(a + b, d) == IdsAt(a, d) + IdsAt(b, d)
  {
    if a == [] {
      assert a + b == b;
    } else {
      assert (a + b)[1..] == a[1..] + b;
      IdsAtAppend(a[1..], b, d);
    }
  }

  lemma {:induction false} IdsAtBucket(x: nat, ids: seq<nat>, d: nat)
    ensures IdsAt(BucketEntries(x, ids), d) == if x == d then ids else []
  {
    if ids != [] {
      IdsAtBucket(x, ids[1..], d);
      assert BucketEntries(x, ids)[1..] == BucketEntries(x, ids[1..]);
    }
  }

  lemma {:induction false} IdsAtFlatten(index: seq<nat>, b: map<nat, seq<nat>>, d: nat)
    requires Ascending(index)
    ensures IdsAt(Flatten(index, b), d) == if d in index then Bucket(b, d) else []
  {
    if index != [] {
      assert index == [index[0]] + index[1..];
      IdsAtAppend(BucketEntries(index[0], Bucket(b, index[0])), Flatten(index[1..], b), d);
      IdsAtBucket(index[0], Bucket(b, index[0]), d);
      IdsAtFlatten(index[1..], b, d);
    }
  }

  lemma {:induction false} AscendingUnique(a: seq<nat>, b: seq<nat>)
    requires Ascending(a) && Ascending(b)
    requires forall x :: x in a <==> x in b
    ensures a == b
  {
    if a != [] {
      assert a[0] in b && b[0] in a;
      assert a[0] == b[0];
      assert a == [a[0]] + a[1..] && b == [b[0]] + b[1..];
      assert a[0] !in a[1..] && b[0] !in b[1..];
      forall x ensures x in a[1..] <==> x in b[1..] {
        assert x in a <==> x == a[0] || x in a[1..];
        assert x in b <==> x == b[0] || x in b[1..];
      }
      AscendingUnique(a[1..], b[1..]);
    } else {
      HeadIn(b);
    }
  }

  /** Two well-formed queues with the same list are the same queue: the index, the buckets and
      the reverse map carry no information beyond the list. */
  lemma EntriesDetermineQueue(p: Queue, q: Queue)
    requires WellFormed(p) && WellFormed(q) && Entries(p) == Entries(q)
    ensures p == q
  {
    assert p.deadlineOf == q.deadlineOf by {
      EntriesMembers(p);
      EntriesMembers(q);
      forall id ensures id in p.deadlineOf ==> id in q.deadlineOf && q.deadlineOf[id] == p.deadlineOf[id] {
        if id in p.deadlineOf { assert Entry(p.deadlineOf[id], id) in Entries(q); }
      }
      forall id ensures id in q.deadlineOf ==> id in p.deadlineOf {
        if id in q.deadlineOf { assert Entry(q.deadlineOf[id], id) in Entries(p); }
      }
    }
    forall d ensures Bucket(p.buckets, d) == Bucket(q.buckets, d) {
      IdsAtFlatten(p.index, p.buckets, d);
      IdsAtFlatten(q.index, q.buckets, d);
    }
    SameBuckets(p, q);
    AscendingUnique(p.index, q.index);
  }

  lemma SameBuckets(p: Queue, q: Queue)
    requires BucketsSound(p) && BucketsSound(q)
    requires forall d :: Bucket(p.buckets, d) == Bucket(q.buckets, d)
    ensures p.buckets == q.buckets
  {
    forall d ensures d in p.buckets <==> d in q.buckets {
      assert Bucket(p.buckets, d) == Bucket(q.buckets, d);
    }
    forall d | d in p.buckets ensures p.buckets[d] == q.buckets[d] {
      assert Bucket(p.buckets, d) == Bucket(q.buckets, d);
    }
  }

  // ----- The insertion loop, element by element -----

  lemma InsertSortedNil(d: nat)
    ensures InsertSorted([], d) == [d]
  {}

  lemma InsertSortedStep(s: seq<nat>, i: nat, d: nat)
    requires i < |s|
    ensures s[i] <= d ==> s[..i] + InsertSorted(s[i..], d) == s[..i + 1] + InsertSorted(s[i + 1..], d)
    ensures s[i] > d ==> s[..i] + InsertSorted(s[i..], d) == s[..i] + [d] + s[i..]
  {
    assert s[i..][1..] == s[i + 1..];
  }

  // ----- The operations as the contract runs them -----

  class QueueStorage {
    var index: seq<nat>
    var buckets: map<nat, seq<nat>>
    var deadlineOf: map<nat, nat>

    ghost function Model(): Queue
      reads this
    {
      Queue(index, buckets, deadlineOf)
    }

    constructor ()
      ensures Model() == EMPTY
    {
      index, buckets, deadlineOf := [], map[], map[];
    }

    /** Inserts a deadline into the index unless it is there already. */
    method InsertDeadline(deadline: nat)
      modifies this`index
      ensures index == InsertIndex(old(index), deadline)
    {
      var deadlines := index;
      for i := 0 to |deadlines|
        invariant deadline !in deadlines[..i]
      {
        if deadlines[i] == deadline {
          return;
        }
      }
      index := SortedInsertion(deadlines, deadline);
    }

    /** The copying loop of the insertion. */
    static method SortedInsertion(deadlines: seq<nat>, deadline: nat) returns (newIndex: seq<nat>)
      ensures newIndex == InsertSorted(deadlines, deadline)
    {
      hide InsertSorted;
      var inserted := false;
      newIndex := [];
      assert deadlines[0..] == deadlines;
      for i := 0 to |deadlines|
        invariant inserted ==> newIndex + deadlines[i..] == InsertSorted(deadlines, deadline)
        invariant !inserted ==> newIndex == deadlines[..i]
        invariant !inserted ==> deadlines[..i] + InsertSorted(deadlines[i..], deadline) == InsertSorted(deadlines, deadline)
      {
        InsertSortedStep(deadlines, i, deadline);
        if !inserted && deadlines[i] > deadline {
          newIndex := newIndex + [deadline];
          inserted := true;
        }
        newIndex := newIndex + [deadlines[i]];
        assert inserted ==> newIndex + deadlines[i + 1..] == newIndex[..|newIndex| - 1] + deadlines[i..];
      }
      if !inserted {
        newIndex := newIndex + [deadline];
        InsertSortedNil(deadline);
      }
    }

    method RemoveDeadline(deadline: nat)
      modifies this`index
      ensures index == Without(old(index), deadline)
    {
      index := CopyWithout(index, deadline);
    }

    method Dequeue(id: nat)
      modifies this
      ensures Model() == Dequeued(old(Model()), id)
    {
      if id !in deadlineOf {
        return;
      }
      var deadline := deadlineOf[id];
      if deadline in buckets {
        var ids := buckets[deadline];
        var remaining := CopyWithout(ids, id);
        if remaining == [] {
          buckets := buckets - {deadline};
          RemoveDeadline(deadline);
        } else {
          buckets := buckets[deadline := remaining];
        }
      }
      deadlineOf := deadlineOf - {id};
    }

    method Enqueue(id: nat, deadline: nat)
      modifies this
      ensures Model() == Enqueued(old(Model()), id, deadline)
    {
      Dequeue(id);
      var ids := if deadline in buckets then buckets[deadline] else [];
      buckets := buckets[deadline := ids + [id]];
      deadlineOf := deadlineOf[id := deadline];
      InsertDeadline(deadline);
    }
  }
}
