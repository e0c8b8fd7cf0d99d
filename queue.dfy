/** The job queue: an ordered list of generation jobs, updated in place by
    push, remove, skip-toggle and status updates, plus its two derived
    views, the incomplete jobs and the job currently running. */
module Queue {
  import opened Types
  import opened Lists

  /** `qi.id === id`, the key test of the queue. */
  function HasId(id: string): (f: QueueItem -> bool)
    ensures forall qi :: f(qi) <==> qi.id == id
  {
    (qi: QueueItem) => qi.id == id
  }

  /** `qi.status !== Completed`, the test of `clearCompleted` and `incompleteQueue`. */
  function NotCompleted(): (f: QueueItem -> bool)
    ensures forall qi :: f(qi) <==> qi.status != Completed
  {
    (qi: QueueItem) => qi.status != Completed
  }

  /** No item of `q` carries `id`. */
  predicate NoneWithId(q: seq<QueueItem>, id: string) {
    forall k :: 0 <= k < |q| ==> q[k].id != id
  }

  /** The skip toggle: Skipped becomes Pending, every other status Skipped. */
  function Toggled(s: QueueItemStatus): (t: QueueItemStatus)
    ensures t == Pending || t == Skipped
    ensures t != s
  {
    if s == Skipped then Pending else Skipped
  }

  /** The queue after `storedQueue[ix].status = status` on the first item with `id`. */
  function WithStatus(q: seq<QueueItem>, id: string, status: QueueItemStatus): (r: seq<QueueItem>)
    ensures |r| == |q|
    ensures forall k :: 0 <= k < |q| ==> r[k].id == q[k].id
  {
    var ix := FindIndex(q, HasId(id));
    if ix > -1 then q[ix := q[ix].(status := status)] else q
  }

  /** The queue after `toggleSkip(id)`. */
  function WithSkipToggled(q: seq<QueueItem>, id: string): (r: seq<QueueItem>)
    ensures |r| == |q|
    ensures forall k :: 0 <= k < |q| ==> r[k].id == q[k].id
  {
    var ix := FindIndex(q, HasId(id));
    if ix > -1 then q[ix := q[ix].(status := Toggled(q[ix].status))] else q
  }

  /** `incompleteQueue`: the items not Completed, in queue order. */
  function IncompleteQueue(q: seq<QueueItem>): (r: seq<QueueItem>)
    ensures forall k :: 0 <= k < |r| ==> r[k].status != Completed && r[k] in q
    ensures forall k :: 0 <= k < |q| && q[k].status != Completed ==> q[k] in r
  {
    Filter(q, NotCompleted())
  }

  /** `currentQueueItem`: the first Running item, if any. */
  function CurrentQueueItem(q: seq<QueueItem>): (r: Option<QueueItem>)
    ensures r.Some? <==> exists k :: 0 <= k < |q| && q[k].status == Running
    ensures r.Some? ==> r.value.status == Running && exists k :: (0 <= k < |q| && q[k] == r.value &&
      forall l :: 0 <= l < k ==> q[l].status != Running)
  {
    var ix := FindIndex(q, (qi: QueueItem) => qi.status == Running);
    if ix > -1 then Some(q[ix]) else None
  }

  /** The queue store; `queue` is its array, loaded from storage. */
  class QueueStore {
    var queue: seq<QueueItem>

    constructor (storedQueue: seq<QueueItem>)
      ensures queue == storedQueue
    {
      queue := storedQueue;
    }

    /** `push`: append the item. */
    method Push(queueItem: QueueItem)
      modifies this
      ensures queue == old(queue) + [queueItem]
    {
      queue := queue + [queueItem];
    }

    /** `remove`: delete the first item with `id`, if any. */
    method Remove(id: string)
      modifies this
      ensures queue == RemoveFirst(old(queue), HasId(id))
      ensures NoneWithId(old(queue), id) ==> queue == old(queue)
    {
      var ix := FindIndex(queue, HasId(id));
      if ix > -1 {
        queue := queue[..ix] + queue[ix + 1..];
      }
    }

    /** `toggleSkip`: flip the first item with `id` between Skipped and Pending
        (any status but Skipped becomes Skipped). */
    method ToggleSkip(id: string)
      modifies this
      ensures queue == WithSkipToggled(old(queue), id)
      ensures NoneWithId(old(queue), id) ==> queue == old(queue)
    {
      var ix := FindIndex(queue, HasId(id));
      if ix > -1 {
        queue := queue[ix := queue[ix].(status := if queue[ix].status == Skipped then Pending else Skipped)];
      }
    }

    /** `updateStatus`: set the first item with `id` to `status`, unchecked. */
    method UpdateStatus(id: string, status: QueueItemStatus)
      modifies this
      ensures queue == WithStatus(old(queue), id, status)
      ensures NoneWithId(old(queue), id) ==> queue == old(queue)
    {
      var ix := FindIndex(queue, HasId(id));
      if ix > -1 {
        queue := queue[ix := queue[ix].(status := status)];
      }
    }

    /** `clearCompleted`: keep the items not Completed. */
    method ClearCompleted()
      modifies this
      ensures queue == IncompleteQueue(old(queue))
      ensures forall k :: 0 <= k < |queue| ==> queue[k].status != Completed
    {
      queue := Filter(queue, NotCompleted());
    }

    /** `clear`: empty the queue. */
    method Clear()
      modifies this
      ensures queue == []
    {
      queue := [];
    }
  }

  /** Push of an item with a fresh id, then remove of that id, restores the queue. */
  lemma PushThenRemove(q: seq<QueueItem>, item: QueueItem)
    requires NoneWithId(q, item.id)
    ensures RemoveFirst(q + [item], HasId(item.id)) == q
  {
    RemoveFirstSplit(q, item, [], HasId(item.id));
    assert q + [item] + [] == q + [item];
  }

  /** Remove deletes only the first item with the id, keeping the rest in order. */
  lemma RemoveDeletesFirst(a: seq<QueueItem>, x: QueueItem, b: seq<QueueItem>)
    requires NoneWithId(a, x.id)
    ensures RemoveFirst(a + [x] + b, HasId(x.id)) == a + b
  {
    RemoveFirstSplit(a, x, b, HasId(x.id));
  }

  /** `updateStatus` changes the status of the first item with the id and
      nothing else; an unknown id changes nothing. */
  lemma UpdateStatusChangesOne(a: seq<QueueItem>, x: QueueItem, b: seq<QueueItem>, status: QueueItemStatus)
    requires NoneWithId(a, x.id)
    ensures WithStatus(a + [x] + b, x.id, status) == a + [x.(status := status)] + b
    ensures NoneWithId(a + b, x.id) ==> WithStatus(a + b, x.id, status) == a + b
  {
    FindIndexAfterPrefix(a, x, b, HasId(x.id));
    assert (a + [x] + b)[|a| := x.(status := status)] == a + [x.(status := status)] + b;
    if NoneWithId(a + b, x.id) {
      assert FindIndex(a + b, HasId(x.id)) == -1;
    }
  }

  /** `toggleSkip` changes the status of the first item with the id and
      nothing else: Skipped to Pending, anything else to Skipped. */
  lemma ToggleSkipChangesOne(a: seq<QueueItem>, x: QueueItem, b: seq<QueueItem>)
    requires NoneWithId(a, x.id)
    ensures WithSkipToggled(a + [x] + b, x.id) ==
      a + [x.(status := if x.status == Skipped then Pending else Skipped)] + b
  {
    FindIndexAfterPrefix(a, x, b, HasId(x.id));
    assert (a + [x] + b)[|a| := x.(status := Toggled(x.status))] == a + [x.(status := Toggled(x.status))] + b;
  }

  /** Toggling twice restores a Pending or Skipped item; a Running,
      Completed or Failed item ends up Pending. */
  lemma ToggleSkipTwice(q: seq<QueueItem>, id: string)
    ensures var ix := FindIndex(q, HasId(id));
      WithSkipToggled(WithSkipToggled(q, id), id) ==
        if ix > -1 && q[ix].status != Pending && q[ix].status != Skipped
        then q[ix := q[ix].(status := Pending)] else q
  {
    var ix := FindIndex(q, HasId(id));
    if ix > -1 {
      var q1 := WithSkipToggled(q, id);
      assert forall k :: 0 <= k < |q1| ==> HasId(id)(q1[k]) == HasId(id)(q[k]);
      FindIndexSameKeys(q, q1, HasId(id));
      var q2 := WithSkipToggled(q1, id);
      assert q2 == q[ix := q[ix].(status := Toggled(Toggled(q[ix].status)))];
      if q[ix].status == Pending || q[ix].status == Skipped {
        assert q[ix].(status := Toggled(Toggled(q[ix].status))) == q[ix];
      }
    } else {
      assert WithSkipToggled(q, id) == q;
    }
  }

  /** `findIndex` only looks at the key, so equal keys give equal answers. */
  lemma {:induction false} FindIndexSameKeys<T>(s: seq<T>, t: seq<T>, p: T -> bool)
    requires |s| == |t|
    requires forall k :: 0 <= k < |s| ==> p(s[k]) == p(t[k])
    ensures FindIndex(s, p) == FindIndex(t, p)
  {
    if |s| > 0 {
      FindIndexSameKeys(s[1..], t[1..], p);
    }
  }

  /** `clearCompleted` is idempotent. */
  lemma ClearCompletedIdempotent(q: seq<QueueItem>)
    ensures IncompleteQueue(IncompleteQueue(q)) == IncompleteQueue(q)
  {
    FilterIdempotent(q, NotCompleted());
  }

  /** `clearCompleted` works item by item: it distributes over concatenation,
      so the survivors keep their relative order. */
  lemma ClearCompletedPreservesOrder(a: seq<QueueItem>, b: seq<QueueItem>)
    ensures IncompleteQueue(a + b) == IncompleteQueue(a) + IncompleteQueue(b)
    ensures IncompleteQueue(a) == a <==> forall k :: 0 <= k < |a| ==> a[k].status != Completed
  {
    FilterConcat(a, b, NotCompleted());
    if forall k :: 0 <= k < |a| ==> a[k].status != Completed {
      FilterKeepsAll(a, NotCompleted());
    }
  }

  /** Once the runner marks an item Running in a queue with nothing running,
      that item is the current one. */
  lemma StartedItemIsCurrent(a: seq<QueueItem>, x: QueueItem, b: seq<QueueItem>)
    requires NoneWithId(a, x.id)
    requires forall k :: 0 <= k < |a + [x] + b| ==> (a + [x] + b)[k].status != Running
    ensures CurrentQueueItem(WithStatus(a + [x] + b, x.id, Running)) == Some(x.(status := Running))
  {
    UpdateStatusChangesOne(a, x, b, Running);
    assert forall k :: 0 <= k < |a| ==> a[k] == (a + [x] + b)[k];
    FindIndexAfterPrefix(a, x.(status := Running), b, (qi: QueueItem) => qi.status == Running);
  }
}
