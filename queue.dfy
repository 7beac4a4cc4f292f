/** The in-memory action queue: a list of items, each replaced in place by
    the first later update with its id. */
module Queue {

  /** `SiaQueueItem`; times are integer seconds and the uuid is its text. */
  datatype QueueItem = QueueItem(id: string, action: string, toExecuteAt: int, createdAt: int)

  predicate UniqueIds(q: seq<QueueItem>) {
    forall i, j :: 0 <= i < j < |q| ==> q[i].id != q[j].id
  }

  /** The position of the first item with id `id`, or -1 when none has it. */
  function IndexOfId(q: seq<QueueItem>, id: string): (k: int)
    ensures -1 <= k < |q|
    ensures k >= 0 ==> q[k].id == id && forall i :: 0 <= i < k ==> q[i].id != id
    ensures k == -1 ==> forall i :: 0 <= i < |q| ==> q[i].id != id
  {
    if q == [] then -1
    else if q[0].id == id then 0
    else
      var k := IndexOfId(q[1..], id);
      assert forall i :: 1 <= i < |q| ==> q[i] == q[1..][i - 1];
      if k == -1 then -1 else k + 1
  }

  /** The queue with its first item of `item`'s id replaced by `item`; the
      queue as it was when no item has that id. */
  function UpdateFirst(q: seq<QueueItem>, item: QueueItem): (r: seq<QueueItem>)
    ensures |r| == |q|
    ensures IndexOfId(q, item.id) == -1 ==> r == q
    ensures IndexOfId(q, item.id) >= 0 ==> r == q[IndexOfId(q, item.id) := item]
  {
    if q == [] then []
    else if q[0].id == item.id then
      assert [item] + q[1..] == q[0 := item];
      [item] + q[1..]
    else
      var rest := UpdateFirst(q[1..], item);
      var k := IndexOfId(q[1..], item.id);
      assert k >= 0 ==> [q[0]] + q[1..][k := item] == q[k + 1 := item];
      assert [q[0]] + q[1..] == q;
      [q[0]] + rest
  }

  /** `run` from position `i` on: every item still in the queue at its
      position is executed, reading the queue as the earlier executions
      left it. */
  function RunFrom(q: seq<QueueItem>, i: nat): seq<QueueItem>
    decreases |q| - i
  {
    if i >= |q| then q else RunFrom(UpdateFirst(q, q[i]), i + 1)
  }

  /** A run keeps the number of items. */
  lemma {:induction false} RunKeepsLength(q: seq<QueueItem>, i: nat)
    ensures |RunFrom(q, i)| == |q|
    decreases |q| - i
  {
    if i < |q| {
      RunKeepsLength(UpdateFirst(q, q[i]), i + 1);
    }
  }

  /** With distinct ids every item replaces itself, so a run changes nothing. */
  lemma {:induction false} RunUniqueUnchanged(q: seq<QueueItem>, i: nat)
    requires UniqueIds(q)
    ensures RunFrom(q, i) == q
    decreases |q| - i
  {
    if i < |q| {
      UpdateFirstItself(q, i);
      RunUniqueUnchanged(q, i + 1);
    }
  }

  /** With distinct ids, an item replaces only itself. */
  lemma UpdateFirstItself(q: seq<QueueItem>, i: nat)
    requires UniqueIds(q) && i < |q|
    ensures UpdateFirst(q, q[i]) == q
  {
    assert IndexOfId(q, q[i].id) == i;
    assert q[i := q[i]] == q;
  }

  /** With two items of one id, the run copies the second over the first. */
  lemma RunWithSharedId(a: QueueItem, b: QueueItem)
    requires a.id == b.id && a != b
    ensures RunFrom([a, b], 0) == [b, b]
  {
    assert UpdateFirst([a, b], a) == [a, b];
    assert UpdateFirst([a, b], b) == [b, b];
    assert RunFrom([a, b], 0) == RunFrom([a, b], 1);
    assert RunFrom([a, b], 1) == RunFrom([b, b], 2);
  }

  class SiaQueueMemory {
    var queue: seq<QueueItem>

    constructor ()
      ensures queue == []
    {
      queue := [];
    }

    method AddItem(item: QueueItem)
      modifies this
      ensures queue == old(queue) + [item]
    {
      queue := queue + [item];
    }

    method GetItems() returns (r: seq<QueueItem>)
      ensures r == queue
    {
      r := queue;
    }

    method UpdateItem(item: QueueItem)
      modifies this
      ensures queue == UpdateFirst(old(queue), item)
    {
      var i := 0;
      while i < |queue|
        invariant 0 <= i <= |queue|
        invariant queue == old(queue)
        invariant forall k :: 0 <= k < i ==> queue[k].id != item.id
      {
        if queue[i].id == item.id {
          queue := queue[i := item];
          return;
        }
        i := i + 1;
      }
    }
  }

  class SiaQueue {
    const memory: SiaQueueMemory

    constructor ()
      ensures fresh(memory) && memory.queue == []
    {
      memory := new SiaQueueMemory();
    }

    method AddItem(item: QueueItem)
      modifies memory
      ensures memory.queue == old(memory.queue) + [item]
    {
      memory.AddItem(item);
    }

    method GetItemsToExecute() returns (r: seq<QueueItem>)
      ensures r == memory.queue
    {
      r := memory.GetItems();
    }

    method ExecuteItem(item: QueueItem)
      modifies memory
      ensures memory.queue == UpdateFirst(old(memory.queue), item)
    {
      memory.UpdateItem(item);
    }

    /** Executes every item of the live queue in order. */
    method Run()
      modifies memory
      ensures memory.queue == RunFrom(old(memory.queue), 0)
    {
      var i := 0;
      while i < |memory.queue|
        invariant 0 <= i <= |memory.queue|
        invariant RunFrom(memory.queue, i) == RunFrom(old(memory.queue), 0)
        decreases |memory.queue| - i
      {
        var item := memory.queue[i];
        ExecuteItem(item);
        i := i + 1;
      }
    }
  }
}
