/** The posting-eligibility scan: every client whose posting is enabled and
    whose last post is older than its posting frequency (in minutes) is due
    for a posting action on the queue. */
module Reasoning {
  import opened Wrappers
  import opened Queue

  /** What the scan reads from a client; None marks an attribute the client
      does not have, which raises when read. */
  datatype ClientInfo = ClientInfo(postingEnabled: Option<bool>, lastPostTime: Option<int>,
                                   postingFrequency: Option<int>)

  /** The scan can read everything it needs from the client. */
  predicate Readable(c: ClientInfo) {
    c.postingEnabled.Some? && (c.postingEnabled.value ==> c.lastPostTime.Some? && c.postingFrequency.Some?)
  }

  predicate Due(c: ClientInfo, now: int) {
    c.postingEnabled == Some(true) && c.lastPostTime.Some? && c.postingFrequency.Some? &&
    c.lastPostTime.value + c.postingFrequency.value * 60 < now
  }

  /** The first `k` clients are readable and not due. */
  predicate Quiet(clients: seq<ClientInfo>, k: nat, now: int)
    requires k <= |clients|
  {
    forall i :: 0 <= i < k ==> Readable(clients[i]) && !Due(clients[i], now)
  }

  /** The scan as written. The queue item it builds lacks the required
      action and creation time, so the first due client raises a
      validation error and nothing is ever queued. */
  function ScanAsWritten(clients: seq<ClientInfo>, now: int): (r: Result<()>)
    ensures r.Ok? <==> Quiet(clients, |clients|, now)
    ensures r.Err? ==> exists k :: 0 <= k < |clients| && Quiet(clients, k, now) &&
                                   (!Readable(clients[k]) ==> r.error == AttributeError) &&
                                   (Readable(clients[k]) ==> Due(clients[k], now) && r.error == ValidationError)
  {
    if clients == [] then Ok(())
    else if !Readable(clients[0]) then Err(AttributeError)
    else if Due(clients[0], now) then Err(ValidationError)
    else
      var r := ScanAsWritten(clients[1..], now);
      QuietShift(clients, now);
      if r.Err? then
        var k :| 0 <= k < |clients[1..]| && Quiet(clients[1..], k, now) &&
                 (!Readable(clients[1..][k]) ==> r.error == AttributeError) &&
                 (Readable(clients[1..][k]) ==> Due(clients[1..][k], now) && r.error == ValidationError);
        assert clients[k + 1] == clients[1..][k];
        r
      else r
  }

  lemma QuietShift(clients: seq<ClientInfo>, now: int)
    requires clients != [] && Readable(clients[0]) && !Due(clients[0], now)
    ensures forall k :: 0 <= k <= |clients[1..]| ==> (Quiet(clients[1..], k, now) <==> Quiet(clients, k + 1, now))
  {
    forall k | 0 <= k <= |clients[1..]|
      ensures Quiet(clients[1..], k, now) <==> Quiet(clients, k + 1, now)
    {
      if Quiet(clients, k + 1, now) {
        forall i | 0 <= i < k ensures Readable(clients[1..][i]) && !Due(clients[1..][i], now) {
          assert clients[1..][i] == clients[i + 1];
        }
      }
      if Quiet(clients[1..], k, now) {
        forall i | 0 <= i < k + 1 ensures Readable(clients[i]) && !Due(clients[i], now) {
          if i > 0 { assert clients[i] == clients[1..][i - 1]; }
        }
      }
    }
  }

  function CountDue(clients: seq<ClientInfo>, now: int): nat {
    if clients == [] then 0 else (if Due(clients[0], now) then 1 else 0) + CountDue(clients[1..], now)
  }

  /** The scan with complete items: one item per due client, in client
      order, to be executed now, with the action and the creation time
      filled in and the `i`-th client's item id drawn as `ids(i)`. */
  function PostingItems(clients: seq<ClientInfo>, now: int, action: string, ids: nat -> string, from: nat)
    : (r: Result<seq<QueueItem>>)
    ensures r.Ok? <==> forall i :: 0 <= i < |clients| ==> Readable(clients[i])
    ensures r.Err? ==> r.error == AttributeError
    decreases |clients|
  {
    if clients == [] then Ok([])
    else if !Readable(clients[0]) then Err(AttributeError)
    else
      var rest := PostingItems(clients[1..], now, action, ids, from + 1);
      assert forall i :: 0 < i < |clients| ==> clients[i] == clients[1..][i - 1];
      if rest.Err? then rest
      else if Due(clients[0], now) then Ok([QueueItem(ids(from), action, now, now)] + rest.value)
      else rest
  }

  /** One item per due client, each to be executed now, created now and
      carrying the action. */
  lemma {:induction false} PostingItemsShape(clients: seq<ClientInfo>, now: int, action: string, ids: nat -> string,
                                             from: nat)
    ensures var r := PostingItems(clients, now, action, ids, from);
            r.Ok? ==> |r.value| == CountDue(clients, now) &&
                      forall item :: item in r.value ==>
                        item.toExecuteAt == now && item.createdAt == now && item.action == action
    decreases |clients|
  {
    if clients != [] {
      PostingItemsShape(clients[1..], now, action, ids, from + 1);
    }
  }

  /** Items already added in front of the items still to come, or the error
      the rest of the scan raises. */
  function Then(added: seq<QueueItem>, rest: Result<seq<QueueItem>>): (r: Result<seq<QueueItem>>)
    ensures r.Ok? <==> rest.Ok?
    ensures rest.Err? ==> r == rest
    ensures rest.Ok? ==> |r.value| == |added| + |rest.value|
    ensures rest.Ok? ==> r.value[..|added|] == added && r.value[|added|..] == rest.value
  {
    if rest.Ok? then Ok(added + rest.value) else rest
  }

  /** One readable client moves its item, when it is due, from the items to
      come to the items added. */
  lemma PostingItemsStep(clients: seq<ClientInfo>, i: nat, now: int, action: string, ids: nat -> string,
                         added: seq<QueueItem>)
    requires i < |clients| && Readable(clients[i])
    ensures Then(added, PostingItems(clients[i..], now, action, ids, i)) ==
              Then(added + (if Due(clients[i], now) then [QueueItem(ids(i), action, now, now)] else []),
                   PostingItems(clients[i + 1..], now, action, ids, i + 1))
  {
    assert clients[i..][1..] == clients[i + 1..] && clients[i..][0] == clients[i];
    var rest := PostingItems(clients[i + 1..], now, action, ids, i + 1);
    if !Due(clients[i], now) {
      assert added + [] == added;
    } else if rest.Ok? {
      assert added + ([QueueItem(ids(i), action, now, now)] + rest.value) ==
               added + [QueueItem(ids(i), action, now, now)] + rest.value;
    }
  }

  class SiaReasoning {
    const queue: SiaQueue

    constructor (queue: SiaQueue)
      ensures this.queue == queue
    {
      this.queue := queue;
    }

    /** `add_client_posting` as written: it never reaches the queue. */
    method AddClientPosting(clients: seq<ClientInfo>, now: int) returns (r: Result<()>)
      ensures r == ScanAsWritten(clients, now)
    {
      var i := 0;
      while i < |clients|
        invariant 0 <= i <= |clients|
        invariant ScanAsWritten(clients[i..], now) == ScanAsWritten(clients, now)
      {
        var c := clients[i];
        if c.postingEnabled.None? {
          return Err(AttributeError);
        }
        if c.postingEnabled.value {
          if c.lastPostTime.None? || c.postingFrequency.None? {
            return Err(AttributeError);
          }
          if c.lastPostTime.value + c.postingFrequency.value * 60 < now {
            return Err(ValidationError);
          }
        }
        assert clients[i..][1..] == clients[i + 1..];
        i := i + 1;
      }
      return Ok(());
    }

    /** The scan with complete items, each appended to the queue in turn. */
    method AddClientPostingFixed(clients: seq<ClientInfo>, now: int, action: string, ids: nat -> string)
      returns (r: Result<()>)
      modifies queue.memory
      ensures r.Ok? <==> PostingItems(clients, now, action, ids, 0).Ok?
      ensures r.Ok? ==> queue.memory.queue == old(queue.memory.queue) + PostingItems(clients, now, action, ids, 0).value
      ensures r.Err? ==> r.error == AttributeError && old(queue.memory.queue) <= queue.memory.queue
    {
      var added: seq<QueueItem> := [];
      var i := 0;
      assert clients[0..] == clients;
      while i < |clients|
        invariant 0 <= i <= |clients|
        invariant queue.memory.queue == old(queue.memory.queue) + added
        invariant PostingItems(clients, now, action, ids, 0) ==
                    Then(added, PostingItems(clients[i..], now, action, ids, i))
      {
        var c := clients[i];
        if !Readable(c) {
          assert clients[i..][0] == c;
          return Err(AttributeError);
        }
        PostingItemsStep(clients, i, now, action, ids, added);
        if Due(c, now) {
          var item := QueueItem(ids(i), action, now, now);
          queue.AddItem(item);
          added := added + [item];
        } else {
          assert added + [] == added;
        }
        i := i + 1;
      }
      assert clients[i..] == [];
      return Ok(());
    }
  }
}
