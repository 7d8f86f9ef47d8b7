/** The linked queue of the consumer/producer server: head and tail pointers over heap nodes. */
module TaskQueue {
  import opened Decimals
  import opened ReplyServer

  datatype Item = Item(sock: int, data: int)

  // ---- What a history of operations means ---------------------------------------------------

  datatype Op = Enqueue(item: Item) | Dequeue

  function Enqueued(ops: seq<Op>): seq<Item> {
    if ops == [] then []
    else
      var front, last := Enqueued(ops[..|ops| - 1]), ops[|ops| - 1];
      if last.Enqueue? then front + [last.item] else front
  }

  /** The items handed out and the items left by a history on an empty queue; dequeuing from an empty
      queue hands out nothing. */
  function Played(ops: seq<Op>): (seq<Item>, seq<Item>) {
    if ops == [] then ([], [])
    else
      var (served, waiting) := Played(ops[..|ops| - 1]);
      match ops[|ops| - 1]
      case Enqueue(item) => (served, waiting + [item])
      case Dequeue => if waiting == [] then (served, waiting) else (served + [waiting[0]], waiting[1..])
  }

  /** First in, first out: what has been handed out, followed by what is left, is everything that was
      put in, in order. */
  lemma {:induction false} Fifo(ops: seq<Op>)
    ensures Played(ops).0 + Played(ops).1 == Enqueued(ops)
  {
    if ops == [] {
    } else {
      Fifo(ops[..|ops| - 1]);
    }
  }

  /** A dequeue hands out the next of the items put in, if one is left, and nothing otherwise. */
  lemma DequeueHandsOut(ops: seq<Op>)
    ensures var served, items := Played(ops).0, Enqueued(ops);
            && |served| <= |items|
            && Played(ops + [Dequeue]).0 == served + if |served| < |items| then [items[|served|]] else []
  {
    var all := ops + [Dequeue];
    assert all[..|all| - 1] == ops;
    Fifo(ops);
  }

  // ---- The nodes ---------------------------------------------------------------------------------

  class Task {
    var clientSock: int
    var taskData: int
    var next: Task?

    constructor (sock: int, data: int)
      ensures clientSock == sock && taskData == data && next == null
    {
      clientSock, taskData, next := sock, data, null;
    }

    ghost function Value(): Item
      reads this
    {
      Item(clientSock, taskData)
    }
  }

  /** The node that k `next` pointers lead to. */
  ghost function Walk(start: Task?, k: nat): Task?
    reads *
  {
    if start == null || k == 0 then start else Walk(start.next, k - 1)
  }

  class Queue {
    var head: Task?
    var tail: Task?
    ghost var nodes: seq<Task>  // the chain from head, in order

    ghost predicate Valid()
      reads this, nodes
    {
      && (head == null <==> nodes == []) && (tail == null <==> nodes == [])
      && (nodes != [] ==> head == nodes[0] && tail == nodes[|nodes| - 1] && tail.next == null)
      && (forall i :: 0 <= i < |nodes| - 1 ==> nodes[i].next == nodes[i + 1])
      && (forall i, j :: 0 <= i < j < |nodes| ==> nodes[i] != nodes[j])
    }

    ghost function Contents(): (s: seq<Item>)
      reads this, nodes
      ensures |s| == |nodes|
    {
      seq(|nodes|, i requires 0 <= i < |nodes| reads this, nodes => nodes[i].Value())
    }

    constructor ()
      ensures Valid() && nodes == [] && Contents() == []
    {
      head, tail, nodes := null, null, [];
    }

    method Enqueue(sock: int, data: int)
      requires Valid()
      modifies this, if tail == null then {} else {tail}
      ensures Valid() && |nodes| == |old(nodes)| + 1 && old(nodes) < nodes && fresh(nodes[|nodes| - 1])
      ensures Contents() == old(Contents()) + [Item(sock, data)]
    {
      ghost var before := Contents();
      var task := new Task(sock, data);
      if tail == null {
        head := task;
        tail := task;
      } else {
        tail.next := task;
        tail := task;
      }
      nodes := nodes + [task];
      assert forall i :: 0 <= i < |before| ==> nodes[i].Value() == before[i];
    }

    method Dequeue() returns (task: Task?)
      requires Valid()
      modifies this
      ensures Valid()
      ensures old(nodes) == [] ==> task == null && nodes == []
      ensures old(nodes) != [] ==> task == old(nodes[0]) && nodes == old(nodes[1..])
      ensures old(nodes) != [] ==> task.Value() == old(Contents())[0] && Contents() == old(Contents())[1..]
    {
      if head == null {
        return null;
      }
      task := head;
      assert |nodes| == 1 ==> task == tail;
      assert |nodes| > 1 ==> task.next == nodes[1];
      head := task.next;
      if head == null {
        tail := null;
      }
      nodes := nodes[1..];
    }
  }

  /** The pointers form a chain without a cycle: every node is met once, the last one is the tail, and
      the walk ends after it. */
  lemma {:induction false} ChainWalk(q: Queue, i: nat, k: nat)
    requires q.Valid() && i + k <= |q.nodes|
    ensures i < |q.nodes| ==> Walk(q.nodes[i], k) == if i + k < |q.nodes| then q.nodes[i + k] else null
    decreases k
  {
    if k == 0 || i + 1 >= |q.nodes| {
    } else {
      ChainWalk(q, i + 1, k - 1);
    }
  }

  lemma Acyclic(q: Queue)
    requires q.Valid()
    ensures forall k :: 0 <= k < |q.nodes| ==> Walk(q.head, k) == q.nodes[k]
    ensures Walk(q.head, |q.nodes|) == null
    ensures forall j, k :: 0 <= j < k < |q.nodes| ==> Walk(q.head, j) != Walk(q.head, k)
  {
    forall k | 0 <= k < |q.nodes|
      ensures Walk(q.head, k) == q.nodes[k]
    {
      ChainWalk(q, 0, k);
    }
    if q.nodes != [] {
      ChainWalk(q, 0, |q.nodes|);
    }
  }

  /** Any history of calls on the linked queue. */
  method Play(ops: seq<Op>) returns (q: Queue, served: seq<Item>)
    ensures fresh(q) && q.Valid() && (served, q.Contents()) == Played(ops)
    ensures served + q.Contents() == Enqueued(ops)
  {
    q := new Queue();
    served := [];
    for k := 0 to |ops|
      invariant fresh(q) && q.Valid() && (forall i :: 0 <= i < |q.nodes| ==> fresh(q.nodes[i]))
      invariant (served, q.Contents()) == Played(ops[..k])
    {
      assert ops[..k + 1][..k] == ops[..k];
      assert q.tail != null ==> q.tail == q.nodes[|q.nodes| - 1];
      match ops[k]
      case Enqueue(item) => q.Enqueue(item.sock, item.data);
      case Dequeue =>
        var task := q.Dequeue();
        if task != null {
          served := served + [Item(task.clientSock, task.taskData)];
        }
    }
    assert ops[..|ops|] == ops;
    Fifo(ops);
  }

  // ---- The server loop ----------------------------------------------------------------------

  method Write(buffer: array<char>, s: string)
    requires |s| <= buffer.Length
    modifies buffer
    ensures buffer[..] == Overwritten(old(buffer[..]), s)
  {
    for k := 0 to |s|
      invariant forall i :: 0 <= i < k ==> buffer[i] == s[i]
      invariant forall i :: k <= i < buffer.Length ==> buffer[i] == old(buffer[i])
    {
      buffer[k] := s[k];
    }
  }

  /** Lines 88-104: the request passes through the queue, which is empty before and after. */
  method Answer(queue: Queue, sock: int, text: string, buffer: array<char>) returns (sent: Sent)
    requires queue.Valid() && queue.nodes == [] && buffer.Length == 256
    modifies queue, buffer
    ensures queue.Valid() && queue.nodes == []
    ensures var filled := Overwritten(old(buffer[..]), Taken(text));
            var result := Doubled(Atoi(filled));
            sent == Sent(sock, Decimal(result)) && buffer[..] == Overwritten(filled, Printed(result))
    ensures forall n :: -0x4000_0000 <= n < 0x4000_0000 && text == Decimal(n) + "\n" ==>
              sent == Sent(sock, Decimal(2 * n))
  {
    forall n | -0x4000_0000 <= n < 0x4000_0000 && text == Decimal(n) + "\n"
      ensures Decimal(Doubled(Atoi(Overwritten(buffer[..], Taken(text))))) == Decimal(2 * n)
    {
      LineDoubled(sock, n, buffer[..]);
      ReplyAlone(sock, text, buffer[..]);
    }
    Write(buffer, Taken(text));
    queue.Enqueue(sock, Atoi(buffer[..]));
    var task := queue.Dequeue();
    if task != null {
      var result := Doubled(task.taskData);
      Write(buffer, Printed(result));
      sent := Sent(task.clientSock, Decimal(result));
    }
  }

  method Serve(connections: seq<Connection>, buffer: array<char>) returns (sends: seq<Sent>)
    requires buffer.Length == 256
    modifies buffer
    ensures sends == Replies(connections, old(buffer[..]))
  {
    var queue := new Queue();
    sends := [];
    for k := 0 to |connections|
      invariant fresh(queue) && queue.Valid() && queue.nodes == []
      invariant sends + Replies(connections[k..], buffer[..]) == Replies(connections, old(buffer[..]))
    {
      ghost var before, rest := sends, connections[k..];
      assert rest[1..] == connections[k + 1..];
      if connections[k].Accepted? {
        var sent := Answer(queue, connections[k].sock, connections[k].text, buffer);
        sends := sends + [sent];
        assert before + ([sent] + Replies(rest[1..], buffer[..])) == sends + Replies(rest[1..], buffer[..]);
      }
    }
  }
}
