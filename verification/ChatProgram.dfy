/** The chat on the heap: the server's table of queue names, the message queues that server and clients
    share, and the clients' windows. The loops and handlers of the C programs are proved to be runs of the
    step function. */
module ChatProgram {
  import opened Chat
  import opened ChatSafety
  import opened ChatSegments
  import Runs

  /** The message window of a client. */
  class Terminal {
    const name: string
    var window: seq<Message>

    constructor (name: string)
      ensures this.name == name && window == []
    {
      this.name, window := name, [];
    }
  }

  class Program {
    const clientName: array<string>
    var clientCount: nat
    var inbox: seq<Message>
    var queues: map<string, seq<Message>>
    const terminals: seq<Terminal>
    // where server and clients are, and history
    ghost var now: State

    /** The table, the queues and the windows hold what the state says. */
    ghost predicate Valid()
      reads this, clientName, terminals
    {
      && clientCount <= clientName.Length == MAX_CLIENTS && clientName[..clientCount] == now.names
      && inbox == now.inbox && queues == now.queues
      && |terminals| == |now.clients|
      && (forall c, d :: 0 <= c < d < |terminals| ==> terminals[c] != terminals[d])
      && (forall c :: 0 <= c < |terminals| ==>
            terminals[c].name == now.clients[c].name && terminals[c].window == now.clients[c].window)
    }

    constructor (names: seq<string>)
      ensures fresh(clientName) && (forall c :: 0 <= c < |terminals| ==> fresh(terminals[c]))
      ensures Valid() && now == Init(names) && clientName.Length == 10 && clientCount == 0
    {
      var ts: seq<Terminal> := [];
      for c := 0 to |names|
        invariant |ts| == c && forall k :: 0 <= k < c ==> fresh(ts[k]) && ts[k].name == names[k] && ts[k].window == []
        invariant forall k, l :: 0 <= k < l < c ==> ts[k] != ts[l]
      {
        var t := new Terminal(names[c]);
        ts := ts + [t];
      }
      terminals := ts;
      clientName := new string[MAX_CLIENTS];
      clientCount, inbox, queues := 0, [], map[];
      now := Init(names);
    }

    // ---- The server -------------------------------------------------------------------------------

    /** Opens a queue, sends, and closes it. A failed open or send is reported and skipped; a send to a full
        queue blocks until it is interrupted, which is a failure. */
    method Send(queue: string, msg: Message, works: bool) returns (ok: bool)
      modifies `queues
      ensures ok <==> works && |At(old(queues), queue)| < 10
      ensures queues == if ok then old(queues)[queue := At(old(queues), queue) + [msg]] else old(queues)
    {
      ok := works && |At(queues, queue)| < QUEUE_SIZE;
      if ok {
        queues := queues[queue := At(queues, queue) + [msg]];
      }
    }

    /** Lines 32-40: one round of the broadcast loop. */
    method SendToSlot(msg: Message, works: bool, done: seq<bool>, ghost s: State) returns (ok: bool)
      requires Valid() && CastUpTo(s, now, done) && |done| < clientCount && msg == s.log[|s.log| - 1]
      modifies `queues, `now
      ensures Valid() && CastUpTo(s, now, done + [ok]) && SendsIf(s, |done|, works, ok)
    {
      assert CastTo(s, now, |done|, done);
      ok := Send(clientName[|done|], msg, works);
      now := CastGoesOn(s, now, done, ok);
    }

    /** Lines 30-42: the message is tried for every slot of the table, in slot order, once. */
    method BroadcastMessage(msg: Message, works: nat -> bool) returns (done: seq<bool>)
      requires Valid() && WellShaped(now) && now.server == Casting(0) && now.log != [] && msg == now.log[|now.log| - 1]
      modifies `queues, `now
      ensures Valid() && CastUpTo(old(now), now, done) && |done| == clientCount
      ensures forall i :: 0 <= i < |done| ==> SendsIf(old(now), i, works(i), done[i])
    {
      ghost var s := now;
      Runs.Stay(Step, s);
      done := [];
      for i := 0 to clientCount
        invariant Valid() && |done| == i && CastUpTo(s, now, done)
        invariant forall k :: 0 <= k < i ==> SendsIf(s, k, works(k), done[k])
      {
        var ok := SendToSlot(msg, works(i), done, s);
        done := done + [ok];
      }
    }

    /** Lines 50-57: one round of the roster loop. */
    method SendName(queue: string, works: bool, done: seq<bool>, ghost s: State) returns (ok: bool)
      requires Valid() && WellShaped(s) && ListUpTo(s, now, done) && |done| < clientCount
      requires queue == clientName[clientCount - 1]
      modifies `queues, `now
      ensures Valid() && ListUpTo(s, now, done + [ok]) && ListsIf(s, done, works, ok)
    {
      ok := Send(queue, Message("/join", clientName[|done|]), works);
      now := ListGoesOn(s, now, done, ok);
    }

    /** Lines 49-57. */
    method SendNames(works: nat -> bool, ghost s: State) returns (done: seq<bool>)
      requires Valid() && WellShaped(s) && ListUpTo(s, now, []) && clientCount > 0
      modifies `queues, `now
      ensures Valid() && ListUpTo(s, now, done) && |done| == clientCount && AllListed(s, works, done)
    {
      done := [];
      for i := 0 to clientCount
        invariant Valid() && |done| == i && ListUpTo(s, now, done) && AllListed(s, works, done)
      {
        var ok := SendName(clientName[clientCount - 1], works(i), done, s);
        AllListedMore(s, works, done, ok);
        done := done + [ok];
      }
    }

    /** Lines 44-59: the names of all slots go into the queue of the last one, in slot order. */
    method SendUserList(works: nat -> bool) returns (done: seq<bool>)
      requires Valid() && WellShaped(now) && now.server == Listing(0) && now.log != [] && clientCount > 0
      modifies `queues, `now
      ensures Valid() && ListUpTo(old(now), now, done) && |done| == clientCount
      ensures RosterSent(old(now), now, works, done)
    {
      ghost var s := now;
      Runs.Stay(Step, s);
      done := SendNames(works, s);
      RosterIsSent(s, now, works, done);
    }

    /** Occupies the next slot of the table. */
    method Register(name: string)
      requires clientCount < clientName.Length
      modifies `clientCount, clientName
      ensures clientCount == old(clientCount) + 1
      ensures clientName[..clientCount] == old(clientName[..clientCount]) + [name]
    {
      clientName[clientCount] := name;
      clientCount := clientCount + 1;
    }

    /** Lines 79-88: takes a message and registers a join if there is a free slot. */
    method TakeMessage() returns (msg: Message, accepted: bool)
      requires Valid() && now.server.Receiving? && inbox != []
      modifies `inbox, `clientCount, `now, clientName
      ensures Valid() && now == AfterReceive(old(now)) && CanReach(old(now), now)
      ensures msg == old(inbox)[0] && (accepted <==> !("/join" <= msg.text && old(clientCount) >= 10))
      ensures now.log == old(now).log + if accepted then [msg] else []
      ensures clientName[..clientCount] == old(clientName[..clientCount]) +
                if "/join" <= msg.text && old(clientCount) < 10 then ["/client_" + msg.name] else []
      ensures old(now).names <= now.names && now.queues == old(now).queues
      ensures if accepted then now.server == Casting(0) && now.log != [] && now.log[|now.log| - 1] == msg
              else now.server.Receiving?
      ensures WellShaped(old(now)) ==> WellShaped(now)
      ensures accepted && IsJoin(msg.text) ==> clientCount > 0
    {
      msg := inbox[0];
      inbox := inbox[1..];
      ghost var s := now;
      Runs.Stay(Step, s);
      now := Runs.Then(Step, s, s, ServerReceive);
      accepted := true;
      if IsJoin(msg.text) {
        if clientCount < MAX_CLIENTS {
          Register(QueueName(msg.name));
        } else {
          accepted := false;
        }
      }
    }

    /** The call in line 90 or 101, and where it leads. */
    method Broadcast(msg: Message, works: nat -> bool)
      requires Valid() && WellShaped(now) && now.server == Casting(0) && now.log != [] && msg == now.log[|now.log| - 1]
      modifies `queues, `now
      ensures Valid() && CanReach(old(now), now) && SameSlots(old(now), now) && WellShaped(now)
      ensures now.server == if IsJoin(msg.text) then Opening else Receiving
      ensures forall p :: 0 <= p < clientCount ==> Delivered(old(now), now, p, msg, works(p))
    {
      ghost var s := now;
      var done := BroadcastMessage(msg, works);
      ghost var t := CastingEnds(now);
      forall p | 0 <= p < clientCount
        ensures Delivered(s, t, p, msg, works(p))
      {
        assert CastTo(s, now, p, done) && SendsIf(s, p, works(p), done[p]);
      }
      Runs.Chain(Step, s, now, t);
      now := t;
    }

    /** The call in line 91: the roster, or nothing if the queue cannot be opened. */
    method Welcome(opens: bool, works: nat -> bool) returns (done: seq<bool>)
      requires Valid() && WellShaped(now) && now.server.Opening? && now.log != [] && clientCount > 0
      modifies `queues, `now
      ensures Valid() && CanReach(old(now), now) && SameSlots(old(now), now) && WellShaped(now) && now.server.Receiving?
      ensures |done| == (if opens then clientCount else 0) && RosterSent(old(now), now, works, done)
    {
      ghost var s := now;
      ghost var t := RosterOpens(s, opens);
      now := t;
      done := [];
      if opens {
        done := SendUserList(works);
        ghost var u := now;
        now := RosterEnds(u);
        WholeRoster(s, t, u, now, works, done);
      } else {
        NoRoster(s, t, works);
      }
    }

    /** Lines 90-91, or line 101. */
    method Deliver(msg: Message, works: nat -> bool, opens: bool, lists: nat -> bool) returns (done: seq<bool>)
      requires Valid() && WellShaped(now) && now.server == Casting(0) && now.log != [] && msg == now.log[|now.log| - 1]
      requires IsJoin(msg.text) ==> clientCount > 0
      modifies `queues, `now
      ensures Valid() && CanReach(old(now), now) && SameSlots(old(now), now) && WellShaped(now) && now.server.Receiving?
      ensures forall p :: 0 <= p < clientCount && (IsJoin(msg.text) ==> p < clientCount - 1) ==>
                Delivered(old(now), now, p, msg, works(p))
      ensures IsJoin(msg.text) ==>
                |done| == (if opens then clientCount else 0) && Newcomer(old(now), now, msg, works, lists, done)
    {
      ghost var s := now;
      Broadcast(msg, works);
      done := [];
      if IsJoin(msg.text) {
        ghost var t := now;
        done := Welcome(opens, lists);
        RosterKeepsOthers(t, now, lists, done);
        forall p | 0 <= p < clientCount - 1
          ensures Delivered(s, now, p, msg, works(p))
        {
          DeliveredThenKept(s, t, now, p, msg, works(p));
        }
        NewcomerServed(s, t, now, msg, works, lists, done);
        Runs.Chain(Step, s, t, now);
      }
    }

    /** Lines 78-102: one message is taken from the inbox, and the server is ready for the next one. A text
        that begins with "/join" occupies the next slot if fewer than ten are taken, and is dropped otherwise.
        Any other message, and a join that is not dropped, is added to the log and to the queue of every
        slot occupied before where the calls work and there is room; and whoever joins with it gets this
        join and the roster. */
    method HandleMessage(works: nat -> bool, opens: bool, lists: nat -> bool) returns (done: seq<bool>)
      requires Valid() && WellShaped(now) && now.server.Receiving? && inbox != []
      modifies this, clientName
      ensures Valid() && WellShaped(now) && CanReach(old(now), now) && now.server.Receiving?
      ensures inbox == old(inbox)[1..]
      ensures var msg := old(inbox)[0];
              if "/join" <= msg.text && old(clientCount) >= 10 then now.log == old(now).log && queues == old(queues)
              else
                && now.log == old(now).log + [msg]
                && forall p :: 0 <= p < old(clientCount) ==> Delivered(old(now), now, p, msg, works(p))
      ensures var msg := old(inbox)[0];
              if "/join" <= msg.text && old(clientCount) < 10 then
                && clientName[..clientCount] == old(clientName[..clientCount]) + ["/client_" + msg.name]
                && |done| == (if opens then clientCount else 0)
                && Newcomer(old(now), now, msg, works, lists, done)
              else clientName[..clientCount] == old(clientName[..clientCount])
    {
      ghost var s := now;
      var msg, accepted := TakeMessage();
      done := [];
      if accepted {
        ghost var t := now;
        done := Deliver(msg, works, opens, lists);
        AllDeliveredLater(s, t, now, msg, works);
        if IsJoin(msg.text) {
          assert clientCount > 0;
          NewcomerLater(s, t, now, msg, works, lists, done);
        }
        Runs.Chain(Step, s, t, now);
      }
    }

    // ---- The clients ------------------------------------------------------------------------------

    /** Lines 116-118. */
    method Join(c: nat, works: bool)
      requires Valid() && c < |terminals| && now.clients[c].sender.Unjoined?
      modifies `inbox, `now
      ensures Valid() && ClientMoved(old(now), now, c) && now.clients[c] == old(now).clients[c].(sender := Typing)
      ensures var posted := if works && |old(inbox)| < 10 then [Message("/join", terminals[c].name)] else [];
              inbox == old(inbox) + posted
    {
      var ok := works && |inbox| < QUEUE_SIZE;
      if ok {
        inbox := inbox + [Message("/join", terminals[c].name)];
      }
      now := AsksToJoin(now, c, ok);
    }

    /** Lines 42-66: one round of the receive loop. */
    method ReceiveOne(c: nat)
      requires Valid() && c < |terminals| && Running(now.clients[c]) && now.clients[c].receiver.Idle?
      requires At(queues, QueueName(terminals[c].name)) != []
      modifies `queues, `now, terminals[c]
      ensures Valid() && ClientMoved(old(now), now, c)
      ensures now.clients[c].receiver.Idle? && now.clients[c].sender == old(now).clients[c].sender
      ensures var q := QueueName(terminals[c].name);
              && queues == old(queues)[q := At(old(queues), q)[1..]]
              && var msg := At(old(queues), q)[0];
                 terminals[c].window == old(terminals[c].window) +
                   if msg.text != "/join" && msg.text != "/quit" && msg.name != terminals[c].name then [msg] else []
    {
      var terminal := terminals[c];
      var q := QueueName(terminal.name);
      var msg := At(queues, q)[0];
      queues := queues[q := At(queues, q)[1..]];
      if !(msg.text == "/join" || msg.text == "/quit") {
        if msg.name != terminal.name {
          terminal.window := terminal.window + [msg];
        }
      }
      now := ReceivesOne(now, c);
    }

    /** Lines 41-68, until the queue is empty: the chat lines of others among the messages in the client's
        queue are shown, in order. */
    method ReceiveMessages(c: nat)
      requires Valid() && c < |terminals| && Running(now.clients[c]) && now.clients[c].receiver.Idle?
      modifies `queues, `now, terminals[c]
      ensures Valid() && ClientMoved(old(now), now, c)
      ensures now.clients[c].receiver.Idle? && now.clients[c].sender == old(now).clients[c].sender
      ensures var q := QueueName(terminals[c].name);
              && At(queues, q) == []
              && (forall r :: r != q ==> At(queues, r) == At(old(queues), r))
              && terminals[c].window == old(terminals[c].window) + ChatLines(At(old(queues), q), terminals[c].name)
      ensures var own, before, after := terminals[c].name, old(terminals[c].window), terminals[c].window;
              && before <= after
              && Sifted(after[|before|..], At(old(queues), "/client_" + own),
                        (m: Message) => m.text != "/join" && m.text != "/quit" && m.name != own)
    {
      ghost var s := now;
      var q := QueueName(terminals[c].name);
      ghost var k := 0;
      ReceivedNothing(s, c);
      while At(queues, q) != []
        invariant Valid() && ReceivedUpTo(s, now, c, k)
        decreases |At(queues, q)|
      {
        ghost var t := now;
        ReceiveOne(c);
        ReceivedGoesOn(s, t, now, c, k);
        k := k + 1;
      }
      ReceivedAll(s, now, c, k);
    }

    /** Lines 140-149: posts a line, and shows it if that works. */
    method SendOne(c: nat, text: string, works: bool) returns (ok: bool)
      requires Valid() && c < |terminals| && now.clients[c].sender.Typing? && !IsQuit(text)
      modifies `inbox, `now, terminals[c]
      ensures Valid() && ClientMoved(old(now), now, c) && now.clients[c].sender.Typing?
      ensures ok <==> works && |old(inbox)| < 10
      ensures var line := if ok then [Message(text, terminals[c].name)] else [];
              inbox == old(inbox) + line && terminals[c].window == old(terminals[c].window) + line
    {
      ok := works && |inbox| < QUEUE_SIZE;
      var terminal := terminals[c];
      if ok {
        inbox := inbox + [Message(text, terminal.name)];
        terminal.window := terminal.window + [Message(text, terminal.name)];
      }
      now := SaysOne(now, c, text, ok);
    }

    /** Lines 130-150: posts what is typed before the first line that begins with "/quit", and shows exactly
        what it has posted. */
    method SendLines(c: nat, typed: seq<string>, works: nat -> bool) returns (posted: seq<Message>, k: nat)
      requires Valid() && c < |terminals| && now.clients[c].sender.Typing?
      modifies `inbox, `now, terminals[c]
      ensures Valid() && ClientMoved(old(now), now, c) && now.clients[c].sender.Typing?
      ensures k <= |typed| && forall j :: 0 <= j < k ==> !("/quit" <= typed[j])
      ensures k < |typed| ==> "/quit" <= typed[k]
      ensures posted == Posting(typed, terminals[c].name, works, 10 - |old(inbox)|, k)
      ensures inbox == old(inbox) + posted && terminals[c].window == old(terminals[c].window) + posted
    {
      ghost var s := now;
      Runs.Stay(Step, s);
      posted, k := [], 0;
      while k < |typed| && !IsQuit(typed[k])
        invariant Valid() && k <= |typed| && PostedUpTo(s, now, c, typed, works, k, posted)
        invariant forall j :: 0 <= j < k ==> !IsQuit(typed[j])
      {
        ghost var t := now;
        var ok := SendOne(c, typed[k], works(k));
        PostedGoesOn(s, t, now, c, typed, works, k, posted, ok);
        if ok {
          posted := posted + [Message(typed[k], terminals[c].name)];
        }
        k := k + 1;
      }
    }

    /** Lines 130-151: with the line that begins with "/quit" the client stops. */
    method SendMessages(c: nat, typed: seq<string>, works: nat -> bool) returns (posted: seq<Message>, k: nat)
      requires Valid() && c < |terminals| && now.clients[c].sender.Typing?
      modifies `inbox, `now, terminals[c]
      ensures Valid() && ClientMoved(old(now), now, c)
      ensures k <= |typed| && forall j :: 0 <= j < k ==> !("/quit" <= typed[j])
      ensures k < |typed| ==> "/quit" <= typed[k]
      ensures posted == Posting(typed, terminals[c].name, works, 10 - |old(inbox)|, k)
      ensures inbox == old(inbox) + posted && terminals[c].window == old(terminals[c].window) + posted
      ensures now.clients[c].sender == if k < |typed| then Stopped else Typing
    {
      ghost var s := now;
      posted, k := SendLines(c, typed, works);
      if k < |typed| {
        ghost var t := now;
        now := Quits(t, c, typed[k]);
        Runs.Chain(Step, s, t, now);
      }
    }
  }
}
