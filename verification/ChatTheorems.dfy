/** What the chat guarantees in its reachable states. */
module ChatTheorems {
  import opened Chat
  import opened ChatSafety
  import opened Options
  import Runs

  // ---- Registration ------------------------------------------------------------------------

  /** At most ten slots, and occupied slots never change in the rest of the run. */
  lemma SlotsAreStable(names: seq<string>, s: State, es: seq<Event>, t: State)
    requires Reachable(names, s) && Run(s, es, t)
    ensures |t.names| <= 10 && s.names <= t.names
  {
    ReachableInv(names, s);
    RunKeepsInv(s, es, t);
  }

  /** A queue is registered for one slot only if and only if no other join under the same name has been
      accepted. The server takes every text that begins with "/join" for a join. */
  lemma OnlySlotIff(names: seq<string>, s: State, p: nat)
    requires Reachable(names, s) && p < |s.names|
    ensures |s.since| == |s.names| && s.since[p] < |s.log|
    ensures OnlySlot(s.names, p) <==>
              forall k :: 0 <= k < |s.log| && k != s.since[p] && "/join" <= s.log[k].text ==>
                s.log[k].name != s.log[s.since[p]].name
  {
    ReachableInv(names, s);
    assert forall q :: 0 <= q < |s.names| ==> JoinedAt(s.log, s.since[q], s.names[q]);
    if OnlySlot(s.names, p) {
      forall k | 0 <= k < |s.log| && k != s.since[p] && "/join" <= s.log[k].text
        ensures s.log[k].name != s.log[s.since[p]].name
      {
        var q :| 0 <= q < |s.since| && s.since[q] == k;
        assert s.names[q] != s.names[p];
      }
    } else {
      var q :| 0 <= q < |s.names| && q != p && s.names[q] == s.names[p];
      assert s.since[q] != s.since[p];
      QueueNameInjective(s.log[s.since[q]].name, s.log[s.since[p]].name);
    }
  }

  /** What a registered client says makes it lose its own queue exactly when the text begins with "/join"
      and there is a free slot. */
  lemma SayingJoinIff(s: State, c: nat, text: string, p: nat)
    requires s.server.Receiving? && s.inbox == [] && OnlySlot(s.names, p)
    requires c < |s.clients| && s.clients[c].sender.Typing? && s.names[p] == QueueName(s.clients[c].name)
    requires !IsQuit(text)
    ensures Enabled(s, Say(c, text, true)) && Enabled(Apply(s, Say(c, text, true)), ServerReceive)
    ensures OnlySlot(Apply(Apply(s, Say(c, text, true)), ServerReceive).names, p) <==>
              !(IsJoin(text) && |s.names| < MAX_CLIENTS)
  {
    var t := Apply(s, Say(c, text, true));
    assert t.names == s.names && t.inbox == [Message(text, s.clients[c].name)];
    var u := Apply(t, ServerReceive);
    assert forall q :: 0 <= q < |s.names| ==> u.names[q] == s.names[q];
    if IsJoin(text) && |s.names| < MAX_CLIENTS {
      assert u.names[|s.names|] == u.names[p];
    }
  }

  /** A single client sends its join, and the server registers it. */
  lemma OneRegisters(own: string) returns (s: State)
    ensures Reachable([own], s) && WellShaped(s) && s.names == [QueueName(own)] && s.log == [Message("/join", own)]
    ensures s.server == Casting(0) && s.inbox == [] && s.queues == map[] && s.failures == 0
    ensures s.clients == [Client(own, Typing, Idle, [], [], [])]
  {
    s := Init([own]);
    Runs.Stay(Step, s);
    s := Runs.Then(Step, Init([own]), s, SendJoin(0, true));
    assert s.inbox == [Message("/join", own)] && s.clients == [Client(own, Typing, Idle, [], [], [])];
    s := Runs.Then(Step, Init([own]), s, ServerReceive);
  }

  /** Its join is broadcast, and its queue is open for the roster. */
  lemma OneIsWelcome(own: string) returns (s: State)
    ensures Reachable([own], s) && WellShaped(s) && s.names == [QueueName(own)] && s.log == [Message("/join", own)]
    ensures s.server == Listing(0) && s.inbox == [] && s.failures == 0 && |At(s.queues, s.names[0])| == 1
    ensures s.clients == [Client(own, Typing, Idle, [], [], [])]
  {
    var start := Init([own]);
    s := OneRegisters(own);
    s := Runs.Then(Step, start, s, ServerSend(true));
    assert s.server == Casting(1) && s.failures == 0;
    s := Runs.Then(Step, start, s, ServerSend(true));
    s := Runs.Then(Step, start, s, ServerSend(true));
  }

  /** A single client joins, no call fails, and the server is done with it. */
  lemma OneJoins(own: string) returns (s: State)
    ensures Reachable([own], s) && s.server.Receiving? && s.inbox == [] && s.failures == 0
    ensures s.names == ["/client_" + own] && s.log == [Message("/join", own)]
    ensures |s.clients| == 1 && s.clients[0].name == own && s.clients[0].sender.Typing?
  {
    s := OneIsWelcome(own);
    s := Runs.Then(Step, Init([own]), s, ServerSend(true));
    s := Runs.Then(Step, Init([own]), s, ServerSend(true));
  }

  /** It happens: whatever its name, a client that joins and then says "/join", "/joining" or anything else
      that begins with "/join" is registered twice. */
  lemma SecondSlot(own: string, rest: string) returns (s: State)
    ensures Reachable([own], s) && s.failures == 0
    ensures s.log == [Message("/join", own), Message("/join" + rest, own)]
    ensures s.names == ["/client_" + own, "/client_" + own] && !OnlySlot(s.names, 0)
  {
    var text := "/join" + rest;
    s := OneJoins(own);
    assert "/join" <= text && text[1] == 'j';
    SayingJoinIff(s, 0, text, 0);
    s := Runs.Then(Step, Init([own]), s, Say(0, text, true));
    assert s.inbox == [Message(text, own)];
    s := Runs.Then(Step, Init([own]), s, ServerReceive);
  }

  // ---- Who can hold up the server -------------------------------------------------------------

  /** The slot whose queue the next statement of the server sends to. */
  function Target(s: State): Option<nat> {
    if NextAttempt(s).Some? then Some(NextAttempt(s).value.0) else None
  }

  lemma BlockedIff(s: State)
    requires SlotsOk(s) && RoomOk(s) && !s.server.Receiving?
    ensures !SendEnabled(s, true) <==>
              && Target(s).Some? && Target(s).value < |s.names|
              && |At(s.queues, s.names[Target(s).value])| == QUEUE_SIZE
  {
    if Target(s).Some? {
      assert |At(s.queues, s.names[Target(s).value])| <= QUEUE_SIZE;
    }
  }

  /** Inside its loops the server is held up if and only if the queue it sends to holds ten messages. */
  lemma ServerBlockedIff(names: seq<string>, s: State)
    requires Reachable(names, s) && !s.server.Receiving?
    ensures !Enabled(s, ServerSend(true)) <==>
              && Target(s).Some? && Target(s).value < |s.names|
              && |At(s.queues, s.names[Target(s).value])| == 10
  {
    ReachableInv(names, s);
    BlockedIff(s);
  }

  /** The server stands before a full queue. */
  ghost predicate HeldUp(s: State) {
    && WellShaped(s) && s.log != [] && Target(s).Some? && Target(s).value < |s.names|
    && |At(s.queues, s.names[Target(s).value])| == QUEUE_SIZE
  }

  lemma ReceiveFreesServer(s: State, c: nat)
    requires HeldUp(s) && c < |s.clients| && Running(s.clients[c]) && s.clients[c].receiver.Idle?
    requires s.names[Target(s).value] == QueueName(s.clients[c].name)
    ensures Enabled(s, Receive(c))
    ensures var t := Apply(s, Receive(c)); Enabled(t, ServerSend(true)) && t.failures == s.failures
  {
    var t, q := Apply(s, Receive(c)), s.names[Target(s).value];
    assert t.names == s.names && t.server == s.server && t.log == s.log && At(t.queues, q) == At(s.queues, q)[1..];
    assert RoomAt(t, Target(s).value);
  }

  lemma ShowKeepsHeldUp(s: State, c: nat)
    requires HeldUp(s) && c < |s.clients| && Running(s.clients[c]) && s.clients[c].receiver.Showing?
    ensures Enabled(s, Show(c))
    ensures var t := Apply(s, Show(c));
            && HeldUp(t) && t.failures == s.failures && Target(t) == Target(s) && t.names == s.names
            && |t.clients| == |s.clients| && t.clients[c].receiver.Idle? && Running(t.clients[c])
            && t.clients[c].name == s.clients[c].name
  {
    var t := Apply(s, Show(c));
    assert t.names == s.names && t.server == s.server && t.log == s.log && t.queues == s.queues;
    assert t.clients[c].sender == s.clients[c].sender;
  }

  lemma ShowThenReceive(s: State, c: nat) returns (t: State)
    requires HeldUp(s) && c < |s.clients| && Running(s.clients[c]) && s.clients[c].receiver.Showing?
    requires s.names[Target(s).value] == QueueName(s.clients[c].name)
    ensures Run(s, [Show(c), Receive(c)], t) && Enabled(t, ServerSend(true)) && t.failures == s.failures
  {
    var u := Apply(s, Show(c));
    ShowKeepsHeldUp(s, c);
    ReceiveFreesServer(u, c);
    t := Apply(u, Receive(c));
    Runs.RunOne(Step, s, Show(c));
    Runs.RunOne(Step, u, Receive(c));
    Runs.RunConcat(Step, s, [Show(c)], u, [Receive(c)], t);
    assert [Show(c)] + [Receive(c)] == [Show(c), Receive(c)];
  }

  /** A running client behind the full queue lets the server go on within two steps of its receiver
      thread, and no call has to fail. */
  lemma ReaderFreesServer(names: seq<string>, s: State, c: nat) returns (es: seq<Event>, t: State)
    requires Reachable(names, s) && !s.server.Receiving? && !Enabled(s, ServerSend(true))
    requires c < |s.clients| && Running(s.clients[c])
    requires Target(s).Some? && Target(s).value < |s.names|
    requires s.names[Target(s).value] == QueueName(s.clients[c].name)
    ensures es == [Receive(c)] || es == [Show(c), Receive(c)]
    ensures Run(s, es, t) && Enabled(t, ServerSend(true)) && t.failures == s.failures
  {
    ReachableInv(names, s);
    ServerBlockedIff(names, s);
    assert HeldUp(s);
    if s.clients[c].receiver.Idle? {
      ReceiveFreesServer(s, c);
      Runs.RunOne(Step, s, Receive(c));
      es, t := [Receive(c)], Apply(s, Receive(c));
    } else {
      t := ShowThenReceive(s, c);
      es := [Show(c), Receive(c)];
    }
  }

  // ---- Streams ----------------------------------------------------------------------------------

  /** The deliveries, one by one: position `since`, the slots up to p, and the positions behind `since`. */
  ghost predicate JoinRosterTalk(ds: seq<Delivery>, since: nat, p: nat, n: nat) {
    && |ds| == p + 1 + n - since
    && forall k :: 0 <= k < |ds| ==>
         ds[k] == if k == 0 then Cast(since) else if k <= p + 1 then Entry(k - 1) else Cast(since + k - p - 1)
  }

  /** Whenever the server waits for the next message: the deliveries tried for a slot are its own join,
      the roster of the slots up to itself, and every later broadcast, in server order. Those made are
      the same ones if no call has failed, and the same ones with gaps otherwise. */
  lemma StreamOfSlot(names: seq<string>, s: State, p: nat)
    requires Reachable(names, s) && s.server.Receiving? && p < |s.names|
    ensures |s.since| == |s.tried| == |s.sent| == |s.names| && JoinedAt(s.log, s.since[p], s.names[p])
    ensures s.tried[p] == [Cast(s.since[p])] + Entries(p + 1) + Casts(s.since[p] + 1, |s.log|)
    ensures JoinRosterTalk(s.tried[p], s.since[p], p, |s.log|)
    ensures Subsequence(s.sent[p], s.tried[p])
    ensures s.failures == 0 ==> s.sent[p] == s.tried[p]
  {
    ReachableInv(names, s);
    QuietStream(s, p);
  }

  lemma StreamAt(since: nat, p: nat, n: nat)
    requires since < n
    ensures JoinRosterTalk([Cast(since)] + Entries(p + 1) + Casts(since + 1, n), since, p, n)
  {
    EntriesAt(p + 1);
    CastsAt(since + 1, n);
  }

  lemma {:induction false} EntriesAt(count: nat)
    ensures forall k :: 0 <= k < count ==> Entries(count)[k] == Entry(k)
  {
    if count == 0 {
    } else {
      EntriesAt(count - 1);
    }
  }

  lemma {:induction false} CastsAt(lo: nat, hi: nat)
    ensures forall k :: 0 <= k < hi - lo ==> Casts(lo, hi)[k] == Cast(lo + k)
  {
    if hi <= lo {
    } else {
      CastsAt(lo, hi - 1);
    }
  }

  lemma QuietStream(s: State, p: nat)
    requires StreamsOk(s) && s.server.Receiving? && p < |s.names|
    ensures s.since[p] < |s.log|
    ensures s.tried[p] == [Cast(s.since[p])] + Entries(p + 1) + Casts(s.since[p] + 1, |s.log|)
    ensures JoinRosterTalk(s.tried[p], s.since[p], p, |s.log|)
  {
    assert s.tried[p] == Expected(s, p);
    StreamShape(s.since[p], p, |s.log|);
    StreamAt(s.since[p], p, |s.log|);
  }

  ghost predicate InOrder(ds: seq<Delivery>) {
    forall x, y :: 0 <= x < y < |ds| && ds[x].Cast? && ds[y].Cast? ==> ds[x].pos < ds[y].pos
  }

  ghost predicate Below(ds: seq<Delivery>, bound: nat) {
    forall x :: 0 <= x < |ds| && ds[x].Cast? ==> ds[x].pos < bound
  }

  lemma {:induction false} WelcomeInOrder(since: nat, count: nat)
    ensures InOrder(Welcome(since, count)) && Below(Welcome(since, count), since + 1)
  {
    if count == 0 {
    } else {
      WelcomeInOrder(since, count - 1);
    }
  }

  lemma {:induction false} StreamInOrder(since: nat, slot: nat, upTo: nat)
    requires since < upTo
    ensures InOrder(Stream(since, slot, upTo)) && Below(Stream(since, slot, upTo), upTo)
  {
    if upTo == since + 1 {
      WelcomeInOrder(since, slot + 1);
    } else {
      StreamInOrder(since, slot, upTo - 1);
    }
  }

  lemma SubsequenceInOrder(a: seq<Delivery>, b: seq<Delivery>)
    requires Subsequence(a, b) && InOrder(b)
    ensures InOrder(a)
  {
    var at: seq<nat> :| Picks(a, b, at);
    forall x, y | 0 <= x < y < |a| && a[x].Cast? && a[y].Cast?
      ensures a[x].pos < a[y].pos
    {
      assert b[at[x]] == a[x] && b[at[y]] == a[y] && at[x] < at[y];
    }
  }

  lemma ExpectedInOrder(s: State, p: nat)
    requires StreamsOk(s) && p < |s.names|
    ensures InOrder(Expected(s, p))
  {
    var n := |s.log|;
    WelcomeInOrder(s.since[p], if s.server.Listing? then s.server.i else 0);
    StreamInOrder(s.since[p], p, n);
    if s.since[p] < n - 1 {
      StreamInOrder(s.since[p], p, n - 1);
    }
  }

  lemma SentInOrder(names: seq<string>, s: State, p: nat)
    requires Reachable(names, s) && p < |s.names|
    ensures WellShaped(s) && InOrder(s.sent[p])
  {
    ReachableInv(names, s);
    ExpectedInOrder(s, p);
    SubsequenceInOrder(s.sent[p], s.tried[p]);
  }

  /** Without failed calls the queue of a slot has taken in its whole stream, and of that all but ten
      messages have been read. */
  lemma ReaderKeepsUp(names: seq<string>, s: State, p: nat)
    requires Reachable(names, s) && s.server.Receiving? && s.failures == 0 && OnlySlot(s.names, p)
    ensures |s.since| == |s.names|
    ensures |At(s.taken, s.names[p])| + 10 >= (p + 1) + (|s.log| - s.since[p])
  {
    ReachableInv(names, s);
    StreamOfSlot(names, s, p);
    assert Through(s, s.names[p]) == Contents(s.sent[p], s.log, s.names);
    assert |At(s.queues, s.names[p])| <= QUEUE_SIZE;
  }

  /** The join of the tenth client and the ten roster entries are one message more than its queue holds:
      without failed calls the server is not done with that join before the newcomer has read. */
  lemma TenthMustRead(names: seq<string>, s: State)
    requires Reachable(names, s) && s.server.Receiving? && s.failures == 0
    requires |s.names| == 10 && OnlySlot(s.names, 9)
    ensures At(s.taken, s.names[9]) != []
  {
    StreamOfSlot(names, s, 9);
    ReaderKeepsUp(names, s, 9);
  }

  lemma {:induction false} CastsContain(lo: nat, hi: nat, pos: nat)
    requires lo <= pos < hi
    ensures Cast(pos) in Casts(lo, hi)
  {
    if pos == hi - 1 {
    } else {
      CastsContain(lo, hi - 1, pos);
    }
  }

  /** Without failed calls every later broadcast is sent for every slot. */
  lemma LaterBroadcastSent(names: seq<string>, s: State, p: nat, pos: nat)
    requires Reachable(names, s) && s.server.Receiving? && s.failures == 0 && p < |s.names|
    requires |s.since| == |s.names| && s.since[p] < pos < |s.log|
    ensures |s.sent| == |s.names| && Cast(pos) in s.sent[p]
  {
    StreamOfSlot(names, s, p);
    var casts := Casts(s.since[p] + 1, |s.log|);
    CastsContain(s.since[p] + 1, |s.log|, pos);
    assert s.sent[p] == [Cast(s.since[p])] + Entries(p + 1) + casts;
    InTail([Cast(s.since[p])] + Entries(p + 1), casts, Cast(pos));
  }

  lemma InTail(front: seq<Delivery>, back: seq<Delivery>, d: Delivery)
    requires d in back
    ensures d in front + back
  {
  }

  /** A queue that is registered for two slots gets every later broadcast twice. */
  lemma SentTwice(names: seq<string>, s: State, p: nat, q: nat, pos: nat)
    requires Reachable(names, s) && s.server.Receiving? && s.failures == 0
    requires p < q < |s.names| && s.names[p] == s.names[q]
    requires |s.since| == |s.names| && s.since[q] < pos < |s.log|
    ensures |s.sent| == |s.names| && Cast(pos) in s.sent[p] && Cast(pos) in s.sent[q]
  {
    ReachableInv(names, s);
    assert s.since[p] < s.since[q];
    LaterBroadcastSent(names, s, p, pos);
    LaterBroadcastSent(names, s, q, pos);
  }
}
