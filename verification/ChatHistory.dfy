/** What happens to the messages that the clients send, over whole runs. */
module ChatHistory {
  import opened Chat
  import opened ChatSafety
  import opened Integers

  /** What an event puts into the server's inbox. */
  function PostedBy(s: State, e: Event): seq<Message>
    requires Enabled(s, e)
  {
    match e
    case SendJoin(c, ok) => if ok then [Message("/join", s.clients[c].name)] else []
    case Say(c, text, ok) => if ok && !IsQuit(text) then [Message(text, s.clients[c].name)] else []
    case _ => []
  }

  /** What an event takes out of the inbox. */
  function HandledBy(s: State, e: Event): seq<Message>
    requires Enabled(s, e)
  {
    if e.ServerReceive? then [s.inbox[0]] else []
  }

  ghost function Posted(s: State, es: seq<Event>): seq<Message>
    decreases |es|
  {
    if es == [] || !Enabled(s, es[0]) then [] else PostedBy(s, es[0]) + Posted(Apply(s, es[0]), es[1..])
  }

  ghost function Handled(s: State, es: seq<Event>): seq<Message>
    decreases |es|
  {
    if es == [] || !Enabled(s, es[0]) then [] else HandledBy(s, es[0]) + Handled(Apply(s, es[0]), es[1..])
  }

  lemma InboxStep(s: State, e: Event)
    requires Enabled(s, e) && |s.inbox| <= QUEUE_SIZE
    ensures s.inbox + PostedBy(s, e) == HandledBy(s, e) + Apply(s, e).inbox
    ensures |Apply(s, e).inbox| <= QUEUE_SIZE
  {
    if e.ServerReceive? {
      assert s.inbox == [s.inbox[0]] + s.inbox[1..];
    } else if !e.ServerSend? {
      ClientPosts(s, e);
    }
  }

  lemma ClientPosts(s: State, e: Event)
    requires ClientEnabled(s, Actor(e), e) && |s.inbox| <= QUEUE_SIZE
    ensures Enabled(s, e) && AfterClient(s, Actor(e), e).inbox == s.inbox + PostedBy(s, e)
    ensures |s.inbox + PostedBy(s, e)| <= QUEUE_SIZE
  {
  }

  lemma Rejoin<T>(before: seq<T>, p: seq<T>, ps: seq<T>, h: seq<T>, hs: seq<T>, middle: seq<T>, after: seq<T>)
    requires before + p == h + middle && middle + ps == hs + after
    ensures before + (p + ps) == (h + hs) + after
  {
    assert before + (p + ps) == (before + p) + ps;
    assert (h + middle) + ps == h + (middle + ps);
    assert h + (hs + after) == (h + hs) + after;
  }

  /** The inbox never holds more than ten messages and loses none: the server handles what the clients
      send in the order in which they send it. */
  lemma {:induction false} InboxIsFifo(s: State, es: seq<Event>, t: State)
    requires Run(s, es, t) && |s.inbox| <= 10
    ensures s.inbox + Posted(s, es) == Handled(s, es) + t.inbox && |t.inbox| <= 10
    decreases |es|
  {
    if es == [] {
      assert s.inbox + [] == [] + s.inbox;
    } else {
      var e, u := es[0], Apply(s, es[0]);
      InboxStep(s, e);
      InboxIsFifo(u, es[1..], t);
      Rejoin(s.inbox, PostedBy(s, e), Posted(u, es[1..]), HandledBy(s, e), Handled(u, es[1..]), u.inbox, t.inbox);
    }
  }

  // ---- What the server accepts ----------------------------------------------------------------

  /** A join that finds ten slots taken is dropped. */
  predicate Dropped(m: Message, occupied: nat) {
    IsJoin(m.text) && occupied >= MAX_CLIENTS
  }

  /** The slots that are taken after a message. */
  function TakenAfter(m: Message, occupied: nat): nat {
    if IsJoin(m.text) && occupied < MAX_CLIENTS then occupied + 1 else occupied
  }

  /** The messages that are broadcast when `occupied` slots are taken at first. */
  function Accepted(ms: seq<Message>, occupied: nat): seq<Message> {
    if ms == [] then []
    else (if Dropped(ms[0], occupied) then [] else [ms[0]]) + Accepted(ms[1..], TakenAfter(ms[0], occupied))
  }

  /** The slots that are taken in the end. */
  function Occupied(ms: seq<Message>, occupied: nat): nat {
    if ms == [] then occupied else Occupied(ms[1..], TakenAfter(ms[0], occupied))
  }

  function Joins(ms: seq<Message>): seq<Message> {
    if ms == [] then [] else (if IsJoin(ms[0].text) then [ms[0]] else []) + Joins(ms[1..])
  }

  function Talk(ms: seq<Message>): seq<Message> {
    if ms == [] then [] else (if IsJoin(ms[0].text) then [] else [ms[0]]) + Talk(ms[1..])
  }

  lemma Cons(m: Message, ms: seq<Message>)
    ensures Joins([m] + ms) == (if IsJoin(m.text) then [m] else []) + Joins(ms)
    ensures Talk([m] + ms) == (if IsJoin(m.text) then [] else [m]) + Talk(ms)
  {
    assert ([m] + ms)[1..] == ms;
  }

  /** Every chat line is accepted, and of the joins as many as there are free slots, the first ones. */
  lemma {:induction false} AcceptedShape(ms: seq<Message>, occupied: nat)
    requires occupied <= 10
    ensures Talk(Accepted(ms, occupied)) == Talk(ms)
    ensures Occupied(ms, occupied) == Min(occupied + |Joins(ms)|, 10)
    ensures Joins(Accepted(ms, occupied)) == Joins(ms)[..Occupied(ms, occupied) - occupied]
  {
    if ms == [] {
    } else {
      var m, next := ms[0], TakenAfter(ms[0], occupied);
      AcceptedShape(ms[1..], next);
      Cons(m, Accepted(ms[1..], next));
      if Dropped(m, occupied) {
        assert [] + Accepted(ms[1..], next) == Accepted(ms[1..], next);
      }
    }
  }

  lemma LogStep(s: State, e: Event)
    requires Enabled(s, e) && |s.names| <= MAX_CLIENTS
    ensures var t := Apply(s, e);
            if e.ServerReceive? then
              && t.log == s.log + (if Dropped(s.inbox[0], |s.names|) then [] else [s.inbox[0]])
              && |t.names| == TakenAfter(s.inbox[0], |s.names|) <= MAX_CLIENTS
            else t.log == s.log && t.names == s.names
  {
    match e
    case ServerReceive =>
    case ServerSend(ok) => SendLeavesSlots(s, ok);
    case _ => ClientLeavesServer(s, Actor(e), e);
  }

  lemma Append(before: seq<Message>, now: seq<Message>, later: seq<Message>)
    ensures (before + now) + later == before + (now + later)
  {
  }

  /** The broadcasts of a run are the messages handled, without the joins that find the chat full; those
      joins add nobody and are sent to nobody. */
  lemma {:induction false} LogIsAccepted(s: State, es: seq<Event>, t: State)
    requires Run(s, es, t) && |s.names| <= 10
    ensures t.log == s.log + Accepted(Handled(s, es), |s.names|) && |t.names| == Occupied(Handled(s, es), |s.names|)
    decreases |es|
  {
    if es == [] {
    } else {
      var u := Apply(s, es[0]);
      var rest := Handled(u, es[1..]);
      LogStep(s, es[0]);
      LogIsAccepted(u, es[1..], t);
      if es[0].ServerReceive? {
        var m := s.inbox[0];
        assert Handled(s, es) == [m] + rest && ([m] + rest)[1..] == rest;
        Append(s.log, if Dropped(m, |s.names|) then [] else [m], Accepted(rest, |u.names|));
      } else {
        assert Handled(s, es) == rest;
      }
    }
  }

  // ---- Who keeps a queue of its own -------------------------------------------------------------

  /** The queue names that the joins among some messages stand for. */
  function JoinedQueues(ms: seq<Message>): seq<string> {
    if ms == [] then [] else (if IsJoin(ms[0].text) then [QueueName(ms[0].name)] else []) + JoinedQueues(ms[1..])
  }

  lemma {:induction false} JoinedQueuesMembers(ms: seq<Message>, q: string)
    ensures q in JoinedQueues(ms) <==> exists k :: 0 <= k < |ms| && IsJoin(ms[k].text) && QueueName(ms[k].name) == q
  {
    if ms == [] {
    } else {
      JoinedQueuesMembers(ms[1..], q);
      assert forall k :: 1 <= k < |ms| ==> ms[k] == ms[1..][k - 1];
    }
  }

  lemma JoinedQueuesCons(m: Message, dropped: bool, ms: seq<Message>)
    ensures JoinedQueues((if dropped then [] else [m]) + ms)
         == (if !dropped && IsJoin(m.text) then [QueueName(m.name)] else []) + JoinedQueues(ms)
  {
    if dropped {
      assert [] + ms == ms;
    } else {
      assert ([m] + ms)[1..] == ms;
    }
  }

  lemma NamesStep(s: State, e: Event)
    requires Enabled(s, e)
    ensures var t := Apply(s, e);
            t.names == s.names + if e.ServerReceive? && IsJoin(s.inbox[0].text) && !Dropped(s.inbox[0], |s.names|)
                                 then [QueueName(s.inbox[0].name)] else []
  {
    match e
    case ServerReceive =>
    case ServerSend(ok) => SendLeavesSlots(s, ok);
    case _ => ClientLeavesServer(s, Actor(e), e);
  }

  lemma NamesGrow(names: seq<string>, m: Message, rest: seq<Message>, occupied: nat)
    ensures (names + if IsJoin(m.text) && !Dropped(m, occupied) then [QueueName(m.name)] else [])
              + JoinedQueues(Accepted(rest, TakenAfter(m, occupied)))
         == names + JoinedQueues(Accepted([m] + rest, occupied))
  {
    assert ([m] + rest)[1..] == rest;
    JoinedQueuesCons(m, Dropped(m, occupied), Accepted(rest, TakenAfter(m, occupied)));
  }

  lemma {:induction false} NamesOfRun(s: State, es: seq<Event>, t: State)
    requires Run(s, es, t) && |s.names| <= MAX_CLIENTS
    ensures t.names == s.names + JoinedQueues(Accepted(Handled(s, es), |s.names|))
    decreases |es|
  {
    if es == [] {
    } else {
      var u := Apply(s, es[0]);
      var rest := Handled(u, es[1..]);
      LogStep(s, es[0]);
      NamesStep(s, es[0]);
      NamesOfRun(u, es[1..], t);
      if es[0].ServerReceive? {
        var m := s.inbox[0];
        assert Handled(s, es) == [m] + rest;
        NamesGrow(s.names, m, rest, |s.names|);
      } else {
        assert Handled(s, es) == rest;
      }
    }
  }

  /** Over every run, whatever else happens in it: a slot keeps a queue of its own exactly unless the
      server accepts a message that begins with "/join" under the same name. */
  lemma KeepsQueueIff(s: State, es: seq<Event>, t: State, p: nat)
    requires Run(s, es, t) && |s.names| <= 10 && p < |s.names|
    ensures var accepted := Accepted(Handled(s, es), |s.names|);
            OnlySlot(t.names, p) <==>
              && OnlySlot(s.names, p)
              && forall k :: 0 <= k < |accepted| && "/join" <= accepted[k].text ==>
                   "/client_" + accepted[k].name != s.names[p]
  {
    var joined := JoinedQueues(Accepted(Handled(s, es), |s.names|));
    NamesOfRun(s, es, t);
    JoinedQueuesMembers(Accepted(Handled(s, es), |s.names|), s.names[p]);
    OnlyAmongMore(s.names, joined, p);
  }

  lemma OnlyAmongMore(names: seq<string>, more: seq<string>, p: nat)
    requires p < |names|
    ensures OnlySlot(names + more, p) <==> OnlySlot(names, p) && names[p] !in more
  {
    assert forall q :: 0 <= q < |names| ==> (names + more)[q] == names[q];
    assert forall q :: 0 <= q < |more| ==> (names + more)[|names| + q] == more[q];
    if OnlySlot(names, p) && names[p] !in more {
      forall q | 0 <= q < |names + more| && q != p
        ensures (names + more)[q] != names[p]
      {
        assert q >= |names| ==> (names + more)[q] == more[q - |names|];
      }
    }
  }

  /** From the start: what has been broadcast is decided by what the clients have sent, in the order in
      which they have sent it. */
  lemma LogOfRun(names: seq<string>, es: seq<Event>, t: State)
    requires Run(Init(names), es, t)
    ensures |t.inbox| <= |Posted(Init(names), es)|
    ensures var posted := Posted(Init(names), es); t.log == Accepted(posted[..|posted| - |t.inbox|], 0)
  {
    var posted, handled := Posted(Init(names), es), Handled(Init(names), es);
    InboxIsFifo(Init(names), es, t);
    LogIsAccepted(Init(names), es, t);
    assert [] + posted == posted && [] + Accepted(handled, 0) == Accepted(handled, 0);
    assert posted[..|posted| - |t.inbox|] == handled;
  }
}
