/** The chat in larger strides: the loops of the server and the two threads of a client between points
    where they can be held up, as runs of the step function. */
module ChatSegments {
  import opened Chat
  import Runs
  import opened ChatSafety

  // ---- The loops of the server --------------------------------------------------------------------

  /** Between s and t these deliveries have been tried and made for slot p, and if its queue is its own,
      these messages have been added to it. */
  ghost predicate SlotGets(s: State, t: State, p: nat, tried: seq<Delivery>, sent: seq<Delivery>, added: seq<Message>) {
    && p < |s.names| <= |t.names| && WellShaped(s) && WellShaped(t)
    && t.tried[p] == s.tried[p] + tried && t.sent[p] == s.sent[p] + sent
    && (OnlySlot(s.names, p) ==> At(t.queues, s.names[p]) == At(s.queues, s.names[p]) + added)
  }

  lemma AttemptAt(s: State, slot: nat, d: Delivery, ok: bool, p: nat)
    requires WellShaped(s) && slot < |s.names| && p < |s.names|
    ensures SlotGets(s, Attempt(s, slot, d, ok), p, if p == slot then [d] else [],
                     if p == slot && ok then [d] else [], if p == slot && ok then [Content(d, s.log, s.names)] else [])
  {
  }

  lemma SlotGetsMore(s: State, t: State, u: State, p: nat, tried: seq<Delivery>, sent: seq<Delivery>,
                     added: seq<Message>, tried': seq<Delivery>, sent': seq<Delivery>, added': seq<Message>)
    requires SlotGets(s, t, p, tried, sent, added) && SlotGets(t, u, p, tried', sent', added') && t.names == s.names
    ensures SlotGets(s, u, p, tried + tried', sent + sent', added + added')
  {
  }

  /** Slot p is served by the broadcast loop when its turn comes. */
  ghost predicate CastTo(s: State, t: State, p: nat, done: seq<bool>)
    requires s.log != []
  {
    var d := Cast(|s.log| - 1);
    var ok := p < |done| && done[p];
    SlotGets(s, t, p, if p < |done| then [d] else [], if ok then [d] else [], if ok then [s.log[d.pos]] else [])
  }

  /** The server has come from the head of its broadcast loop in s to slot i, with these sends done. */
  ghost predicate CastUpTo(s: State, t: State, done: seq<bool>) {
    && CanReach(s, t) && t.server == Casting(|done|) && |done| <= |s.names| && s.log != []
    && SameSlots(s, t) && t.inbox == s.inbox && WellShaped(t)
    && (forall p :: 0 <= p < |s.names| ==> CastTo(s, t, p, done))
  }

  /** A send for a slot with a queue of its own succeeds exactly if the calls work and there is room. */
  ghost predicate SendsIf(s: State, p: nat, works: bool, ok: bool) {
    p < |s.names| && (OnlySlot(s.names, p) ==> (ok <==> works && |At(s.queues, s.names[p])| < 10))
  }

  /** The queue of a slot, if it is its own, has grown by the message exactly if the calls work and there
      was room. */
  ghost predicate Delivered(s: State, t: State, p: nat, msg: Message, works: bool) {
    && p < |s.names| && s.names <= t.names
    && (OnlySlot(t.names, p) ==>
          var before := At(s.queues, s.names[p]);
          At(t.queues, s.names[p]) == before + if works && |before| < 10 then [msg] else [])
  }

  lemma DeliveredLater(s: State, t: State, u: State, p: nat, msg: Message, works: bool)
    requires s.names <= t.names && s.queues == t.queues && p < |s.names| && Delivered(t, u, p, msg, works)
    ensures Delivered(s, u, p, msg, works)
  {
    assert t.names[p] == s.names[p];
  }

  lemma AllDeliveredLater(s: State, t: State, u: State, msg: Message, works: nat -> bool)
    requires s.names <= t.names && s.queues == t.queues
    requires forall p :: 0 <= p < |s.names| ==> Delivered(t, u, p, msg, works(p))
    ensures forall p :: 0 <= p < |s.names| ==> Delivered(s, u, p, msg, works(p))
  {
    forall p | 0 <= p < |s.names|
      ensures Delivered(s, u, p, msg, works(p))
    {
      DeliveredLater(s, t, u, p, msg, works(p));
    }
  }

  /** The queue of a slot, if it is its own, is as before. */
  ghost predicate Kept(s: State, t: State, p: nat) {
    p < |s.names| && (OnlySlot(s.names, p) ==> At(t.queues, s.names[p]) == At(s.queues, s.names[p]))
  }

  lemma CastGoesOn(s: State, t: State, done: seq<bool>, ok: bool) returns (u: State)
    requires CastUpTo(s, t, done) && |done| < |s.names| && (ok ==> RoomAt(t, |done|))
    ensures u == Attempt(t, |done|, Cast(|s.log| - 1), ok).(server := Casting(|done| + 1))
    ensures CastUpTo(s, u, done + [ok])
  {
    var i, d := |done|, Cast(|s.log| - 1);
    u := Runs.Then(Step, s, t, ServerSend(ok));
    SendLeavesSlots(t, ok);
    forall p | 0 <= p < |s.names|
      ensures CastTo(s, u, p, done + [ok])
    {
      assert CastTo(s, t, p, done);
      AttemptAt(t, i, d, ok, p);
    }
  }

  /** The roster entries that were sent. */
  function Made(done: seq<bool>): seq<Delivery> {
    if done == [] then []
    else Made(done[..|done| - 1]) + if done[|done| - 1] then [Entry(|done| - 1)] else []
  }

  /** The messages that the marked rounds of the roster loop add: each carries the name in its own slot. */
  ghost predicate ListedAt(added: seq<Message>, names: seq<string>, done: seq<bool>, at: seq<nat>) {
    && |at| == |added| && |done| <= |names|
    && (forall k :: 0 <= k < |at| ==> at[k] < |done| && added[k] == Message("/join", names[at[k]]))
    && (forall j, k :: 0 <= j < k < |at| ==> at[j] < at[k])
    && (forall i: nat :: i < |done| ==> (i in at <==> done[i]))
  }

  ghost predicate Listed(added: seq<Message>, names: seq<string>, done: seq<bool>) {
    exists at :: ListedAt(added, names, done, at)
  }

  lemma ListedMore(added: seq<Message>, names: seq<string>, done: seq<bool>, ok: bool)
    requires Listed(added, names, done) && |done| < |names|
    ensures Listed(added + if ok then [Message("/join", names[|done|])] else [], names, done + [ok])
  {
    var at :| ListedAt(added, names, done, at);
    if ok {
      var last: nat := |done|;
      assert forall i: nat :: i in at + [last] <==> i in at || i == last;
      assert ListedAt(added + [Message("/join", names[last])], names, done + [ok], at + [last]);
    } else {
      assert ListedAt(added + [], names, done + [ok], at);
    }
  }

  /** The entries made name their own slots, in order. */
  lemma {:induction false} MadeListed(done: seq<bool>, log: seq<Message>, names: seq<string>)
    requires |done| <= |names|
    ensures Listed(Contents(Made(done), log, names), names, done)
  {
    if done == [] {
      assert ListedAt([], names, done, []);
    } else {
      var front, ok := done[..|done| - 1], done[|done| - 1];
      MadeListed(front, log, names);
      ListedMore(Contents(Made(front), log, names), names, front, ok);
      MadeGrows(front, ok, log, names);
      assert done == front + [ok];
    }
  }

  /** Between s and t these messages have been added to the queue of the last slot, whoever shares it, and
      to no other queue. */
  ghost predicate RosterGets(s: State, t: State, added: seq<Message>) {
    && s.names != []
    && var q := s.names[|s.names| - 1];
       && At(t.queues, q) == At(s.queues, q) + added
       && forall r :: r != q ==> At(t.queues, r) == At(s.queues, r)
  }

  ghost predicate ListTo(s: State, t: State, p: nat, done: seq<bool>) {
    if p == |s.names| - 1 then SlotGets(s, t, p, Entries(|done|), Made(done), Contents(Made(done), s.log, s.names))
    else SlotGets(s, t, p, [], [], [])
  }

  /** The server has come from the head of its roster loop in s to slot i, with these sends done. */
  ghost predicate ListUpTo(s: State, t: State, done: seq<bool>) {
    && CanReach(s, t) && t.server == Listing(|done|) && |done| <= |s.names| && s.log != [] && s.names != []
    && SameSlots(s, t) && t.inbox == s.inbox && WellShaped(t)
    && RosterGets(s, t, Contents(Made(done), s.log, s.names))
    && (forall p :: 0 <= p < |s.names| ==> ListTo(s, t, p, done))
  }

  /** A roster entry is sent exactly if the calls work and there is room behind the entries before. */
  ghost predicate ListsIf(s: State, done: seq<bool>, works: bool, ok: bool) {
    s.names != [] && (ok <==> works && |At(s.queues, s.names[|s.names| - 1])| + |Made(done)| < 10)
  }

  /** Every entry so far was sent or not as it should be. */
  ghost predicate AllListed(s: State, works: nat -> bool, done: seq<bool>) {
    forall i :: 0 <= i < |done| ==> ListsIf(s, done[..i], works(i), done[i])
  }

  lemma AllListedMore(s: State, works: nat -> bool, done: seq<bool>, ok: bool)
    requires AllListed(s, works, done) && ListsIf(s, done, works(|done|), ok)
    ensures AllListed(s, works, done + [ok])
  {
    var more := done + [ok];
    forall i | 0 <= i < |more|
      ensures ListsIf(s, more[..i], works(i), more[i])
    {
      assert more[..i] == done[..i];
    }
  }

  lemma MadeGrows(done: seq<bool>, ok: bool, log: seq<Message>, names: seq<string>)
    ensures Made(done + [ok]) == Made(done) + if ok then [Entry(|done|)] else []
    ensures Contents(Made(done + [ok]), log, names)
         == Contents(Made(done), log, names) + if ok then [Content(Entry(|done|), log, names)] else []
  {
    assert (done + [ok])[..|done|] == done;
    if ok {
      ContentsOfSnoc(Made(done), Entry(|done|), log, names);
    } else {
      assert Made(done) + [] == Made(done);
    }
  }

  lemma ListSlot(s: State, t: State, done: seq<bool>, ok: bool, p: nat)
    requires ListUpTo(s, t, done) && WellShaped(s) && p < |s.names|
    ensures ListTo(s, Attempt(t, |s.names| - 1, Entry(|done|), ok), p, done + [ok])
  {
    var last, d := |s.names| - 1, Entry(|done|);
    var u := Attempt(t, last, d, ok);
    assert ListTo(s, t, p, done);
    AttemptAt(t, last, d, ok, p);
    if p == last {
      MadeGrows(done, ok, s.log, s.names);
      SlotGetsMore(s, t, u, p, Entries(|done|), Made(done), Contents(Made(done), s.log, s.names), [d],
                   if ok then [d] else [], if ok then [Content(d, s.log, s.names)] else []);
    } else {
      SlotGetsMore(s, t, u, p, [], [], [], [], [], []);
    }
  }

  lemma EntryIsAdded(s: State, d: Delivery, ok: bool)
    requires WellShaped(s) && s.names != []
    ensures RosterGets(s, Attempt(s, |s.names| - 1, d, ok), if ok then [Content(d, s.log, s.names)] else [])
  {
  }

  lemma RosterGetsMore(s: State, t: State, u: State, added: seq<Message>, more: seq<Message>)
    requires RosterGets(s, t, added) && RosterGets(t, u, more) && t.names == s.names
    ensures RosterGets(s, u, added + more)
  {
  }

  lemma ListGoesOn(s: State, t: State, done: seq<bool>, ok: bool) returns (u: State)
    requires ListUpTo(s, t, done) && WellShaped(s)
    requires |done| < |s.names| && (ok ==> RoomAt(t, |s.names| - 1))
    ensures u == Attempt(t, |s.names| - 1, Entry(|done|), ok).(server := Listing(|done| + 1))
    ensures ListUpTo(s, u, done + [ok])
  {
    u := Runs.Then(Step, s, t, ServerSend(ok));
    SendLeavesSlots(t, ok);
    forall p | 0 <= p < |s.names|
      ensures ListTo(s, u, p, done + [ok])
    {
      ListSlot(s, t, done, ok, p);
    }
    EntryIsAdded(t, Entry(|done|), ok);
    MadeGrows(done, ok, s.log, s.names);
    RosterGetsMore(s, t, Attempt(t, |s.names| - 1, Entry(|done|), ok), Contents(Made(done), s.log, s.names),
                   if ok then [Content(Entry(|done|), s.log, s.names)] else []);
  }

  lemma DeliveredThenKept(s: State, t: State, u: State, p: nat, msg: Message, works: bool)
    requires Delivered(s, t, p, msg, works) && Kept(t, u, p) && u.names == t.names
    ensures Delivered(s, u, p, msg, works)
  {
  }

  /** The server goes on without touching slots, inbox or queues. */
  ghost predicate Turned(s: State, t: State) {
    SameSlots(s, t) && WellShaped(t) && t.inbox == s.inbox && t.queues == s.queues && CanReach(s, t)
  }

  lemma CastingEnds(s: State) returns (t: State)
    requires WellShaped(s) && s.log != [] && s.server == Casting(|s.names|)
    ensures Turned(s, t) && t.server == if IsJoin(s.log[|s.log| - 1].text) then Opening else Receiving
  {
    Runs.Stay(Step, s);
    t := Runs.Then(Step, s, s, ServerSend(true));
  }

  lemma RosterOpens(s: State, opens: bool) returns (t: State)
    requires WellShaped(s) && s.log != [] && s.names != [] && s.server.Opening?
    ensures Turned(s, t) && t.server == if opens then Listing(0) else Receiving
  {
    Runs.Stay(Step, s);
    t := Runs.Then(Step, s, s, ServerSend(opens));
  }

  lemma RosterEnds(s: State) returns (t: State)
    requires WellShaped(s) && s.log != [] && s.names != [] && s.server == Listing(|s.names|)
    ensures Turned(s, t) && t.server == Receiving
  {
    Runs.Stay(Step, s);
    t := Runs.Then(Step, s, s, ServerSend(true));
  }

  /** What the roster loop adds to a queue: the names that have been sent, each of them exactly if the calls
      work and there was room behind those before. */
  ghost predicate RosterAdded(before: seq<Message>, after: seq<Message>, names: seq<string>, works: nat -> bool,
                              done: seq<bool>)
  {
    && before <= after && Listed(after[|before|..], names, done)
    && forall i :: 0 <= i < |done| ==> (done[i] <==> works(i) && |before| + |Made(done[..i])| < 10)
  }

  /** The roster loop changes the queue of the last slot only. */
  ghost predicate RosterSent(s: State, t: State, works: nat -> bool, done: seq<bool>) {
    && s.names != []
    && var q := s.names[|s.names| - 1];
       && RosterAdded(At(s.queues, q), At(t.queues, q), s.names, works, done)
       && forall r :: r != q ==> At(t.queues, r) == At(s.queues, r)
  }

  lemma RosterIsAdded(before: seq<Message>, log: seq<Message>, names: seq<string>, works: nat -> bool, done: seq<bool>)
    requires |done| <= |names|
    requires forall i :: 0 <= i < |done| ==> (done[i] <==> works(i) && |before| + |Made(done[..i])| < 10)
    ensures RosterAdded(before, before + Contents(Made(done), log, names), names, works, done)
  {
    MadeListed(done, log, names);
    assert (before + Contents(Made(done), log, names))[|before|..] == Contents(Made(done), log, names);
  }

  lemma RosterIsSent(s: State, t: State, works: nat -> bool, done: seq<bool>)
    requires ListUpTo(s, t, done) && AllListed(s, works, done)
    ensures RosterSent(s, t, works, done)
  {
    var before := At(s.queues, s.names[|s.names| - 1]);
    forall i | 0 <= i < |done|
      ensures done[i] <==> works(i) && |before| + |Made(done[..i])| < 10
    {
      assert ListsIf(s, done[..i], works(i), done[i]);
    }
    RosterIsAdded(before, s.log, s.names, works, done);
  }

  /** Opening the queue, the loop and closing it together. */
  lemma WholeRoster(s: State, t: State, u: State, v: State, works: nat -> bool, done: seq<bool>)
    requires Turned(s, t) && CanReach(t, u) && SameSlots(t, u) && RosterSent(t, u, works, done) && Turned(u, v)
    ensures CanReach(s, v) && SameSlots(s, v) && RosterSent(s, v, works, done)
  {
    Runs.Chain(Step, s, t, u);
    Runs.Chain(Step, s, u, v);
  }

  lemma RosterKeepsOthers(s: State, t: State, works: nat -> bool, done: seq<bool>)
    requires RosterSent(s, t, works, done)
    ensures forall p :: 0 <= p < |s.names| - 1 ==> Kept(s, t, p)
  {
  }

  lemma NoRoster(s: State, t: State, works: nat -> bool)
    requires Turned(s, t) && s.names != []
    ensures RosterSent(s, t, works, [])
  {
    var before := At(s.queues, s.names[|s.names| - 1]);
    RosterIsAdded(before, s.log, s.names, works, []);
    assert before + Contents(Made([]), s.log, s.names) == before;
  }

  /** What a newly registered slot finds in its queue, if it is its own: its join, and then the roster. */
  ghost predicate Newcomer(s: State, t: State, msg: Message, works: nat -> bool, lists: nat -> bool, done: seq<bool>) {
    && t.names != []
    && var last := |t.names| - 1;
       var before := At(s.queues, t.names[last]);
       var first := before + if works(last) && |before| < 10 then [msg] else [];
       OnlySlot(t.names, last) ==> RosterAdded(first, At(t.queues, t.names[last]), t.names, lists, done)
  }

  lemma NewcomerLater(s: State, t: State, u: State, msg: Message, works: nat -> bool, lists: nat -> bool,
                      done: seq<bool>)
    requires s.queues == t.queues && Newcomer(t, u, msg, works, lists, done)
    ensures Newcomer(s, u, msg, works, lists, done)
  {
  }

  lemma NewcomerServed(s: State, t: State, u: State, msg: Message, works: nat -> bool, lists: nat -> bool,
                       done: seq<bool>)
    requires s.names != [] && t.names == s.names && u.names == s.names && u.log == t.log
    requires Delivered(s, t, |s.names| - 1, msg, works(|s.names| - 1)) && RosterSent(t, u, lists, done)
    ensures Newcomer(s, u, msg, works, lists, done)
  {
  }

  // ---- The threads of a client --------------------------------------------------------------------

  /** Only client c has moved, and it has kept its name. */
  ghost predicate ClientMoved(s: State, t: State, c: nat) {
    && CanReach(s, t) && SameServer(s, t) && c < |s.clients| == |t.clients|
    && t.clients == s.clients[c := t.clients[c]] && t.clients[c].name == s.clients[c].name
  }

  /** Lines 42-66: takes the next message and shows it or not. */
  lemma ReceivesOne(s: State, c: nat) returns (t: State)
    requires c < |s.clients| && Running(s.clients[c]) && s.clients[c].receiver.Idle?
    requires At(s.queues, QueueName(s.clients[c].name)) != []
    ensures ClientMoved(s, t, c) && t.inbox == s.inbox
    ensures var q := QueueName(s.clients[c].name); t.queues == s.queues[q := At(s.queues, q)[1..]]
    ensures t.clients[c].receiver.Idle? && t.clients[c].sender == s.clients[c].sender
    ensures var x, msg := s.clients[c], At(s.queues, QueueName(s.clients[c].name))[0];
            t.clients[c].window == x.window + if Visible(msg, x.name) then [msg] else []
  {
    Runs.Stay(Step, s);
    var u := Runs.Then(Step, s, s, Receive(c));
    assert u.clients[c].receiver.Showing?;
    t := Runs.Then(Step, s, u, Show(c));
  }

  /** Lines 140-149: posts a line and, if that works, shows it. */
  lemma SaysOne(s: State, c: nat, text: string, ok: bool) returns (t: State)
    requires c < |s.clients| && s.clients[c].sender.Typing? && !IsQuit(text) && (ok ==> |s.inbox| < QUEUE_SIZE)
    ensures ClientMoved(s, t, c) && t.queues == s.queues
    ensures t.clients[c].sender.Typing? && t.clients[c].receiver == s.clients[c].receiver
    ensures var line := if ok then [Message(text, s.clients[c].name)] else [];
            t.inbox == s.inbox + line && t.clients[c].window == s.clients[c].window + line
  {
    Runs.Stay(Step, s);
    t := Runs.Then(Step, s, s, Say(c, text, ok));
    if ok {
      assert t.clients[c].sender == Echoing(text);
      t := Runs.Then(Step, s, t, Echo(c));
    }
  }

  /** Lines 137-138. */
  lemma Quits(s: State, c: nat, text: string) returns (t: State)
    requires c < |s.clients| && s.clients[c].sender.Typing? && IsQuit(text)
    ensures ClientMoved(s, t, c) && t.queues == s.queues && t.inbox == s.inbox
    ensures t.clients[c] == s.clients[c].(sender := Stopped)
  {
    Runs.Stay(Step, s);
    t := Runs.Then(Step, s, s, Say(c, text, false));
  }

  /** Lines 116-118. */
  lemma AsksToJoin(s: State, c: nat, ok: bool) returns (t: State)
    requires c < |s.clients| && s.clients[c].sender.Unjoined? && (ok ==> |s.inbox| < QUEUE_SIZE)
    ensures ClientMoved(s, t, c) && t.queues == s.queues
    ensures t.inbox == s.inbox + if ok then [Message("/join", s.clients[c].name)] else []
    ensures t.clients[c] == s.clients[c].(sender := Typing)
  {
    Runs.Stay(Step, s);
    t := Runs.Then(Step, s, s, SendJoin(c, ok));
  }

  lemma ClientMovesOn(s: State, t: State, u: State, c: nat)
    requires ClientMoved(s, t, c) && ClientMoved(t, u, c)
    ensures ClientMoved(s, u, c)
  {
    Runs.Chain(Step, s, t, u);
    assert u.clients == s.clients[c := u.clients[c]];
  }

  /** From s on the client has received the first k messages of its queue, and shown what is to be shown. */
  ghost predicate ReceivedUpTo(s: State, t: State, c: nat, k: nat) {
    && ClientMoved(s, t, c) && t.inbox == s.inbox
    && t.clients[c].receiver.Idle? && t.clients[c].sender == s.clients[c].sender
    && var own := s.clients[c].name;
       var arrived := At(s.queues, QueueName(own));
       && k <= |arrived| && At(t.queues, QueueName(own)) == arrived[k..]
       && (forall r :: r != QueueName(own) ==> At(t.queues, r) == At(s.queues, r))
       && t.clients[c].window == s.clients[c].window + ChatLines(arrived[..k], own)
  }

  lemma ReceivedNothing(s: State, c: nat)
    requires c < |s.clients| && s.clients[c].receiver.Idle?
    ensures ReceivedUpTo(s, s, c, 0)
  {
    Runs.Stay(Step, s);
    assert s.clients[c := s.clients[c]] == s.clients;
  }

  lemma ReceivedGoesOn(s: State, t: State, u: State, c: nat, k: nat)
    requires ReceivedUpTo(s, t, c, k) && ClientMoved(t, u, c) && u.inbox == t.inbox
    requires At(t.queues, QueueName(s.clients[c].name)) != []
    requires var q := QueueName(s.clients[c].name); u.queues == t.queues[q := At(t.queues, q)[1..]]
    requires u.clients[c].receiver.Idle? && u.clients[c].sender == t.clients[c].sender
    requires var msg := At(t.queues, QueueName(s.clients[c].name))[0];
             u.clients[c].window == t.clients[c].window + if Visible(msg, s.clients[c].name) then [msg] else []
    ensures ReceivedUpTo(s, u, c, k + 1)
  {
    var own := s.clients[c].name;
    var arrived := At(s.queues, QueueName(own));
    ClientMovesOn(s, t, u, c);
    LinesGrow(arrived[..k], arrived[k], own);
    assert arrived[..k + 1] == arrived[..k] + [arrived[k]];
  }

  lemma ReceivedAll(s: State, t: State, c: nat, k: nat)
    requires ReceivedUpTo(s, t, c, k) && At(t.queues, QueueName(s.clients[c].name)) == []
    ensures t.clients[c].window
         == s.clients[c].window + ChatLines(At(s.queues, QueueName(s.clients[c].name)), s.clients[c].name)
    ensures var own, before, after := s.clients[c].name, s.clients[c].window, t.clients[c].window;
            && before <= after
            && Sifted(after[|before|..], At(s.queues, QueueName(own)),
                      (m: Message) => m.text != "/join" && m.text != "/quit" && m.name != own)
  {
    var own, before := s.clients[c].name, s.clients[c].window;
    var arrived := At(s.queues, QueueName(own));
    assert arrived[..k] == arrived;
    LinesSifted(arrived, own);
    assert t.clients[c].window[|before|..] == ChatLines(arrived, own);
  }

  /** The first k lines as messages, without those whose send fails: because the calls do not work, or
      because there is no room left. */
  function Posting(typed: seq<string>, name: string, works: nat -> bool, room: int, k: nat): seq<Message>
    requires k <= |typed|
  {
    if k == 0 then []
    else
      var before := Posting(typed, name, works, room, k - 1);
      if works(k - 1) && |before| < room then before + [Message(typed[k - 1], name)] else before
  }

  /** The lines whose sends work, as messages, in order. */
  ghost predicate WorkingLines(all: seq<Message>, typed: seq<string>, name: string, works: nat -> bool) {
    exists at :: Picks(all, Signed(typed, name), at) && forall i: nat :: i < |typed| ==> (i in at <==> works(i))
  }

  lemma WorkingMore(all: seq<Message>, typed: seq<string>, name: string, works: nat -> bool, text: string)
    requires WorkingLines(all, typed, name, works)
    ensures WorkingLines(if works(|typed|) then all + [Message(text, name)] else all, typed + [text], name, works)
  {
    var at :| Picks(all, Signed(typed, name), at) && forall i: nat :: i < |typed| ==> (i in at <==> works(i));
    PicksOneMore(all, Signed(typed, name), at, Message(text, name));
    assert Signed(typed + [text], name) == Signed(typed, name) + [Message(text, name)];
  }

  function Working(typed: seq<string>, name: string, works: nat -> bool, k: nat): seq<Message>
    requires k <= |typed|
  {
    if k == 0 then []
    else Working(typed, name, works, k - 1) + if works(k - 1) then [Message(typed[k - 1], name)] else []
  }

  lemma {:induction false} WorkingIsAll(typed: seq<string>, name: string, works: nat -> bool, k: nat)
    requires k <= |typed|
    ensures WorkingLines(Working(typed, name, works, k), typed[..k], name, works)
  {
    var all := Working(typed, name, works, k);
    if k == 0 {
      assert Picks([], Signed([], name), []) && typed[..k] == [];
    } else {
      var before, front := Working(typed, name, works, k - 1), typed[..k - 1];
      WorkingIsAll(typed, name, works, k - 1);
      WorkingMore(before, front, name, works, typed[k - 1]);
      assert typed[..k] == front + [typed[k - 1]] && before + [] == before;
    }
  }

  function First(all: seq<Message>, room: int): seq<Message> {
    if room <= 0 then [] else if |all| <= room then all else all[..room]
  }

  lemma {:induction false} PostingIsFirst(typed: seq<string>, name: string, works: nat -> bool, room: int, k: nat)
    requires k <= |typed|
    ensures Posting(typed, name, works, room, k) == First(Working(typed, name, works, k), room)
  {
    if k == 0 {
    } else {
      PostingIsFirst(typed, name, works, room, k - 1);
    }
  }

  /** Whatever fails: what goes out are the lines whose sends work, as far as there is room. */
  lemma PostingFirst(typed: seq<string>, name: string, works: nat -> bool, room: int, k: nat)
    returns (all: seq<Message>)
    requires k <= |typed|
    ensures WorkingLines(all, typed[..k], name, works)
    ensures Posting(typed, name, works, room, k) == if room <= 0 then [] else if |all| <= room then all else all[..room]
  {
    all := Working(typed, name, works, k);
    WorkingIsAll(typed, name, works, k);
    PostingIsFirst(typed, name, works, room, k);
  }

  /** When every send works and there is room, these are all of them, one by one. */
  lemma {:induction false} PostingAll(typed: seq<string>, name: string, works: nat -> bool, room: int, k: nat)
    requires k <= |typed| && k <= room && forall i :: works(i)
    ensures |Posting(typed, name, works, room, k)| == k
    ensures forall i :: 0 <= i < k ==> Posting(typed, name, works, room, k)[i] == Message(typed[i], name)
  {
    if k == 0 {
    } else {
      PostingAll(typed, name, works, room, k - 1);
      assert works(k - 1);
    }
  }

  /** From s on the client has posted what goes out of the first k lines, and shown it. */
  ghost predicate PostedUpTo(s: State, t: State, c: nat, typed: seq<string>, works: nat -> bool, k: nat,
                             posted: seq<Message>)
  {
    && ClientMoved(s, t, c) && t.queues == s.queues && t.clients[c].sender.Typing? && k <= |typed|
    && posted == Posting(typed, s.clients[c].name, works, QUEUE_SIZE - |s.inbox|, k)
    && t.inbox == s.inbox + posted && t.clients[c].window == s.clients[c].window + posted
  }

  lemma PostedGoesOn(s: State, t: State, u: State, c: nat, typed: seq<string>, works: nat -> bool, k: nat,
                     posted: seq<Message>, ok: bool)
    requires PostedUpTo(s, t, c, typed, works, k, posted) && k < |typed|
    requires ClientMoved(t, u, c) && u.queues == t.queues && u.clients[c].sender.Typing?
    requires ok <==> works(k) && |t.inbox| < QUEUE_SIZE
    requires var line := if ok then [Message(typed[k], s.clients[c].name)] else [];
             u.inbox == t.inbox + line && u.clients[c].window == t.clients[c].window + line
    ensures PostedUpTo(s, u, c, typed, works, k + 1,
                       if ok then posted + [Message(typed[k], s.clients[c].name)] else posted)
  {
    ClientMovesOn(s, t, u, c);
  }
}
