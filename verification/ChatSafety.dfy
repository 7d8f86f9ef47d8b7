/** The invariants of the chat, over every interleaving of server and clients, failed calls included. */
module ChatSafety {
  import opened Chat
  import opened Options
  import Runs

  // ---- What every slot is sent ------------------------------------------------------------

  /** The log positions from lo up to hi, as broadcasts. */
  function Casts(lo: nat, hi: nat): (ds: seq<Delivery>)
    ensures lo <= hi ==> |ds| == hi - lo
  {
    if hi <= lo then [] else Casts(lo, hi - 1) + [Cast(hi - 1)]
  }

  /** A slot's own join followed by the first `count` roster entries. */
  function Welcome(since: nat, count: nat): seq<Delivery> {
    if count == 0 then [Cast(since)] else Welcome(since, count - 1) + [Entry(count - 1)]
  }

  /** The stream of a slot that joined at log position `since`, when the first `upTo` broadcasts are out:
      its own join, the roster of all slots up to itself, then every later broadcast. */
  function Stream(since: nat, slot: nat, upTo: nat): seq<Delivery> {
    if upTo <= since + 1 then Welcome(since, slot + 1) else Stream(since, slot, upTo - 1) + [Cast(upTo - 1)]
  }

  lemma {:induction false} WelcomeShape(since: nat, count: nat)
    ensures Welcome(since, count) == [Cast(since)] + Entries(count)
  {
    if count == 0 {
    } else {
      WelcomeShape(since, count - 1);
    }
  }

  lemma {:induction false} StreamShape(since: nat, slot: nat, upTo: nat)
    requires since < upTo
    ensures Stream(since, slot, upTo) == [Cast(since)] + Entries(slot + 1) + Casts(since + 1, upTo)
  {
    if upTo == since + 1 {
      WelcomeShape(since, slot + 1);
    } else {
      StreamShape(since, slot, upTo - 1);
    }
  }

  /** The slot joined with the message that the server is handling. */
  predicate Fresh(s: State, p: nat)
    requires p < |s.since|
  {
    s.since[p] + 1 == |s.log|
  }

  /** The message at this position of the log is the join that registered this queue name. */
  predicate JoinedAt(log: seq<Message>, pos: nat, queue: string) {
    pos < |log| && "/join" <= log[pos].text && queue == "/client_" + log[pos].name
  }

  /** At most ten slots, each with the log position of its own join, in join order; the log contains no
      other joins. */
  ghost predicate RegistryOk(names: seq<string>, since: seq<nat>, log: seq<Message>) {
    && |since| == |names| <= MAX_CLIENTS
    && (forall p :: 0 <= p < |since| ==> JoinedAt(log, since[p], names[p]))
    && (forall p, q :: 0 <= p < q < |since| ==> since[p] < since[q])
    && (forall k :: 0 <= k < |log| && IsJoin(log[k].text) ==> k in since)
    && (log != [] && IsJoin(log[|log| - 1].text) ==> since != [] && since[|since| - 1] == |log| - 1)
  }

  ghost predicate SlotsOk(s: State) {
    && WellShaped(s) && RegistryOk(s.names, s.since, s.log)
    && match s.server
       case Receiving => true
       case Casting(i) => s.log != [] && i <= |s.names|
       case Opening => s.names != [] && Fresh(s, |s.names| - 1)
       case Listing(i) => s.names != [] && Fresh(s, |s.names| - 1) && i <= |s.names|
  }

  /** What has been tried for a slot, from the position of the server alone. */
  function Expected(s: State, p: nat): seq<Delivery>
    requires p < |s.since|
  {
    match s.server
    case Receiving => Stream(s.since[p], p, |s.log|)
    case Casting(i) =>
      if Fresh(s, p) then if p < i then [Cast(s.since[p])] else []
      else Stream(s.since[p], p, if p < i || s.log == [] then |s.log| else |s.log| - 1)
    case Opening => if Fresh(s, p) then [Cast(s.since[p])] else Stream(s.since[p], p, |s.log|)
    case Listing(i) => if Fresh(s, p) then Welcome(s.since[p], i) else Stream(s.since[p], p, |s.log|)
  }

  ghost predicate StreamsOk(s: State) {
    SlotsOk(s) && forall p :: 0 <= p < |s.names| ==> s.tried[p] == Expected(s, p)
  }

  lemma Talks(names: seq<string>, since: seq<nat>, log: seq<Message>, msg: Message)
    requires RegistryOk(names, since, log) && !IsJoin(msg.text)
    ensures RegistryOk(names, since, log + [msg])
  {
    assert forall p :: 0 <= p < |since| ==> JoinedAt(log, since[p], names[p]);
  }

  lemma Registers(names: seq<string>, since: seq<nat>, log: seq<Message>, msg: Message)
    requires RegistryOk(names, since, log) && IsJoin(msg.text) && |names| < MAX_CLIENTS
    ensures RegistryOk(names + [QueueName(msg.name)], since + [|log|], log + [msg])
  {
    assert forall p :: 0 <= p < |since| ==> JoinedAt(log, since[p], names[p]);
  }

  ghost predicate SameSlots(s: State, t: State) {
    t.names == s.names && t.since == s.since && t.log == s.log && t.clients == s.clients && t.taken == s.taken
  }

  /** A send changes neither the slots nor the log nor the clients. */
  lemma SendLeavesSlots(s: State, ok: bool)
    requires SendEnabled(s, ok)
    ensures SameSlots(s, AfterSend(s, ok)) && WellShaped(AfterSend(s, ok))
  {
  }

  /** What a receive leaves alone. */
  lemma ReceiveFrame(s: State)
    requires s.inbox != []
    ensures var t := AfterReceive(s);
            && s.names <= t.names && t.clients == s.clients && t.taken == s.taken && t.queues == s.queues
            && t.failures == s.failures
  {
  }

  lemma ReceiveKeepsSlots(s: State)
    requires SlotsOk(s) && s.server.Receiving? && s.inbox != []
    ensures SlotsOk(AfterReceive(s))
  {
    var msg := s.inbox[0];
    if !IsJoin(msg.text) {
      Talks(s.names, s.since, s.log, msg);
    } else if |s.names| < MAX_CLIENTS {
      Registers(s.names, s.since, s.log, msg);
    }
  }

  lemma ReceivedSlot(s: State, p: nat)
    requires StreamsOk(s) && s.server.Receiving? && s.inbox != [] && p < |s.names|
    requires AfterReceive(s).since == s.since || AfterReceive(s).since == s.since + [|s.log|]
    ensures AfterReceive(s).tried[p] == Expected(AfterReceive(s), p)
  {
    var t := AfterReceive(s);
    assert s.tried[p] == Expected(s, p) && t.tried[p] == s.tried[p];
    assert t.since[p] == s.since[p] < |s.log|;
  }

  lemma ReceiveKeepsStreams(s: State)
    requires StreamsOk(s) && s.server.Receiving? && s.inbox != []
    ensures StreamsOk(AfterReceive(s))
  {
    var t := AfterReceive(s);
    ReceiveKeepsSlots(s);
    forall p | 0 <= p < |t.names|
      ensures t.tried[p] == Expected(t, p)
    {
      if p < |s.names| {
        ReceivedSlot(s, p);
      }
    }
  }

  lemma SendKeepsSlots(s: State, ok: bool)
    requires SlotsOk(s) && SendEnabled(s, ok)
    ensures SlotsOk(AfterSend(s, ok))
  {
    var t := AfterSend(s, ok);
    SendLeavesSlots(s, ok);
    assert t.log == s.log && |t.names| == |s.names| && |t.since| == |s.since|;
  }

  lemma CastSlot(s: State, ok: bool, p: nat)
    requires StreamsOk(s) && s.server.Casting? && s.server.i < |s.names| && SendEnabled(s, ok) && p < |s.names|
    ensures AfterSend(s, ok).tried[p] == Expected(AfterSend(s, ok), p)
  {
    assert s.tried[p] == Expected(s, p);
    var t := AfterSend(s, ok);
    assert t.since == s.since && t.log == s.log && t.server == Casting(s.server.i + 1);
    assert t.tried[p] == if p == s.server.i then s.tried[p] + [Cast(|s.log| - 1)] else s.tried[p];
  }

  /** At the end of the broadcast loop. */
  lemma DoneCasting(s: State, ok: bool, p: nat)
    requires StreamsOk(s) && s.server.Casting? && s.server.i == |s.names| && SendEnabled(s, ok) && p < |s.names|
    ensures AfterSend(s, ok).tried[p] == Expected(AfterSend(s, ok), p)
  {
    assert s.tried[p] == Expected(s, p);
    var t := AfterSend(s, ok);
    assert t.since == s.since && t.log == s.log && t.tried == s.tried;
    assert Fresh(s, p) ==> p == |s.names| - 1;
  }

  lemma OpeningSlot(s: State, ok: bool, p: nat)
    requires StreamsOk(s) && s.server.Opening? && SendEnabled(s, ok) && p < |s.names|
    ensures AfterSend(s, ok).tried[p] == Expected(AfterSend(s, ok), p)
  {
    var t := AfterSend(s, ok);
    assert t.since == s.since && t.log == s.log && |t.names| == |s.names|;
    assert s.tried[p] == Expected(s, p);
    assert Fresh(s, p) <==> p == |s.names| - 1;
    WelcomeShape(s.since[p], |s.names|);
  }

  lemma RosterSlot(s: State, ok: bool, p: nat)
    requires StreamsOk(s) && s.server.Listing? && SendEnabled(s, ok) && p < |s.names|
    ensures AfterSend(s, ok).tried[p] == Expected(AfterSend(s, ok), p)
  {
    var t := AfterSend(s, ok);
    assert t.since == s.since && t.log == s.log && |t.names| == |s.names|;
    assert s.tried[p] == Expected(s, p);
    assert Fresh(s, p) <==> p == |s.names| - 1;
  }

  lemma SendKeepsStreams(s: State, ok: bool)
    requires StreamsOk(s) && SendEnabled(s, ok)
    ensures StreamsOk(AfterSend(s, ok))
  {
    SendKeepsSlots(s, ok);
    forall p | 0 <= p < |s.names|
      ensures AfterSend(s, ok).tried[p] == Expected(AfterSend(s, ok), p)
    {
      if s.server.Casting? && s.server.i < |s.names| {
        CastSlot(s, ok, p);
      } else if s.server.Casting? {
        DoneCasting(s, ok, p);
      } else if s.server.Opening? {
        OpeningSlot(s, ok, p);
      } else {
        RosterSlot(s, ok, p);
      }
    }
  }

  // ---- Failed calls only leave gaps ---------------------------------------------------------

  /** The elements of a are those of b at some increasing positions. */
  ghost predicate Picks<T>(a: seq<T>, b: seq<T>, at: seq<nat>) {
    && |at| == |a|
    && (forall k :: 0 <= k < |at| ==> at[k] < |b| && a[k] == b[at[k]])
    && (forall j, k :: 0 <= j < k < |at| ==> at[j] < at[k])
  }

  /** a is b with some elements left out. */
  ghost predicate Subsequence<T>(a: seq<T>, b: seq<T>) {
    exists at :: Picks(a, b, at)
  }

  lemma NothingPicked<T>(b: seq<T>)
    ensures Subsequence([], b)
  {
    assert Picks([], b, []);
  }

  lemma SubsequenceSkips<T>(a: seq<T>, b: seq<T>, c: seq<T>)
    requires Subsequence(a, b)
    ensures Subsequence(a, b + c)
  {
    var at: seq<nat> :| Picks(a, b, at);
    assert Picks(a, b + c, at);
  }

  lemma SubsequenceTakes<T>(a: seq<T>, b: seq<T>, d: T)
    requires Subsequence(a, b)
    ensures Subsequence(a + [d], b + [d])
  {
    var at: seq<nat> :| Picks(a, b, at);
    var last: nat := |b|;
    assert Picks(a + [d], b + [d], at + [last]);
  }

  /** `kept` are the elements of s that pass a test, all of them, in order. */
  ghost predicate Sifted<T(!new)>(kept: seq<T>, s: seq<T>, test: T -> bool) {
    exists at :: Picks(kept, s, at) && forall i: nat :: i < |s| ==> (i in at <==> test(s[i]))
  }

  lemma PicksOneMore<T>(kept: seq<T>, s: seq<T>, at: seq<nat>, x: T)
    requires Picks(kept, s, at)
    ensures Picks(kept + [x], s + [x], at + [|s|]) && Picks(kept, s + [x], at)
    ensures forall i: nat :: i in at + [|s|] <==> i in at || i == |s|
    ensures |s| !in at
  {
  }

  lemma SiftedGrows<T(!new)>(kept: seq<T>, s: seq<T>, test: T -> bool, x: T)
    requires Sifted(kept, s, test)
    ensures Sifted(kept + if test(x) then [x] else [], s + [x], test)
  {
    var at: seq<nat> :| Picks(kept, s, at) && forall i: nat :: i < |s| ==> (i in at <==> test(s[i]));
    PicksOneMore(kept, s, at, x);
    if !test(x) {
      assert kept + [] == kept;
    }
  }

  ghost predicate GapsOk(s: State) {
    && WellShaped(s)
    && (forall p :: 0 <= p < |s.names| ==> Subsequence(s.sent[p], s.tried[p]))
    && (s.failures == 0 ==> s.sent == s.tried)
  }

  lemma ReceiveKeepsGaps(s: State)
    requires GapsOk(s) && s.inbox != []
    ensures GapsOk(AfterReceive(s))
  {
    NothingPicked<Delivery>([]);
  }

  /** What one send adds to a slot is added to the deliveries made, or it leaves a gap. */
  lemma GapAt(s: State, ok: bool, p: nat)
    requires GapsOk(s) && SendEnabled(s, ok) && p < |s.names|
    ensures Subsequence(AfterSend(s, ok).sent[p], AfterSend(s, ok).tried[p])
  {
    var sent, tried := AfterSend(s, ok).sent[p], AfterSend(s, ok).tried[p];
    if sent != s.sent[p] {
      SubsequenceTakes(s.sent[p], s.tried[p], tried[|s.tried[p]|]);
    } else if tried != s.tried[p] {
      var added := tried[|s.tried[p]|..];
      assert tried == s.tried[p] + added;
      SubsequenceSkips(s.sent[p], s.tried[p], added);
    }
  }

  lemma SendKeepsGaps(s: State, ok: bool)
    requires GapsOk(s) && SendEnabled(s, ok)
    ensures GapsOk(AfterSend(s, ok))
  {
    var t := AfterSend(s, ok);
    SendLeavesSlots(s, ok);
    forall p | 0 <= p < |t.names|
      ensures Subsequence(t.sent[p], t.tried[p])
    {
      GapAt(s, ok, p);
    }
  }

  // ---- The queues carry exactly what was sent -------------------------------------------------

  function Contents(ds: seq<Delivery>, log: seq<Message>, names: seq<string>): (ms: seq<Message>)
    ensures |ms| == |ds|
  {
    if ds == [] then [] else Contents(ds[..|ds| - 1], log, names) + [Content(ds[|ds| - 1], log, names)]
  }

  lemma ContentsOfSnoc(ds: seq<Delivery>, d: Delivery, log: seq<Message>, names: seq<string>)
    ensures Contents(ds + [d], log, names) == Contents(ds, log, names) + [Content(d, log, names)]
  {
    assert (ds + [d])[..|ds|] == ds;
  }

  predicate Known(d: Delivery, log: seq<Message>, names: seq<string>) {
    match d
    case Cast(pos) => pos < |log|
    case Entry(slot) => slot < |names|
  }

  ghost predicate AllKnown(ds: seq<Delivery>, log: seq<Message>, names: seq<string>) {
    forall k :: 0 <= k < |ds| ==> Known(ds[k], log, names)
  }

  lemma {:induction false} ContentsStable(ds: seq<Delivery>, log: seq<Message>, names: seq<string>,
                                          log': seq<Message>, names': seq<string>)
    requires log <= log' && names <= names' && AllKnown(ds, log, names)
    ensures AllKnown(ds, log', names') && Contents(ds, log', names') == Contents(ds, log, names)
  {
    if ds == [] {
    } else {
      var last := ds[|ds| - 1];
      assert Known(last, log, names);
      ContentsStable(ds[..|ds| - 1], log, names, log', names');
    }
  }

  /** No other slot is registered with the same queue name. */
  ghost predicate OnlySlot(names: seq<string>, p: nat) {
    p < |names| && forall q :: 0 <= q < |names| && q != p ==> names[q] != names[p]
  }

  /** Everything that has gone through a queue: what was taken out and what is still in it. */
  function Through(s: State, q: string): seq<Message> {
    At(s.taken, q) + At(s.queues, q)
  }

  ghost predicate QueuesOk(s: State) {
    && WellShaped(s)
    && (forall q :: q !in s.names ==> Through(s, q) == [])
    && (forall p :: 0 <= p < |s.names| ==> AllKnown(s.sent[p], s.log, s.names))
    && (forall p :: 0 <= p < |s.names| && OnlySlot(s.names, p) ==>
          Through(s, s.names[p]) == Contents(s.sent[p], s.log, s.names))
  }

  lemma ReceiveKeepsQueues(s: State)
    requires QueuesOk(s) && s.inbox != []
    ensures QueuesOk(AfterReceive(s))
  {
    var t := AfterReceive(s);
    forall p | 0 <= p < |t.names|
      ensures AllKnown(t.sent[p], t.log, t.names)
      ensures OnlySlot(t.names, p) ==> Through(t, t.names[p]) == Contents(t.sent[p], t.log, t.names)
    {
      assert Through(t, t.names[p]) == Through(s, t.names[p]);
      if p < |s.names| {
        ContentsStable(s.sent[p], s.log, s.names, t.log, t.names);
        assert t.names[p] == s.names[p];
        if OnlySlot(t.names, p) {
          assert forall q :: 0 <= q < |s.names| ==> t.names[q] == s.names[q];
          assert OnlySlot(s.names, p);
        }
      } else if OnlySlot(t.names, p) {
        assert forall q :: 0 <= q < |s.names| ==> t.names[q] == s.names[q];
        assert t.names[p] !in s.names;
      }
    }
  }

  lemma AttemptKeepsQueues(s: State, slot: nat, d: Delivery, ok: bool)
    requires QueuesOk(s) && slot < |s.names| && Known(d, s.log, s.names)
    ensures QueuesOk(Attempt(s, slot, d, ok))
  {
    var t := Attempt(s, slot, d, ok);
    forall p | 0 <= p < |t.names|
      ensures AllKnown(t.sent[p], t.log, t.names)
      ensures OnlySlot(t.names, p) ==> Through(t, t.names[p]) == Contents(t.sent[p], t.log, t.names)
    {
      assert AllKnown(s.sent[p], s.log, s.names);
      if ok && p == slot {
        assert t.sent[p][..|s.sent[p]|] == s.sent[p];
        assert Through(t, t.names[p]) == Through(s, s.names[p]) + [Content(d, s.log, s.names)];
      }
    }
  }

  lemma QueuesFrame(s: State, t: State)
    requires QueuesOk(s) && WellShaped(t) && t.names == s.names && t.log == s.log && t.sent == s.sent
    requires forall q :: Through(t, q) == Through(s, q)
    ensures QueuesOk(t)
  {
  }

  /** The delivery that the next statement of the server attempts, with its slot. */
  function NextAttempt(s: State): Option<(nat, Delivery)> {
    match s.server
    case Casting(i) => if i < |s.names| && s.log != [] then Some((i, Cast(|s.log| - 1))) else None
    case Listing(i) => if i < |s.names| then Some((|s.names| - 1, Entry(i))) else None
    case _ => None
  }

  /** For slots, log, queues and deliveries a send is its attempt, if it makes one. */
  lemma SendIsAttempt(s: State, ok: bool)
    requires SendEnabled(s, ok)
    ensures var t, next := AfterSend(s, ok), NextAttempt(s);
            var u := if next.Some? then Attempt(s, next.value.0, next.value.1, ok) else s;
            t.names == u.names && t.log == u.log && t.sent == u.sent && t.taken == u.taken && t.queues == u.queues
            && WellShaped(t)
  {
  }

  lemma SendKeepsQueues(s: State, ok: bool)
    requires QueuesOk(s) && SendEnabled(s, ok)
    ensures QueuesOk(AfterSend(s, ok))
  {
    var next := NextAttempt(s);
    var u := if next.Some? then Attempt(s, next.value.0, next.value.1, ok) else s;
    if next.Some? {
      AttemptKeepsQueues(s, next.value.0, next.value.1, ok);
    }
    SendIsAttempt(s, ok);
    QueuesFrame(u, AfterSend(s, ok));
  }

  ghost predicate SameServer(s: State, t: State) {
    && t.names == s.names && t.since == s.since && t.log == s.log && t.server == s.server
    && t.tried == s.tried && t.sent == s.sent && t.failures == s.failures
  }

  /** Whatever a client does, the server's slots and streams stay as they are. */
  lemma ClientLeavesServer(s: State, c: nat, e: Event)
    requires ClientEnabled(s, c, e)
    ensures SameServer(s, AfterClient(s, c, e))
  {
  }

  lemma ThroughStays(s: State, c: nat, e: Event, q: string)
    requires ClientEnabled(s, c, e)
    ensures Through(AfterClient(s, c, e), q) == Through(s, q)
  {
    if e.Receive? && q == QueueName(s.clients[c].name) {
      var m := At(s.queues, q);
      assert m == [m[0]] + m[1..];
    }
  }

  lemma ClientKeepsQueues(s: State, c: nat, e: Event)
    requires QueuesOk(s) && ClientEnabled(s, c, e)
    ensures QueuesOk(AfterClient(s, c, e))
  {
    var t := AfterClient(s, c, e);
    ClientLeavesServer(s, c, e);
    forall q
      ensures Through(t, q) == Through(s, q)
    {
      ThroughStays(s, c, e, q);
    }
    QueuesFrame(s, t);
  }

  /** The queues are created for ten messages. */
  ghost predicate RoomOk(s: State) {
    forall q :: |At(s.queues, q)| <= QUEUE_SIZE
  }

  lemma SendKeepsRoom(s: State, ok: bool)
    requires RoomOk(s) && SendEnabled(s, ok)
    ensures RoomOk(AfterSend(s, ok))
  {
    var t := AfterSend(s, ok);
    if t.queues != s.queues {
      var slot := if s.server.Casting? then s.server.i else |s.names| - 1;
      assert RoomAt(s, slot);
      assert forall q :: q != s.names[slot] ==> At(t.queues, q) == At(s.queues, q);
    }
  }

  lemma ClientKeepsRoom(s: State, c: nat, e: Event)
    requires RoomOk(s) && ClientEnabled(s, c, e)
    ensures RoomOk(AfterClient(s, c, e))
  {
    var t, own := AfterClient(s, c, e), QueueName(s.clients[c].name);
    assert forall q :: q != own ==> At(t.queues, q) == At(s.queues, q);
    assert |At(t.queues, own)| <= |At(s.queues, own)|;
  }

  // ---- What a client displays -------------------------------------------------------------------

  /** The chat lines among some messages, for a client of the given name. */
  function ChatLines(ms: seq<Message>, own: string): seq<Message> {
    if ms == [] then []
    else
      var front, last := ChatLines(ms[..|ms| - 1], own), ms[|ms| - 1];
      if Visible(last, own) then front + [last] else front
  }

  /** The lines of a window under names other than the client's own. */
  function FromOthers(window: seq<Message>, own: string): seq<Message> {
    if window == [] then []
    else
      var front, last := FromOthers(window[..|window| - 1], own), window[|window| - 1];
      if last.name != own then front + [last] else front
  }

  /** The texts of a window under the client's own name. */
  function FromSelf(window: seq<Message>, own: string): seq<string> {
    if window == [] then []
    else
      var front, last := FromSelf(window[..|window| - 1], own), window[|window| - 1];
      if last.name == own then front + [last.text] else front
  }

  /** Texts as messages under one name. */
  function Signed(texts: seq<string>, name: string): (ms: seq<Message>)
    ensures |ms| == |texts| && forall k :: 0 <= k < |ms| ==> ms[k] == Message(texts[k], name)
  {
    seq(|texts|, k requires 0 <= k < |texts| => Message(texts[k], name))
  }

  /** The messages received and already shown; the last one may still be in the hands of the receiver. */
  function Shown(x: Client): seq<Message> {
    if x.receiver.Showing? && x.got != [] then x.got[..|x.got| - 1] else x.got
  }

  ghost predicate ClientOk(x: Client) {
    && (x.receiver.Showing? ==> x.got != [] && x.got[|x.got| - 1] == x.receiver.msg)
    && FromOthers(x.window, x.name) == ChatLines(Shown(x), x.name)
    && FromSelf(x.window, x.name) == x.typed
  }

  lemma WindowGrows(window: seq<Message>, line: Message, own: string)
    ensures FromOthers(window + [line], own)
         == FromOthers(window, own) + if line.name != own then [line] else []
    ensures FromSelf(window + [line], own)
         == FromSelf(window, own) + if line.name == own then [line.text] else []
  {
    assert (window + [line])[..|window|] == window;
  }

  lemma LinesGrow(ms: seq<Message>, msg: Message, own: string)
    ensures ChatLines(ms + [msg], own) == ChatLines(ms, own) + if Visible(msg, own) then [msg] else []
  {
    assert (ms + [msg])[..|ms|] == ms;
  }

  /** The chat lines are exactly the messages that are to be shown. */
  lemma {:induction false} LinesSifted(ms: seq<Message>, own: string)
    ensures Sifted(ChatLines(ms, own), ms, (m: Message) => m.text != "/join" && m.text != "/quit" && m.name != own)
  {
    var test := (m: Message) => m.text != "/join" && m.text != "/quit" && m.name != own;
    if ms == [] {
      assert Picks([], ms, []);
    } else {
      var front, last := ms[..|ms| - 1], ms[|ms| - 1];
      LinesSifted(front, own);
      SiftedGrows(ChatLines(front, own), front, test, last);
      LinesGrow(front, last, own);
      assert ms == front + [last];
    }
  }

  /** The lines of a window under other names, and those under the own name. */
  lemma {:induction false} WindowSifted(window: seq<Message>, own: string)
    ensures Sifted(FromOthers(window, own), window, (m: Message) => m.name != own)
    ensures Sifted(Signed(FromSelf(window, own), own), window, (m: Message) => m.name == own)
  {
    var others, self := (m: Message) => m.name != own, (m: Message) => m.name == own;
    if window == [] {
      assert Picks([], window, []);
    } else {
      var front, last := window[..|window| - 1], window[|window| - 1];
      WindowSifted(front, own);
      SiftedGrows(FromOthers(front, own), front, others, last);
      SiftedGrows(Signed(FromSelf(front, own), own), front, self, last);
      WindowGrows(front, last, own);
      assert window == front + [last];
      assert Signed(FromSelf(window, own), own)
          == Signed(FromSelf(front, own), own) + if last.name == own then [last] else [];
    }
  }

  lemma ClientShows(x: Client)
    requires ClientOk(x) && x.receiver.Showing?
    ensures ClientOk(ClientNext(x, Show(0), Message("", "")))
  {
    var msg, front := x.receiver.msg, x.got[..|x.got| - 1];
    assert x.got == front + [msg];
    LinesGrow(front, msg, x.name);
    WindowGrows(x.window, msg, x.name);
  }

  lemma ClientKeepsItself(x: Client, e: Event, next: Message)
    requires ClientOk(x) && (e.Receive? ==> x.receiver.Idle?)
    ensures ClientOk(ClientNext(x, e, next)) && ClientNext(x, e, next).name == x.name
  {
    match e
    case Echo(_) =>
      if x.sender.Echoing? {
        WindowGrows(x.window, Message(x.sender.text, x.name), x.name);
      }
    case Receive(_) => assert (x.got + [next])[..|x.got|] == x.got;
    case Show(_) =>
      if x.receiver.Showing? {
        ClientShows(x);
      }
    case _ =>
  }

  ghost predicate OnlyClient(clients: seq<Client>, c: nat) {
    c < |clients| && forall d :: 0 <= d < |clients| && d != c ==> clients[d].name != clients[c].name
  }

  ghost predicate ClientsOk(s: State) {
    && (forall c :: 0 <= c < |s.clients| ==> ClientOk(s.clients[c]))
    && (forall c :: 0 <= c < |s.clients| && OnlyClient(s.clients, c) ==>
          At(s.taken, QueueName(s.clients[c].name)) == s.clients[c].got)
  }

  lemma QueueNameInjective(a: string, b: string)
    requires QueueName(a) == QueueName(b)
    ensures a == b
  {
    assert a == QueueName(a)[8..] && b == QueueName(b)[8..];
  }

  lemma TakenByOthers(s: State, c: nat, e: Event, d: nat)
    requires ClientsOk(s) && ClientEnabled(s, c, e) && d < |s.clients| && d != c && OnlyClient(s.clients, d)
    ensures At(AfterClient(s, c, e).taken, QueueName(s.clients[d].name)) == s.clients[d].got
  {
    if QueueName(s.clients[d].name) == QueueName(s.clients[c].name) {
      QueueNameInjective(s.clients[d].name, s.clients[c].name);
    }
  }

  lemma OneClientMoves(s: State, c: nat, e: Event)
    requires ClientsOk(s) && ClientEnabled(s, c, e)
    ensures var t := AfterClient(s, c, e); |t.clients| == |s.clients| && t.clients == s.clients[c := t.clients[c]]
    ensures var y := AfterClient(s, c, e).clients[c]; y.name == s.clients[c].name && ClientOk(y)
    ensures OnlyClient(s.clients, c) ==>
              At(AfterClient(s, c, e).taken, QueueName(s.clients[c].name)) == AfterClient(s, c, e).clients[c].got
  {
    var x := s.clients[c];
    var q := QueueName(x.name);
    var head := if At(s.queues, q) == [] then Message("", "") else At(s.queues, q)[0];
    ClientKeepsItself(x, e, head);
    assert AfterClient(s, c, e).clients == s.clients[c := ClientNext(x, e, head)];
  }

  lemma ClientsFrame(s: State, t: State, c: nat)
    requires ClientsOk(s) && c < |s.clients| == |t.clients| && t.clients == s.clients[c := t.clients[c]]
    requires t.clients[c].name == s.clients[c].name && ClientOk(t.clients[c])
    requires OnlyClient(s.clients, c) ==> At(t.taken, QueueName(s.clients[c].name)) == t.clients[c].got
    requires forall d :: 0 <= d < |s.clients| && d != c && OnlyClient(s.clients, d) ==>
               At(t.taken, QueueName(s.clients[d].name)) == s.clients[d].got
    ensures ClientsOk(t)
  {
    assert forall k :: 0 <= k < |s.clients| ==> s.clients[k].name == t.clients[k].name;
    assert forall d :: OnlyClient(t.clients, d) ==> OnlyClient(s.clients, d);
  }

  lemma ClientKeepsClients(s: State, c: nat, e: Event)
    requires ClientsOk(s) && ClientEnabled(s, c, e)
    ensures ClientsOk(AfterClient(s, c, e))
  {
    OneClientMoves(s, c, e);
    forall d | 0 <= d < |s.clients| && d != c && OnlyClient(s.clients, d)
      ensures At(AfterClient(s, c, e).taken, QueueName(s.clients[d].name)) == s.clients[d].got
    {
      TakenByOthers(s, c, e, d);
    }
    ClientsFrame(s, AfterClient(s, c, e), c);
  }

  // ---- All together -------------------------------------------------------------------------------

  ghost predicate Inv(s: State) {
    StreamsOk(s) && GapsOk(s) && QueuesOk(s) && RoomOk(s) && ClientsOk(s)
  }

  lemma ReceiveKeepsInv(s: State)
    requires Inv(s) && s.server.Receiving? && s.inbox != []
    ensures Inv(AfterReceive(s)) && s.names <= AfterReceive(s).names
  {
    ReceiveKeepsStreams(s);
    ReceiveKeepsGaps(s);
    ReceiveKeepsQueues(s);
    ReceiveFrame(s);
  }

  lemma SendKeepsInv(s: State, ok: bool)
    requires Inv(s) && SendEnabled(s, ok)
    ensures Inv(AfterSend(s, ok)) && s.names == AfterSend(s, ok).names
  {
    SendKeepsStreams(s, ok);
    SendKeepsGaps(s, ok);
    SendKeepsQueues(s, ok);
    SendKeepsRoom(s, ok);
    SendLeavesSlots(s, ok);
  }

  lemma ServerFrame(s: State, t: State)
    requires StreamsOk(s) && GapsOk(s) && SameServer(s, t)
    ensures StreamsOk(t) && GapsOk(t)
  {
    assert forall p :: 0 <= p < |s.names| ==> Expected(t, p) == Expected(s, p);
  }

  lemma ClientKeepsInv(s: State, c: nat, e: Event)
    requires Inv(s) && ClientEnabled(s, c, e)
    ensures Inv(AfterClient(s, c, e)) && s.names == AfterClient(s, c, e).names
  {
    ClientLeavesServer(s, c, e);
    ServerFrame(s, AfterClient(s, c, e));
    ClientKeepsQueues(s, c, e);
    ClientKeepsRoom(s, c, e);
    ClientKeepsClients(s, c, e);
  }

  lemma StepKeepsInv(s: State, e: Event)
    requires Inv(s) && Enabled(s, e)
    ensures Inv(Apply(s, e)) && s.names <= Apply(s, e).names
  {
    match e
    case ServerReceive => ReceiveKeepsInv(s);
    case ServerSend(ok) => SendKeepsInv(s, ok);
    case _ => ClientKeepsInv(s, Actor(e), e);
  }

  lemma {:induction false} RunKeepsInv(s: State, es: seq<Event>, t: State)
    requires Inv(s) && Run(s, es, t)
    ensures Inv(t) && s.names <= t.names
    decreases |es|
  {
    if es == [] {
    } else {
      StepKeepsInv(s, es[0]);
      RunKeepsInv(Apply(s, es[0]), es[1..], t);
    }
  }

  lemma InitInv(names: seq<string>)
    ensures Inv(Init(names))
  {
  }

  lemma CanReachInv(s: State, t: State)
    requires Inv(s) && CanReach(s, t)
    ensures Inv(t) && s.names <= t.names
  {
    var es :| Runs.Run(Step, s, es, t);
    RunKeepsInv(s, es, t);
  }

  lemma ReachableInv(names: seq<string>, s: State)
    requires Reachable(names, s)
    ensures Inv(s)
  {
    InitInv(names);
    CanReachInv(Init(names), s);
  }
}
