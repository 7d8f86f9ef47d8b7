/** What a client receives and what its window shows. */
module ChatDisplays {
  import opened Chat
  import opened ChatSafety
  import opened ChatTheorems

  // ---- Displays ------------------------------------------------------------------------------------

  /** The lines of a client's window: under other names every message it has received and is done with
      that is neither "/join" nor "/quit" nor its own, under its own name the texts it has sent, each in
      order and nothing else. */
  lemma WindowLines(names: seq<string>, s: State, c: nat) returns (lines: seq<Message>)
    requires Reachable(names, s) && c < |s.clients|
    ensures var x := s.clients[c];
            && lines == FromOthers(x.window, x.name) == ChatLines(Shown(x), x.name)
            && FromSelf(x.window, x.name) == x.typed
    ensures var x := s.clients[c];
            && (x.receiver.Showing? ==> x.got != [])
            && Sifted(lines, if x.receiver.Showing? then x.got[..|x.got| - 1] else x.got,
                      (m: Message) => m.text != "/join" && m.text != "/quit" && m.name != x.name)
            && Sifted(lines, x.window, (m: Message) => m.name != x.name)
    ensures var x := s.clients[c]; Sifted(Signed(x.typed, x.name), x.window, (m: Message) => m.name == x.name)
  {
    ReachableInv(names, s);
    var x := s.clients[c];
    assert ClientOk(x);
    lines := FromOthers(x.window, x.name);
    LinesSifted(Shown(x), x.name);
    WindowSifted(x.window, x.name);
  }

  lemma {:induction false} ContentsOfPrefix(ds: seq<Delivery>, log: seq<Message>, names: seq<string>, k: nat)
    requires k <= |ds|
    ensures Contents(ds[..k], log, names) == Contents(ds, log, names)[..k]
  {
    if k == |ds| {
      assert ds[..k] == ds;
    } else {
      assert ds[..k] == ds[..|ds| - 1][..k];
      ContentsOfPrefix(ds[..|ds| - 1], log, names, k);
    }
  }

  lemma {:induction false} ContentsAt(ds: seq<Delivery>, log: seq<Message>, names: seq<string>, k: nat)
    requires k < |ds|
    ensures Contents(ds, log, names)[k] == Content(ds[k], log, names)
  {
    if k == |ds| - 1 {
    } else {
      ContentsAt(ds[..|ds| - 1], log, names, k);
    }
  }

  /** A client that alone has its name, and whose queue is registered for one slot only, has received the
      contents of a prefix of what was sent for that slot. */
  lemma ReceivedIsPrefix(names: seq<string>, s: State, c: nat, p: nat)
    requires Reachable(names, s) && OnlyClient(s.clients, c) && OnlySlot(s.names, p)
    requires s.names[p] == QueueName(s.clients[c].name)
    ensures WellShaped(s) && |s.clients[c].got| <= |s.sent[p]|
    ensures s.clients[c].got == Contents(s.sent[p][..|s.clients[c].got|], s.log, s.names)
    ensures forall k :: 0 <= k < |s.clients[c].got| ==>
              match s.sent[p][k]
              case Cast(pos) => pos < |s.log| && s.clients[c].got[k] == s.log[pos]
              case Entry(slot) => slot < |s.names| && s.clients[c].got[k] == Message("/join", s.names[slot])
  {
    ReachableInv(names, s);
    var got := s.clients[c].got;
    ContentsOfPrefix(s.sent[p], s.log, s.names, |got|);
    forall k | 0 <= k < |got|
      ensures got[k] == Content(s.sent[p][k], s.log, s.names) && Known(s.sent[p][k], s.log, s.names)
    {
      ContentsAt(s.sent[p][..|got|], s.log, s.names, k);
    }
  }

  /** The same for what it has shown. */
  lemma ShownIsPrefix(names: seq<string>, s: State, c: nat, p: nat)
    requires Reachable(names, s) && OnlyClient(s.clients, c) && OnlySlot(s.names, p)
    requires s.names[p] == QueueName(s.clients[c].name)
    ensures WellShaped(s) && |Shown(s.clients[c])| <= |s.sent[p]|
    ensures Shown(s.clients[c]) == Contents(s.sent[p][..|Shown(s.clients[c])|], s.log, s.names)
  {
    ReceivedIsPrefix(names, s, c, p);
    ContentsOfPrefix(s.sent[p], s.log, s.names, |s.clients[c].got|);
    ContentsOfPrefix(s.sent[p], s.log, s.names, |Shown(s.clients[c])|);
  }

  /** The x-th message that a client has received is the broadcast at log position a. */
  ghost predicate Receipt(s: State, c: nat, p: nat, x: nat, a: nat) {
    && c < |s.clients| && p < |s.names| && WellShaped(s) && OnlyClient(s.clients, c) && OnlySlot(s.names, p)
    && s.names[p] == QueueName(s.clients[c].name)
    && x < |s.clients[c].got| && x < |s.sent[p]| && s.sent[p][x] == Cast(a)
  }

  lemma ReceiptContent(names: seq<string>, s: State, c: nat, p: nat, x: nat, a: nat)
    requires Reachable(names, s) && Receipt(s, c, p, x, a)
    ensures a < |s.log| && s.clients[c].got[x] == s.log[a]
  {
    ReachableInv(names, s);
    ReceivedIsPrefix(names, s, c, p);
    assert Known(s.sent[p][x], s.log, s.names);
    ContentsAt(s.sent[p][..|s.clients[c].got|], s.log, s.names, x);
  }

  /** Total order, in every reachable state and with any failures: two clients that have both received
      two broadcasts have received them in the same order, and the same messages. */
  lemma TotalOrder(names: seq<string>, s: State, c: nat, p: nat, x: nat, y: nat, d: nat, q: nat, u: nat, v: nat,
                   a: nat, b: nat)
    requires Reachable(names, s) && x < y
    requires Receipt(s, c, p, x, a) && Receipt(s, c, p, y, b) && Receipt(s, d, q, u, a) && Receipt(s, d, q, v, b)
    ensures u < v && a < b < |s.log|
    ensures s.clients[c].got[x] == s.clients[d].got[u] == s.log[a]
    ensures s.clients[c].got[y] == s.clients[d].got[v] == s.log[b]
  {
    SentInOrder(names, s, p);
    SentInOrder(names, s, q);
    ReceiptContent(names, s, c, p, x, a);
    ReceiptContent(names, s, c, p, y, b);
    ReceiptContent(names, s, d, q, u, a);
    ReceiptContent(names, s, d, q, v, b);
  }

  lemma RosterShowsNothing(ds: seq<Delivery>, i: nat, log: seq<Message>, names: seq<string>, own: string)
    ensures ChatLines(Contents(ds + [Entry(i)], log, names), own) == ChatLines(Contents(ds, log, names), own)
  {
    ContentsOfSnoc(ds, Entry(i), log, names);
    LinesGrow(Contents(ds, log, names), Content(Entry(i), log, names), own);
  }

  lemma CastShowsItself(ds: seq<Delivery>, since: nat, pos: nat, log: seq<Message>, names: seq<string>, own: string)
    requires since <= pos < |log|
    requires ChatLines(Contents(ds, log, names), own) == ChatLines(log[since..pos], own)
    ensures ChatLines(Contents(ds + [Cast(pos)], log, names), own) == ChatLines(log[since..pos + 1], own)
  {
    ContentsOfSnoc(ds, Cast(pos), log, names);
    LinesGrow(Contents(ds, log, names), log[pos], own);
    LinesGrow(log[since..pos], log[pos], own);
    assert log[since..pos + 1] == log[since..pos] + [log[pos]];
  }

  /** Roster entries show nothing, so the lines of a prefix of a stream are those of a piece of the log. */
  lemma {:induction false} LinesOfWelcome(since: nat, count: nat, log: seq<Message>, names: seq<string>, own: string)
    requires since < |log|
    ensures ChatLines(Contents(Welcome(since, count), log, names), own) == ChatLines(log[since..since + 1], own)
  {
    if count == 0 {
      assert [] + [Cast(since)] == [Cast(since)];
      CastShowsItself([], since, since, log, names, own);
    } else {
      var front := Welcome(since, count - 1);
      LinesOfWelcome(since, count - 1, log, names, own);
      RosterShowsNothing(front, count - 1, log, names, own);
      assert Welcome(since, count) == front + [Entry(count - 1)];
    }
  }

  lemma {:induction false} LinesOfStream(since: nat, slot: nat, upTo: nat, log: seq<Message>, names: seq<string>,
                                         own: string)
    requires since < upTo <= |log|
    ensures ChatLines(Contents(Stream(since, slot, upTo), log, names), own) == ChatLines(log[since..upTo], own)
  {
    if upTo == since + 1 {
      LinesOfWelcome(since, slot + 1, log, names, own);
    } else {
      var front, last := Stream(since, slot, upTo - 1), upTo - 1;
      LinesOfStream(since, slot, last, log, names, own);
      CastShowsItself(front, since, last, log, names, own);
      assert Stream(since, slot, upTo) == front + [Cast(last)];
    }
  }

  /** A prefix of a welcome is empty or a shorter welcome. */
  lemma {:induction false} PrefixOfWelcome(since: nat, count: nat, k: nat) returns (i: nat)
    requires 1 <= k <= |Welcome(since, count)|
    ensures Welcome(since, count)[..k] == Welcome(since, i)
  {
    if k == |Welcome(since, count)| {
      assert Welcome(since, count)[..k] == Welcome(since, count);
      i := count;
    } else {
      assert Welcome(since, count)[..k] == Welcome(since, count - 1)[..k];
      i := PrefixOfWelcome(since, count - 1, k);
    }
  }

  lemma {:induction false} LinesOfPrefix(since: nat, slot: nat, upTo: nat, k: nat, log: seq<Message>,
                                         names: seq<string>, own: string) returns (end: nat)
    requires since < upTo <= |log| && k <= |Stream(since, slot, upTo)|
    ensures since <= end <= upTo
    ensures ChatLines(Contents(Stream(since, slot, upTo)[..k], log, names), own) == ChatLines(log[since..end], own)
  {
    var w := Stream(since, slot, upTo);
    if k == 0 {
      end := since;
    } else if k == |w| {
      assert w[..k] == w;
      LinesOfStream(since, slot, upTo, log, names, own);
      end := upTo;
    } else if upTo == since + 1 {
      var i := PrefixOfWelcome(since, slot + 1, k);
      LinesOfWelcome(since, i, log, names, own);
      end := since + 1;
    } else {
      assert w[..k] == Stream(since, slot, upTo - 1)[..k];
      end := LinesOfPrefix(since, slot, upTo - 1, k, log, names, own);
    }
  }

  lemma {:induction false} WelcomePrefix(since: nat, i: nat, count: nat)
    requires i <= count
    ensures Welcome(since, i) <= Welcome(since, count)
  {
    if i == count {
    } else {
      WelcomePrefix(since, i, count - 1);
    }
  }

  /** What is expected of a slot in the course of a broadcast is a prefix of its complete stream. */
  lemma ExpectedWhileCasting(since: nat, p: nat, n: nat, ds: seq<Delivery>)
    requires since < n
    requires if since + 1 == n then ds == [] || ds == [Cast(since)]
             else ds == Stream(since, p, n) || ds == Stream(since, p, n - 1)
    ensures ds <= Stream(since, p, n)
  {
    if since + 1 == n {
      WelcomePrefix(since, 0, p + 1);
    }
  }

  lemma ExpectedIsPrefix(s: State, p: nat)
    requires SlotsOk(s) && p < |s.names|
    ensures Expected(s, p) <= Stream(s.since[p], p, |s.log|)
  {
    assert JoinedAt(s.log, s.since[p], s.names[p]);
    var since, n := s.since[p], |s.log|;
    assert Fresh(s, p) ==> p == |s.names| - 1;
    if s.server.Casting? || s.server.Opening? {
      ExpectedWhileCasting(since, p, n, Expected(s, p));
    } else if s.server.Listing? && Fresh(s, p) {
      WelcomePrefix(since, s.server.i, p + 1);
    }
  }

  /** What has been tried and sent for a slot, against its complete stream. */
  lemma SlotFacts(names: seq<string>, s: State, p: nat)
    requires Reachable(names, s) && p < |s.names|
    ensures WellShaped(s) && JoinedAt(s.log, s.since[p], s.names[p])
    ensures s.tried[p] <= Stream(s.since[p], p, |s.log|) && Subsequence(s.sent[p], s.tried[p])
    ensures s.failures == 0 ==> s.sent[p] == s.tried[p]
  {
    ReachableInv(names, s);
    ExpectedIsPrefix(s, p);
    assert s.tried[p] == Expected(s, p);
  }

  lemma ShownLines(sent: seq<Delivery>, since: nat, slot: nat, k: nat, log: seq<Message>, names: seq<string>,
                   own: string) returns (end: nat)
    requires since < |log| && sent <= Stream(since, slot, |log|) && k <= |sent|
    ensures since <= end <= |log|
    ensures ChatLines(Contents(sent[..k], log, names), own) == ChatLines(log[since..end], own)
  {
    assert sent[..k] == Stream(since, slot, |log|)[..k];
    end := LinesOfPrefix(since, slot, |log|, k, log, names, own);
  }

  /** Without failed calls, what a client shows of the others' messages is a piece of the server's log
      that starts with its own join, in server order, filtered by sender and by the two command texts. */
  lemma DisplayFollowsServer(names: seq<string>, s: State, c: nat, p: nat) returns (lines: seq<Message>, end: nat)
    requires Reachable(names, s) && s.failures == 0
    requires OnlyClient(s.clients, c) && OnlySlot(s.names, p) && s.names[p] == QueueName(s.clients[c].name)
    ensures WellShaped(s) && JoinedAt(s.log, s.since[p], s.names[p])
    ensures s.since[p] <= end <= |s.log| && lines == FromOthers(s.clients[c].window, s.clients[c].name)
    ensures lines == ChatLines(s.log[s.since[p]..end], s.clients[c].name)
    ensures var x := s.clients[c];
            && Sifted(lines, s.log[s.since[p]..end],
                      (m: Message) => m.text != "/join" && m.text != "/quit" && m.name != x.name)
            && Sifted(lines, x.window, (m: Message) => m.name != x.name)
  {
    var x := s.clients[c];
    SlotFacts(names, s, p);
    lines := WindowLines(names, s, c);
    ShownIsPrefix(names, s, c, p);
    end := ShownLines(s.sent[p], s.since[p], p, |Shown(x)|, s.log, s.names, x.name);
    LinesSifted(s.log[s.since[p]..end], x.name);
    WindowSifted(x.window, x.name);
  }

  // ---- With failed calls ------------------------------------------------------------------------

  lemma SubsequencePrefix<T>(a: seq<T>, b: seq<T>, k: nat)
    requires Subsequence(a, b) && k <= |a|
    ensures Subsequence(a[..k], b)
  {
    var at: seq<nat> :| Picks(a, b, at);
    assert Picks(a[..k], b, at[..k]);
  }

  lemma SubsequenceOfPrefix<T>(a: seq<T>, b: seq<T>, c: seq<T>)
    requires Subsequence(a, b) && b <= c
    ensures Subsequence(a, c)
  {
    var at: seq<nat> :| Picks(a, b, at);
    assert Picks(a, c, at);
  }

  lemma SubsequenceContents(a: seq<Delivery>, b: seq<Delivery>, log: seq<Message>, names: seq<string>)
    requires Subsequence(a, b)
    ensures Subsequence(Contents(a, log, names), Contents(b, log, names))
  {
    var at: seq<nat> :| Picks(a, b, at);
    forall k | 0 <= k < |at|
      ensures Contents(a, log, names)[k] == Contents(b, log, names)[at[k]]
    {
      ContentsAt(a, log, names, k);
      ContentsAt(b, log, names, at[k]);
    }
    assert Picks(Contents(a, log, names), Contents(b, log, names), at);
  }

  /** Filtering keeps the order of what it keeps. */
  lemma {:induction false} PickedLines(a: seq<Message>, b: seq<Message>, at: seq<nat>, own: string)
    requires Picks(a, b, at)
    ensures Subsequence(ChatLines(a, own), ChatLines(b, own))
    decreases |b|
  {
    if a == [] {
      NothingPicked(ChatLines(b, own));
    } else {
      var x := |a| - 1;
      assert at[x] < |b|;
      var y := |b| - 1;
      var front := ChatLines(b[..y], own);
      if at[x] == y {
        PickedLines(a[..x], b[..y], at[..x], own);
        if Visible(b[y], own) {
          SubsequenceTakes(ChatLines(a[..x], own), front, b[y]);
        }
      } else {
        PickedLines(a, b[..y], at, own);
        if Visible(b[y], own) {
          SubsequenceSkips(ChatLines(a, own), front, [b[y]]);
        }
      }
    }
  }

  lemma SubsequenceLines(a: seq<Message>, b: seq<Message>, own: string)
    requires Subsequence(a, b)
    ensures Subsequence(ChatLines(a, own), ChatLines(b, own))
  {
    var at: seq<nat> :| Picks(a, b, at);
    PickedLines(a, b, at, own);
  }

  lemma LinesWithGaps(sent: seq<Delivery>, since: nat, slot: nat, k: nat, log: seq<Message>, names: seq<string>,
                      own: string)
    requires since < |log| && Subsequence(sent, Stream(since, slot, |log|)) && k <= |sent|
    ensures Subsequence(ChatLines(Contents(sent[..k], log, names), own), ChatLines(log[since..], own))
  {
    var full := Stream(since, slot, |log|);
    SubsequencePrefix(sent, full, k);
    SubsequenceContents(sent[..k], full, log, names);
    SubsequenceLines(Contents(sent[..k], log, names), Contents(full, log, names), own);
    LinesOfStream(since, slot, |log|, log, names, own);
    assert log[since..] == log[since..|log|];
  }

  /** With any failed calls, what a client shows of the others' messages is the same filtered log from its
      own join on, with lines left out: nothing is shown that was not broadcast, nothing twice, and
      nothing out of order. */
  lemma DisplayWithGaps(names: seq<string>, s: State, c: nat, p: nat) returns (shown: seq<Message>, said: seq<Message>)
    requires Reachable(names, s)
    requires OnlyClient(s.clients, c) && OnlySlot(s.names, p) && s.names[p] == QueueName(s.clients[c].name)
    ensures WellShaped(s) && JoinedAt(s.log, s.since[p], s.names[p])
    ensures var x := s.clients[c];
            shown == FromOthers(x.window, x.name) && said == ChatLines(s.log[s.since[p]..], x.name)
    ensures Subsequence(shown, said)
    ensures var x := s.clients[c];
            && Sifted(shown, x.window, (m: Message) => m.name != x.name)
            && Sifted(said, s.log[s.since[p]..],
                      (m: Message) => m.text != "/join" && m.text != "/quit" && m.name != x.name)
  {
    var x := s.clients[c];
    SlotFacts(names, s, p);
    shown := WindowLines(names, s, c);
    said := ChatLines(s.log[s.since[p]..], x.name);
    ShownIsPrefix(names, s, c, p);
    SubsequenceOfPrefix(s.sent[p], s.tried[p], Stream(s.since[p], p, |s.log|));
    LinesWithGaps(s.sent[p], s.since[p], p, |Shown(x)|, s.log, s.names, x.name);
    LinesSifted(s.log[s.since[p]..], x.name);
    WindowSifted(x.window, x.name);
  }
}
