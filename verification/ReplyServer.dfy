/** Which number the queue server doubles for whom: it reads every text into the same buffer, never clears
    it, and prints its replies into it. */
module ReplyServer {
  import opened Decimals

  const BUFFER: nat := 256

  /** What `accept` and `recv` deliver: no connection, or a socket and the text that has arrived on it,
      which is empty when the client closes or the receive fails. */
  datatype Connection = Refused | Accepted(sock: int, text: string)

  datatype Sent = Sent(sock: int, text: string)

  function Taken(text: string): (s: string)
    ensures |s| <= BUFFER
  {
    if |text| <= BUFFER then text else text[..BUFFER]
  }

  /** The buffer is never cleared: behind what is written the old characters stay. */
  function Overwritten(buffer: string, s: string): (b: string)
    requires |s| <= |buffer|
    ensures |b| == |buffer|
  {
    s + buffer[|s|..]
  }

  function Doubled(n: int): int {
    ToInt(2 * n)
  }

  function Printed(n: int): (s: string)
    requires IsInt(n)
    ensures |s| <= 12
  {
    DecimalShort(n);
    Decimal(n) + ['\0']
  }

  /** Every accepted connection gets the double of the number at the head of the buffer. */
  function Replies(connections: seq<Connection>, buffer: string): seq<Sent>
    requires |buffer| == BUFFER
  {
    if connections == [] then []
    else
      match connections[0]
      case Refused => Replies(connections[1..], buffer)
      case Accepted(sock, text) =>
        var filled := Overwritten(buffer, Taken(text));
        var result := Doubled(Atoi(filled));
        [Sent(sock, Decimal(result))] + Replies(connections[1..], Overwritten(filled, Printed(result)))
  }

  /** The replies when every connection is answered by its own text alone. */
  function OwnReplies(connections: seq<Connection>): seq<Sent> {
    if connections == [] then []
    else
      match connections[0]
      case Refused => OwnReplies(connections[1..])
      case Accepted(sock, text) => [Sent(sock, Decimal(Doubled(Atoi(Taken(text)))))] + OwnReplies(connections[1..])
  }

  lemma ReplyAlone(sock: int, text: string, buffer: string)
    requires |buffer| == BUFFER
    ensures Replies([Accepted(sock, text)], buffer)
         == [Sent(sock, Decimal(Doubled(Atoi(Overwritten(buffer, Taken(text))))))]
    ensures OwnReplies([Accepted(sock, text)]) == [Sent(sock, Decimal(Doubled(Atoi(Taken(text)))))]
  {
    assert [Accepted(sock, text)][1..] == [];
  }

  // ---- Doubling -----------------------------------------------------------------------------------

  /** A number just outside the range of `int`, as 32 bits hold it. */
  function Wrapped(x: int): int {
    if x >= 0x8000_0000 then x - 0x1_0000_0000 else if x < -0x8000_0000 then x + 0x1_0000_0000 else x
  }

  lemma DoubleOf(x: int)
    requires IsInt(x)
    ensures ToInt(Clamp(x)) == x && Doubled(x) == Wrapped(2 * x)
  {
  }

  /** A text that ends its number is read as that number, whatever is behind it in the buffer. */
  lemma FormInBuffer(blanks: string, sign: string, m: nat, rest: string, buffer: string)
    requires |buffer| == BUFFER && IsBlank(blanks) && (sign == "" || sign == "+" || sign == "-")
    requires rest != [] && !('0' <= rest[0] <= '9') && |blanks + sign + Digits(m) + rest| <= BUFFER
    ensures var text := blanks + sign + Digits(m) + rest;
            ReadNumber(Overwritten(buffer, Taken(text))) == if sign == "-" then 0 - m else m
  {
    var front := blanks + sign + Digits(m);
    var behind := buffer[|front + rest|..];
    ReadsForm(blanks, sign, m, rest + behind);
    assert (front + rest) + behind == front + (rest + behind);
  }

  /** A client that sends a number, with blanks or a sign before it and something behind it that is no digit,
      gets the double of that number, as far as it is an `int`, and whatever the buffer holds. */
  lemma NumberDoubled(sock: int, blanks: string, sign: string, m: nat, rest: string, buffer: string)
    requires |buffer| == 256 && IsBlank(blanks) && (sign == "" || sign == "+" || sign == "-")
    requires rest != [] && !('0' <= rest[0] <= '9') && |blanks + sign + Digits(m) + rest| <= 256
    requires m < 0x8000_0000 || (m == 0x8000_0000 && sign == "-")
    ensures Replies([Accepted(sock, blanks + sign + Digits(m) + rest)], buffer)
         == [Sent(sock, Decimal(Wrapped(if sign == "-" then -2 * m else 2 * m)))]
  {
    FormInBuffer(blanks, sign, m, rest, buffer);
    DoubleOf(if sign == "-" then 0 - m else m);
    ReplyAlone(sock, blanks + sign + Digits(m) + rest, buffer);
  }

  /** A line with a number and its line feed. */
  lemma LineDoubled(sock: int, n: int, buffer: string)
    requires |buffer| == 256 && -0x8000_0000 <= n < 0x8000_0000
    ensures Replies([Accepted(sock, Decimal(n) + "\n")], buffer) == [Sent(sock, Decimal(Wrapped(2 * n)))]
  {
    var sign, m := if n < 0 then "-" else "", if n < 0 then -n else n;
    DecimalShort(n);
    assert [] + sign + Digits(m) == Decimal(n);
    assert [] + sign + Digits(m) + "\n" == Decimal(n) + "\n";
    NumberDoubled(sock, [], sign, m, "\n", buffer);
  }

  /** Clients that send a line with a number each are sent the doubles, each its own, in their order. */
  lemma {:induction false} LinesDoubled(connections: seq<Connection>, numbers: seq<int>, buffer: string)
    requires |buffer| == 256 && |numbers| == |connections|
    requires forall k :: 0 <= k < |connections| ==>
               && -0x8000_0000 <= numbers[k] < 0x8000_0000
               && connections[k].Accepted? && connections[k].text == Decimal(numbers[k]) + "\n"
    ensures |Replies(connections, buffer)| == |connections|
    ensures forall k :: 0 <= k < |connections| ==>
              Replies(connections, buffer)[k] == Sent(connections[k].sock, Decimal(Wrapped(2 * numbers[k])))
  {
    if connections == [] {
    } else {
      var sock, text := connections[0].sock, connections[0].text;
      var filled := Overwritten(buffer, Taken(text));
      LineDoubled(sock, numbers[0], buffer);
      ReplyAlone(sock, text, buffer);
      LinesDoubled(connections[1..], numbers[1..], Overwritten(filled, Printed(Doubled(Atoi(filled)))));
    }
  }

  // ---- When a reply is the client's own ---------------------------------------------------------

  /** From here on ten times a number is no `long` any more. */
  const HUGE: int := 922337203685477581

  /** So many digits that `strtol` stops at a bound of `long` when another one follows, and the reply is the
      same already. */
  predicate Saturated(text: string) {
    var n := ReadNumber(text);
    (n >= HUGE && Doubled(Atoi(text)) == -2) || (n <= 0 - HUGE && Doubled(Atoi(text)) == 0)
  }

  /** The text fills the buffer, or decides its number, or cannot change its reply any more. */
  predicate Settled(text: string) {
    |text| >= 256 || Complete(text) || Saturated(text)
  }

  lemma LongBounds()
    ensures Doubled(ToInt(0x7FFF_FFFF_FFFF_FFFF)) == -2 && Doubled(ToInt(-0x8000_0000_0000_0000)) == 0
  {
  }

  lemma ToIntShift(n: int) returns (k: int)
    ensures ToInt(n) == n - 0x1_0000_0000 * k
  {
    k := (n + 0x8000_0000) / 0x1_0000_0000;
  }

  /** The doubles of neighbours differ by two, also after wrapping around. */
  lemma DoublesApart(x: int, y: int)
    requires y == x + 1 || y == x - 1
    ensures Doubled(ToInt(x)) != Doubled(ToInt(y))
  {
    var i := ToIntShift(x);
    var j := ToIntShift(y);
    var k := ToIntShift(2 * ToInt(x));
    var l := ToIntShift(2 * ToInt(y));
  }

  /** A text that is not settled, one more digit, and nothing behind it. */
  function Padding(count: nat): (s: string)
    ensures |s| == count && (s == [] || !IsDigit(s[0]))
  {
    seq(count, _ => '\0')
  }

  function Behind(text: string, d: nat): (buffer: string)
    requires |text| < BUFFER && d < 10
    ensures |buffer| == BUFFER
  {
    text + [DigitOf(d)] + Padding(BUFFER - |text| - 1)
  }

  lemma BehindRead(text: string, d: nat)
    requires |text| < BUFFER && d < 10 && !Complete(text)
    ensures ReadNumber(Overwritten(Behind(text, d), text)) == WithSign(text, 10 * Magnitude(text) + d)
  {
    var tail := [DigitOf(d)] + Padding(BUFFER - |text| - 1);
    assert Overwritten(Behind(text, d), text) == text + [DigitOf(d)] + Padding(BUFFER - |text| - 1);
    OneDigit(text, d, Padding(BUFFER - |text| - 1));
  }

  /** The number stays the same, or both of them are doubled beyond the bounds of `long`. */
  lemma SettledReads(text: string, buffer: string)
    requires |buffer| == BUFFER && Settled(text)
    ensures Doubled(Atoi(Overwritten(buffer, Taken(text)))) == Doubled(Atoi(Taken(text)))
  {
    if |text| >= BUFFER {
      assert Overwritten(buffer, Taken(text)) == Taken(text);
    } else if Complete(text) {
      CompleteIff(text);
      assert ReadNumber(text + buffer[|text|..]) == ReadNumber(text);
    } else {
      SaturatedReads(text, buffer[|text|..]);
    }
  }

  lemma SaturatedReads(text: string, rest: string)
    requires Saturated(text) && !Complete(text)
    ensures Doubled(Atoi(text + rest)) == Doubled(Atoi(text))
  {
    NumberParts(text);
    LongBounds();
    Continued(text, rest);
    if rest != [] && IsDigit(rest[0]) {
      ReadDigitsGrows(rest[1..], 10 * Magnitude(text) + (rest[0] - '0') as int);
    }
  }

  /** A text that is not settled has a buffer in which it gets a foreign reply. */
  lemma UnsettledReads(text: string) returns (buffer: string)
    requires !Settled(text)
    ensures |buffer| == BUFFER && Doubled(Atoi(Overwritten(buffer, Taken(text)))) != Doubled(Atoi(Taken(text)))
  {
    var m := Magnitude(text);
    NumberParts(text);
    BehindRead(text, 0);
    BehindRead(text, 1);
    if m >= HUGE {
      LongBounds();
      buffer := Behind(text, 0);
    } else {
      DoublesApart(WithSign(text, 10 * m), WithSign(text, 10 * m + 1));
      buffer := if Doubled(Atoi(Overwritten(Behind(text, 0), text))) != Doubled(Atoi(text)) then Behind(text, 0)
                else Behind(text, 1);
    }
  }

  /** Whatever the buffer holds, a client gets the double of its own number: exactly for settled texts. */
  lemma OwnReplyIff(sock: int, text: string)
    ensures (forall buffer :: |buffer| == 256 ==>
               Replies([Accepted(sock, text)], buffer) == OwnReplies([Accepted(sock, text)])) <==> Settled(text)
  {
    if Settled(text) {
      forall buffer | |buffer| == BUFFER
        ensures Replies([Accepted(sock, text)], buffer) == OwnReplies([Accepted(sock, text)])
      {
        SettledReads(text, buffer);
        ReplyAlone(sock, text, buffer);
      }
    } else {
      var buffer := UnsettledReads(text);
      var own, foreign := Doubled(Atoi(Taken(text))), Doubled(Atoi(Overwritten(buffer, Taken(text))));
      ReplyAlone(sock, text, buffer);
      if Decimal(own) == Decimal(foreign) {
        DecimalInjective(own, foreign);
      }
      assert Replies([Accepted(sock, text)], buffer) != OwnReplies([Accepted(sock, text)]);
    }
  }

  // ---- Whole sequences of connections -----------------------------------------------------------

  lemma {:induction false} RepliesGoHome(connections: seq<Connection>, buffer: string)
    requires |buffer| == BUFFER
    requires forall k :: 0 <= k < |connections| && connections[k].Accepted? ==> Settled(connections[k].text)
    ensures Replies(connections, buffer) == OwnReplies(connections)
  {
    if connections == [] {
    } else if connections[0].Refused? {
      RepliesGoHome(connections[1..], buffer);
    } else {
      var text := connections[0].text;
      var filled := Overwritten(buffer, Taken(text));
      SettledReads(text, buffer);
      RepliesGoHome(connections[1..], Overwritten(filled, Printed(Doubled(Atoi(filled)))));
    }
  }

  /** The first reply, against the client's own. */
  lemma FirstReply(connections: seq<Connection>, buffer: string)
    requires |buffer| == BUFFER && connections != [] && connections[0].Accepted?
    ensures var text := connections[0].text;
            && Replies(connections, buffer) != [] && OwnReplies(connections) != []
            && Replies(connections, buffer)[0].text == Decimal(Doubled(Atoi(Overwritten(buffer, Taken(text)))))
            && OwnReplies(connections)[0].text == Decimal(Doubled(Atoi(Taken(text))))
  {
  }

  lemma ForeignFirst(connections: seq<Connection>) returns (buffer: string)
    requires connections != [] && connections[0].Accepted? && !Settled(connections[0].text)
    ensures |buffer| == BUFFER && Replies(connections, buffer) != OwnReplies(connections)
  {
    var text := connections[0].text;
    buffer := UnsettledReads(text);
    var own, foreign := Doubled(Atoi(Taken(text))), Doubled(Atoi(Overwritten(buffer, Taken(text))));
    FirstReply(connections, buffer);
    if Decimal(own) == Decimal(foreign) {
      DecimalInjective(own, foreign);
    }
  }

  /** From every connection on and whatever the buffer holds then, each client gets the double of its own
      number, in the order of the connections: exactly if all texts are settled. */
  lemma RepliesGoHomeIff(connections: seq<Connection>)
    ensures (forall k, buffer :: 0 <= k <= |connections| && |buffer| == 256 ==>
               Replies(connections[k..], buffer) == OwnReplies(connections[k..])) <==>
            (forall k :: 0 <= k < |connections| && connections[k].Accepted? ==> Settled(connections[k].text))
  {
    if k :| 0 <= k < |connections| && connections[k].Accepted? && !Settled(connections[k].text) {
      var buffer := ForeignFirst(connections[k..]);
      assert Replies(connections[k..], buffer) != OwnReplies(connections[k..]);
    } else {
      forall k, buffer | 0 <= k <= |connections| && |buffer| == BUFFER
        ensures Replies(connections[k..], buffer) == OwnReplies(connections[k..])
      {
        RepliesGoHome(connections[k..], buffer);
      }
    }
  }

  /** Whoever sends nothing gets the double of the reply before, which is its own reply, the double of
      nothing, exactly if that is 0. */
  lemma NothingSent(sock: int, text: string, next: int, buffer: string)
    requires |buffer| == 256
    ensures var result := Doubled(Atoi(Overwritten(buffer, Taken(text))));
            var connections := [Accepted(sock, text), Accepted(next, "")];
            && Replies(connections, buffer) == [Sent(sock, Decimal(result)), Sent(next, Decimal(Doubled(result)))]
            && |OwnReplies(connections)| == 2
            && (Replies(connections, buffer)[1] != OwnReplies(connections)[1] <==> Doubled(result) != 0)
  {
    var result := Doubled(Atoi(Overwritten(buffer, Taken(text))));
    var filled := Overwritten(buffer, Taken(text));
    var last := [Accepted(next, "")];
    StaleNumber(filled, result);
    ReplyAlone(next, "", Overwritten(filled, Printed(result)));
    assert [Accepted(sock, text), Accepted(next, "")][1..] == last;
    if Decimal(Doubled(result)) == Decimal(0) {
      DecimalInjective(Doubled(result), 0);
    }
  }

  /** What is read when nothing arrives behind a reply: that reply. */
  lemma StaleNumber(filled: string, result: int)
    requires |filled| == BUFFER && IsInt(result)
    ensures Atoi(Overwritten(Overwritten(filled, Printed(result)), Taken(""))) == result
    ensures Atoi(Taken("")) == 0
  {
    var stale := Overwritten(filled, Printed(result));
    DecimalRoundTrip(result, filled[|Printed(result)|..]);
    assert Overwritten(stale, "") == stale;
  }

  lemma OneIsRead()
    ensures Complete("1\n") && Atoi("1\n") == 1 && Taken("1\n") == "1\n"
  {
    var s := "1\n";
    assert s[1..] == "\n" && SkipSpace(s) == s && Unsigned(s) == s;
    assert ReadDigits("\n", 1) == 1;
  }

  lemma OneDigitPrinted(n: nat)
    requires n < 10
    ensures Decimal(n) == [DigitOf(n)]
  {
  }

  lemma OwnOfTwo(sock: int, text: string, next: int, other: string)
    ensures OwnReplies([Accepted(sock, text), Accepted(next, other)])
         == [Sent(sock, Decimal(Doubled(Atoi(Taken(text))))), Sent(next, Decimal(Doubled(Atoi(Taken(other)))))]
  {
    var first, second := Decimal(Doubled(Atoi(Taken(text)))), Decimal(Doubled(Atoi(Taken(other))));
    var both, last := [Accepted(sock, text), Accepted(next, other)], [Accepted(next, other)];
    ReplyAlone(next, other, Padding(BUFFER));
    assert both[1..] == last && OwnReplies(last) == [Sent(next, second)];
    assert OwnReplies(both) == [Sent(sock, first)] + OwnReplies(both[1..]);
  }

  /** It happens in every buffer: a client that sends 1 gets 2, and the next one, which sends nothing, gets
      4, where the double of nothing is 0. */
  lemma StaleReply(sock: int, next: int, buffer: string)
    requires |buffer| == 256
    ensures var connections := [Accepted(sock, "1\n"), Accepted(next, "")];
            && Replies(connections, buffer) == [Sent(sock, "2"), Sent(next, "4")]
            && |OwnReplies(connections)| == 2 && OwnReplies(connections)[1] == Sent(next, "0")
  {
    OneIsRead();
    SettledReads("1\n", buffer);
    NothingSent(sock, "1\n", next, buffer);
    OwnOfTwo(sock, "1\n", next, "");
    StaleNumber(buffer, 0);
    OneDigitPrinted(0);
    OneDigitPrinted(2);
    OneDigitPrinted(4);
  }
}
