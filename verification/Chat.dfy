/** The message-queue chat: one server that broadcasts what arrives in its inbox to the queues of the
    registered clients, slot by slot, and any number of clients that send, receive and display. */
module Chat {
  import opened Options
  import Runs

  const MAX_CLIENTS: nat := 10
  const QUEUE_SIZE: nat := 10

  datatype Message = Message(text: string, name: string)

  /** What the server tries to put into the queue of a slot: the broadcast at a position of its log,
      or the roster entry of a slot. */
  datatype Delivery = Cast(pos: nat) | Entry(slot: nat)

  /** Waiting for a message; in the broadcast loop at slot i; opening the queue of the client that
      joined; in the roster loop at slot i. */
  datatype ServerPc = Receiving | Casting(i: nat) | Opening | Listing(i: nat)

  datatype SenderPc = Unjoined | Typing | Echoing(text: string) | Stopped
  datatype ReceiverPc = Idle | Showing(msg: Message)

  /** `got` and `typed` are history: the messages taken from the queue, and the texts echoed. */
  datatype Client = Client(name: string, sender: SenderPc, receiver: ReceiverPc, window: seq<Message>,
                           got: seq<Message>, typed: seq<string>)

  /** `log` (the broadcasts in server order), `since` (the log position of the join of a slot), `tried` and
      `sent` (the deliveries attempted and made for a slot), `taken` and `failures` are history. */
  datatype State = State(inbox: seq<Message>, names: seq<string>, server: ServerPc,
                         queues: map<string, seq<Message>>, clients: seq<Client>,
                         log: seq<Message>, since: seq<nat>, tried: seq<seq<Delivery>>, sent: seq<seq<Delivery>>,
                         taken: map<string, seq<Message>>, failures: nat)

  /** Scheduler choices. `ok` is false when the call of the operating system fails. */
  datatype Event =
    | SendJoin(c: nat, ok: bool)
    | Say(c: nat, text: string, ok: bool)
    | Echo(c: nat)
    | Receive(c: nat)
    | Show(c: nat)
    | ServerReceive
    | ServerSend(ok: bool)

  function Init(names: seq<string>): State {
    State([], [], Receiving, map[],
          seq(|names|, c requires 0 <= c < |names| => Client(names[c], Unjoined, Idle, [], [], [])),
          [], [], [], [], map[], 0)
  }

  function QueueName(name: string): string {
    "/client_" + name
  }

  /** The server compares five characters only. */
  predicate IsJoin(text: string) {
    "/join" <= text
  }

  predicate IsQuit(text: string) {
    "/quit" <= text
  }

  function At(m: map<string, seq<Message>>, q: string): seq<Message> {
    if q in m then m[q] else []
  }

  // ---- The server --------------------------------------------------------------------

  /** The message that a delivery carries. */
  function Content(d: Delivery, log: seq<Message>, names: seq<string>): Message {
    match d
    case Cast(pos) => if pos < |log| then log[pos] else Message("", "")
    case Entry(slot) => Message("/join", if slot < |names| then names[slot] else "")
  }

  predicate WellShaped(s: State) {
    |s.since| == |s.tried| == |s.sent| == |s.names|
  }

  function AfterReceive(s: State): State
    requires s.inbox != []
  {
    var msg := s.inbox[0];
    var rest := s.(inbox := s.inbox[1..]);
    if !IsJoin(msg.text) then
      rest.(log := s.log + [msg], server := Casting(0))
    else if |s.names| < MAX_CLIENTS then
      rest.(names := s.names + [QueueName(msg.name)], since := s.since + [|s.log|],
            tried := s.tried + [[]], sent := s.sent + [[]], log := s.log + [msg], server := Casting(0))
    else
      rest
  }

  /** One attempt to put a delivery into the queue of a slot. */
  function Attempt(s: State, slot: nat, d: Delivery, ok: bool): State
    requires WellShaped(s) && slot < |s.names|
  {
    var q := s.names[slot];
    var next := s.(tried := s.tried[slot := s.tried[slot] + [d]]);
    if ok then
      next.(sent := s.sent[slot := s.sent[slot] + [d]],
            queues := s.queues[q := At(s.queues, q) + [Content(d, s.log, s.names)]])
    else
      next.(failures := s.failures + 1)
  }

  /** The roster of the first `count` slots, in join order. */
  function Entries(count: nat): (ds: seq<Delivery>)
    ensures |ds| == count
  {
    if count == 0 then [] else Entries(count - 1) + [Entry(count - 1)]
  }

  /** The roster queue cannot be opened: no entry is sent. */
  function SkipRoster(s: State): State
    requires WellShaped(s) && s.names != []
  {
    var last := |s.names| - 1;
    s.(tried := s.tried[last := s.tried[last] + Entries(|s.names|)], failures := s.failures + 1, server := Receiving)
  }

  /** The slot at which the next send may block on a full queue. */
  predicate RoomAt(s: State, slot: nat) {
    slot < |s.names| && |At(s.queues, s.names[slot])| < QUEUE_SIZE
  }

  predicate SendEnabled(s: State, ok: bool) {
    && WellShaped(s) && s.log != []
    && match s.server
       case Receiving => false
       case Casting(i) => i < |s.names| && ok ==> RoomAt(s, i)
       case Opening => s.names != []
       case Listing(i) => s.names != [] && (i < |s.names| && ok ==> RoomAt(s, |s.names| - 1))
  }

  /** The next statement of a broadcast or roster loop. */
  function AfterSend(s: State, ok: bool): State
    requires SendEnabled(s, ok)
  {
    match s.server
    case Casting(i) =>
      if i < |s.names| then Attempt(s, i, Cast(|s.log| - 1), ok).(server := Casting(i + 1))
      else if IsJoin(s.log[|s.log| - 1].text) then s.(server := Opening)
      else s.(server := Receiving)
    case Opening => if ok then s.(server := Listing(0)) else SkipRoster(s)
    case Listing(i) =>
      if i < |s.names| then Attempt(s, |s.names| - 1, Entry(i), ok).(server := Listing(i + 1))
      else s.(server := Receiving)
  }

  // ---- The clients ---------------------------------------------------------------------

  /** What the receiver thread prints into the message window; the comparison is with the whole text. */
  predicate Visible(msg: Message, own: string) {
    msg.text != "/join" && msg.text != "/quit" && msg.name != own
  }

  function Post(s: State, msg: Message, ok: bool): State {
    if ok then s.(inbox := s.inbox + [msg]) else s
  }

  predicate Running(x: Client) {
    !x.sender.Unjoined? && !x.sender.Stopped?
  }

  predicate ClientEnabled(s: State, c: nat, e: Event) {
    && c < |s.clients|
    && var x := s.clients[c];
       match e
       case SendJoin(_, ok) => x.sender.Unjoined? && (ok ==> |s.inbox| < QUEUE_SIZE)
       case Say(_, text, ok) => x.sender.Typing? && (ok ==> |s.inbox| < QUEUE_SIZE)
       case Echo(_) => x.sender.Echoing?
       case Receive(_) => Running(x) && x.receiver.Idle? && At(s.queues, QueueName(x.name)) != []
       case Show(_) => Running(x) && x.receiver.Showing?
       case _ => false
  }

  /** The client's own part of its step; `next` is the message at the head of its queue. */
  function ClientNext(x: Client, e: Event, next: Message): Client {
    match e
    case SendJoin(_, _) => x.(sender := Typing)
    case Say(_, text, ok) =>
      if IsQuit(text) then x.(sender := Stopped) else if ok then x.(sender := Echoing(text)) else x
    case Echo(_) =>
      if x.sender.Echoing? then
        x.(sender := Typing, window := x.window + [Message(x.sender.text, x.name)], typed := x.typed + [x.sender.text])
      else x
    case Receive(_) => x.(receiver := Showing(next), got := x.got + [next])
    case Show(_) =>
      if x.receiver.Showing? then
        x.(receiver := Idle,
           window := if Visible(x.receiver.msg, x.name) then x.window + [x.receiver.msg] else x.window)
      else x
    case _ => x
  }

  function AfterClient(s: State, c: nat, e: Event): State
    requires ClientEnabled(s, c, e)
  {
    var x := s.clients[c];
    var q := QueueName(x.name);
    var head := if At(s.queues, q) == [] then Message("", "") else At(s.queues, q)[0];
    var t := s.(clients := s.clients[c := ClientNext(x, e, head)]);
    match e
    case SendJoin(_, ok) => Post(t, Message("/join", x.name), ok)
    case Say(_, text, ok) => Post(t, Message(text, x.name), ok && !IsQuit(text))
    case Receive(_) => t.(queues := s.queues[q := At(s.queues, q)[1..]], taken := s.taken[q := At(s.taken, q) + [head]])
    case _ => t
  }

  // ---- Runs ------------------------------------------------------------------------------

  function Actor(e: Event): nat {
    match e
    case SendJoin(c, _) => c
    case Say(c, _, _) => c
    case Echo(c) => c
    case Receive(c) => c
    case Show(c) => c
    case _ => 0
  }

  predicate Enabled(s: State, e: Event) {
    match e
    case ServerReceive => s.server.Receiving? && s.inbox != []
    case ServerSend(ok) => SendEnabled(s, ok)
    case _ => ClientEnabled(s, Actor(e), e)
  }

  function Apply(s: State, e: Event): State
    requires Enabled(s, e)
  {
    match e
    case ServerReceive => AfterReceive(s)
    case ServerSend(ok) => AfterSend(s, ok)
    case _ => AfterClient(s, Actor(e), e)
  }

  function Step(s: State, e: Event): Option<State> {
    if Enabled(s, e) then Some(Apply(s, e)) else None
  }

  /** Every event of the schedule is enabled when its turn comes. */
  ghost predicate Run(s: State, es: seq<Event>, t: State) {
    Runs.Run(Step, s, es, t)
  }

  ghost predicate CanReach(s: State, t: State) {
    Runs.CanReach(Step, s, t)
  }

  ghost predicate Reachable(names: seq<string>, t: State) {
    CanReach(Init(names), t)
  }
}
