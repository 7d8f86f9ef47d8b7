/** The shops, buyers and loader program: every thread as a program counter over its C statements.
    Reads, writes and the halves of `+=`, `-=` and `++` on shared variables are separate steps. */
module Market {
  import opened Options
  import Runs

  const DELIVERY: int := 5000
  const FULL: int := 9999

  datatype Mutex = ShopMutex(shop: nat) | CountMutex | LoaderMutex
  datatype Thread = BuyerThread(b: nat) | LoaderThread | MainThread

  datatype BuyerPc =
    | NotStarted
    | LockShop | TestEmpty | UnlockEmpty                       // lines 32-35
    | LockLoader | Wait | Waiting | Woken | UnlockLoader       // lines 36-38
    | RelockShop                                               // line 39
    | Choose | ReadStock | WriteStock | LowerNeed | UnlockShop // lines 42-54
    | TestNeed                                                 // line 58
    | LockCount | ReadCount | WriteCount | UnlockCount         // lines 60-62
    | Returned

  datatype LoaderPc =
    | Unborn
    | LockTotal | TestTotal | UnlockExit | Gone | UnlockGo     // lines 71-77
    | EnterShop | TestStock | ReadShelf | WriteShelf | Signal | LeaveShop // lines 80-87

  datatype MainPc = Create(b: nat) | CreateLoader | Join(b: nat) | JoinLoader
                  | DestroyShop(i: nat) | DestroyCount | DestroyLoader | Exit

  datatype Buyer = Buyer(pc: BuyerPc, shop: nat, need: int, taken: int, temp: int)
  datatype Loader = Loader(pc: LoaderPc, shop: nat, temp: int)

  /** `demand`, `fills` and `visits` are history: the initial needs, the deliveries and the purchases so far. */
  datatype State = State(capacity: seq<int>, buyers: seq<Buyer>, satisfied: int, loader: Loader, main: MainPc,
                         owner: map<Mutex, Thread>, demand: seq<int>, fills: nat, visits: seq<nat>)

  /** A scheduler choice. `LoaderStep` names the buyer that a signal wakes; `WakeUp` is a spurious wakeup. */
  datatype Event = BuyerStep(b: nat) | WakeUp(b: nat) | LoaderStep(wake: Option<nat>) | MainStep

  function Init(demand: seq<int>, shops: nat): State {
    State(seq(shops, _ => 0), seq(|demand|, b requires 0 <= b < |demand| => Buyer(NotStarted, 0, demand[b], 0, 0)), 0,
          Loader(Unborn, 0, 0), Create(0), map[], demand, 0, seq(|demand|, _ => 0))
  }

  /** What the program starts from: at least one shop, and `rand() % 100000 + 1` for every need. */
  predicate ValidInput(demand: seq<int>, shops: nat) {
    shops >= 1 && forall b :: 0 <= b < |demand| ==> demand[b] >= 1
  }

  // ---- Mutexes -----------------------------------------------------------------------

  /** The mutex that the next statement of the buyer locks. */
  function BuyerRequest(x: Buyer): Option<Mutex> {
    match x.pc
    case LockShop | RelockShop => Some(ShopMutex(x.shop))
    case LockLoader | Woken => Some(LoaderMutex)
    case LockCount => Some(CountMutex)
    case _ => None
  }

  /** The mutex that the next statement of the buyer gives up; waiting gives up the loader mutex. */
  function BuyerRelease(x: Buyer): Option<Mutex> {
    match x.pc
    case UnlockEmpty | UnlockShop => Some(ShopMutex(x.shop))
    case Wait | UnlockLoader => Some(LoaderMutex)
    case UnlockCount => Some(CountMutex)
    case _ => None
  }

  function LoaderRequest(l: Loader): Option<Mutex> {
    match l.pc
    case LockTotal => Some(CountMutex)
    case EnterShop => Some(ShopMutex(l.shop))
    case _ => None
  }

  function LoaderRelease(l: Loader): Option<Mutex> {
    match l.pc
    case UnlockExit | UnlockGo => Some(CountMutex)
    case LeaveShop => Some(ShopMutex(l.shop))
    case _ => None
  }

  function OwnerAfter(owner: map<Mutex, Thread>, t: Thread, request: Option<Mutex>,
                      release: Option<Mutex>): map<Mutex, Thread>
  {
    if request.Some? then owner[request.value := t]
    else if release.Some? then owner - {release.value}
    else owner
  }

  // ---- One step of every thread --------------------------------------------------------

  predicate BuyerEnabled(s: State, b: nat) {
    && b < |s.buyers| == |s.visits| && s.buyers[b].shop < |s.capacity|
    && !s.buyers[b].pc.NotStarted? && !s.buyers[b].pc.Waiting? && !s.buyers[b].pc.Returned?
    && (BuyerRequest(s.buyers[b]).Some? ==> BuyerRequest(s.buyers[b]).value !in s.owner)
  }

  predicate WaitsAt(s: State, b: nat, shop: nat) {
    b < |s.buyers| && s.buyers[b].pc.Waiting? && s.buyers[b].shop == shop
  }

  predicate LoaderEnabled(s: State, wake: Option<nat>) {
    && s.loader.shop < |s.capacity| && !s.loader.pc.Unborn? && !s.loader.pc.Gone?
    && (LoaderRequest(s.loader).Some? ==> LoaderRequest(s.loader).value !in s.owner)
    && (wake.Some? ==> s.loader.pc.Signal? && WaitsAt(s, wake.value, s.loader.shop))
    && (wake.None? && s.loader.pc.Signal? ==> forall b :: 0 <= b < |s.buyers| ==> !WaitsAt(s, b, s.loader.shop))
  }

  predicate MainEnabled(s: State) {
    match s.main
    case Create(b) => b < |s.buyers| ==> s.buyers[b].pc.NotStarted?
    case Join(b) => b < |s.buyers| ==> s.buyers[b].pc.Returned?
    case JoinLoader => s.loader.pc.Gone?
    case Exit => false
    case _ => true
  }

  predicate Enabled(s: State, e: Event) {
    match e
    case BuyerStep(b) => BuyerEnabled(s, b)
    case WakeUp(b) => b < |s.buyers| && s.buyers[b].pc.Waiting?
    case LoaderStep(wake) => LoaderEnabled(s, wake)
    case MainStep => MainEnabled(s)
  }

  /** The shop a buyer visits after shop i: the next one, and the first one after the last. */
  function NextShop(i: nat, shops: nat): nat {
    if i + 1 < shops then i + 1 else 0
  }

  /** The local effect of a buyer statement, given the two shared values it may read. */
  function BuyerNext(x: Buyer, stock: int, satisfied: int, shops: nat): Buyer {
    match x.pc
    case LockShop | RelockShop => x.(pc := TestEmpty)
    case TestEmpty => x.(pc := if stock == 0 then UnlockEmpty else Choose)
    case UnlockEmpty => x.(pc := LockLoader)
    case LockLoader => x.(pc := Wait)
    case Wait => x.(pc := Waiting)
    case Woken => x.(pc := UnlockLoader)
    case UnlockLoader => x.(pc := RelockShop)
    case Choose => x.(pc := ReadStock, taken := if stock > x.need then x.need else stock)
    case ReadStock => x.(pc := WriteStock, temp := stock)
    case WriteStock => x.(pc := LowerNeed)
    case LowerNeed => x.(pc := UnlockShop, need := x.need - x.taken)
    case UnlockShop => x.(pc := TestNeed)
    case TestNeed => if x.need <= 0 then x.(pc := LockCount) else x.(pc := LockShop, shop := NextShop(x.shop, shops))
    case LockCount => x.(pc := ReadCount)
    case ReadCount => x.(pc := WriteCount, temp := satisfied)
    case WriteCount => x.(pc := UnlockCount)
    case UnlockCount => x.(pc := Returned)
    case NotStarted | Waiting | Returned => x
  }

  function AfterBuyer(s: State, b: nat): State
    requires BuyerEnabled(s, b)
  {
    var x := s.buyers[b];
    s.(buyers := s.buyers[b := BuyerNext(x, s.capacity[x.shop], s.satisfied, |s.capacity|)],
       owner := OwnerAfter(s.owner, BuyerThread(b), BuyerRequest(x), BuyerRelease(x)),
       capacity := if x.pc.WriteStock? then s.capacity[x.shop := x.temp - x.taken] else s.capacity,
       visits := if x.pc.WriteStock? then s.visits[b := s.visits[b] + 1] else s.visits,
       satisfied := if x.pc.WriteCount? then x.temp + 1 else s.satisfied)
  }

  function LoaderNext(l: Loader, stock: int, satisfied: int, shops: nat, buyers: nat): Loader {
    match l.pc
    case LockTotal => l.(pc := TestTotal)
    case TestTotal => l.(pc := if satisfied == buyers then UnlockExit else UnlockGo)
    case UnlockExit => l.(pc := Gone)
    case UnlockGo => l.(pc := EnterShop, shop := 0)
    case EnterShop => l.(pc := TestStock)
    case TestStock => l.(pc := if stock < DELIVERY then ReadShelf else LeaveShop)
    case ReadShelf => l.(pc := WriteShelf, temp := stock)
    case WriteShelf => l.(pc := Signal)
    case Signal => l.(pc := LeaveShop)
    case LeaveShop => if l.shop + 1 < shops then l.(pc := EnterShop, shop := l.shop + 1) else l.(pc := LockTotal)
    case Unborn | Gone => l
  }

  /** Buyer b is put at another position: `main` starts it, or a wakeup ends its wait. */
  function Placed(s: State, b: nat, pc: BuyerPc): State
    requires b < |s.buyers|
  {
    s.(buyers := s.buyers[b := s.buyers[b].(pc := pc)])
  }

  /** The loader's own part of its step. */
  function LoaderMove(s: State): State
    requires s.loader.shop < |s.capacity|
  {
    var l := s.loader;
    s.(loader := LoaderNext(l, s.capacity[l.shop], s.satisfied, |s.capacity|, |s.buyers|),
       owner := OwnerAfter(s.owner, LoaderThread, LoaderRequest(l), LoaderRelease(l)),
       capacity := if l.pc.WriteShelf? then s.capacity[l.shop := l.temp + DELIVERY] else s.capacity,
       fills := if l.pc.WriteShelf? then s.fills + 1 else s.fills)
  }

  function AfterLoader(s: State, wake: Option<nat>): State
    requires LoaderEnabled(s, wake)
  {
    LoaderMove(if wake.Some? then Placed(s, wake.value, Woken) else s)
  }

  function AfterMain(s: State): State
    requires MainEnabled(s)
  {
    match s.main
    case Create(b) =>
      if b < |s.buyers| then Placed(s, b, LockShop).(main := Create(b + 1))
      else s.(main := CreateLoader)
    case CreateLoader => s.(main := Join(0), loader := s.loader.(pc := LockTotal))
    case Join(b) => s.(main := if b < |s.buyers| then Join(b + 1) else JoinLoader)
    case JoinLoader => s.(main := DestroyShop(0))
    case DestroyShop(i) => s.(main := if i < |s.capacity| then DestroyShop(i + 1) else DestroyCount)
    case DestroyCount => s.(main := DestroyLoader)
    case DestroyLoader => s.(main := Exit)
  }

  function Apply(s: State, e: Event): State
    requires Enabled(s, e)
  {
    match e
    case BuyerStep(b) => AfterBuyer(s, b)
    case WakeUp(b) => Placed(s, b, Woken)
    case LoaderStep(wake) => AfterLoader(s, wake)
    case MainStep => AfterMain(s)
  }

  function Step(s: State, e: Event): Option<State> {
    if Enabled(s, e) then Some(Apply(s, e)) else None
  }

  /** Every event of the schedule is enabled when its turn comes. */
  ghost predicate Run(s: State, es: seq<Event>, t: State) {
    Runs.Run(Step, s, es, t)
  }

  ghost predicate Reachable(demand: seq<int>, shops: nat, t: State) {
    ValidInput(demand, shops) && exists es :: Run(Init(demand, shops), es, t)
  }

  // ---- Schedules without spurious wakeups ------------------------------------------------

  function SignalledStep(s: State, e: Event): Option<State> {
    if e.WakeUp? then None else Step(s, e)
  }

  /** There is a schedule from s to t without spurious wakeups. */
  ghost predicate CanReach(s: State, t: State) {
    Runs.CanReach(SignalledStep, s, t)
  }

  ghost predicate Signalled(es: seq<Event>) {
    forall e :: e in es ==> !e.WakeUp?
  }

  lemma {:induction false} SignalledRun(s: State, es: seq<Event>, t: State)
    requires Runs.Run(SignalledStep, s, es, t)
    ensures Run(s, es, t) && Signalled(es)
    decreases |es|
  {
    if es == [] {
    } else {
      SignalledRun(Apply(s, es[0]), es[1..], t);
    }
  }

  lemma ScheduleTo(s: State, t: State) returns (es: seq<Event>)
    requires CanReach(s, t)
    ensures Run(s, es, t) && Signalled(es)
  {
    es :| Runs.Run(SignalledStep, s, es, t);
    SignalledRun(s, es, t);
  }
}
