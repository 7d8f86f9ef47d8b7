/** From which states the shops program can still finish. */
module MarketDoom {
  import opened Market
  import opened MarketProgress
  import opened MarketSafety
  import opened MarketSegments
  import opened MarketTheorems
  import opened Options
  import Runs
  import opened Sums

  /** Behind a test that found the shop empty: asleep, or on the way there. */
  predicate Committed(s: State, b: nat) {
    && b < |s.buyers| && s.buyers[b].shop < |s.capacity|
    && match s.buyers[b].pc
       case TestEmpty => s.capacity[s.buyers[b].shop] == 0
       case UnlockEmpty | LockLoader | Wait | Waiting => true
       case _ => false
  }

  /** The loader will fill this shop and signal, or is just going to signal. */
  predicate Awaited(s: State, shop: nat)
    requires shop < |s.capacity|
  {
    s.capacity[shop] < DELIVERY || SignalDue(s, shop)
  }

  /** Every buyer that is committed to a wait still has a signal to come, for itself alone. */
  ghost predicate Rescuable(s: State) {
    && (forall b: nat :: Committed(s, b) ==> Awaited(s, s.buyers[b].shop))
    && (forall b: nat, c: nat :: Committed(s, b) && Committed(s, c) && b != c ==> s.buyers[b].shop != s.buyers[c].shop)
  }

  // ---- Bringing everybody to rest -------------------------------------------------------------

  /** The statements up to the next shop, the wait or the end. */
  function BuyerLeft(pc: BuyerPc): nat {
    match pc
    case NotStarted | LockShop | RelockShop | Waiting | Returned => 0
    case TestEmpty => 12
    case Choose => 11
    case ReadStock => 10
    case WriteStock => 9
    case LowerNeed => 8
    case UnlockShop => 7
    case TestNeed => 6
    case LockCount => 5
    case ReadCount | UnlockEmpty => 4
    case WriteCount | LockLoader | Woken => 3
    case UnlockCount | Wait | UnlockLoader => 2
  }

  function AllLeft(buyers: seq<Buyer>): (a: seq<int>)
    ensures |a| == |buyers|
  {
    seq(|buyers|, b requires 0 <= b < |buyers| => BuyerLeft(buyers[b].pc))
  }

  /** The statements of the loader until it gives up the mutex of the count. */
  function CountLeft(l: Loader): nat {
    match l.pc
    case TestTotal => 2
    case UnlockExit | UnlockGo => 1
    case _ => 0
  }

  function Restlessness(s: State): int {
    MainLeft(s) + Sum(AllLeft(s.buyers)) + CountLeft(s.loader)
  }

  lemma RestlessnessPositive(s: State)
    ensures Restlessness(s) >= 0
  {
    SumAtLeast(AllLeft(s.buyers), 0);
  }

  ghost predicate Resting(s: State) {
    && !s.main.Create? && !s.main.CreateLoader?
    && forall b :: 0 <= b < |s.buyers| ==> s.buyers[b].pc.Waiting? || AtRest(s.buyers[b].pc)
  }

  /** Nobody commits itself anew, and no signal that is to come gets lost. */
  ghost predicate Careful(s: State, t: State) {
    && |t.buyers| == |s.buyers| && |t.capacity| == |s.capacity|
    && (forall b: nat :: Committed(t, b) ==> Committed(s, b) && t.buyers[b].shop == s.buyers[b].shop)
    && (forall b: nat :: Committed(t, b) && Awaited(s, s.buyers[b].shop) ==> Awaited(t, t.buyers[b].shop))
    && (!s.main.Create? && !s.main.CreateLoader? ==> t.main == s.main)
    && (!s.loader.pc.Unborn? && CountLeft(s.loader) == 0 ==> t.loader == s.loader)
  }

  lemma CarefulRescuable(s: State, t: State)
    requires Careful(s, t) && Rescuable(s)
    ensures Rescuable(t)
  {
  }

  lemma LessLeft(s: State, b: nat)
    requires BuyerEnabled(s, b) && BuyerLeft(s.buyers[b].pc) > 0
    ensures Restlessness(AfterBuyer(s, b)) < Restlessness(s)
  {
    var t := AfterBuyer(s, b);
    var left := BuyerLeft(t.buyers[b].pc);
    assert AllLeft(t.buyers) == AllLeft(s.buyers)[b := left];
    SumUpdate(AllLeft(s.buyers), b, left);
    assert MainLeft(t) == MainLeft(s) && t.loader == s.loader;
  }

  lemma OthersOutside(s: State, b: nat, c: nat)
    requires LockInv(s) && b < |s.buyers| && c < |s.buyers| && c != b && BuyerHolds(s.buyers[b]).Some?
    ensures BuyerHolds(s.buyers[c]) != BuyerHolds(s.buyers[b])
  {
    assert Holds(s, BuyerThread(b)) == BuyerHolds(s.buyers[b]);
    assert Holds(s, BuyerThread(c)) == BuyerHolds(s.buyers[c]);
  }

  /** What the step of buyer b means for buyer c. */
  lemma CarefulFor(s: State, b: nat, c: nat)
    requires Inv(s) && BuyerEnabled(s, b) && BuyerLeft(s.buyers[b].pc) > 0 && Committed(AfterBuyer(s, b), c)
    ensures Committed(s, c) && AfterBuyer(s, b).buyers[c].shop == s.buyers[c].shop
    ensures Awaited(s, s.buyers[c].shop) ==> Awaited(AfterBuyer(s, b), s.buyers[c].shop)
  {
    var x := s.buyers[b];
    assert BuyerOk(x, s.demand[b], s.visits[b], s.capacity, s.satisfied);
    if c != b && BuyerHolds(x).Some? {
      OthersOutside(s, b, c);
    }
  }

  lemma CarefulBuyer(s: State, b: nat)
    requires Inv(s) && BuyerEnabled(s, b) && BuyerLeft(s.buyers[b].pc) > 0
    ensures Careful(s, AfterBuyer(s, b))
  {
    forall c: nat | Committed(AfterBuyer(s, b), c)
      ensures Committed(s, c) && AfterBuyer(s, b).buyers[c].shop == s.buyers[c].shop
      ensures Awaited(s, s.buyers[c].shop) ==> Awaited(AfterBuyer(s, b), s.buyers[c].shop)
    {
      CarefulFor(s, b, c);
    }
  }

  lemma CarefulCount(s: State)
    requires Inv(s) && CountLeft(s.loader) > 0
    ensures LoaderEnabled(s, None)
    ensures Careful(s, AfterLoader(s, None)) && Restlessness(AfterLoader(s, None)) < Restlessness(s)
  {
    var t := AfterLoader(s, None);
    assert t.buyers == s.buyers && t.capacity == s.capacity && t.main == s.main;
    assert forall b: nat :: Committed(t, b) ==> Committed(s, b);
  }

  lemma CarefulMain(s: State)
    requires Inv(s) && (s.main.Create? || s.main.CreateLoader?)
    ensures MainEnabled(s) && Careful(s, AfterMain(s)) && Restlessness(AfterMain(s)) < Restlessness(s)
  {
    var t := AfterMain(s);
    assert AllLeft(t.buyers) == AllLeft(s.buyers);
    assert |t.buyers| == |s.buyers| && t.capacity == s.capacity;
    forall b: nat | Committed(t, b)
      ensures Committed(s, b) && t.buyers[b].shop == s.buyers[b].shop
    {
    }
  }

  // ---- Settling -----------------------------------------------------------------------------

  /** As long as somebody is not at rest, some thread can go on carefully. */
  lemma CarefulStep(s: State) returns (e: Event)
    requires Inv(s) && !Resting(s)
    ensures Enabled(s, e) && !e.WakeUp? && Careful(s, Apply(s, e)) && Restlessness(Apply(s, e)) < Restlessness(s)
  {
    if s.main.Create? || s.main.CreateLoader? {
      CarefulMain(s);
      e := MainStep;
    } else {
      var b :| 0 <= b < |s.buyers| && !s.buyers[b].pc.Waiting? && !AtRest(s.buyers[b].pc);
      assert !s.buyers[b].pc.NotStarted?;
      assert BuyerOk(s.buyers[b], s.demand[b], s.visits[b], s.capacity, s.satisfied);
      if BuyerEnabled(s, b) {
        CarefulBuyer(s, b);
        LessLeft(s, b);
        e := BuyerStep(b);
      } else {
        e := CarefulHolder(s, BuyerRequest(s.buyers[b]).value);
      }
    }
  }

  /** The owner of the loader mutex or of the count is in a short critical section. */
  lemma CarefulHolder(s: State, m: Mutex) returns (e: Event)
    requires Inv(s) && m in s.owner && !m.ShopMutex?
    ensures Enabled(s, e) && !e.WakeUp? && Careful(s, Apply(s, e)) && Restlessness(Apply(s, e)) < Restlessness(s)
  {
    var t := s.owner[m];
    assert Holds(s, t) == Some(m);
    if t.BuyerThread? {
      assert BuyerOk(s.buyers[t.b], s.demand[t.b], s.visits[t.b], s.capacity, s.satisfied);
      CarefulBuyer(s, t.b);
      LessLeft(s, t.b);
      e := BuyerStep(t.b);
    } else {
      CarefulCount(s);
      e := LoaderStep(None);
    }
  }

  lemma CarefulTwice(s: State, t: State, u: State)
    requires Careful(s, t) && Careful(t, u)
    ensures Careful(s, u)
  {
  }

  lemma {:induction false} Settles(s: State) returns (t: State)
    requires Inv(s)
    ensures CanReach(s, t) && Inv(t) && Resting(t) && Careful(s, t)
    decreases Restlessness(s)
  {
    RestlessnessPositive(s);
    if Resting(s) {
      t := s;
      Runs.Stay(SignalledStep, s);
    } else {
      var e := CarefulStep(s);
      var u := Apply(s, e);
      StepKeepsInv(s, e);
      Runs.Once(SignalledStep, s, e);
      RestlessnessPositive(u);
      t := Settles(u);
      CarefulTwice(s, u, t);
      Runs.Chain(SignalledStep, s, u, t);
    }
  }

  // ---- The loader's round -------------------------------------------------------------------

  /** The buyers are at rest or have just been woken, and whoever waits can be rescued. */
  ghost predicate Quiet(s: State) {
    && Inv(s) && Rescuable(s) && !s.main.Create? && !s.main.CreateLoader?
    && forall b :: 0 <= b < |s.buyers| ==>
         s.buyers[b].pc.Waiting? || s.buyers[b].pc.Woken? || AtRest(s.buyers[b].pc)
  }

  /** The shops that the loader has left in this round have nobody waiting. */
  ghost predicate Swept(s: State) {
    match s.loader.pc
    case EnterShop | TestStock | ReadShelf | WriteShelf | Signal =>
      forall b: nat, i: nat :: WaitsAt(s, b, i) ==> i >= s.loader.shop
    case LeaveShop => forall b: nat, i: nat :: WaitsAt(s, b, i) ==> i > s.loader.shop
    case LockTotal => NobodyWaits(s)
    case _ => true
  }

  /** The statements to the end of the round. */
  function RoundLeft(l: Loader, shops: nat): int {
    match l.pc
    case LockTotal => 7 * shops + 9
    case TestTotal => 7 * shops + 8
    case UnlockGo => 7 * shops + 7
    case EnterShop => 7 * (shops - l.shop) + 6
    case TestStock => 7 * (shops - l.shop) + 5
    case ReadShelf => 7 * (shops - l.shop) + 4
    case WriteShelf => 7 * (shops - l.shop) + 3
    case Signal => 7 * (shops - l.shop) + 2
    case LeaveShop => 7 * (shops - l.shop) + 1
    case UnlockExit => 1
    case Unborn | Gone => 0
  }

  ghost predicate OnlyWaiter(s: State, wake: Option<nat>) {
    forall b: nat :: WaitsAt(s, b, s.loader.shop) ==> wake == Some(b)
  }

  /** The only buyer that can wait where the loader is. */
  lemma Waiter(s: State) returns (wake: Option<nat>)
    requires Quiet(s) && s.loader.shop < |s.capacity|
    ensures CanWake(s, wake)
    ensures OnlyWaiter(s, wake)
  {
    wake := None;
    if b :| WaitsAt(s, b, s.loader.shop) {
      wake := Some(b);
      forall c: nat | WaitsAt(s, c, s.loader.shop)
        ensures c == b
      {
        assert Committed(s, b) && Committed(s, c);
      }
    }
  }

  lemma LoaderIsFree(s: State)
    requires Quiet(s) && LoaderRequest(s.loader).Some?
    ensures LoaderRequest(s.loader).value !in s.owner
  {
    assert forall t :: Holds(s, t) == LoaderRequest(s.loader) ==> !t.BuyerThread? && !t.LoaderThread?;
  }

  lemma RoundGoesOn(s: State, wake: Option<nat>)
    requires Quiet(s) && LoaderEnabled(s, wake)
    ensures var t := AfterLoader(s, wake);
            && |t.capacity| == |s.capacity| && t.main == s.main && !t.loader.pc.Unborn?
            && (t.loader.pc.LockTotal? || RoundLeft(t.loader, |t.capacity|) < RoundLeft(s.loader, |s.capacity|))
            && forall b :: 0 <= b < |t.buyers| ==>
                 t.buyers[b].pc.Waiting? || t.buyers[b].pc.Woken? || AtRest(t.buyers[b].pc)
  {
  }

  lemma RoundStep(s: State) returns (t: State)
    requires Quiet(s) && !s.loader.pc.Unborn? && !s.loader.pc.Gone?
    ensures CanReach(s, t) && Quiet(t) && !t.loader.pc.Unborn? && (Swept(s) ==> Swept(t))
    ensures t.loader.pc.LockTotal? || RoundLeft(t.loader, |t.capacity|) < RoundLeft(s.loader, |s.capacity|)
    ensures |t.capacity| == |s.capacity| && t.main == s.main
  {
    var wake := NextWake(s);
    t := AfterLoader(s, wake);
    Runs.Once(SignalledStep, s, LoaderStep(wake));
    StepKeepsInv(s, LoaderStep(wake));
    RoundGoesOn(s, wake);
    RoundKeepsRescuable(s, wake);
    RoundSweeps(s, wake);
  }

  lemma NextWake(s: State) returns (wake: Option<nat>)
    requires Quiet(s) && !s.loader.pc.Unborn? && !s.loader.pc.Gone?
    ensures LoaderEnabled(s, wake) && (s.loader.pc.Signal? ==> OnlyWaiter(s, wake))
  {
    wake := None;
    if s.loader.pc.Signal? {
      wake := Waiter(s);
    } else if LoaderRequest(s.loader).Some? {
      LoaderIsFree(s);
    }
  }

  lemma RoundKeepsRescuable(s: State, wake: Option<nat>)
    requires Quiet(s) && LoaderEnabled(s, wake)
    requires s.loader.pc.Signal? ==> OnlyWaiter(s, wake)
    ensures Rescuable(AfterLoader(s, wake))
  {
    var t := AfterLoader(s, wake);
    forall b: nat | Committed(t, b)
      ensures Committed(s, b) && t.buyers[b].shop == s.buyers[b].shop && Awaited(t, t.buyers[b].shop)
    {
      assert t.buyers[b] == s.buyers[b];
      assert WaitsAt(s, b, s.buyers[b].shop);
      assert Committed(s, b) && Awaited(s, s.buyers[b].shop);
    }
  }

  lemma RoundSweeps(s: State, wake: Option<nat>)
    requires Quiet(s) && LoaderEnabled(s, wake)
    requires s.loader.pc.Signal? ==> OnlyWaiter(s, wake)
    ensures Swept(s) ==> Swept(AfterLoader(s, wake))
  {
    var t := AfterLoader(s, wake);
    forall b: nat, i: nat | WaitsAt(t, b, i)
      ensures WaitsAt(s, b, i) && i < |s.capacity| && (s.loader.pc.Signal? ==> i != s.loader.shop)
      ensures s.loader.pc.TestStock? && s.capacity[s.loader.shop] >= DELIVERY ==> i != s.loader.shop
    {
      WaitingStays(s, wake, b, i);
    }
  }

  lemma WaitingStays(s: State, wake: Option<nat>, b: nat, i: nat)
    requires Quiet(s) && LoaderEnabled(s, wake) && (s.loader.pc.Signal? ==> OnlyWaiter(s, wake))
    requires WaitsAt(AfterLoader(s, wake), b, i)
    ensures WaitsAt(s, b, i) && i < |s.capacity| && (s.loader.pc.Signal? ==> i != s.loader.shop)
    ensures s.loader.pc.TestStock? && s.capacity[s.loader.shop] >= DELIVERY ==> i != s.loader.shop
  {
    assert AfterLoader(s, wake).buyers[b] == s.buyers[b];
    assert WaitsAt(s, b, i);
    assert BuyerOk(s.buyers[b], s.demand[b], s.visits[b], s.capacity, s.satisfied);
    assert Committed(s, b) && Awaited(s, i);
  }

  /** The loader comes to the end of its round, or of its work. */
  lemma {:induction false} RoundEnds(s: State) returns (t: State)
    requires Quiet(s) && !s.loader.pc.Unborn?
    ensures CanReach(s, t) && Quiet(t) && (t.loader.pc.LockTotal? || t.loader.pc.Gone?)
    ensures s.loader.pc.LockTotal? ==> t == s
    ensures Swept(s) ==> Swept(t)
    ensures t.main == s.main
    decreases if s.loader.pc.LockTotal? || s.loader.pc.Gone? then 0 else 1 + RoundLeft(s.loader, |s.capacity|)
  {
    if s.loader.pc.LockTotal? || s.loader.pc.Gone? {
      t := s;
      Runs.Stay(SignalledStep, s);
    } else {
      var u := RoundStep(s);
      t := RoundEnds(u);
      Runs.Chain(SignalledStep, s, u, t);
    }
  }

  // ---- Finishing ----------------------------------------------------------------------------

  lemma GoneFinishes(s: State) returns (t: State)
    requires Quiet(s) && s.loader.pc.Gone?
    ensures CanReach(s, t) && t.main.Exit?
  {
    AllCountedWhenGone(s);
    t := MainReturns(s);
  }

  /** Everybody that waited has been woken. */
  lemma SweptFinishes(s: State) returns (t: State)
    requires Quiet(s) && s.loader.pc.LockTotal? && NobodyWaits(s)
    ensures CanReach(s, t) && t.main.Exit?
  {
    var u := Settles(s);
    forall b: nat | b < |u.buyers|
      ensures AtRest(u.buyers[b].pc)
    {
      assert BuyerOk(u.buyers[b], u.demand[b], u.visits[b], u.capacity, u.satisfied);
      assert Committed(u, b) ==> Committed(s, b) && WaitsAt(s, b, s.buyers[b].shop);
    }
    NobodyHolds(u);
    t := CalmFinishes(u);
    Runs.Chain(SignalledStep, s, u, t);
  }

  lemma NobodyHolds(s: State)
    requires LockInv(s) && s.loader.pc.LockTotal? && forall b :: 0 <= b < |s.buyers| ==> AtRest(s.buyers[b].pc)
    ensures s.owner == map[]
  {
    assert forall t :: Holds(s, t).None?;
    assert forall m :: m !in s.owner;
  }

  lemma BeginsQuiet(s: State) returns (t: State)
    requires Quiet(s) && s.loader.pc.LockTotal? && s.satisfied != |s.buyers|
    ensures CanReach(s, t) && Quiet(t) && Swept(t) && !t.loader.pc.Unborn?
  {
    LoaderIsFree(s);
    BeginsRound(s);
    t := s.(loader := s.loader.(pc := EnterShop, shop := 0));
    CanReachInv(s, t);
    assert forall b: nat :: Committed(t, b) ==> Committed(s, b);
    assert !SignalDue(s, 0);
    forall b: nat | Committed(t, b)
      ensures Awaited(t, t.buyers[b].shop)
    {
      assert Awaited(s, s.buyers[b].shop);
    }
  }

  lemma LeavesQuiet(s: State) returns (t: State)
    requires Quiet(s) && s.loader.pc.LockTotal? && s.satisfied == |s.buyers|
    ensures CanReach(s, t) && Quiet(t) && t.loader.pc.Gone?
  {
    LoaderIsFree(s);
    GoesHome(s);
    t := s.(loader := s.loader.(pc := Gone));
    CanReachInv(s, t);
    forall b: nat | Committed(t, b)
      ensures Awaited(t, t.buyers[b].shop)
    {
      assert Committed(s, b) && Awaited(s, s.buyers[b].shop);
    }
  }

  lemma BetweenRounds(s: State) returns (t: State)
    requires Quiet(s) && s.loader.pc.LockTotal?
    ensures CanReach(s, t) && t.main.Exit?
  {
    if s.satisfied == |s.buyers| {
      var u := LeavesQuiet(s);
      t := GoneFinishes(u);
      Runs.Chain(SignalledStep, s, u, t);
    } else {
      var u := BeginsQuiet(s);
      var v := RoundEnds(u);
      if v.loader.pc.Gone? {
        t := GoneFinishes(v);
      } else {
        t := SweptFinishes(v);
      }
      Runs.Chain(SignalledStep, s, u, v);
      Runs.Chain(SignalledStep, s, v, t);
    }
  }

  /** If every buyer that is committed to a wait still has a signal to come for itself alone, the program
      can finish. */
  lemma RescuableFinishes(s: State)
    requires Inv(s) && Rescuable(s)
    ensures !Doomed(s)
  {
    var t := Settles(s);
    CarefulRescuable(s, t);
    var u := RoundEnds(t);
    var v;
    if u.loader.pc.Gone? {
      v := GoneFinishes(u);
    } else {
      v := BetweenRounds(u);
    }
    Runs.Chain(SignalledStep, s, t, u);
    Runs.Chain(SignalledStep, s, u, v);
  }

  // ---- Being lost -----------------------------------------------------------------------------

  /** Behind the test and the unlock, beside a shop that the loader passes by. */
  predicate Lost(s: State, b: nat) {
    && b < |s.buyers| && s.buyers[b].shop < |s.capacity|
    && (s.buyers[b].pc.LockLoader? || s.buyers[b].pc.Wait? || s.buyers[b].pc.Waiting?)
    && !Awaited(s, s.buyers[b].shop)
  }

  /** Whoever has not left is lost, and there is somebody. */
  ghost predicate AllLost(s: State) {
    && (exists b: nat :: Lost(s, b))
    && forall b: nat :: b < |s.buyers| ==> Lost(s, b) || s.buyers[b].pc.Returned?
  }

  /** What holds for a buyer goes on: lost, or returned. */
  ghost predicate SameFate(s: State, t: State, b: nat) {
    && b < |s.buyers| == |t.buyers|
    && (Lost(s, b) ==> Lost(t, b))
    && (s.buyers[b].pc.Returned? ==> t.buyers[b].pc.Returned?)
  }

  lemma LostBuyerMoves(s: State, c: nat, b: nat)
    requires BuyerEnabled(s, c) && Lost(s, c) && b < |s.buyers|
    ensures SameFate(s, AfterBuyer(s, c), b)
  {
    var t := AfterBuyer(s, c);
    assert t.capacity == s.capacity && t.loader == s.loader;
  }

  lemma LostWhileLoading(s: State, wake: Option<nat>, b: nat)
    requires Inv(s) && LoaderEnabled(s, wake) && b < |s.buyers|
    ensures SameFate(s, AfterLoader(s, wake), b)
  {
  }

  lemma LostWhileMain(s: State, b: nat)
    requires Inv(s) && MainEnabled(s) && b < |s.buyers|
    ensures SameFate(s, AfterMain(s), b)
  {
  }

  lemma LostStays(s: State, e: Event, b: nat)
    requires Inv(s) && AllLost(s) && Enabled(s, e) && !e.WakeUp? && b < |s.buyers|
    ensures SameFate(s, Apply(s, e), b)
  {
    match e
    case BuyerStep(c) => LostBuyerMoves(s, c, b);
    case LoaderStep(wake) => LostWhileLoading(s, wake, b);
    case MainStep => LostWhileMain(s, b);
  }

  lemma AllLostStays(s: State, e: Event)
    requires Inv(s) && AllLost(s) && Enabled(s, e) && !e.WakeUp?
    ensures AllLost(Apply(s, e))
  {
    var t := Apply(s, e);
    var c: nat :| Lost(s, c);
    LostStays(s, e, c);
    forall b: nat | b < |s.buyers|
      ensures Lost(t, b) || t.buyers[b].pc.Returned?
    {
      LostStays(s, e, b);
    }
  }

  lemma {:induction false} AllLostForever(s: State, es: seq<Event>, t: State)
    requires Inv(s) && AllLost(s) && Run(s, es, t) && Signalled(es)
    ensures Inv(t) && AllLost(t)
    decreases |es|
  {
    if es == [] {
    } else {
      assert es[0] in es;
      StepKeepsInv(s, es[0]);
      AllLostStays(s, es[0]);
      AllLostForever(Apply(s, es[0]), es[1..], t);
    }
  }

  lemma AllLostDoomed(s: State)
    requires Inv(s) && AllLost(s)
    ensures Doomed(s)
  {
    forall t | CanReach(s, t)
      ensures !t.main.Exit?
    {
      var es := ScheduleTo(s, t);
      AllLostForever(s, es, t);
      var b: nat :| Lost(t, b);
    }
  }

  /** With a single buyer: the program can finish exactly unless the buyer is behind its test, and its shop
      holds 5000 or more, and no signal is due there. */
  lemma SingleDoomedIff(demand: seq<int>, shops: nat, s: State)
    requires Reachable(demand, shops, s) && |demand| == 1
    ensures Doomed(s) <==> Lost(s, 0)
  {
    ReachableInv(demand, shops, s);
    if Lost(s, 0) {
      AllLostDoomed(s);
    } else {
      assert BuyerOk(s.buyers[0], s.demand[0], s.visits[0], s.capacity, s.satisfied);
      assert forall b: nat :: Committed(s, b) ==> b == 0;
      RescuableFinishes(s);
    }
  }

  /** With any number of buyers: from a state without return some buyer is behind its test with no signal
      to come, or two of them are at the same shop. */
  lemma DoomedNeeds(demand: seq<int>, shops: nat, s: State)
    requires Reachable(demand, shops, s) && Doomed(s)
    ensures (exists b: nat :: Lost(s, b))
            || exists b: nat, c: nat ::
                 Committed(s, b) && Committed(s, c) && b != c && s.buyers[b].shop == s.buyers[c].shop
  {
    ReachableInv(demand, shops, s);
    if Rescuable(s) {
      RescuableFinishes(s);
    } else if b: nat :| Committed(s, b) && !Awaited(s, s.buyers[b].shop) {
      assert BuyerOk(s.buyers[b], s.demand[b], s.visits[b], s.capacity, s.satisfied);
      assert Lost(s, b);
    }
  }
}
