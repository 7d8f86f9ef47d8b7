/** The inductive invariant of the shops program, over every interleaving. */
module MarketSafety {
  import opened Sums
  import opened Market
  import opened Options

  // ---- Locks ----------------------------------------------------------------------------

  /** The mutex that a buyer holds between its lock and unlock statements, read off its position. */
  function BuyerHolds(x: Buyer): Option<Mutex> {
    match x.pc
    case TestEmpty | UnlockEmpty | Choose | ReadStock | WriteStock | LowerNeed | UnlockShop => Some(ShopMutex(x.shop))
    case Wait | UnlockLoader => Some(LoaderMutex)
    case ReadCount | WriteCount | UnlockCount => Some(CountMutex)
    case _ => None
  }

  function LoaderHolds(l: Loader): Option<Mutex> {
    match l.pc
    case TestTotal | UnlockExit | UnlockGo => Some(CountMutex)
    case TestStock | ReadShelf | WriteShelf | Signal | LeaveShop => Some(ShopMutex(l.shop))
    case _ => None
  }

  function Holds(s: State, t: Thread): Option<Mutex> {
    match t
    case BuyerThread(b) => if b < |s.buyers| then BuyerHolds(s.buyers[b]) else None
    case LoaderThread => LoaderHolds(s.loader)
    case MainThread => None
  }

  function Requests(s: State, t: Thread): Option<Mutex> {
    match t
    case BuyerThread(b) => if b < |s.buyers| then BuyerRequest(s.buyers[b]) else None
    case LoaderThread => LoaderRequest(s.loader)
    case MainThread => None
  }

  function Releases(s: State, t: Thread): Option<Mutex> {
    match t
    case BuyerThread(b) => if b < |s.buyers| then BuyerRelease(s.buyers[b]) else None
    case LoaderThread => LoaderRelease(s.loader)
    case MainThread => None
  }

  /** The owners recorded by the mutexes are the threads whose position lies in the critical section. */
  ghost predicate LockInv(s: State) {
    && (forall m :: m in s.owner ==> Holds(s, s.owner[m]) == Some(m))
    && (forall t :: Holds(s, t).Some? ==> Holds(s, t).value in s.owner && s.owner[Holds(s, t).value] == t)
  }

  lemma LockStep(s: State, u: State, t: Thread, request: Option<Mutex>, release: Option<Mutex>)
    requires LockInv(s)
    requires forall r :: r != t ==> Holds(u, r) == Holds(s, r)
    requires u.owner == OwnerAfter(s.owner, t, request, release)
    requires request.Some? ==> request.value !in s.owner && Holds(s, t).None? && Holds(u, t) == request
    requires request.None? && release.Some? ==> Holds(s, t) == release && Holds(u, t).None?
    requires request.None? && release.None? ==> Holds(u, t) == Holds(s, t)
    ensures LockInv(u)
  {
  }

  // ---- Buyers and loader ---------------------------------------------------------------

  /** Positions at which a buyer still has something to buy. */
  predicate Shopping(pc: BuyerPc) {
    match pc
    case LowerNeed | UnlockShop | TestNeed | LockCount | ReadCount | WriteCount | UnlockCount | Returned => false
    case _ => true
  }

  predicate Leaving(pc: BuyerPc) {
    pc.LockCount? || pc.ReadCount? || pc.WriteCount? || pc.UnlockCount? || pc.Returned?
  }

  /** Taken from a shop but not yet subtracted from the need. */
  function InFlight(x: Buyer): int {
    if x.pc.LowerNeed? then x.taken else 0
  }

  function Acquired(x: Buyer, demand: int): int {
    demand - x.need + InFlight(x)
  }

  predicate BuyerOk(x: Buyer, demand: int, visits: nat, capacity: seq<int>, satisfied: int) {
    && x.shop < |capacity|
    && 0 <= x.need <= demand
    && (x.pc.NotStarted? ==> x.need == demand)
    && (Shopping(x.pc) ==> x.need >= 1)
    && (x.pc.UnlockEmpty? ==> capacity[x.shop] == 0)
    && (x.pc.Choose? || x.pc.ReadStock? || x.pc.WriteStock? ==> capacity[x.shop] >= 1)
    && (x.pc.ReadStock? || x.pc.WriteStock? ==>
          x.taken == if capacity[x.shop] > x.need then x.need else capacity[x.shop])
    && (x.pc.WriteStock? ==> x.temp == capacity[x.shop])
    && (x.pc.LowerNeed? ==> 1 <= x.taken <= x.need)
    && (Leaving(x.pc) ==> x.need == 0)
    && (x.pc.WriteCount? ==> x.temp == satisfied)
    && visits <= Acquired(x, demand)
  }

  ghost predicate BuyersOk(s: State) {
    && |s.buyers| == |s.demand| == |s.visits| && |s.capacity| >= 1
    && forall b :: 0 <= b < |s.buyers| ==> BuyerOk(s.buyers[b], s.demand[b], s.visits[b], s.capacity, s.satisfied)
  }

  ghost predicate LoaderOk(s: State) {
    && s.loader.shop < |s.capacity|
    && (s.loader.pc.ReadShelf? || s.loader.pc.WriteShelf? ==> s.capacity[s.loader.shop] < DELIVERY)
    && (s.loader.pc.WriteShelf? ==> s.loader.temp == s.capacity[s.loader.shop])
    && (s.loader.pc.Signal? ==> s.capacity[s.loader.shop] >= DELIVERY)
    && (s.loader.pc.UnlockExit? || s.loader.pc.Gone? ==> s.satisfied == |s.buyers|)
  }

  ghost predicate StockOk(s: State) {
    forall i :: 0 <= i < |s.capacity| ==> 0 <= s.capacity[i] <= FULL
  }

  lemma BuyerLocks(s: State, b: nat)
    requires LockInv(s) && BuyersOk(s) && BuyerEnabled(s, b)
    ensures LockInv(AfterBuyer(s, b))
  {
    var x, u := s.buyers[b], AfterBuyer(s, b);
    assert BuyerOk(x, s.demand[b], s.visits[b], s.capacity, s.satisfied);
    var y := u.buyers[b];
    assert Holds(s, BuyerThread(b)) == BuyerHolds(x) && Holds(u, BuyerThread(b)) == BuyerHolds(y);
    LockStep(s, u, BuyerThread(b), BuyerRequest(x), BuyerRelease(x));
  }

  lemma LoaderLocks(s: State)
    requires LockInv(s) && LoaderOk(s)
    requires LoaderRequest(s.loader).Some? ==> LoaderRequest(s.loader).value !in s.owner
    ensures LockInv(LoaderMove(s))
  {
    LockStep(s, LoaderMove(s), LoaderThread, LoaderRequest(s.loader), LoaderRelease(s.loader));
  }

  /** While one thread is inside the critical section of a mutex, no other thread is. */
  lemma Exclusive(s: State, t: Thread, r: Thread)
    requires LockInv(s) && Holds(s, t).Some? && Holds(s, r) == Holds(s, t)
    ensures t == r
  {
  }

  // ---- Conservation and the count -----------------------------------------------------

  function AllAcquired(s: State): (a: seq<int>)
    requires |s.buyers| == |s.demand|
    ensures |a| == |s.buyers|
  {
    seq(|s.buyers|, b requires 0 <= b < |s.buyers| => Acquired(s.buyers[b], s.demand[b]))
  }

  /** Past the increment of `buyers_satisfied`. */
  predicate Counted(x: Buyer) {
    x.pc.UnlockCount? || x.pc.Returned?
  }

  function AllCounted(buyers: seq<Buyer>): (a: seq<int>)
    ensures |a| == |buyers|
  {
    seq(|buyers|, b requires 0 <= b < |buyers| => if Counted(buyers[b]) then 1 else 0)
  }

  ghost predicate Conserved(s: State) {
    && |s.buyers| == |s.demand|
    && DELIVERY * s.fills == Sum(s.capacity) + Sum(AllAcquired(s))
  }

  ghost predicate CountOk(s: State) {
    s.satisfied == Sum(AllCounted(s.buyers))
  }

  /** How far `main` has come in creating and joining the threads. */
  ghost predicate MainOk(s: State) {
    match s.main
    case Create(k) => k <= |s.buyers| && s.loader.pc.Unborn? && Started(s, k) && Unstarted(s, k)
    case CreateLoader => s.loader.pc.Unborn? && Started(s, |s.buyers|)
    case Join(k) => k <= |s.buyers| && !s.loader.pc.Unborn? && Started(s, |s.buyers|) && Joined(s, k)
    case JoinLoader => !s.loader.pc.Unborn? && Joined(s, |s.buyers|)
    case _ => s.loader.pc.Gone? && Joined(s, |s.buyers|)
  }

  ghost predicate Started(s: State, k: nat) {
    forall b :: 0 <= b < k && b < |s.buyers| ==> !s.buyers[b].pc.NotStarted?
  }

  ghost predicate Unstarted(s: State, k: nat) {
    forall b :: k <= b < |s.buyers| ==> s.buyers[b].pc.NotStarted?
  }

  ghost predicate Joined(s: State, k: nat) {
    forall b :: 0 <= b < k && b < |s.buyers| ==> s.buyers[b].pc.Returned?
  }

  /** The invariant without the position of `main`. */
  ghost predicate ThreadsOk(s: State) {
    LockInv(s) && BuyersOk(s) && LoaderOk(s) && StockOk(s) && Conserved(s) && CountOk(s)
  }

  ghost predicate Inv(s: State) {
    ThreadsOk(s) && MainOk(s)
  }

  // ---- A step of a buyer ---------------------------------------------------------------

  /** A buyer keeps its local facts when the others leave alone what its mutex protects. */
  lemma BuyerFrame(x: Buyer, demand: int, visits: nat, capacity: seq<int>, satisfied: int, stock: seq<int>, count: int)
    requires BuyerOk(x, demand, visits, capacity, satisfied) && |stock| == |capacity|
    requires BuyerHolds(x) == Some(ShopMutex(x.shop)) ==> stock[x.shop] == capacity[x.shop]
    requires BuyerHolds(x) == Some(CountMutex) ==> count == satisfied
    ensures BuyerOk(x, demand, visits, stock, count)
  {
  }

  lemma BuyerKeepsItself(s: State, b: nat)
    requires BuyersOk(s) && StockOk(s) && BuyerEnabled(s, b)
    ensures var u := AfterBuyer(s, b); BuyerOk(u.buyers[b], u.demand[b], u.visits[b], u.capacity, u.satisfied)
  {
    assert BuyerOk(s.buyers[b], s.demand[b], s.visits[b], s.capacity, s.satisfied);
  }

  lemma BuyerKeepsBuyers(s: State, b: nat)
    requires LockInv(s) && BuyersOk(s) && StockOk(s) && BuyerEnabled(s, b)
    ensures BuyersOk(AfterBuyer(s, b))
  {
    var x, u := s.buyers[b], AfterBuyer(s, b);
    BuyerKeepsItself(s, b);
    forall c | 0 <= c < |u.buyers|
      ensures BuyerOk(u.buyers[c], u.demand[c], u.visits[c], u.capacity, u.satisfied)
    {
      if c != b {
        var y := s.buyers[c];
        if BuyerHolds(x).Some? && BuyerHolds(y) == BuyerHolds(x) {
          assert Holds(s, BuyerThread(c)) == Holds(s, BuyerThread(b));
          Exclusive(s, BuyerThread(b), BuyerThread(c));
        } else {
          BuyerFrame(y, s.demand[c], s.visits[c], s.capacity, s.satisfied, u.capacity, u.satisfied);
        }
      }
    }
  }

  lemma BuyerKeepsStock(s: State, b: nat)
    requires BuyersOk(s) && StockOk(s) && BuyerEnabled(s, b)
    ensures StockOk(AfterBuyer(s, b))
  {
    assert BuyerOk(s.buyers[b], s.demand[b], s.visits[b], s.capacity, s.satisfied);
  }

  lemma BuyerKeepsGoods(s: State, b: nat)
    requires BuyersOk(s) && Conserved(s) && BuyerEnabled(s, b)
    ensures Conserved(AfterBuyer(s, b))
  {
    var x, u := s.buyers[b], AfterBuyer(s, b);
    assert BuyerOk(x, s.demand[b], s.visits[b], s.capacity, s.satisfied);
    var y := u.buyers[b];
    assert AllAcquired(u) == AllAcquired(s)[b := Acquired(y, s.demand[b])];
    SumUpdate(AllAcquired(s), b, Acquired(y, s.demand[b]));
    if x.pc.WriteStock? {
      SumUpdate(s.capacity, x.shop, x.temp - x.taken);
    }
  }

  lemma BuyerKeepsCount(s: State, b: nat)
    requires BuyersOk(s) && CountOk(s) && BuyerEnabled(s, b)
    ensures CountOk(AfterBuyer(s, b))
  {
    var x, u := s.buyers[b], AfterBuyer(s, b);
    assert BuyerOk(x, s.demand[b], s.visits[b], s.capacity, s.satisfied);
    var v := if Counted(u.buyers[b]) then 1 else 0;
    assert AllCounted(u.buyers) == AllCounted(s.buyers)[b := v];
    SumUpdate(AllCounted(s.buyers), b, v);
  }

  /** A buyer that has not been counted keeps the count below the number of buyers. */
  lemma UncountedBuyer(buyers: seq<Buyer>, b: nat)
    requires b < |buyers| && !Counted(buyers[b])
    ensures Sum(AllCounted(buyers)) < |buyers|
  {
    var a := AllCounted(buyers);
    SumUpdate(a, b, 1);
    SumAtMost(a[b := 1], 1);
  }

  lemma BuyerKeepsLoader(s: State, b: nat)
    requires LockInv(s) && BuyersOk(s) && LoaderOk(s) && CountOk(s) && BuyerEnabled(s, b)
    ensures LoaderOk(AfterBuyer(s, b))
  {
    var x := s.buyers[b];
    assert BuyerOk(x, s.demand[b], s.visits[b], s.capacity, s.satisfied);
    if x.pc.WriteCount? {
      UncountedBuyer(s.buyers, b);
    }
    if BuyerHolds(x).Some? && BuyerHolds(x) == LoaderHolds(s.loader) {
      Exclusive(s, BuyerThread(b), LoaderThread);
    }
  }

  lemma BuyerKeepsMain(s: State, b: nat)
    requires MainOk(s) && BuyerEnabled(s, b)
    ensures MainOk(AfterBuyer(s, b))
  {
    var y := AfterBuyer(s, b).buyers[b];
    assert !y.pc.NotStarted?;
  }

  lemma BuyerKeepsInv(s: State, b: nat)
    requires Inv(s) && BuyerEnabled(s, b)
    ensures Inv(AfterBuyer(s, b))
  {
    BuyerLocks(s, b);
    BuyerKeepsBuyers(s, b);
    BuyerKeepsStock(s, b);
    BuyerKeepsGoods(s, b);
    BuyerKeepsCount(s, b);
    BuyerKeepsLoader(s, b);
    BuyerKeepsMain(s, b);
  }

  // ---- Wakeups, the loader and main ------------------------------------------------------

  lemma MoveKeeps(s: State, b: nat, pc: BuyerPc)
    requires ThreadsOk(s) && b < |s.buyers|
    requires (s.buyers[b].pc.Waiting? && pc.Woken?) || (s.buyers[b].pc.NotStarted? && pc.LockShop?)
    ensures ThreadsOk(Placed(s, b, pc))
  {
    var u := Placed(s, b, pc);
    assert BuyerOk(s.buyers[b], s.demand[b], s.visits[b], s.capacity, s.satisfied);
    assert AllAcquired(u) == AllAcquired(s);
    assert AllCounted(u.buyers) == AllCounted(s.buyers);
    LockStep(s, u, BuyerThread(b), None, None);
  }

  lemma WakeKeepsInv(s: State, b: nat)
    requires Inv(s) && b < |s.buyers| && s.buyers[b].pc.Waiting?
    ensures Inv(Placed(s, b, Woken))
  {
    MoveKeeps(s, b, Woken);
  }

  lemma LoaderKeepsBuyers(s: State)
    requires LockInv(s) && BuyersOk(s) && LoaderOk(s)
    ensures BuyersOk(LoaderMove(s))
  {
    var u := LoaderMove(s);
    forall c | 0 <= c < |u.buyers|
      ensures BuyerOk(u.buyers[c], u.demand[c], u.visits[c], u.capacity, u.satisfied)
    {
      var y := s.buyers[c];
      if LoaderHolds(s.loader).Some? && BuyerHolds(y) == LoaderHolds(s.loader) {
        assert Holds(s, BuyerThread(c)) == Holds(s, LoaderThread);
        Exclusive(s, BuyerThread(c), LoaderThread);
      } else {
        BuyerFrame(y, s.demand[c], s.visits[c], s.capacity, s.satisfied, u.capacity, u.satisfied);
      }
    }
  }

  lemma LoaderKeepsGoods(s: State)
    requires BuyersOk(s) && LoaderOk(s) && Conserved(s)
    ensures Conserved(LoaderMove(s))
  {
    var u, l := LoaderMove(s), s.loader;
    assert AllAcquired(u) == AllAcquired(s);
    if l.pc.WriteShelf? {
      SumUpdate(s.capacity, l.shop, l.temp + DELIVERY);
    }
  }

  lemma LoaderKeepsInv(s: State)
    requires Inv(s) && !s.loader.pc.Unborn? && !s.loader.pc.Gone?
    requires LoaderRequest(s.loader).Some? ==> LoaderRequest(s.loader).value !in s.owner
    ensures Inv(LoaderMove(s))
  {
    LoaderLocks(s);
    LoaderKeepsBuyers(s);
    LoaderKeepsGoods(s);
  }

  lemma MainMoves(s: State, main: MainPc, loader: Loader)
    requires ThreadsOk(s) && (loader == s.loader || (s.loader.pc.Unborn? && loader == s.loader.(pc := LockTotal)))
    ensures ThreadsOk(s.(main := main, loader := loader))
  {
    var u := s.(main := main, loader := loader);
    assert AllAcquired(u) == AllAcquired(s);
    LockStep(s, u, LoaderThread, None, None);
  }

  lemma MainKeepsInv(s: State)
    requires Inv(s) && MainEnabled(s)
    ensures Inv(AfterMain(s))
  {
    var u := AfterMain(s);
    if s.main.Create? && s.main.b < |s.buyers| {
      MoveKeeps(s, s.main.b, LockShop);
      MainMoves(Placed(s, s.main.b, LockShop), u.main, s.loader);
    } else {
      MainMoves(s, u.main, u.loader);
    }
  }

  lemma StepKeepsInv(s: State, e: Event)
    requires Inv(s) && Enabled(s, e)
    ensures Inv(Apply(s, e))
  {
    match e
    case BuyerStep(b) => BuyerKeepsInv(s, b);
    case WakeUp(b) => WakeKeepsInv(s, b);
    case LoaderStep(wake) =>
      if wake.Some? {
        WakeKeepsInv(s, wake.value);
        LoaderKeepsInv(Placed(s, wake.value, Woken));
      } else {
        LoaderKeepsInv(s);
      }
    case MainStep => MainKeepsInv(s);
  }

  lemma InitInv(demand: seq<int>, shops: nat)
    requires ValidInput(demand, shops)
    ensures Inv(Init(demand, shops))
  {
    var s := Init(demand, shops);
    AllZero(s.capacity);
    AllZero(AllAcquired(s));
    AllZero(AllCounted(s.buyers));
  }

  lemma AllZero(a: seq<int>)
    requires forall k :: 0 <= k < |a| ==> a[k] == 0
    ensures Sum(a) == 0
  {
    SumAtMost(a, 0);
    SumAtLeast(a, 0);
  }

  lemma {:induction false} RunKeepsInv(s: State, es: seq<Event>, t: State)
    requires Inv(s) && Run(s, es, t)
    ensures Inv(t) && t.demand == s.demand && |t.capacity| == |s.capacity|
    decreases |es|
  {
    if es == [] {
    } else {
      StepKeepsInv(s, es[0]);
      RunKeepsInv(Apply(s, es[0]), es[1..], t);
    }
  }

  lemma CanReachInv(s: State, t: State)
    requires Inv(s) && CanReach(s, t)
    ensures Inv(t) && t.demand == s.demand && |t.capacity| == |s.capacity|
  {
    var es := ScheduleTo(s, t);
    RunKeepsInv(s, es, t);
  }

  lemma ReachableInv(demand: seq<int>, shops: nat, t: State)
    requires Reachable(demand, shops, t)
    ensures Inv(t) && t.demand == demand && |t.capacity| == shops
  {
    var es :| Run(Init(demand, shops), es, t);
    InitInv(demand, shops);
    RunKeepsInv(Init(demand, shops), es, t);
  }
}
