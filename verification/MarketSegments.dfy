/** The shops program in larger strides: what a thread does from one blocking point to the next when
    nobody interferes, each as the several steps that the C statements take. */
module MarketSegments {
  import opened Market
  import Runs
  import opened Options

  // ---- Buyers -----------------------------------------------------------------------------

  /** What the statements of one buyer in one shop read and write. */
  datatype Errand = Errand(x: Buyer, stock: int, satisfied: int, owner: map<Mutex, Thread>, visits: nat)

  function With(s: State, b: nat, v: Errand): State
    requires b < |s.buyers| == |s.visits| && v.x.shop < |s.capacity|
  {
    s.(buyers := s.buyers[b := v.x], capacity := s.capacity[v.x.shop := v.stock], satisfied := v.satisfied,
       owner := v.owner, visits := s.visits[b := v.visits])
  }

  predicate CanGo(v: Errand) {
    && !v.x.pc.NotStarted? && !v.x.pc.Waiting? && !v.x.pc.Returned?
    && (v.x.pc.TestNeed? ==> v.x.need <= 0)
    && (BuyerRequest(v.x).Some? ==> BuyerRequest(v.x).value !in v.owner)
  }

  function GoOn(v: Errand, b: nat): Errand {
    Errand(BuyerNext(v.x, v.stock, v.satisfied, 1),
           if v.x.pc.WriteStock? then v.x.temp - v.x.taken else v.stock,
           if v.x.pc.WriteCount? then v.x.temp + 1 else v.satisfied,
           OwnerAfter(v.owner, BuyerThread(b), BuyerRequest(v.x), BuyerRelease(v.x)),
           if v.x.pc.WriteStock? then v.visits + 1 else v.visits)
  }

  lemma BuyerGoes(s: State, b: nat, v: Errand)
    requires b < |s.buyers| == |s.visits| && v.x.shop < |s.capacity| && CanGo(v)
    ensures GoOn(v, b).x.shop == v.x.shop && CanReach(With(s, b, v), With(s, b, GoOn(v, b)))
  {
    var w := GoOn(v, b);
    var t := With(s, b, v);
    Runs.Once(SignalledStep, t, BuyerStep(b));
    var u := AfterBuyer(t, b);
    assert u.buyers == s.buyers[b := w.x] && u.capacity == s.capacity[v.x.shop := w.stock];
    assert u.visits == s.visits[b := w.visits];
    assert u == With(s, b, w);
  }

  /** v, then w after one statement of the buyer, and so on. */
  predicate Path(vs: seq<Errand>, b: nat) {
    |vs| >= 1 && forall k :: 0 <= k < |vs| - 1 ==> CanGo(vs[k]) && vs[k + 1] == GoOn(vs[k], b)
  }

  lemma {:induction false} BuyerFollows(s: State, b: nat, vs: seq<Errand>)
    requires b < |s.buyers| == |s.visits| && Path(vs, b) && vs[0].x.shop < |s.capacity|
    ensures vs[|vs| - 1].x.shop == vs[0].x.shop && CanReach(With(s, b, vs[0]), With(s, b, vs[|vs| - 1]))
  {
    if |vs| == 1 {
      Runs.Stay(SignalledStep, With(s, b, vs[0]));
    } else {
      BuyerGoes(s, b, vs[0]);
      BuyerFollows(s, b, vs[1..]);
      Runs.Chain(SignalledStep, With(s, b, vs[0]), With(s, b, vs[1]), With(s, b, vs[|vs| - 1]));
    }
  }

  /** In front of a shop whose mutex is free. */
  predicate AtDoor(s: State, b: nat) {
    && b < |s.buyers| == |s.visits| && s.buyers[b].shop < |s.capacity|
    && (s.buyers[b].pc.LockShop? || s.buyers[b].pc.RelockShop?)
    && ShopMutex(s.buyers[b].shop) !in s.owner
  }

  function Start(s: State, b: nat): (v: Errand)
    requires b < |s.buyers| == |s.visits| && s.buyers[b].shop < |s.capacity|
  {
    Errand(s.buyers[b], s.capacity[s.buyers[b].shop], s.satisfied, s.owner, s.visits[b])
  }

  lemma Errands(s: State, b: nat, vs: seq<Errand>)
    requires b < |s.buyers| == |s.visits| && s.buyers[b].shop < |s.capacity| && Path(vs, b) && vs[0] == Start(s, b)
    ensures vs[|vs| - 1].x.shop == vs[0].x.shop && CanReach(s, With(s, b, vs[|vs| - 1]))
  {
    assert With(s, b, Start(s, b)) == s;
    BuyerFollows(s, b, vs);
  }

  /** Inside the shop, behind the first test of its stock. */
  function Entered(s: State, b: nat): State
    requires AtDoor(s, b)
  {
    var x := s.buyers[b];
    Placed(s, b, if s.capacity[x.shop] == 0 then UnlockEmpty else Choose)
      .(owner := s.owner[ShopMutex(x.shop) := BuyerThread(b)])
  }

  /** Lines 32-34. */
  lemma Enters(s: State, b: nat)
    requires AtDoor(s, b)
    ensures CanReach(s, Entered(s, b))
  {
    var v0 := Start(s, b);
    var v1 := GoOn(v0, b);
    var v2 := GoOn(v1, b);
    Errands(s, b, [v0, v1, v2]);
    assert With(s, b, v2) == Entered(s, b);
  }

  /** Line 35: the shop is empty, and its mutex is given up before the wait begins. */
  lemma StepsBack(s: State, b: nat)
    requires AtDoor(s, b) && s.capacity[s.buyers[b].shop] == 0
    ensures CanReach(Entered(s, b), Placed(s, b, LockLoader))
  {
    var t := Entered(s, b);
    Runs.Once(SignalledStep, t, BuyerStep(b));
    assert t.owner - {ShopMutex(s.buyers[b].shop)} == s.owner;
    assert AfterBuyer(t, b) == Placed(s, b, LockLoader);
  }

  lemma FindsEmpty(s: State, b: nat)
    requires AtDoor(s, b) && s.capacity[s.buyers[b].shop] == 0
    ensures CanReach(s, Placed(s, b, LockLoader))
  {
    Enters(s, b);
    StepsBack(s, b);
    Runs.Chain(SignalledStep, s, Entered(s, b), Placed(s, b, LockLoader));
  }

  /** Lines 36-37. */
  lemma FallsAsleep(s: State, b: nat)
    requires b < |s.buyers| == |s.visits| && s.buyers[b].shop < |s.capacity|
    requires s.buyers[b].pc.LockLoader? && LoaderMutex !in s.owner
    ensures CanReach(s, Placed(s, b, Waiting))
  {
    var v0 := Start(s, b);
    var v1 := GoOn(v0, b);
    var v2 := GoOn(v1, b);
    Errands(s, b, [v0, v1, v2]);
    assert v2.owner == s.owner;
    assert With(s, b, v2) == Placed(s, b, Waiting);
  }

  /** Lines 35-37. */
  lemma SleepsInside(s: State, b: nat)
    requires AtDoor(s, b) && s.capacity[s.buyers[b].shop] == 0 && LoaderMutex !in s.owner
    ensures CanReach(Entered(s, b), Placed(s, b, Waiting))
  {
    var t := Placed(s, b, LockLoader);
    StepsBack(s, b);
    FallsAsleep(t, b);
    assert Placed(t, b, Waiting) == Placed(s, b, Waiting);
    Runs.Chain(SignalledStep, Entered(s, b), t, Placed(s, b, Waiting));
  }

  /** Lines 32-37: into an empty shop and to sleep. */
  lemma Sleeps(s: State, b: nat)
    requires AtDoor(s, b) && s.capacity[s.buyers[b].shop] == 0 && LoaderMutex !in s.owner
    ensures CanReach(s, Placed(s, b, Waiting))
  {
    Enters(s, b);
    SleepsInside(s, b);
    Runs.Chain(SignalledStep, s, Entered(s, b), Placed(s, b, Waiting));
  }

  function Purchase(need: int, stock: int): int {
    if stock > need then need else stock
  }

  /** After the purchase and the unlock. */
  function Bought(s: State, b: nat): State
    requires AtDoor(s, b)
  {
    var x := s.buyers[b];
    var stock := s.capacity[x.shop];
    var taken := Purchase(x.need, stock);
    s.(capacity := s.capacity[x.shop := stock - taken],
       buyers := s.buyers[b := x.(pc := TestNeed, need := x.need - taken, taken := taken, temp := stock)],
       visits := s.visits[b := s.visits[b] + 1])
  }

  /** Lines 42-45: the amount. */
  lemma Chooses(s: State, b: nat, v: Errand, w: Errand)
    requires b < |s.buyers| == |s.visits| && v.x.shop < |s.capacity| && v.x.pc.Choose?
    requires w == v.(x := v.x.(pc := ReadStock, taken := Purchase(v.x.need, v.stock)))
    ensures CanReach(With(s, b, v), With(s, b, w))
  {
    BuyerFollows(s, b, [v, w]);
  }

  /** Line 47. */
  lemma Takes(s: State, b: nat, v: Errand, w: Errand)
    requires b < |s.buyers| == |s.visits| && v.x.shop < |s.capacity| && v.x.pc.ReadStock?
    requires w == v.(x := v.x.(pc := LowerNeed, temp := v.stock), stock := v.stock - v.x.taken, visits := v.visits + 1)
    ensures CanReach(With(s, b, v), With(s, b, w))
  {
    var v1 := GoOn(v, b);
    assert GoOn(v1, b) == w;
    BuyerFollows(s, b, [v, v1, w]);
  }

  /** Lines 48-54. */
  lemma Keeps(s: State, b: nat, v: Errand, w: Errand)
    requires b < |s.buyers| == |s.visits| && v.x.shop < |s.capacity| && v.x.pc.LowerNeed?
    requires w == v.(x := v.x.(pc := TestNeed, need := v.x.need - v.x.taken), owner := v.owner - {ShopMutex(v.x.shop)})
    ensures CanReach(With(s, b, v), With(s, b, w))
  {
    var v1 := GoOn(v, b);
    assert GoOn(v1, b) == w;
    BuyerFollows(s, b, [v, v1, w]);
  }

  /** Lines 42-54. */
  lemma BuysInside(s: State, b: nat)
    requires AtDoor(s, b) && s.capacity[s.buyers[b].shop] != 0
    ensures CanReach(Entered(s, b), Bought(s, b))
  {
    var t := Entered(s, b);
    var v := Start(t, b);
    var m := ShopMutex(v.x.shop);
    var taken := Purchase(v.x.need, v.stock);
    var v1 := v.(x := v.x.(pc := ReadStock, taken := taken));
    var v2 := v1.(x := v1.x.(pc := LowerNeed, temp := v.stock), stock := v.stock - taken, visits := v.visits + 1);
    var v3 := v2.(x := v2.x.(pc := TestNeed, need := v.x.need - taken), owner := v2.owner - {m});
    assert v3.owner == s.owner;
    assert With(s, b, v) == t && With(s, b, v3) == Bought(s, b);
    Chooses(s, b, v, v1);
    Takes(s, b, v1, v2);
    Keeps(s, b, v2, v3);
    Runs.Chain(SignalledStep, t, With(s, b, v1), With(s, b, v2));
    Runs.Chain(SignalledStep, t, With(s, b, v2), With(s, b, v3));
  }

  /** Lines 32-54. */
  lemma Buys(s: State, b: nat)
    requires AtDoor(s, b) && s.capacity[s.buyers[b].shop] != 0
    ensures CanReach(s, Bought(s, b))
  {
    Enters(s, b);
    BuysInside(s, b);
    Runs.Chain(SignalledStep, s, Entered(s, b), Bought(s, b));
  }

  /** Counted and gone. */
  function Departed(s: State, b: nat): State
    requires b < |s.buyers|
  {
    s.(buyers := s.buyers[b := s.buyers[b].(pc := Returned, temp := s.satisfied)], satisfied := s.satisfied + 1)
  }

  /** Lines 58-63, for a buyer that needs nothing more. */
  lemma Leaves(s: State, b: nat)
    requires b < |s.buyers| == |s.visits| && s.buyers[b].shop < |s.capacity|
    requires s.buyers[b].pc.TestNeed? && s.buyers[b].need <= 0 && CountMutex !in s.owner
    ensures CanReach(s, Departed(s, b))
  {
    var v0 := Start(s, b);
    var v1 := GoOn(v0, b);
    var v2 := GoOn(v1, b);
    Errands(s, b, [v0, v1, v2]);
    assert v2 == v0.(x := v0.x.(pc := ReadCount), owner := s.owner[CountMutex := BuyerThread(b)]);
    var v5 := v0.(x := v0.x.(pc := Returned, temp := s.satisfied), satisfied := s.satisfied + 1);
    assert v2.owner - {CountMutex} == s.owner;
    Counts(s, b, v2, v5);
    Runs.Chain(SignalledStep, s, With(s, b, v2), With(s, b, v5));
    assert With(s, b, v5) == Departed(s, b);
  }

  /** Lines 61-62. */
  lemma Counts(s: State, b: nat, v: Errand, w: Errand)
    requires b < |s.buyers| == |s.visits| && v.x.shop < |s.capacity| && v.x.pc.ReadCount?
    requires w == v.(x := v.x.(pc := Returned, temp := v.satisfied), satisfied := v.satisfied + 1,
                     owner := v.owner - {CountMutex})
    ensures CanReach(With(s, b, v), With(s, b, w))
  {
    var v1 := GoOn(v, b);
    var v2 := GoOn(v1, b);
    assert GoOn(v2, b) == w;
    BuyerFollows(s, b, [v, v1, v2, w]);
  }

  /** In front of the next shop. */
  function Advanced(s: State, b: nat): State
    requires b < |s.buyers|
  {
    s.(buyers := s.buyers[b := s.buyers[b].(pc := LockShop, shop := NextShop(s.buyers[b].shop, |s.capacity|))])
  }

  /** Lines 58 and 31, for a buyer that needs more. */
  lemma GoesOn(s: State, b: nat)
    requires b < |s.buyers| == |s.visits| && s.buyers[b].shop < |s.capacity|
    requires s.buyers[b].pc.TestNeed? && s.buyers[b].need > 0
    ensures CanReach(s, Advanced(s, b))
  {
    Runs.Once(SignalledStep, s, BuyerStep(b));
    assert AfterBuyer(s, b) == Advanced(s, b);
  }

  // ---- The loader ---------------------------------------------------------------------------

  /** What the statements of the loader in shop i read and write. */
  datatype Round = Round(l: Loader, stock: int, owner: map<Mutex, Thread>, fills: nat)

  function LoaderWith(s: State, i: nat, v: Round): State
    requires i < |s.capacity|
  {
    s.(loader := v.l, capacity := s.capacity[i := v.stock], owner := v.owner, fills := v.fills)
  }

  predicate CanServe(v: Round) {
    && !v.l.pc.Unborn? && !v.l.pc.Gone? && !v.l.pc.Signal?
    && (LoaderRequest(v.l).Some? ==> LoaderRequest(v.l).value !in v.owner)
  }

  function Serve(s: State, v: Round): Round {
    Round(LoaderNext(v.l, v.stock, s.satisfied, |s.capacity|, |s.buyers|),
          if v.l.pc.WriteShelf? then v.l.temp + DELIVERY else v.stock,
          OwnerAfter(v.owner, LoaderThread, LoaderRequest(v.l), LoaderRelease(v.l)),
          if v.l.pc.WriteShelf? then v.fills + 1 else v.fills)
  }

  lemma LoaderGoes(s: State, i: nat, v: Round)
    requires v.l.shop == i < |s.capacity| && CanServe(v)
    ensures CanReach(LoaderWith(s, i, v), LoaderWith(s, i, Serve(s, v)))
  {
    var t := LoaderWith(s, i, v);
    Runs.Once(SignalledStep, t, LoaderStep(None));
    assert AfterLoader(t, None) == LoaderWith(s, i, Serve(s, v));
  }

  predicate LoaderPath(s: State, i: nat, vs: seq<Round>) {
    |vs| >= 1 && forall k :: 0 <= k < |vs| - 1 ==> vs[k].l.shop == i && CanServe(vs[k]) && vs[k + 1] == Serve(s, vs[k])
  }

  lemma {:induction false} LoaderFollows(s: State, i: nat, vs: seq<Round>)
    requires i < |s.capacity| && LoaderPath(s, i, vs)
    ensures CanReach(LoaderWith(s, i, vs[0]), LoaderWith(s, i, vs[|vs| - 1]))
  {
    if |vs| == 1 {
      Runs.Stay(SignalledStep, LoaderWith(s, i, vs[0]));
    } else {
      LoaderGoes(s, i, vs[0]);
      LoaderFollows(s, i, vs[1..]);
      Runs.Chain(SignalledStep, LoaderWith(s, i, vs[0]), LoaderWith(s, i, vs[1]), LoaderWith(s, i, vs[|vs| - 1]));
    }
  }

  function LoaderStart(s: State): Round
    requires s.loader.shop < |s.capacity|
  {
    Round(s.loader, s.capacity[s.loader.shop], s.owner, s.fills)
  }

  lemma Rounds(s: State, vs: seq<Round>)
    requires s.loader.shop < |s.capacity| && LoaderPath(s, s.loader.shop, vs) && vs[0] == LoaderStart(s)
    ensures CanReach(s, LoaderWith(s, s.loader.shop, vs[|vs| - 1]))
  {
    assert LoaderWith(s, s.loader.shop, LoaderStart(s)) == s;
    LoaderFollows(s, s.loader.shop, vs);
  }

  /** Lines 71-77, as long as a buyer is missing in the count. */
  lemma BeginsRound(s: State)
    requires s.loader.pc.LockTotal? && s.loader.shop < |s.capacity| && CountMutex !in s.owner
    requires s.satisfied != |s.buyers|
    ensures CanReach(s, s.(loader := s.loader.(pc := EnterShop, shop := 0)))
  {
    var v0 := LoaderStart(s);
    var v1 := Serve(s, v0);
    var v2 := Serve(s, v1);
    var v3 := Serve(s, v2);
    Rounds(s, [v0, v1, v2, v3]);
    assert v3.owner == s.owner;
    assert LoaderWith(s, s.loader.shop, v3) == s.(loader := s.loader.(pc := EnterShop, shop := 0));
  }

  /** Lines 71-75. */
  lemma GoesHome(s: State)
    requires s.loader.pc.LockTotal? && s.loader.shop < |s.capacity| && CountMutex !in s.owner
    requires s.satisfied == |s.buyers|
    ensures CanReach(s, s.(loader := s.loader.(pc := Gone)))
  {
    var v0 := LoaderStart(s);
    var v1 := Serve(s, v0);
    var v2 := Serve(s, v1);
    var v3 := Serve(s, v2);
    Rounds(s, [v0, v1, v2, v3]);
    assert v3.owner == s.owner;
    assert LoaderWith(s, s.loader.shop, v3) == s.(loader := s.loader.(pc := Gone));
  }

  /** Where the loader goes from a shop. */
  function NextStop(l: Loader, shops: nat): Loader {
    if l.shop + 1 < shops then l.(pc := EnterShop, shop := l.shop + 1) else l.(pc := LockTotal)
  }

  /** Whom a signal in the loader's shop can wake: one of those that wait there, or nobody if there is none. */
  predicate CanWake(s: State, wake: Option<nat>) {
    match wake
    case Some(b) => WaitsAt(s, b, s.loader.shop)
    case None => forall b :: 0 <= b < |s.buyers| ==> !WaitsAt(s, b, s.loader.shop)
  }

  function Woke(s: State, wake: Option<nat>): State
    requires wake.Some? ==> wake.value < |s.buyers|
  {
    if wake.Some? then Placed(s, wake.value, Woken) else s
  }

  function Served(s: State, wake: Option<nat>): State
    requires s.loader.shop < |s.capacity| && CanWake(s, wake)
  {
    var i, stock := s.loader.shop, s.capacity[s.loader.shop];
    if stock >= DELIVERY then s.(loader := NextStop(s.loader, |s.capacity|))
    else
      Woke(s, wake).(loader := NextStop(s.loader.(temp := stock), |s.capacity|),
                     capacity := s.capacity[i := stock + DELIVERY], fills := s.fills + 1)
  }

  lemma ServesFull(s: State, wake: Option<nat>)
    requires s.loader.pc.EnterShop? && s.loader.shop < |s.capacity| && ShopMutex(s.loader.shop) !in s.owner
    requires s.capacity[s.loader.shop] >= DELIVERY && CanWake(s, wake)
    ensures CanReach(s, Served(s, wake))
  {
    var v0 := LoaderStart(s);
    var v1 := Serve(s, v0);
    var v2 := Serve(s, v1);
    var v3 := Serve(s, v2);
    Rounds(s, [v0, v1, v2, v3]);
    assert v3.owner == s.owner;
    assert LoaderWith(s, s.loader.shop, v3) == Served(s, wake);
  }

  /** The loader has filled its shop and holds its mutex. */
  function Filled(s: State): State
    requires s.loader.shop < |s.capacity|
  {
    var i, stock := s.loader.shop, s.capacity[s.loader.shop];
    s.(loader := s.loader.(pc := Signal, temp := stock), fills := s.fills + 1,
       capacity := s.capacity[i := stock + DELIVERY], owner := s.owner[ShopMutex(i) := LoaderThread])
  }

  /** Lines 80-84. */
  lemma Fills(s: State)
    requires s.loader.pc.EnterShop? && s.loader.shop < |s.capacity| && ShopMutex(s.loader.shop) !in s.owner
    requires s.capacity[s.loader.shop] < DELIVERY
    ensures CanReach(s, Filled(s))
  {
    var v0 := LoaderStart(s);
    var v1 := Serve(s, v0);
    var v2 := Serve(s, v1);
    var v3 := Serve(s, v2);
    var v4 := Serve(s, v3);
    Rounds(s, [v0, v1, v2, v3, v4]);
    assert LoaderWith(s, s.loader.shop, v4) == Filled(s);
  }

  /** Line 87. */
  lemma LeavesShop(s: State)
    requires s.loader.pc.LeaveShop? && s.loader.shop < |s.capacity|
    ensures CanReach(s, s.(loader := NextStop(s.loader, |s.capacity|), owner := s.owner - {ShopMutex(s.loader.shop)}))
  {
    Runs.Once(SignalledStep, s, LoaderStep(None));
    assert AfterLoader(s, None)
        == s.(loader := NextStop(s.loader, |s.capacity|), owner := s.owner - {ShopMutex(s.loader.shop)});
  }

  function Signalling(s: State, wake: Option<nat>): State
    requires wake.Some? ==> wake.value < |s.buyers|
  {
    Woke(s, wake).(loader := s.loader.(pc := LeaveShop))
  }

  /** Line 85. */
  lemma Signals(s: State, wake: Option<nat>)
    requires s.loader.pc.Signal? && s.loader.shop < |s.capacity| && CanWake(s, wake)
    ensures CanReach(s, Signalling(s, wake))
  {
    Runs.Once(SignalledStep, s, LoaderStep(wake));
    assert AfterLoader(s, wake) == Signalling(s, wake);
  }

  lemma ServedInSteps(s: State, wake: Option<nat>)
    requires s.loader.shop < |s.capacity| && CanWake(s, wake) && s.capacity[s.loader.shop] < DELIVERY
    requires ShopMutex(s.loader.shop) !in s.owner
    ensures var u := Signalling(Filled(s), wake);
            Served(s, wake)
              == u.(loader := NextStop(u.loader, |u.capacity|), owner := u.owner - {ShopMutex(u.loader.shop)})
  {
    var m := ShopMutex(s.loader.shop);
    assert s.owner[m := LoaderThread] - {m} == s.owner;
  }

  lemma ServesLow(s: State, wake: Option<nat>)
    requires s.loader.pc.EnterShop? && s.loader.shop < |s.capacity| && ShopMutex(s.loader.shop) !in s.owner
    requires CanWake(s, wake) && s.capacity[s.loader.shop] < DELIVERY
    ensures CanReach(s, Served(s, wake))
  {
    var t := Filled(s);
    Fills(s);
    assert forall b :: WaitsAt(t, b, s.loader.shop) <==> WaitsAt(s, b, s.loader.shop);
    var u := Signalling(t, wake);
    Signals(t, wake);
    Runs.Chain(SignalledStep, s, t, u);
    LeavesShop(u);
    ServedInSteps(s, wake);
    Runs.Chain(SignalledStep, s, u, Served(s, wake));
  }

  /** Lines 80-87: a shop that is not full enough gets a delivery, and one of those that wait there a signal. */
  lemma Serves(s: State, wake: Option<nat>)
    requires s.loader.pc.EnterShop? && s.loader.shop < |s.capacity| && ShopMutex(s.loader.shop) !in s.owner
    requires CanWake(s, wake)
    ensures CanReach(s, Served(s, wake))
  {
    if s.capacity[s.loader.shop] >= DELIVERY {
      ServesFull(s, wake);
    } else {
      ServesLow(s, wake);
    }
  }

  ghost predicate NobodyWaits(s: State) {
    forall b, i :: !WaitsAt(s, b, i)
  }

  ghost predicate ShopsOpen(s: State) {
    forall i :: ShopMutex(i) !in s.owner
  }

  /** Lines 79-88 from some shop on, while nobody waits: these shops are well filled afterwards, and
      nothing else has changed. */
  lemma {:induction false} RestOfRound(s: State) returns (t: State)
    requires s.loader.pc.EnterShop? && s.loader.shop < |s.capacity| && NobodyWaits(s) && ShopsOpen(s)
    requires forall i :: 0 <= i < |s.capacity| ==> s.capacity[i] >= 0
    ensures CanReach(s, t) && t == s.(loader := t.loader, capacity := t.capacity, fills := t.fills)
    ensures t.loader.pc.LockTotal? && t.loader.shop < |t.capacity| == |s.capacity|
    ensures forall i :: 0 <= i < s.loader.shop ==> t.capacity[i] == s.capacity[i]
    ensures forall i :: s.loader.shop <= i < |s.capacity| ==> t.capacity[i] >= DELIVERY
    decreases |s.capacity| - s.loader.shop
  {
    Serves(s, None);
    var u := Served(s, None);
    assert u.buyers == s.buyers && u.owner == s.owner;
    assert u == s.(loader := u.loader, capacity := u.capacity, fills := u.fills);
    if u.loader.pc.LockTotal? {
      t := u;
    } else {
      assert forall b, i :: WaitsAt(u, b, i) ==> WaitsAt(s, b, i);
      t := RestOfRound(u);
      Runs.Chain(SignalledStep, s, u, t);
    }
  }

  /** A whole round of the loader. */
  lemma WholeRound(s: State) returns (t: State)
    requires s.loader.pc.LockTotal? && s.loader.shop < |s.capacity| && NobodyWaits(s) && s.owner == map[]
    requires s.satisfied != |s.buyers| && forall i :: 0 <= i < |s.capacity| ==> s.capacity[i] >= 0
    ensures CanReach(s, t) && t == s.(loader := t.loader, capacity := t.capacity, fills := t.fills)
    ensures t.loader.pc.LockTotal? && t.loader.shop < |t.capacity| == |s.capacity|
    ensures forall i :: 0 <= i < |s.capacity| ==> t.capacity[i] >= 5000
  {
    BeginsRound(s);
    var u := s.(loader := s.loader.(pc := EnterShop, shop := 0));
    assert forall b, i :: WaitsAt(u, b, i) ==> WaitsAt(s, b, i);
    t := RestOfRound(u);
    Runs.Chain(SignalledStep, s, u, t);
  }

  // ---- Main ---------------------------------------------------------------------------------

  lemma {:induction false} CreatesBuyers(s: State) returns (t: State)
    requires s.main.Create? && s.main.b <= |s.buyers|
    requires forall b :: s.main.b <= b < |s.buyers| ==> s.buyers[b].pc.NotStarted?
    ensures CanReach(s, t) && t == s.(main := Create(|s.buyers|), buyers := t.buyers) && |t.buyers| == |s.buyers|
    ensures forall b :: 0 <= b < s.main.b ==> t.buyers[b] == s.buyers[b]
    ensures forall b :: s.main.b <= b < |s.buyers| ==> t.buyers[b] == s.buyers[b].(pc := LockShop)
    decreases |s.buyers| - s.main.b
  {
    if s.main.b == |s.buyers| {
      t := s;
      Runs.Stay(SignalledStep, s);
    } else {
      Runs.Once(SignalledStep, s, MainStep);
      var u := AfterMain(s);
      t := CreatesBuyers(u);
      Runs.Chain(SignalledStep, s, u, t);
    }
  }

  /** Every thread has been created and none has run. */
  function Opened(demand: seq<int>, shops: nat): State {
    Init(demand, shops).(buyers := seq(|demand|, b requires 0 <= b < |demand| => Buyer(LockShop, 0, demand[b], 0, 0)),
                         loader := Loader(LockTotal, 0, 0), main := MainPc.Join(0))
  }

  /** Lines 106-112. */
  lemma Opens(demand: seq<int>, shops: nat)
    ensures CanReach(Init(demand, shops), Opened(demand, shops))
  {
    var s := Init(demand, shops);
    var t := CreatesBuyers(s);
    Runs.Once(SignalledStep, t, MainStep);
    var u := AfterMain(t);
    Runs.Once(SignalledStep, u, MainStep);
    Runs.Chain(SignalledStep, s, t, u);
    Runs.Chain(SignalledStep, s, u, AfterMain(u));
    assert AfterMain(u).buyers == Opened(demand, shops).buyers;
  }

  function ToGo(k: nat, n: nat): nat {
    if k < n then n - k else 0
  }

  /** The statements of `main` that are still to come. */
  function MainLeft(s: State): nat {
    match s.main
    case Create(b) => ToGo(b, |s.buyers|) + |s.buyers| + |s.capacity| + 7
    case CreateLoader => |s.buyers| + |s.capacity| + 6
    case Join(b) => ToGo(b, |s.buyers|) + |s.capacity| + 5
    case JoinLoader => |s.capacity| + 4
    case DestroyShop(i) => ToGo(i, |s.capacity|) + 3
    case DestroyCount => 2
    case DestroyLoader => 1
    case Exit => 0
  }

  /** Lines 114-127, when all threads have returned. */
  lemma {:induction false} MainReturns(s: State) returns (t: State)
    requires s.main.Join? || s.main.JoinLoader? || s.main.DestroyShop? || s.main.DestroyCount? || s.main.DestroyLoader?
             || s.main.Exit?
    requires s.loader.pc.Gone? && forall b :: 0 <= b < |s.buyers| ==> s.buyers[b].pc.Returned?
    ensures CanReach(s, t) && t == s.(main := Exit)
    decreases MainLeft(s)
  {
    if s.main.Exit? {
      t := s;
      Runs.Stay(SignalledStep, s);
    } else {
      Runs.Once(SignalledStep, s, MainStep);
      t := MainReturns(AfterMain(s));
      Runs.Chain(SignalledStep, s, AfterMain(s), t);
    }
  }
}
