/** Progress of the shops program. Every input has a schedule on which it finishes; but the buyer tests
    the stock under the shop mutex and waits with the loader mutex, while the loader signals holding the
    shop mutex only, so with any buyer at all there is also a schedule on which it never does. */
module MarketProgress {
  import opened Market
  import Runs
  import opened MarketSafety
  import opened MarketSegments
  import opened Options
  import opened Sums

  // ---- The program can finish ---------------------------------------------------------------

  /** In front of a shop, or done. */
  predicate AtRest(pc: BuyerPc) {
    pc.LockShop? || pc.RelockShop? || pc.Returned?
  }

  /** All threads exist, and nobody holds a mutex or waits. */
  ghost predicate Calm(s: State) {
    && Inv(s) && s.owner == map[] && (s.main.Join? || s.main.JoinLoader?) && s.loader.pc.LockTotal?
    && forall b :: 0 <= b < |s.buyers| ==> AtRest(s.buyers[b].pc)
  }

  /** The round of the loader before a purchase. */
  lemma Refilled(s: State, b: nat) returns (t: State)
    requires Calm(s) && b < |s.buyers| && !s.buyers[b].pc.Returned?
    ensures CanReach(s, t) && Calm(t) && t.buyers == s.buyers && AtDoor(t, b)
    ensures t.capacity[t.buyers[b].shop] >= DELIVERY
  {
    UncountedBuyer(s.buyers, b);
    t := WholeRound(s);
    CanReachInv(s, t);
    assert BuyerOk(t.buyers[b], t.demand[b], t.visits[b], t.capacity, t.satisfied);
  }

  /** A purchase lowers the need, and then the buyer is counted or goes on to the next shop. */
  lemma Visits(s: State, b: nat) returns (t: State)
    requires Calm(s) && AtDoor(s, b) && s.capacity[s.buyers[b].shop] >= DELIVERY
    ensures CanReach(s, t) && Calm(t) && |t.buyers| == |s.buyers| && t.buyers[b].need < s.buyers[b].need
    ensures t.buyers[b].pc.Returned? || t.buyers[b].pc.LockShop?
    ensures forall c :: 0 <= c < |s.buyers| && c != b ==> t.buyers[c] == s.buyers[c]
  {
    assert BuyerOk(s.buyers[b], s.demand[b], s.visits[b], s.capacity, s.satisfied);
    Buys(s, b);
    var u := Bought(s, b);
    if u.buyers[b].need <= 0 {
      t := Departed(u, b);
      Leaves(u, b);
    } else {
      t := Advanced(u, b);
      GoesOn(u, b);
    }
    Runs.Chain(SignalledStep, s, u, t);
    CanReachInv(s, t);
  }

  /** A buyer that is served alone, with a round of the loader before every purchase, gets all it needs. */
  lemma {:induction false} GetsEverything(s: State, b: nat) returns (t: State)
    requires Calm(s) && b < |s.buyers| && !s.buyers[b].pc.Returned?
    ensures CanReach(s, t) && Calm(t) && |t.buyers| == |s.buyers| && t.buyers[b].pc.Returned?
    ensures forall c :: 0 <= c < |s.buyers| && c != b ==> t.buyers[c] == s.buyers[c]
    decreases s.buyers[b].need
  {
    var u := Refilled(s, b);
    t := Visits(u, b);
    Runs.Chain(SignalledStep, s, u, t);
    if !t.buyers[b].pc.Returned? {
      assert BuyerOk(t.buyers[b], t.demand[b], t.visits[b], t.capacity, t.satisfied);
      var v := GetsEverything(t, b);
      Runs.Chain(SignalledStep, s, t, v);
      t := v;
    }
  }

  lemma {:induction false} EverybodyReturns(s: State, k: nat) returns (t: State)
    requires Calm(s) && k <= |s.buyers|
    requires forall b :: 0 <= b < k ==> s.buyers[b].pc.Returned?
    ensures CanReach(s, t) && Calm(t) && forall b :: 0 <= b < |t.buyers| ==> t.buyers[b].pc.Returned?
    decreases |s.buyers| - k
  {
    if k == |s.buyers| {
      t := s;
      Runs.Stay(SignalledStep, s);
    } else if s.buyers[k].pc.Returned? {
      t := EverybodyReturns(s, k + 1);
    } else {
      var u := GetsEverything(s, k);
      t := EverybodyReturns(u, k + 1);
      Runs.Chain(SignalledStep, s, u, t);
    }
  }

  lemma AllOnes(buyers: seq<Buyer>)
    requires forall b :: 0 <= b < |buyers| ==> buyers[b].pc.Returned?
    ensures Sum(AllCounted(buyers)) == |buyers|
  {
    SumAtMost(AllCounted(buyers), 1);
    SumAtLeast(AllCounted(buyers), 1);
  }

  /** From every calm state `main` can return. */
  lemma CalmFinishes(s: State) returns (t: State)
    requires Calm(s)
    ensures CanReach(s, t) && t.main.Exit?
  {
    var u := EverybodyReturns(s, 0);
    AllOnes(u.buyers);
    GoesHome(u);
    var v := u.(loader := u.loader.(pc := Gone));
    t := MainReturns(v);
    Runs.Chain(SignalledStep, s, u, v);
    Runs.Chain(SignalledStep, s, v, t);
  }

  /** For every number of shops and all initial needs there is a schedule on which `main` returns. */
  lemma CanFinish(demand: seq<int>, shops: nat)
    requires ValidInput(demand, shops)
    ensures exists t :: CanReach(Init(demand, shops), t) && t.main.Exit?
  {
    var r, s := Init(demand, shops), Opened(demand, shops);
    InitInv(demand, shops);
    Opens(demand, shops);
    CanReachInv(r, s);
    var t := CalmFinishes(s);
    Runs.Chain(SignalledStep, r, s, t);
    assert CanReach(r, t) && t.main.Exit?;
  }

  // ---- But it need not ------------------------------------------------------------------------

  /** `main` will never return, however the threads are scheduled, as long as wakeups come from signals. */
  ghost predicate Doomed(s: State) {
    forall t :: CanReach(s, t) ==> !t.main.Exit?
  }

  /** All buyers wait beside full shops, and the loader is not on its way to a signal. */
  ghost predicate Stranded(s: State) {
    && |s.buyers| == |s.visits| && |s.buyers| >= 1 && s.satisfied == 0 && s.main == MainPc.Join(0)
    && (forall b :: 0 <= b < |s.buyers| ==> s.buyers[b].pc.Waiting? && s.buyers[b].shop < |s.capacity|)
    && (forall i :: 0 <= i < |s.capacity| ==> s.capacity[i] >= DELIVERY)
    && (s.loader.pc.LockTotal? || s.loader.pc.TestTotal? || s.loader.pc.UnlockGo? || s.loader.pc.EnterShop?
        || s.loader.pc.TestStock? || s.loader.pc.LeaveShop?)
  }

  lemma {:induction false} StrandedForever(s: State, es: seq<Event>, t: State)
    requires Stranded(s) && Run(s, es, t) && Signalled(es)
    ensures Stranded(t)
    decreases |es|
  {
    if es == [] {
    } else {
      assert es[0] in es;
      assert Stranded(Apply(s, es[0]));
      StrandedForever(Apply(s, es[0]), es[1..], t);
    }
  }

  /** Buyers from k on move from one position to the next. */
  ghost predicate Shifted(s: State, k: nat, pc: BuyerPc, t: State) {
    && t == s.(buyers := t.buyers) && |t.buyers| == |s.buyers|
    && (forall b :: 0 <= b < k && b < |s.buyers| ==> t.buyers[b] == s.buyers[b])
    && (forall b :: k <= b < |s.buyers| ==> t.buyers[b] == s.buyers[b].(pc := pc))
  }

  lemma {:induction false} AllFindEmpty(s: State, k: nat) returns (t: State)
    requires k <= |s.buyers| == |s.visits| && |s.capacity| >= 1 && s.capacity[0] == 0 && s.owner == map[]
    requires forall b :: k <= b < |s.buyers| ==> s.buyers[b].pc.LockShop? && s.buyers[b].shop == 0
    ensures CanReach(s, t) && Shifted(s, k, LockLoader, t)
    decreases |s.buyers| - k
  {
    if k == |s.buyers| {
      t := s;
      Runs.Stay(SignalledStep, s);
    } else {
      FindsEmpty(s, k);
      var u := Placed(s, k, LockLoader);
      t := AllFindEmpty(u, k + 1);
      Runs.Chain(SignalledStep, s, u, t);
    }
  }

  lemma {:induction false} AllFallAsleep(s: State, k: nat) returns (t: State)
    requires k <= |s.buyers| == |s.visits| && |s.capacity| >= 1 && s.owner == map[]
    requires forall b :: k <= b < |s.buyers| ==> s.buyers[b].pc.LockLoader? && s.buyers[b].shop == 0
    ensures CanReach(s, t) && Shifted(s, k, Waiting, t)
    decreases |s.buyers| - k
  {
    if k == |s.buyers| {
      t := s;
      Runs.Stay(SignalledStep, s);
    } else {
      FallsAsleep(s, k);
      var u := Placed(s, k, Waiting);
      t := AllFallAsleep(u, k + 1);
      Runs.Chain(SignalledStep, s, u, t);
    }
  }

  /** For every number of shops and all initial needs of one or more buyers: the buyers find the first
      shop empty, the loader makes its round and signals to nobody, and then the buyers wait. */
  lemma WakeupsCanBeLost(demand: seq<int>, shops: nat) returns (s: State)
    requires ValidInput(demand, shops) && |demand| >= 1
    ensures CanReach(Init(demand, shops), s) && Stranded(s) && Doomed(s)
  {
    var r, o := Init(demand, shops), Opened(demand, shops);
    Opens(demand, shops);
    var t := AllFindEmpty(o, 0);
    var u := WholeRound(t);
    s := AllFallAsleep(u, 0);
    Runs.Chain(SignalledStep, r, o, t);
    Runs.Chain(SignalledStep, r, t, u);
    Runs.Chain(SignalledStep, r, u, s);
    forall v | CanReach(s, v)
      ensures !v.main.Exit?
    {
      var es := ScheduleTo(s, v);
      StrandedForever(s, es, v);
    }
  }

  /** Without buyers the loader only ever looks at the count. */
  ghost predicate NoBuyers(s: State) {
    && Inv(s) && s.buyers == []
    && (s.loader.pc.Unborn? || s.loader.pc.LockTotal? || s.loader.pc.TestTotal? || s.loader.pc.UnlockExit?
        || s.loader.pc.Gone?)
  }

  function LoaderLeft(l: Loader): nat {
    match l.pc
    case Unborn => 4
    case LockTotal => 3
    case TestTotal => 2
    case UnlockExit => 1
    case _ => 0
  }

  lemma NoBuyersStep(s: State, e: Event)
    requires NoBuyers(s) && Enabled(s, e)
    ensures NoBuyers(Apply(s, e))
    ensures MainLeft(Apply(s, e)) + LoaderLeft(Apply(s, e).loader) < MainLeft(s) + LoaderLeft(s.loader)
  {
    StepKeepsInv(s, e);
  }

  lemma {:induction false} NoBuyersRun(s: State, es: seq<Event>, t: State)
    requires NoBuyers(s) && Run(s, es, t)
    ensures NoBuyers(t)
    decreases |es|
  {
    if es == [] {
    } else {
      NoBuyersStep(s, es[0]);
      NoBuyersRun(Apply(s, es[0]), es[1..], t);
    }
  }

  lemma NoBuyersGoesOn(s: State) returns (e: Event)
    requires NoBuyers(s) && !s.main.Exit?
    ensures Enabled(s, e) && !e.WakeUp?
  {
    if MainEnabled(s) {
      e := MainStep;
    } else {
      e := LoaderStep(None);
      assert CountMutex in s.owner ==> Holds(s, s.owner[CountMutex]) == Some(CountMutex);
    }
  }

  lemma {:induction false} NoBuyersFinishes(s: State)
    requires NoBuyers(s)
    ensures !Doomed(s)
    decreases MainLeft(s) + LoaderLeft(s.loader)
  {
    if s.main.Exit? {
      Runs.Stay(SignalledStep, s);
    } else {
      var e := NoBuyersGoesOn(s);
      NoBuyersStep(s, e);
      NoBuyersFinishes(Apply(s, e));
      var t :| CanReach(Apply(s, e), t) && t.main.Exit?;
      Runs.Once(SignalledStep, s, e);
      Runs.Chain(SignalledStep, s, Apply(s, e), t);
    }
  }

  /** The program can run into a state from which it never ends if and only if it has a buyer. */
  lemma LostWakeupIff(demand: seq<int>, shops: nat)
    requires ValidInput(demand, shops)
    ensures (exists s :: CanReach(Init(demand, shops), s) && Doomed(s)) <==> |demand| >= 1
  {
    if |demand| >= 1 {
      var s := WakeupsCanBeLost(demand, shops);
    } else {
      InitInv(demand, shops);
      forall s | CanReach(Init(demand, shops), s)
        ensures !Doomed(s)
      {
        var es := ScheduleTo(Init(demand, shops), s);
        NoBuyersRun(Init(demand, shops), es, s);
        NoBuyersFinishes(s);
      }
    }
  }

  // ---- Which step loses a wakeup ------------------------------------------------------------------

  /** The loader is about to signal in this shop. */
  predicate SignalDue(s: State, shop: nat) {
    s.loader.pc.Signal? && s.loader.shop == shop
  }

  /** Buyer b waits although there is something to buy, and no signal is due. */
  predicate Beside(s: State, b: nat) {
    && b < |s.buyers| && s.buyers[b].pc.Waiting? && s.buyers[b].shop < |s.capacity|
    && s.capacity[s.buyers[b].shop] > 0 && !SignalDue(s, s.buyers[b].shop)
  }

  /** Either a buyer begins to wait beside a stocked shop, or a signal leaves one behind: it wakes one of
      several that wait in the same shop. */
  ghost predicate LosesWakeup(s: State, e: Event) {
    match e
    case BuyerStep(b) =>
      && b < |s.buyers| && s.buyers[b].pc.Wait? && s.buyers[b].shop < |s.capacity|
      && s.capacity[s.buyers[b].shop] > 0 && !SignalDue(s, s.buyers[b].shop)
    case LoaderStep(wake) => wake.Some? && exists c :: c != wake.value && WaitsAt(s, c, s.loader.shop)
    case _ => false
  }

  lemma BuyerStrands(s: State, b: nat)
    requires Inv(s) && BuyerEnabled(s, b) && forall c :: !Beside(s, c)
    ensures forall c :: Beside(AfterBuyer(s, b), c) <==> c == b && LosesWakeup(s, BuyerStep(b))
  {
    var t := AfterBuyer(s, b);
    assert BuyerOk(s.buyers[b], s.demand[b], s.visits[b], s.capacity, s.satisfied);
    forall c: nat
      ensures Beside(t, c) <==> c == b && LosesWakeup(s, BuyerStep(b))
    {
      assert c != b && Beside(t, c) ==> Beside(s, c);
    }
  }

  lemma LoaderStrands(s: State, wake: Option<nat>)
    requires Inv(s) && LoaderEnabled(s, wake) && forall c :: !Beside(s, c)
    ensures forall c: nat :: Beside(AfterLoader(s, wake), c) <==>
              s.loader.pc.Signal? && WaitsAt(s, c, s.loader.shop) && wake != Some(c)
  {
    var t := AfterLoader(s, wake);
    forall c: nat
      ensures Beside(t, c) <==> s.loader.pc.Signal? && WaitsAt(s, c, s.loader.shop) && wake != Some(c)
    {
      assert !Beside(s, c);
      if c < |s.buyers| {
        assert t.buyers[c].shop == s.buyers[c].shop;
        assert t.buyers[c].pc.Waiting? <==> s.buyers[c].pc.Waiting? && wake != Some(c);
      }
    }
  }

  /** A buyer comes to wait beside a stocked shop in exactly these two ways. */
  lemma StrandingStepIff(s: State, e: Event)
    requires Inv(s) && Enabled(s, e) && forall b :: !Beside(s, b)
    ensures (exists b :: Beside(Apply(s, e), b)) <==> LosesWakeup(s, e)
  {
    match e
    case BuyerStep(b) =>
      BuyerStrands(s, b);
      assert Beside(Apply(s, e), b) <==> LosesWakeup(s, e);
    case WakeUp(b) => assert forall c :: Beside(Apply(s, e), c) ==> Beside(s, c);
    case LoaderStep(wake) =>
      LoaderStrands(s, wake);
      if c :| wake.Some? && c != wake.value && WaitsAt(s, c, s.loader.shop) {
        assert Beside(Apply(s, e), c);
      }
    case MainStep => assert forall c :: Beside(Apply(s, e), c) ==> Beside(s, c);
  }
}
