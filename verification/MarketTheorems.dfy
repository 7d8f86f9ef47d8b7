/** What the invariant of the shops program says in its reachable states. */
module MarketTheorems {
  import opened Sums
  import opened Market
  import opened Options
  import opened MarketSafety

  // ---- Lock discipline ----------------------------------------------------------------

  /** Critical sections of the same mutex exclude each other. No thread holds two mutexes, none asks for
      a mutex while it holds one, and whatever a thread unlocks or gives up by waiting is its own. */
  lemma LockDiscipline(demand: seq<int>, shops: nat, s: State)
    requires Reachable(demand, shops, s)
    ensures forall t, r :: Holds(s, t).Some? && Holds(s, r) == Holds(s, t) ==> t == r
    ensures forall m, n :: m in s.owner && n in s.owner && s.owner[m] == s.owner[n] ==> m == n
    ensures forall t, m :: Requests(s, t).Some? && m in s.owner ==> s.owner[m] != t
    ensures forall t :: Releases(s, t).Some? ==>
              Releases(s, t).value in s.owner && s.owner[Releases(s, t).value] == t
  {
    ReachableInv(demand, shops, s);
    forall t | Releases(s, t).Some?
      ensures Releases(s, t).value in s.owner && s.owner[Releases(s, t).value] == t
    {
      assert Holds(s, t) == Releases(s, t);
    }
    forall t, m | Requests(s, t).Some? && m in s.owner
      ensures s.owner[m] != t
    {
      assert Holds(s, t).None?;
    }
  }

  /** Thread t waits for a mutex that thread r holds. */
  ghost predicate BlockedBy(s: State, t: Thread, r: Thread) {
    Requests(s, t).Some? && Requests(s, t).value in s.owner && s.owner[Requests(s, t).value] == r
  }

  function Following(circle: seq<Thread>, k: nat): Thread
    requires k < |circle|
  {
    if k + 1 < |circle| then circle[k + 1] else circle[0]
  }

  /** No circle of threads can wait for one another's mutexes. */
  lemma NoWaitCycle(demand: seq<int>, shops: nat, s: State, circle: seq<Thread>)
    requires Reachable(demand, shops, s) && |circle| > 0
    ensures exists k :: 0 <= k < |circle| && !BlockedBy(s, circle[k], Following(circle, k))
  {
    LockDiscipline(demand, shops, s);
    var next := if |circle| == 1 then 0 else 1;
    assert Following(circle, 0) == circle[next];
    if BlockedBy(s, circle[0], circle[next]) {
      assert Requests(s, circle[next]).None?;
      assert !BlockedBy(s, circle[next], Following(circle, next));
    }
  }

  ghost predicate EventOf(t: Thread, e: Event) {
    match e
    case BuyerStep(b) => t == BuyerThread(b)
    case LoaderStep(_) => t == LoaderThread
    case MainStep => t == MainThread
    case WakeUp(_) => false
  }

  /** The owner of a mutex is never stuck. */
  lemma HolderRuns(s: State, m: Mutex)
    requires Inv(s) && m in s.owner
    ensures exists e :: EventOf(s.owner[m], e) && Enabled(s, e)
  {
    var t := s.owner[m];
    if t.BuyerThread? {
      assert BuyerOk(s.buyers[t.b], s.demand[t.b], s.visits[t.b], s.capacity, s.satisfied);
      assert EventOf(t, BuyerStep(t.b)) && Enabled(s, BuyerStep(t.b));
    } else {
      LoaderRuns(s);
    }
  }

  lemma LoaderRuns(s: State)
    requires Inv(s) && !s.loader.pc.Unborn? && !s.loader.pc.Gone?
    requires LoaderRequest(s.loader).Some? ==> LoaderRequest(s.loader).value !in s.owner
    ensures exists wake :: Enabled(s, LoaderStep(wake))
    ensures exists e :: EventOf(LoaderThread, e) && Enabled(s, e)
  {
    if b :| 0 <= b < |s.buyers| && s.loader.pc.Signal? && WaitsAt(s, b, s.loader.shop) {
      assert Enabled(s, LoaderStep(Some(b))) && EventOf(LoaderThread, LoaderStep(Some(b)));
    } else {
      assert Enabled(s, LoaderStep(None)) && EventOf(LoaderThread, LoaderStep(None));
    }
  }

  /** The program never deadlocks as a whole: until `main` has finished, some thread can take a step
      without a spurious wakeup. */
  lemma SomeThreadRuns(demand: seq<int>, shops: nat, s: State)
    requires Reachable(demand, shops, s) && !s.main.Exit?
    ensures exists e: Event :: !e.WakeUp? && Enabled(s, e)
  {
    ReachableInv(demand, shops, s);
    if m :| m in s.owner {
      HolderRuns(s, m);
    } else if !s.loader.pc.Unborn? && !s.loader.pc.Gone? {
      LoaderRuns(s);
    } else if MainEnabled(s) {
      assert Enabled(s, MainStep);
    } else {
      var b := s.main.b;
      AllCountedWhenGone(s);
      assert BuyerOk(s.buyers[b], s.demand[b], s.visits[b], s.capacity, s.satisfied);
      assert Enabled(s, BuyerStep(b));
    }
  }

  // ---- Goods ------------------------------------------------------------------------------

  /** Conservation: what was delivered lies in the shops, has lowered a need, or is in the hands of a
      buyer between the two subtractions. Stocks and needs stay within bounds. */
  lemma GoodsConserved(demand: seq<int>, shops: nat, s: State)
    requires Reachable(demand, shops, s)
    ensures |s.buyers| == |demand| && |s.capacity| == shops
    ensures 5000 * s.fills == Sum(s.capacity)
              + Sum(seq(|demand|, b requires 0 <= b < |demand| => demand[b] - s.buyers[b].need + InFlight(s.buyers[b])))
    ensures forall i :: 0 <= i < shops ==> 0 <= s.capacity[i] <= 9999
    ensures forall b :: 0 <= b < |demand| ==> 0 <= s.buyers[b].need <= demand[b]
  {
    ReachableInv(demand, shops, s);
    assert AllAcquired(s)
        == seq(|demand|, b requires 0 <= b < |demand| => demand[b] - s.buyers[b].need + InFlight(s.buyers[b]));
    forall b | 0 <= b < |demand|
      ensures 0 <= s.buyers[b].need <= demand[b]
    {
      assert BuyerOk(s.buyers[b], s.demand[b], s.visits[b], s.capacity, s.satisfied);
    }
  }

  /** A buyer that is about to write the stock back takes at least one item, and exactly what it
      needs or all there is; nobody has changed the stock since the buyer read it. */
  lemma PurchasePositive(demand: seq<int>, shops: nat, s: State, b: nat)
    requires Reachable(demand, shops, s) && b < |s.buyers| && s.buyers[b].pc.WriteStock?
    ensures var x := s.buyers[b];
            && x.shop < |s.capacity| && x.temp == s.capacity[x.shop]
            && 1 <= x.taken && (x.taken == x.need <= x.temp || x.taken == x.temp < x.need)
  {
    ReachableInv(demand, shops, s);
    assert BuyerOk(s.buyers[b], s.demand[b], s.visits[b], s.capacity, s.satisfied);
  }

  /** The work of any run is bounded by the initial needs. */
  lemma WorkBounds(demand: seq<int>, shops: nat, s: State)
    requires Reachable(demand, shops, s)
    ensures Sum(s.visits) <= Sum(demand)
    ensures 5000 * s.fills <= Sum(demand) + 9999 * shops
  {
    ReachableInv(demand, shops, s);
    forall b | 0 <= b < |s.buyers|
      ensures s.visits[b] <= AllAcquired(s)[b] <= demand[b]
    {
      assert BuyerOk(s.buyers[b], s.demand[b], s.visits[b], s.capacity, s.satisfied);
    }
    SumPointwise(s.visits, AllAcquired(s));
    SumPointwise(AllAcquired(s), demand);
    SumAtMost(s.capacity, FULL);
  }

  /** The purchases that happen in a run: the statements that write a lowered stock back. */
  ghost function Purchases(s: State, es: seq<Event>): nat
    decreases |es|
  {
    if es == [] || !Enabled(s, es[0]) then 0
    else (if es[0].BuyerStep? && s.buyers[es[0].b].pc.WriteStock? then 1 else 0)
         + Purchases(Apply(s, es[0]), es[1..])
  }

  /** The deliveries that happen in a run: the statements that write a raised stock back. */
  ghost function Deliveries(s: State, es: seq<Event>): nat
    decreases |es|
  {
    if es == [] || !Enabled(s, es[0]) then 0
    else (if es[0].LoaderStep? && s.loader.pc.WriteShelf? then 1 else 0)
         + Deliveries(Apply(s, es[0]), es[1..])
  }

  lemma {:induction false} HistoryCounts(s: State, es: seq<Event>, t: State)
    requires Run(s, es, t)
    ensures Sum(t.visits) == Sum(s.visits) + Purchases(s, es)
    ensures t.fills == s.fills + Deliveries(s, es)
    decreases |es|
  {
    if es == [] {
    } else {
      if es[0].BuyerStep? && s.buyers[es[0].b].pc.WriteStock? {
        SumUpdate(s.visits, es[0].b, s.visits[es[0].b] + 1);
      }
      HistoryCounts(Apply(s, es[0]), es[1..], t);
    }
  }

  /** No run, however long, contains more purchases than the buyers need items, and the number of
      deliveries is bounded by the needs and by what the shops can hold. */
  lemma RunBounds(demand: seq<int>, shops: nat, es: seq<Event>, t: State)
    requires ValidInput(demand, shops) && Run(Init(demand, shops), es, t)
    ensures Purchases(Init(demand, shops), es) <= Sum(demand)
    ensures 5000 * Deliveries(Init(demand, shops), es) <= Sum(demand) + 9999 * shops
  {
    WorkBounds(demand, shops, t);
    HistoryCounts(Init(demand, shops), es, t);
    AllZero(Init(demand, shops).visits);
  }

  // ---- Leaving ----------------------------------------------------------------------------

  lemma AllCountedWhenGone(s: State)
    requires Inv(s) && (s.loader.pc.UnlockExit? || s.loader.pc.Gone?)
    ensures forall b :: 0 <= b < |s.buyers| ==> Counted(s.buyers[b])
  {
    forall b | 0 <= b < |s.buyers|
      ensures Counted(s.buyers[b])
    {
      if !Counted(s.buyers[b]) {
        UncountedBuyer(s.buyers, b);
      }
    }
  }

  /** `buyers_satisfied` is the number of buyers behind their increment, and the loader leaves only
      when every buyer is there with nothing left to buy. */
  lemma LoaderLeavesLast(demand: seq<int>, shops: nat, s: State)
    requires Reachable(demand, shops, s)
    ensures s.satisfied == |CountedSet(s.buyers)|
    ensures s.loader.pc.Gone? ==> forall b :: 0 <= b < |s.buyers| ==> Counted(s.buyers[b]) && s.buyers[b].need == 0
  {
    ReachableInv(demand, shops, s);
    CountIsCardinality(s.buyers);
    if s.loader.pc.Gone? {
      AllCountedWhenGone(s);
      forall b | 0 <= b < |s.buyers|
        ensures Counted(s.buyers[b]) && s.buyers[b].need == 0
      {
        assert BuyerOk(s.buyers[b], s.demand[b], s.visits[b], s.capacity, s.satisfied);
      }
    }
  }

  ghost function CountedSet(buyers: seq<Buyer>): set<int> {
    set b | 0 <= b < |buyers| && Counted(buyers[b])
  }

  lemma {:induction false} CountIsCardinality(buyers: seq<Buyer>)
    ensures Sum(AllCounted(buyers)) == |CountedSet(buyers)|
  {
    if buyers == [] {
      assert CountedSet(buyers) == {};
    } else {
      var last := |buyers| - 1;
      var front, one := buyers[..last], if Counted(buyers[last]) then 1 else 0;
      CountIsCardinality(front);
      SumOfSnoc(AllCounted(front), one);
      assert AllCounted(buyers) == AllCounted(front) + [one];
      assert CountedSet(buyers) == CountedSet(front) + if one == 1 then {last} else {};
    }
  }

  /** After the joins: every need is met, no mutex is held and nobody waits when the mutexes and
      condition variables are destroyed, and the remaining stock is what was delivered but not needed. */
  lemma AfterJoins(demand: seq<int>, shops: nat, s: State)
    requires Reachable(demand, shops, s)
    requires s.main.DestroyShop? || s.main.DestroyCount? || s.main.DestroyLoader? || s.main.Exit?
    ensures s.owner == map[]
    ensures forall b, i :: !WaitsAt(s, b, i)
    ensures forall b :: 0 <= b < |s.buyers| ==> s.buyers[b].need == 0
    ensures Sum(s.capacity) == 5000 * s.fills - Sum(demand)
  {
    ReachableInv(demand, shops, s);
    forall b | 0 <= b < |s.buyers|
      ensures s.buyers[b].need == 0 && AllAcquired(s)[b] == demand[b]
    {
      assert BuyerOk(s.buyers[b], s.demand[b], s.visits[b], s.capacity, s.satisfied);
    }
    assert AllAcquired(s) == demand;
    assert forall t :: Holds(s, t).None?;
    assert forall m :: m !in s.owner;
  }
}
