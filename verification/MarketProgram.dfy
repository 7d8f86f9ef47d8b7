/** The shops program on the heap: the shop and buyer objects of the C program, and the code that a
    thread executes between two points where it can be held up, in the order of the C statements. Each
    such piece of code is proved to be a run of the step function. */
module MarketProgram {
  import opened Market
  import Runs
  import opened MarketSegments
  import opened Options

  class Shop {
    var capacity: int
    var locked: bool

    constructor ()
      ensures capacity == 0 && !locked
    {
      capacity, locked := 0, false;
    }
  }

  class Customer {
    var need: int

    constructor (need: int)
      ensures this.need == need
    {
      this.need := need;
    }
  }

  /** What the loader makes of a stock. */
  function Restocked(stock: int): int {
    if stock < 5000 then stock + 5000 else stock
  }

  /** The loader has come to shop i on its round from s, or is done with it. */
  ghost predicate RoundUpTo(s: State, t: State, i: nat) {
    && CanReach(s, t) && t.owner == map[] && t.satisfied == s.satisfied && |t.capacity| == |s.capacity|
    && (if i < |s.capacity| then t.loader.pc.EnterShop? && t.loader.shop == i else t.loader.pc.LockTotal?)
    && (forall k :: 0 <= k < i && k < |s.capacity| ==> t.capacity[k] == Restocked(s.capacity[k]))
    && (forall k :: i <= k < |s.capacity| ==> t.capacity[k] == s.capacity[k])
  }

  lemma RoundGoesOn(s: State, t: State, i: nat, wake: Option<nat>, u: State)
    requires RoundUpTo(s, t, i) && i < |s.capacity| && CanWake(t, wake)
    requires u == Served(t, wake) && CanReach(t, u)
    ensures RoundUpTo(s, u, i + 1)
  {
    Runs.Chain(SignalledStep, s, t, u);
  }

  /** How a buyer comes out of a shop. */
  datatype Outcome = Slept | WentOn | Left

  class Program {
    const shops: seq<Shop>
    const customers: seq<Customer>
    var satisfied: int
    var countLocked: bool
    var loaderLocked: bool
    // where all the threads are, and history
    ghost var now: State

    /** The objects hold what the state says. */
    ghost predicate Valid()
      reads this, shops, customers
    {
      && |now.capacity| == |shops| >= 1 && |now.buyers| == |now.visits| == |customers| && satisfied == now.satisfied
      && (forall i, j :: 0 <= i < j < |shops| ==> shops[i] != shops[j])
      && (forall a, b :: 0 <= a < b < |customers| ==> customers[a] != customers[b])
      && (forall i :: 0 <= i < |shops| ==> shops[i].capacity == now.capacity[i])
      && (countLocked <==> CountMutex in now.owner) && (loaderLocked <==> LoaderMutex in now.owner)
      && (forall i :: 0 <= i < |shops| ==> (shops[i].locked <==> ShopMutex(i) in now.owner))
      && (forall b :: 0 <= b < |customers| ==> customers[b].need == now.buyers[b].need)
    }

    constructor (needs: seq<int>, count: nat)
      requires ValidInput(needs, count)
      ensures Valid() && now == Init(needs, count)
      ensures (forall i :: 0 <= i < |shops| ==> fresh(shops[i]))
      ensures (forall b :: 0 <= b < |customers| ==> fresh(customers[b]))
    {
      var ss: seq<Shop> := [];
      for i := 0 to count
        invariant |ss| == i && forall j :: 0 <= j < i ==> fresh(ss[j]) && ss[j].capacity == 0 && !ss[j].locked
        invariant forall j, k :: 0 <= j < k < i ==> ss[j] != ss[k]
      {
        var shop := new Shop();
        ss := ss + [shop];
      }
      var cs: seq<Customer> := [];
      for b := 0 to |needs|
        invariant |cs| == b && forall j :: 0 <= j < b ==> fresh(cs[j]) && cs[j].need == needs[j]
        invariant forall j, k :: 0 <= j < k < b ==> cs[j] != cs[k]
        invariant |ss| == count && forall j :: 0 <= j < count ==> fresh(ss[j]) && ss[j].capacity == 0 && !ss[j].locked
        invariant forall j, k :: 0 <= j < k < count ==> ss[j] != ss[k]
      {
        var customer := new Customer(needs[b]);
        cs := cs + [customer];
      }
      shops, customers, satisfied, countLocked, loaderLocked := ss, cs, 0, false, false;
      now := Init(needs, count);
    }

    /** Lines 32-34: takes the mutex of the shop, and tests its stock. */
    method Enter(b: nat, i: nat) returns (empty: bool)
      requires Valid() && AtDoor(now, b) && i == now.buyers[b].shop
      modifies `now, shops[i]
      ensures Valid() && now == Entered(old(now), b) && CanReach(old(now), now)
      ensures (empty <==> shops[i].capacity == 0) && shops[i].capacity == old(shops[i].capacity)
    {
      shops[i].locked := true;
      empty := shops[i].capacity == 0;
      Enters(now, b);
      now := Entered(now, b);
    }

    /** Lines 35-37: nothing to buy for the buyer that was at the door in s. */
    method Sleep(b: nat, i: nat, ghost s: State)
      requires Valid() && AtDoor(s, b) && i == s.buyers[b].shop && now == Entered(s, b)
      requires !loaderLocked && shops[i].capacity == 0
      modifies this, shops[i]
      ensures Valid() && now == Placed(s, b, Waiting) && CanReach(old(now), now)
      ensures unchanged(this`satisfied) && shops[i].capacity == 0
    {
      shops[i].locked := false;
      loaderLocked := true;
      loaderLocked := false;  // pthread_cond_wait gives the mutex up
      SleepsInside(s, b);
      now := Placed(s, b, Waiting);
    }

    /** Lines 42-54, for the buyer that was at the door in s. */
    method Buy(b: nat, i: nat, ghost s: State)
      requires Valid() && AtDoor(s, b) && i == s.buyers[b].shop && now == Entered(s, b) && shops[i].capacity != 0
      modifies `now, shops[i], customers[b]
      ensures Valid() && now == Bought(s, b) && CanReach(old(now), now)
      ensures old(shops[i].capacity) - shops[i].capacity == old(customers[b].need) - customers[b].need
      ensures shops[i].capacity == 0 || customers[b].need == 0
    {
      var shop, buyer := shops[i], customers[b];
      var taken := shop.capacity;
      if taken > buyer.need {
        taken := buyer.need;
      }
      shop.capacity := shop.capacity - taken;
      buyer.need := buyer.need - taken;
      shop.locked := false;
      BuysInside(s, b);
      now := Bought(s, b);
    }

    /** Lines 58-63. */
    method GoOnOrLeave(b: nat) returns (left: bool)
      requires Valid() && b < |customers| && now.buyers[b].pc.TestNeed? && !countLocked
      requires now.buyers[b].shop < |shops|
      modifies this
      ensures Valid() && CanReach(old(now), now) && (left <==> customers[b].need <= 0)
      ensures now == if left then Departed(old(now), b) else Advanced(old(now), b)
      ensures satisfied == old(satisfied) + if left then 1 else 0
    {
      if customers[b].need <= 0 {
        countLocked := true;
        satisfied := satisfied + 1;
        countLocked := false;
        Leaves(now, b);
        now := Departed(now, b);
        return true;
      }
      GoesOn(now, b);
      now := Advanced(now, b);
      return false;
    }

    /** Lines 32-64, from the door of shop i to the next shop, to the wait, or out of the program. What
        leaves the shop is what lowers the need, and one of the two comes to nothing. */
    method VisitShop(b: nat, i: nat) returns (outcome: Outcome)
      requires Valid() && AtDoor(now, b) && i == now.buyers[b].shop && !loaderLocked && !countLocked
      modifies this, shops[i], customers[b]
      ensures Valid() && CanReach(old(now), now)
      ensures now.owner == old(now).owner
      ensures forall c :: 0 <= c < |now.buyers| && c != b ==> now.buyers[c] == old(now).buyers[c]
      ensures old(shops[i].capacity) - shops[i].capacity == old(customers[b].need) - customers[b].need
      ensures !outcome.Slept? ==> shops[i].capacity == 0 || customers[b].need == 0
      ensures outcome.Slept? <==> old(shops[i].capacity) == 0
      ensures outcome.Left? <==> old(shops[i].capacity) != 0 && customers[b].need <= 0
      ensures satisfied == old(satisfied) + if outcome.Left? then 1 else 0
      ensures now.buyers[b].pc == match outcome case Slept => Waiting case WentOn => LockShop case Left => Returned
      ensures now.buyers[b].shop == if !outcome.WentOn? then i else if i + 1 < |shops| then i + 1 else 0
    {
      ghost var s := now;
      var empty := Enter(b, i);
      ghost var t := now;
      if empty {
        Sleep(b, i, s);
        Runs.Chain(SignalledStep, s, t, now);
        return Slept;
      }
      Buy(b, i, s);
      ghost var u := now;
      var left := GoOnOrLeave(b);
      Runs.Chain(SignalledStep, s, t, u);
      Runs.Chain(SignalledStep, s, u, now);
      return if left then Left else WentOn;
    }

    /** Lines 80-87: the shop is filled up if it is low, and one of those who wait there is woken. */
    method ServeShop(i: nat) returns (ghost wake: Option<nat>)
      requires Valid() && i < |shops| && now.loader.pc.EnterShop? && now.loader.shop == i && !shops[i].locked
      modifies `now, shops[i]
      ensures Valid() && CanReach(old(now), now)
      ensures CanWake(old(now), wake) && now == Served(old(now), wake)
      ensures shops[i].capacity == old(shops[i].capacity) + if old(shops[i].capacity) < 5000 then 5000 else 0
      ensures if old(shops[i].capacity) >= 5000 || (forall b :: 0 <= b < |now.buyers| ==> !WaitsAt(old(now), b, i))
              then now.buyers == old(now).buyers
              else
                && wake.Some? && WaitsAt(old(now), wake.value, i)
                && now.buyers == old(now).buyers[wake.value := old(now).buyers[wake.value].(pc := Woken)]
    {
      wake := None;
      if b :| WaitsAt(now, b, i) {
        wake := Some(b);
      }
      var shop := shops[i];
      shop.locked := true;
      if shop.capacity < DELIVERY {
        shop.capacity := shop.capacity + DELIVERY;
      }
      shop.locked := false;
      Serves(now, wake);
      now := Served(now, wake);
    }

    /** Lines 71-77. */
    method TestCount() returns (left: bool)
      requires Valid() && now.loader.pc.LockTotal? && now.loader.shop < |now.capacity| && !countLocked
      modifies this
      ensures Valid() && CanReach(old(now), now) && (left <==> satisfied == |customers|) && unchanged(this`satisfied)
      ensures now == old(now).(loader := now.loader)
      ensures if left then now.loader.pc.Gone? else now.loader.pc.EnterShop? && now.loader.shop == 0
    {
      countLocked := true;
      if satisfied == |customers| {
        countLocked := false;
        GoesHome(now);
        now := now.(loader := now.loader.(pc := Gone));
        return true;
      }
      countLocked := false;
      BeginsRound(now);
      now := now.(loader := now.loader.(pc := EnterShop, shop := 0));
      return false;
    }

    /** Lines 71-88. If a buyer is missing in the count, every shop that is low gets a delivery, and of
        those who wait there one is woken; otherwise the loader leaves. */
    method LoaderRound() returns (left: bool)
      requires Valid() && now.loader.pc.LockTotal? && now.loader.shop < |now.capacity| && now.owner == map[]
      modifies this, shops
      ensures Valid() && CanReach(old(now), now) && now.owner == map[]
      ensures left <==> satisfied == |customers|
      ensures left ==> now.loader.pc.Gone? && forall i :: 0 <= i < |shops| ==>
                shops[i].capacity == old(shops[i].capacity)
      ensures !left ==> now.loader.pc.LockTotal? && forall i :: 0 <= i < |shops| ==>
                shops[i].capacity == old(shops[i].capacity) + if old(shops[i].capacity) < 5000 then 5000 else 0
      ensures satisfied == old(satisfied)
    {
      ghost var s := now;
      left := TestCount();
      if left {
        return;
      }
      for i := 0 to |shops|
        invariant Valid() && RoundUpTo(s, now, i)
      {
        ghost var t := now;
        ghost var wake := ServeShop(i);
        RoundGoesOn(s, t, i, wake, now);
      }
    }
  }
}
