/** In which order the shops are visited: every buyer and the loader go round, on every interleaving. */
module MarketTours {
  import opened Market
  import opened MarketSafety

  /** Going to the next shop is counting modulo the number of shops. */
  lemma NextIsModulo(v: nat, shops: nat)
    requires shops >= 1
    ensures NextShop(v % shops, shops) == (v + 1) % shops
  {
    var q, r := v / shops, v % shops;
    assert v == q * shops + r;
    if r + 1 < shops {
      Remainder(v + 1, q, r + 1, shops);
    } else {
      assert v + 1 == (q + 1) * shops;
      Remainder(v + 1, q + 1, 0, shops);
    }
  }

  lemma Multiples(d: int, m: nat)
    ensures d >= 1 ==> d * m >= m
    ensures d <= -1 ==> d * m + m <= 0
  {
    if d >= 1 {
      assert d * m == (d - 1) * m + m;
    } else if d <= -1 {
      assert d * m == (d + 1) * m - m;
    }
  }

  lemma Remainder(v: nat, q: nat, r: nat, shops: nat)
    requires r < shops && v == q * shops + r
    ensures v % shops == r
  {
    var p, t := v / shops, v % shops;
    assert v == p * shops + t;
    assert (p - q) * shops == p * shops - q * shops;
    Multiples(p - q, shops);
  }

  // ---- Buyers -----------------------------------------------------------------------------

  /** The shop a buyer is at is given by the purchases it has made before this shop. */
  predicate OnTour(x: Buyer, visits: nat, shops: nat)
    requires shops >= 1
  {
    if Shopping(x.pc) then x.shop == visits % shops else visits >= 1 && x.shop == (visits - 1) % shops
  }

  ghost predicate Touring(s: State) {
    && |s.capacity| >= 1 && |s.buyers| == |s.visits|
    && forall b :: 0 <= b < |s.buyers| ==> OnTour(s.buyers[b], s.visits[b], |s.capacity|)
  }

  lemma BuyerKeepsTour(s: State, b: nat)
    requires Touring(s) && BuyerEnabled(s, b)
    ensures Touring(AfterBuyer(s, b))
  {
    assert OnTour(s.buyers[b], s.visits[b], |s.capacity|);
    if s.buyers[b].pc.TestNeed? {
      NextIsModulo(s.visits[b] - 1, |s.capacity|);
    }
  }

  lemma {:induction false} RunKeepsTour(s: State, es: seq<Event>, t: State)
    requires Touring(s) && Run(s, es, t)
    ensures Touring(t) && |t.capacity| == |s.capacity|
    decreases |es|
  {
    if es == [] {
    } else {
      if es[0].BuyerStep? {
        BuyerKeepsTour(s, es[0].b);
      }
      RunKeepsTour(Apply(s, es[0]), es[1..], t);
    }
  }

  /** Every buyer makes its purchases in the shops 0, 1, 2, ... in turn, and after the last shop
      begins again: purchase k is made in shop k modulo the number of shops. */
  lemma PurchasesInTurn(demand: seq<int>, shops: nat, s: State, b: nat)
    requires Reachable(demand, shops, s) && b < |s.buyers| && s.buyers[b].pc.WriteStock?
    ensures |s.visits| == |s.buyers| && s.buyers[b].shop == s.visits[b] % shops
  {
    var es :| Run(Init(demand, shops), es, s);
    RunKeepsTour(Init(demand, shops), es, s);
    assert OnTour(s.buyers[b], s.visits[b], |s.capacity|);
  }

  // ---- The loader ---------------------------------------------------------------------------

  /** The shops that the loader leaves in a run. */
  ghost function Left(s: State, es: seq<Event>): nat
    decreases |es|
  {
    if es == [] || !Enabled(s, es[0]) then 0
    else (if es[0].LoaderStep? && s.loader.pc.LeaveShop? then 1 else 0) + Left(Apply(s, es[0]), es[1..])
  }

  /** Where the loader stands after it has left `left` shops. */
  ghost predicate OnRound(l: Loader, left: nat, shops: nat)
    requires shops >= 1
  {
    match l.pc
    case EnterShop | TestStock | ReadShelf | WriteShelf | Signal | LeaveShop => l.shop == left % shops
    case _ => left % shops == 0
  }

  lemma LoaderKeepsRound(l: Loader, left: nat, shops: nat, stock: int, satisfied: int, buyers: nat)
    requires shops >= 1 && OnRound(l, left, shops)
    ensures OnRound(LoaderNext(l, stock, satisfied, shops, buyers), left + if l.pc.LeaveShop? then 1 else 0, shops)
  {
    NextIsModulo(left, shops);
  }

  /** Until `main` has created the loader thread, it does not run. */
  predicate Newborn(s: State) {
    s.main.Create? || s.main.CreateLoader? ==> s.loader.pc.Unborn?
  }

  lemma {:induction false} RunKeepsRound(s: State, es: seq<Event>, t: State, left: nat)
    requires |s.capacity| >= 1 && Newborn(s) && OnRound(s.loader, left, |s.capacity|) && Run(s, es, t)
    ensures |t.capacity| == |s.capacity| && OnRound(t.loader, left + Left(s, es), |t.capacity|)
    decreases |es|
  {
    if es == [] {
    } else {
      var u := Apply(s, es[0]);
      var more := if es[0].LoaderStep? && s.loader.pc.LeaveShop? then 1 else 0;
      if es[0].LoaderStep? {
        LoaderKeepsRound(s.loader, left, |s.capacity|, s.capacity[s.loader.shop], s.satisfied, |s.buyers|);
      }
      assert OnRound(u.loader, left + more, |u.capacity|);
      RunKeepsRound(u, es[1..], t, left + more);
    }
  }

  /** The loader serves the shops in turn, and it looks at the count of satisfied buyers only after
      complete rounds. */
  lemma LoaderRounds(demand: seq<int>, shops: nat, es: seq<Event>, t: State)
    requires ValidInput(demand, shops) && Run(Init(demand, shops), es, t)
    ensures var left := Left(Init(demand, shops), es);
            && (t.loader.pc.TestStock? || t.loader.pc.WriteShelf? || t.loader.pc.Signal? ==>
                  t.loader.shop == left % shops)
            && (t.loader.pc.TestTotal? ==> left % shops == 0)
  {
    RunKeepsRound(Init(demand, shops), es, t, 0);
  }
}
