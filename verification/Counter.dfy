/** The shared counter: `counter++` is a load and a store, made under one mutex. Any number of threads,
    any number of iterations. */
module Counter {
  import opened Options
  import Runs
  import opened Sums

  datatype Pc = NotStarted | Test | Lock | Load | Store | Unlock | Finished

  /** A thread: its position, its loop variable, and the value it has loaded. */
  datatype Thread = Thread(pc: Pc, i: nat, temp: int)

  datatype MainPc = Create(t: nat) | Join(t: nat) | Print | Exit

  datatype State = State(counter: int, owner: Option<nat>, threads: seq<Thread>, rounds: nat, main: MainPc,
                         printed: Option<int>)

  datatype Event = ThreadStep(t: nat) | MainStep

  function Init(threads: nat, rounds: nat): State {
    State(0, None, seq(threads, _ => Thread(NotStarted, 0, 0)), rounds, Create(0), None)
  }

  predicate Enabled(s: State, e: Event) {
    match e
    case ThreadStep(t) =>
      t < |s.threads| && !s.threads[t].pc.NotStarted? && !s.threads[t].pc.Finished?
      && (s.threads[t].pc.Lock? ==> s.owner.None?)
    case MainStep =>
      match s.main
      case Create(t) => true
      case Join(t) => t < |s.threads| ==> s.threads[t].pc.Finished?
      case Print => true
      case Exit => false
  }

  function ThreadNext(x: Thread, counter: int, rounds: nat): Thread {
    match x.pc
    case Test => x.(pc := if x.i < rounds then Lock else Finished)
    case Lock => x.(pc := Load)
    case Load => x.(pc := Store, temp := counter)
    case Store => x.(pc := Unlock)
    case Unlock => x.(pc := Test, i := x.i + 1)
    case NotStarted | Finished => x
  }

  function AfterThread(s: State, t: nat): State
    requires Enabled(s, ThreadStep(t))
  {
    var x := s.threads[t];
    s.(threads := s.threads[t := ThreadNext(x, s.counter, s.rounds)],
       counter := if x.pc.Store? then x.temp + 1 else s.counter,
       owner := if x.pc.Lock? then Some(t) else if x.pc.Unlock? then None else s.owner)
  }

  function AfterMain(s: State): State
    requires Enabled(s, MainStep)
  {
    match s.main
    case Create(t) =>
      if t < |s.threads| then s.(main := Create(t + 1), threads := s.threads[t := Thread(Test, 0, 0)])
      else s.(main := Join(0))
    case Join(t) => s.(main := if t < |s.threads| then Join(t + 1) else Print)
    case Print => s.(main := Exit, printed := Some(s.counter))
  }

  function Apply(s: State, e: Event): State
    requires Enabled(s, e)
  {
    match e
    case ThreadStep(t) => AfterThread(s, t)
    case MainStep => AfterMain(s)
  }

  function Step(s: State, e: Event): Option<State> {
    if Enabled(s, e) then Some(Apply(s, e)) else None
  }

  /** Every event of the schedule is enabled when its turn comes. */
  ghost predicate Run(s: State, es: seq<Event>, t: State) {
    Runs.Run(Step, s, es, t)
  }

  // ---- The invariant --------------------------------------------------------------------------

  predicate Critical(pc: Pc) {
    pc.Load? || pc.Store? || pc.Unlock?
  }

  /** The stores a thread has completed. */
  function Stored(x: Thread): nat {
    x.i + if x.pc.Unlock? then 1 else 0
  }

  function AllStored(threads: seq<Thread>): (a: seq<int>)
    ensures |a| == |threads|
  {
    seq(|threads|, t requires 0 <= t < |threads| => Stored(threads[t]))
  }

  predicate ThreadOk(x: Thread, counter: int, rounds: nat) {
    && (if x.pc.Finished? then x.i == rounds else x.i <= rounds)
    && (x.pc.Lock? || Critical(x.pc) ==> x.i < rounds)
    && (x.pc.NotStarted? ==> x.i == 0)
    && (x.pc.Store? ==> x.temp == counter)
  }

  ghost predicate MainOk(s: State) {
    match s.main
    case Create(k) => k <= |s.threads| && forall t :: 0 <= t < |s.threads| ==> (s.threads[t].pc.NotStarted? <==> t >= k)
    case Join(k) => k <= |s.threads| && forall t :: 0 <= t < |s.threads| ==>
                      !s.threads[t].pc.NotStarted? && (t < k ==> s.threads[t].pc.Finished?)
    case Print => forall t :: 0 <= t < |s.threads| ==> s.threads[t].pc.Finished?
    case Exit => (forall t :: 0 <= t < |s.threads| ==> s.threads[t].pc.Finished?) && s.printed == Some(s.counter)
  }

  ghost predicate Inv(s: State) {
    && s.counter == Sum(AllStored(s.threads))
    && (forall t :: 0 <= t < |s.threads| ==> ThreadOk(s.threads[t], s.counter, s.rounds))
    && (forall t :: 0 <= t < |s.threads| ==> (Critical(s.threads[t].pc) <==> s.owner == Some(t)))
    && (s.owner.Some? ==> s.owner.value < |s.threads|)
    && MainOk(s)
  }

  lemma ThreadKeepsInv(s: State, t: nat)
    requires Inv(s) && Enabled(s, ThreadStep(t))
    ensures Inv(AfterThread(s, t))
  {
    var x, u := s.threads[t], AfterThread(s, t);
    assert ThreadOk(x, s.counter, s.rounds);
    assert AllStored(u.threads) == AllStored(s.threads)[t := Stored(u.threads[t])];
    SumUpdate(AllStored(s.threads), t, Stored(u.threads[t]));
    if x.pc.Store? {
      assert forall r :: 0 <= r < |s.threads| && r != t ==> !Critical(s.threads[r].pc);
    }
  }

  lemma MainKeepsInv(s: State)
    requires Inv(s) && Enabled(s, MainStep)
    ensures Inv(AfterMain(s))
  {
    assert AllStored(AfterMain(s).threads) == AllStored(s.threads);
  }

  lemma InitInv(threads: nat, rounds: nat)
    ensures Inv(Init(threads, rounds))
  {
    var stored := AllStored(Init(threads, rounds).threads);
    SumAtMost(stored, 0);
    SumAtLeast(stored, 0);
  }

  lemma {:induction false} RunKeepsInv(s: State, es: seq<Event>, t: State)
    requires Inv(s) && Run(s, es, t)
    ensures Inv(t) && t.rounds == s.rounds && |t.threads| == |s.threads|
    decreases |es|
  {
    if es == [] {
    } else {
      match es[0] {
        case ThreadStep(k) => ThreadKeepsInv(s, k);
        case MainStep => MainKeepsInv(s);
      }
      RunKeepsInv(Apply(s, es[0]), es[1..], t);
    }
  }

  // ---- The guarantees ----------------------------------------------------------------------------

  ghost predicate CanReach(s: State, t: State) {
    Runs.CanReach(Step, s, t)
  }

  ghost predicate Reachable(threads: nat, rounds: nat, s: State) {
    CanReach(Init(threads, rounds), s)
  }

  lemma ReachableInv(threads: nat, rounds: nat, s: State)
    requires Reachable(threads, rounds, s)
    ensures Inv(s) && s.rounds == rounds && |s.threads| == threads
  {
    var es :| Runs.Run(Step, Init(threads, rounds), es, s);
    InitInv(threads, rounds);
    RunKeepsInv(Init(threads, rounds), es, s);
  }

  /** No update is lost on the way, a loaded value stays current until it is stored, and only one
      thread is between its lock and its unlock. */
  lemma NoLostUpdate(threads: nat, rounds: nat, s: State)
    requires Reachable(threads, rounds, s)
    ensures s.counter == Sum(AllStored(s.threads)) <= threads * rounds
    ensures forall t :: 0 <= t < |s.threads| && s.threads[t].pc.Store? ==> s.threads[t].temp == s.counter
    ensures forall t, r :: 0 <= t < r < |s.threads| ==> !(Critical(s.threads[t].pc) && Critical(s.threads[r].pc))
  {
    ReachableInv(threads, rounds, s);
    forall t | 0 <= t < |s.threads|
      ensures AllStored(s.threads)[t] <= rounds
    {
      assert ThreadOk(s.threads[t], s.counter, s.rounds);
    }
    SumAtMost(AllStored(s.threads), rounds);
  }

  /** What `main` prints after the joins is the number of threads times the number of iterations. */
  lemma FinalCount(threads: nat, rounds: nat, s: State)
    requires Reachable(threads, rounds, s) && s.main.Exit?
    ensures s.printed == Some(threads * rounds)
  {
    ReachableInv(threads, rounds, s);
    var stored := AllStored(s.threads);
    forall t | 0 <= t < |s.threads|
      ensures stored[t] == rounds
    {
      assert ThreadOk(s.threads[t], s.counter, s.rounds);
    }
    SumAtMost(stored, rounds);
    SumAtLeast(stored, rounds);
  }

  /** The mutex never brings the program to a halt: until `main` is done, some step is possible. */
  lemma SomeStep(threads: nat, rounds: nat, s: State)
    requires Reachable(threads, rounds, s) && !s.main.Exit?
    ensures exists e :: Enabled(s, e)
  {
    ReachableInv(threads, rounds, s);
    if Enabled(s, MainStep) {
    } else if s.owner.Some? {
      assert Enabled(s, ThreadStep(s.owner.value));
    } else {
      assert Enabled(s, ThreadStep(s.main.t));
    }
  }

  // ---- The program --------------------------------------------------------------------------------

  /** Thread t has gone once more through its loop. */
  function Incremented(s: State, t: nat): State
    requires t < |s.threads|
  {
    s.(counter := s.counter + 1, threads := s.threads[t := Thread(Test, s.threads[t].i + 1, s.counter)])
  }

  /** Lines 8-12, undisturbed. */
  lemma Increments(s: State, t: nat)
    requires t < |s.threads| && s.threads[t].pc.Test? && s.threads[t].i < s.rounds && s.owner.None?
    ensures CanReach(s, Incremented(s, t))
  {
    Runs.Stay(Step, s);
    var u := Runs.Then(Step, s, s, ThreadStep(t));
    u := Runs.Then(Step, s, u, ThreadStep(t));
    u := Runs.Then(Step, s, u, ThreadStep(t));
    u := Runs.Then(Step, s, u, ThreadStep(t));
    u := Runs.Then(Step, s, u, ThreadStep(t));
    assert u == Incremented(s, t);
  }

  lemma {:induction false} Creates(s: State) returns (t: State)
    requires s.main.Create? && s.main.t <= |s.threads|
    requires forall k :: 0 <= k < s.main.t ==> s.threads[k] == Thread(Test, 0, 0)
    ensures CanReach(s, t) && t == s.(main := Join(0), threads := t.threads) && |t.threads| == |s.threads|
    ensures forall k :: 0 <= k < |t.threads| ==> t.threads[k] == Thread(Test, 0, 0)
    decreases |s.threads| - s.main.t
  {
    Runs.Once(Step, s, MainStep);
    if s.main.t == |s.threads| {
      t := AfterMain(s);
    } else {
      t := Creates(AfterMain(s));
      Runs.Chain(Step, s, AfterMain(s), t);
    }
  }

  lemma {:induction false} Joins(s: State) returns (t: State)
    requires s.main.Join? && s.main.t <= |s.threads| && forall k :: 0 <= k < |s.threads| ==> s.threads[k].pc.Finished?
    ensures CanReach(s, t) && t == s.(main := Print)
    decreases |s.threads| - s.main.t
  {
    Runs.Once(Step, s, MainStep);
    if s.main.t == |s.threads| {
      t := AfterMain(s);
    } else {
      t := Joins(AfterMain(s));
      Runs.Chain(Step, s, AfterMain(s), t);
    }
  }

  /** The program's variables. Its threads run one after the other here. */
  class Program {
    var counter: int
    var locked: bool
    var printed: Option<int>
    const count: nat
    const rounds: nat
    // where all the threads are
    ghost var now: State

    ghost predicate Valid()
      reads this
    {
      counter == now.counter && (locked <==> now.owner.Some?) && printed == now.printed && rounds == now.rounds
      && count == |now.threads|
    }

    constructor (count: nat, rounds: nat)
      ensures Valid() && now == Init(count, rounds)
    {
      counter, locked, printed := 0, false, None;
      this.count, this.rounds := count, rounds;
      now := Init(count, rounds);
    }

    /** Lines 7-14: every iteration counts. */
    method IncrementCounter(t: nat)
      requires Valid() && t < |now.threads| && now.threads[t] == Thread(Test, 0, 0) && !locked
      modifies this
      ensures Valid() && CanReach(old(now), now) && !locked
      ensures counter == old(counter) + rounds && unchanged(this`printed)
      ensures |now.threads| == |old(now).threads| && now.threads[t].pc.Finished?
      ensures now == old(now).(counter := counter, threads := old(now).threads[t := now.threads[t]])
    {
      ghost var s := now;
      Runs.Stay(Step, s);
      for i := 0 to rounds
        invariant Valid() && CanReach(s, now) && !locked && counter == old(counter) + i && unchanged(this`printed)
        invariant |now.threads| == |s.threads| && now.threads[t].pc.Test? && now.threads[t].i == i
        invariant now == s.(counter := counter, threads := s.threads[t := now.threads[t]])
      {
        locked := true;
        var value := counter;
        counter := value + 1;
        locked := false;
        Increments(now, t);
        Runs.Chain(Step, s, now, Incremented(now, t));
        now := Incremented(now, t);
      }
      now := Runs.Then(Step, s, now, ThreadStep(t));
    }

    /** Lines 16-27, when the threads happen to run one after the other. */
    method CountUp()
      requires Valid() && now == Init(count, rounds)
      modifies this
      ensures Valid() && Reachable(count, rounds, now) && now.main.Exit?
      ensures printed == Some(count * rounds)
    {
      ghost var s := now;
      now := Creates(s);
      for t := 0 to count
        invariant Valid() && CanReach(s, now) && now.main == Join(0) && !locked
        invariant forall k :: 0 <= k < t ==> now.threads[k].pc.Finished?
        invariant forall k :: t <= k < count ==> now.threads[k] == Thread(Test, 0, 0)
      {
        ghost var before := now;
        IncrementCounter(t);
        Runs.Chain(Step, s, before, now);
      }
      ghost var joined := Joins(now);
      Runs.Chain(Step, s, now, joined);
      printed := Some(counter);
      now := Runs.Then(Step, s, joined, MainStep);
      FinalCount(count, rounds, now);
    }
  }
}
