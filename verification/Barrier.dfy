/** The reusable barrier as a protocol: the critical sections of `wait`, taken by the threads in any
    order, over a shared count and a generation number that wraps around. */
module Barrier {
  import opened Common

  // The critical sections ----------------------------------------------------------------------

  datatype Shared = Shared(count: nat, generation: nat)

  /** What the first section of `wait` finds: the thread leads the generation, or it has to wait. */
  datatype Entry = Leads | Waits(generation: nat)

  function Enter(s: Shared, n: nat): (Shared, Entry) {
    if s.count + 1 < n then (s.(count := s.count + 1), Waits(s.generation))
    else (Shared(0, (s.generation + 1) % TWO_64), Leads)
  }

  /** Whether the loop of `wait` ends when the lock is taken again. */
  predicate Released(s: Shared, n: nat, local: nat) {
    local != s.generation || s.count >= n
  }

  /** The barrier object: the fields behind the lock. */
  class Object {
    const numThreads: nat
    var count: nat
    var generationId: nat

    ghost function View(): Shared
      reads this
    {
      Shared(count, generationId)
    }

    constructor (n: nat)
      ensures numThreads == n && View() == Shared(0, 0)
    {
      numThreads, count, generationId := n, 0, 0;
    }

    /** From taking the lock to the first spin, or to the return of the leader. */
    method Arrive() returns (e: Entry)
      modifies this
      ensures (View(), e) == Enter(old(View()), numThreads)
    {
      count := count + 1;
      if count < numThreads {
        return Waits(generationId);
      }
      count := 0;
      generationId := (generationId + 1) % TWO_64;
      return Leads;
    }

    /** One more look at the shared state. */
    method Poll(local: nat) returns (done: bool)
      ensures done == Released(View(), numThreads, local)
    {
      return !(local == generationId && count < numThreads);
    }
  }

  // The protocol ---------------------------------------------------------------------------------

  /** A thread: whether it is inside `wait`, and for each finished call whether it was the leader. */
  datatype Thread = Thread(waiting: bool, local: nat, results: seq<bool>)

  /** The shared state, the threads, and who led each finished generation. */
  datatype World = World(shared: Shared, threads: seq<Thread>, leaders: seq<nat>)

  datatype Action = Arrive(t: nat) | Poll(t: nat)

  /** How many times a thread has entered `wait`. */
  function Entered(x: Thread): nat {
    if x.waiting then |x.results| + 1 else |x.results|
  }

  function Initial(n: nat): World {
    World(Shared(0, 0), seq(n, _ => Thread(false, 0, [])), [])
  }

  /** One thread takes the lock once; an action that is not its next one changes nothing. */
  function Step(w: World, a: Action): World {
    if a.t >= |w.threads| then w
    else
      var x := w.threads[a.t];
      match a
      case Arrive(t) => if x.waiting then w else ArriveStep(w, t)
      case Poll(t) =>
        if !x.waiting || !Released(w.shared, |w.threads|, x.local) then w
        else w.(threads := w.threads[t := Thread(false, 0, x.results + [false])])
  }

  function ArriveStep(w: World, t: nat): World
    requires t < |w.threads|
  {
    var x := w.threads[t];
    match Enter(w.shared, |w.threads|)
    case (s, Waits(g)) => World(s, w.threads[t := Thread(true, g, x.results)], w.leaders)
    case (s, Leads) => World(s, w.threads[t := Thread(false, 0, x.results + [true])], w.leaders + [t])
  }

  function Run(w: World, schedule: seq<Action>): World
    decreases |schedule|
  {
    if schedule == [] then w else Run(Step(w, schedule[0]), schedule[1..])
  }

  // What every step keeps --------------------------------------------------------------------------

  /** The threads that have entered the generation that is being gathered. */
  ghost function Gathered(w: World): set<nat> {
    set t: nat | t < |w.threads| && Entered(w.threads[t]) == |w.leaders| + 1
  }

  ghost predicate ThreadOk(w: World, t: nat)
    requires t < |w.threads|
  {
    var x, g := w.threads[t], |w.leaders|;
    && (Entered(x) == g || (Entered(x) == g + 1 && x.waiting))
    && (x.waiting ==> x.local == (Entered(x) - 1) % TWO_64)
    && (x.waiting && Entered(x) == g ==> w.leaders[g - 1] != t)
    && forall k :: 0 <= k < |x.results| ==> k < g && (x.results[k] <==> w.leaders[k] == t)
  }

  /** Threads are at most one generation apart, the count is the number gathered and short of all, and
      the wrapping number is that of the generation. */
  ghost predicate Inv(w: World) {
    && 1 <= |w.threads|
    && (forall t: nat :: t < |w.threads| ==> ThreadOk(w, t))
    && w.shared.count == |Gathered(w)| < |w.threads|
    && w.shared.generation == |w.leaders| % TWO_64
    && (forall g :: 0 <= g < |w.leaders| ==> w.leaders[g] < |w.threads|)
  }

  lemma InitialInv(n: nat)
    requires n >= 1
    ensures Inv(Initial(n))
  {
    assert Gathered(Initial(n)) == {};
  }

  ghost function Upto(n: nat): (s: set<nat>)
    ensures |s| == n && forall t: nat :: t in s <==> t < n
  {
    if n == 0 then {} else Upto(n - 1) + {n - 1}
  }

  lemma SubsetSize(a: set<nat>, b: set<nat>)
    requires a <= b
    ensures |a| <= |b| && (|a| == |b| ==> a == b)
  {
    assert b == a + (b - a);
  }

  /** Arriving before the others: one more is gathered. */
  lemma GatherOne(w: World, t: nat)
    requires Inv(w) && t < |w.threads| && !w.threads[t].waiting && w.shared.count + 1 < |w.threads|
    ensures Inv(ArriveStep(w, t))
  {
    var r := ArriveStep(w, t);
    var x := w.threads[t];
    assert ThreadOk(w, t) && Entered(x) == |w.leaders|;
    assert Gathered(r) == Gathered(w) + {t};
    forall u: nat | u < |r.threads| ensures ThreadOk(r, u) {
      assert ThreadOk(w, u);
    }
  }

  /** When only one is missing and it arrives, everybody else has been gathered. */
  lemma AllGathered(w: World, t: nat)
    requires Inv(w) && t < |w.threads| && !w.threads[t].waiting && w.shared.count + 1 >= |w.threads|
    ensures forall u: nat :: u < |w.threads| && u != t ==> u in Gathered(w)
  {
    assert ThreadOk(w, t);
    SubsetSize(Gathered(w) + {t}, Upto(|w.threads|));
    assert Gathered(w) + {t} == Upto(|w.threads|);
    forall u: nat | u < |w.threads| && u != t ensures u in Gathered(w) {
      assert u in Upto(|w.threads|);
    }
  }

  /** Arriving last: everybody has been gathered, and the next generation starts empty. */
  lemma GatherLast(w: World, t: nat)
    requires Inv(w) && t < |w.threads| && !w.threads[t].waiting && w.shared.count + 1 >= |w.threads|
    ensures Inv(ArriveStep(w, t))
  {
    hide ThreadOk, Entered;
    AllGathered(w, t);
    ModSucc(|w.leaders|);
    var r, x := ArriveStep(w, t), w.threads[t];
    assert r == World(Shared(0, (w.shared.generation + 1) % TWO_64),
                      w.threads[t := Thread(false, 0, x.results + [true])], w.leaders + [t]);
    forall u: nat | u < |r.threads| ensures ThreadOk(r, u) && Entered(r.threads[u]) == |r.leaders| {
      assert u == t || u in Gathered(w);
      NextGeneration(w, r, t, u);
    }
    assert Gathered(r) == {};
  }

  lemma ModSucc(x: nat)
    ensures (x % TWO_64 + 1) % TWO_64 == (x + 1) % TWO_64
  {
  }

  /** What one thread looks like after the leader's step. */
  lemma NextGeneration(w: World, r: World, t: nat, u: nat)
    requires t < |w.threads| && u < |w.threads| && ThreadOk(w, t) && ThreadOk(w, u)
    requires !w.threads[t].waiting && (u == t || Entered(w.threads[u]) == |w.leaders| + 1)
    requires r.threads == w.threads[t := Thread(false, 0, w.threads[t].results + [true])] && r.leaders == w.leaders + [t]
    ensures ThreadOk(r, u) && Entered(r.threads[u]) == |r.leaders|
  {
  }

  /** A released thread goes out of the generation before. */
  lemma PollInv(w: World, t: nat)
    requires Inv(w) && t < |w.threads| && w.threads[t].waiting && Released(w.shared, |w.threads|, w.threads[t].local)
    ensures Inv(Step(w, Poll(t)))
    ensures Entered(w.threads[t]) == |w.leaders|
  {
    var r, x := Step(w, Poll(t)), w.threads[t];
    assert ThreadOk(w, t);
    assert Entered(x) == |w.leaders|;
    assert Gathered(r) == Gathered(w);
    forall u: nat | u < |r.threads| ensures ThreadOk(r, u) {
      assert ThreadOk(w, u);
    }
  }

  lemma StepInv(w: World, a: Action)
    requires Inv(w)
    ensures Inv(Step(w, a)) && |Step(w, a).threads| == |w.threads|
  {
    if a.t < |w.threads| {
      var x := w.threads[a.t];
      if a.Arrive? && !x.waiting {
        if w.shared.count + 1 < |w.threads| {
          GatherOne(w, a.t);
        } else {
          GatherLast(w, a.t);
        }
      } else if a.Poll? && x.waiting && Released(w.shared, |w.threads|, x.local) {
        PollInv(w, a.t);
      }
    }
  }

  lemma {:induction false} RunInv(w: World, schedule: seq<Action>)
    requires Inv(w)
    ensures Inv(Run(w, schedule)) && |Run(w, schedule).threads| == |w.threads|
    decreases |schedule|
  {
    if schedule != [] {
      StepInv(w, schedule[0]);
      RunInv(Step(w, schedule[0]), schedule[1..]);
    }
  }

  // Over all interleavings -------------------------------------------------------------------------

  /** `w` is reached by `n` threads calling `wait` over and over, in some order. */
  ghost predicate Reachable(n: nat, w: World) {
    exists schedule :: w == Run(Initial(n), schedule)
  }

  lemma ReachableInv(n: nat, w: World)
    requires n >= 1 && Reachable(n, w)
    ensures Inv(w) && |w.threads| == n
  {
    var schedule :| w == Run(Initial(n), schedule);
    InitialInv(n);
    RunInv(Initial(n), schedule);
  }

  /** No thread has returned from its k-th wait before all have entered theirs, and any two threads
      are at most one generation apart. */
  lemma Safety(n: nat, w: World, t: nat, u: nat)
    requires n >= 1 && Reachable(n, w) && t < |w.threads| && u < |w.threads|
    ensures |w.threads[t].results| <= Entered(w.threads[u])
    ensures Entered(w.threads[t]) <= Entered(w.threads[u]) + 1
  {
    ReachableInv(n, w);
    assert ThreadOk(w, t) && ThreadOk(w, u);
  }

  /** Each generation that a thread has been through has one leader: its wait returned true, and
      every other wait of that generation returned false. */
  lemma OneLeader(n: nat, w: World, k: nat, t: nat)
    requires n >= 1 && Reachable(n, w) && t < |w.threads| && k < |w.threads[t].results|
    ensures k < |w.leaders| && w.leaders[k] < |w.threads| && k < |w.threads[w.leaders[k]].results|
    ensures w.threads[t].results[k] <==> t == w.leaders[k]
  {
    ReachableInv(n, w);
    assert ThreadOk(w, t);
    var v := w.leaders[k];
    assert ThreadOk(w, v);
  }

  /** The count is the number of threads that wait on the current generation, and short of all. */
  lemma CountExact(n: nat, w: World)
    requires n >= 1 && Reachable(n, w)
    ensures w.shared.count == |Gathered(w)| < n
    ensures forall t: nat :: t < |w.threads| ==>
              (t in Gathered(w) <==> w.threads[t].waiting && !Released(w.shared, n, w.threads[t].local))
  {
    ReachableInv(n, w);
    forall t: nat | t < |w.threads|
      ensures t in Gathered(w) <==> w.threads[t].waiting && !Released(w.shared, n, w.threads[t].local)
    {
      assert ThreadOk(w, t);
    }
  }

  /** The barrier never sticks: when every thread is inside `wait`, the next poll of one returns. */
  lemma NeverSticks(n: nat, w: World) returns (t: nat)
    requires n >= 1 && Reachable(n, w) && forall u: nat :: u < |w.threads| ==> w.threads[u].waiting
    ensures t < |w.threads| && |Step(w, Poll(t)).threads| == |w.threads| && !Step(w, Poll(t)).threads[t].waiting
  {
    ReachableInv(n, w);
    CountExact(n, w);
    assert Gathered(w) != Upto(n);
    t :| t < n && t !in Gathered(w);
  }
}
