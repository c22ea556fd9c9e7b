// The debounced priority queue of admission requests, as atomic steps.
module QueueSteps {
  import opened Basics

  // A request arrives, a timer fires, a goroutine passes the check at the head of
  // processBatch, takes a batch, sends one result, or leaves.

  datatype Request = Request(id: nat, count: int)

  // The fields of the queue, the timers and goroutines around it, and what has
  // happened so far. A goroutine goes by the number of the timer that started
  // it; loops maps each goroutine inside the drain loop to the sorted requests
  // it still has to serve.
  datatype State = State(
    batch: seq<Request>,
    timer: Option<nat>,
    processing: bool,
    armed: set<nat>,
    starting: set<nat>,
    loops: map<nat, seq<Request>>,
    timers: nat,
    enqueued: seq<Request>,
    taken: seq<seq<Request>>,
    sorted: seq<seq<Request>>,
    answered: seq<Request>)

  const EMPTY := State([], None, false, {}, {}, map[], 0, [], [], [], [])

  datatype Action =
    | Enqueue(request: Request)
    | Fire(timer: nat)
    | Check(goroutine: nat)
    | Drain(goroutine: nat, order: seq<Request>)
    | Exit(goroutine: nat)
    | Deliver(goroutine: nat)

  ghost predicate Descending(xs: seq<Request>) {
    forall i, j :: 0 <= i < j < |xs| ==> xs[i].count >= xs[j].count
  }

  // A goroutine back at the head of the drain loop
  predicate AtHead(s: State, g: nat) {
    g in s.loops && s.loops[g] == []
  }

  ghost predicate Enabled(s: State, a: Action) {
    match a
    case Enqueue(_) => true
    case Fire(t) => t in s.armed
    case Check(g) => g in s.starting
    case Drain(g, order) =>
      AtHead(s, g) && s.batch != [] && multiset(order) == multiset(s.batch) && Descending(order)
    case Exit(g) => AtHead(s, g) && s.batch == []
    case Deliver(g) => g in s.loops && s.loops[g] != []
  }

  // Stopping a timer that has already fired changes nothing.
  function Stopped(s: State): set<nat> {
    if s.timer.Some? then s.armed - {s.timer.value} else s.armed
  }

  ghost function Next(s: State, a: Action): State
    requires Enabled(s, a)
  {
    match a
    case Enqueue(r) =>
      s.(batch := s.batch + [r], enqueued := s.enqueued + [r],
         armed := Stopped(s) + {s.timers}, timer := Some(s.timers), timers := s.timers + 1)
    case Fire(t) => s.(armed := s.armed - {t}, starting := s.starting + {t})
    case Check(g) =>
      if s.processing then s.(starting := s.starting - {g})
      else s.(starting := s.starting - {g}, processing := true, loops := s.loops[g := []])
    case Drain(g, order) =>
      s.(loops := s.loops[g := order], batch := [], taken := s.taken + [s.batch], sorted := s.sorted + [order])
    case Exit(g) => s.(loops := s.loops - {g}, processing := false, timer := None)
    case Deliver(g) => s.(answered := s.answered + [s.loops[g][0]], loops := s.loops[g := s.loops[g][1..]])
  }

  // The state an interleaving of steps leads to from the empty queue, if each
  // of them was possible when it was taken
  ghost function Run(actions: seq<Action>): Option<State> {
    if actions == [] then Some(EMPTY)
    else
      var before := Run(actions[..|actions| - 1]);
      var a := actions[|actions| - 1];
      if before.Some? && Enabled(before.value, a) then Some(Next(before.value, a)) else None
  }

  lemma RunSnoc(actions: seq<Action>, a: Action)
    ensures Run(actions + [a]) ==
      if Run(actions).Some? && Enabled(Run(actions).value, a) then Some(Next(Run(actions).value, a)) else None
  {
    assert (actions + [a])[..|actions|] == actions;
  }

  ghost predicate AllBelow(ns: set<nat>, bound: nat) {
    forall n :: n in ns ==> n < bound
  }

  // At most one goroutine is in the drain loop, and the flag says whether one is.
  ghost predicate OneDrainer(s: State) {
    && (s.processing <==> s.loops != map[])
    && forall g, h :: g in s.loops && h in s.loops ==> g == h
  }

  // Someone is on the way to serve whatever waits.
  ghost predicate Attended(s: State) {
    s.armed != {} || s.starting != {} || s.loops != map[]
  }

  function Flatten(xs: seq<seq<Request>>): seq<Request> {
    if xs == [] then [] else Flatten(xs[..|xs| - 1]) + xs[|xs| - 1]
  }

  // Requests are served batch by batch in order of arrival, and within a batch
  // by falling count: the batches taken and the ones waiting make up the
  // arrivals, and the results sent and the ones in flight the sorted batches.
  ghost predicate InOrder(s: State) {
    && s.enqueued == Flatten(s.taken) + s.batch
    && |s.sorted| == |s.taken|
    && (forall k :: 0 <= k < |s.taken| ==> multiset(s.sorted[k]) == multiset(s.taken[k]) && Descending(s.sorted[k]))
    && (s.loops == map[] ==> Flatten(s.sorted) == s.answered)
    && forall g :: g in s.loops ==> Flatten(s.sorted) == s.answered + s.loops[g]
  }

  ghost predicate Numbered(s: State) {
    AllBelow(s.armed + s.starting + s.loops.Keys, s.timers)
    && s.armed !! s.starting
    && (s.timer.Some? ==> s.timer.value < s.timers)
  }

  ghost predicate Inv(s: State) {
    && OneDrainer(s)
    && (s.batch != [] || s.timer.Some? ==> Attended(s))
    && Numbered(s)
    && InOrder(s)
  }

  lemma InvStep(s: State, a: Action)
    requires Inv(s) && Enabled(s, a)
    ensures Inv(Next(s, a))
  {
    InOrderStep(s, a);
    AttendedStep(s, a);
  }

  lemma AttendedStep(s: State, a: Action)
    requires Inv(s) && Enabled(s, a)
    ensures OneDrainer(Next(s, a)) && Numbered(Next(s, a))
    ensures Next(s, a).batch != [] || Next(s, a).timer.Some? ==> Attended(Next(s, a))
  {
    var n := Next(s, a);
    match a
    case Enqueue(_) => assert s.timers in n.armed;
    case Fire(t) => assert t in n.starting;
    case Check(g) => assert !s.processing ==> g in n.loops;
    case Drain(g, _) => assert g in n.loops;
    case Exit(g) => assert n.loops == map[];
    case Deliver(g) => assert g in n.loops;
  }

  lemma InOrderStep(s: State, a: Action)
    requires OneDrainer(s) && InOrder(s) && Enabled(s, a)
    ensures InOrder(Next(s, a))
  {
    match a
    case Enqueue(r) => assert Flatten(s.taken) + (s.batch + [r]) == (Flatten(s.taken) + s.batch) + [r];
    case Fire(_) =>
    case Check(g) => assert s.answered + [] == s.answered;
    case Drain(g, order) => InOrderDrain(s, g, order);
    case Exit(g) => InOrderExit(s, g);
    case Deliver(g) => InOrderDeliver(s, g);
  }

  lemma InOrderDrain(s: State, g: nat, order: seq<Request>)
    requires OneDrainer(s) && InOrder(s) && Enabled(s, Drain(g, order))
    ensures InOrder(Next(s, Drain(g, order)))
  {
    var n := Next(s, Drain(g, order));
    assert n.enqueued == Flatten(n.taken) + n.batch;
    assert Flatten(s.sorted) == s.answered + [] == s.answered;
  }

  lemma InOrderExit(s: State, g: nat)
    requires OneDrainer(s) && InOrder(s) && Enabled(s, Exit(g))
    ensures InOrder(Next(s, Exit(g)))
  {
    assert Flatten(s.sorted) == s.answered + [] == s.answered;
    assert Next(s, Exit(g)).loops == map[];
  }

  lemma InOrderDeliver(s: State, g: nat)
    requires OneDrainer(s) && InOrder(s) && Enabled(s, Deliver(g))
    ensures InOrder(Next(s, Deliver(g)))
  {
    var rest := s.loops[g];
    assert (s.answered + [rest[0]]) + rest[1..] == s.answered + rest;
  }

  lemma {:induction false} ReachableInv(actions: seq<Action>)
    requires Run(actions).Some?
    ensures Inv(Run(actions).value)
  {
    if actions != [] {
      ReachableInv(actions[..|actions| - 1]);
      InvStep(Run(actions[..|actions| - 1]).value, actions[|actions| - 1]);
    }
  }

  lemma LoopsCount(s: State)
    requires OneDrainer(s)
    ensures |s.loops| == if s.processing then 1 else 0
  {
    if g :| g in s.loops {
      assert s.loops.Keys == {g};
      assert |s.loops| == |s.loops.Keys|;
    } else {
      assert s.loops == map[];
    }
  }

  // In every interleaving: one drainer at most, the flag tells whether there is
  // one, and no waiting request is forgotten.
  lemma {:induction false} NoRequestIsStranded(actions: seq<Action>)
    requires Run(actions).Some?
    ensures var s := Run(actions).value;
      && |s.loops| <= 1
      && (s.processing <==> |s.loops| == 1)
      && (s.batch != [] ==> s.armed != {} || s.starting != {} || s.processing)
  {
    ReachableInv(actions);
    LoopsCount(Run(actions).value);
  }

  // The requests the drainer has taken and not yet answered
  ghost function InFlight(s: State): seq<Request>
    requires InOrder(s)
    ensures s.loops == map[] ==> InFlight(s) == []
    ensures forall g :: g in s.loops ==> InFlight(s) == s.loops[g]
  {
    Flatten(s.sorted)[|s.answered|..]
  }

  lemma {:induction false} FlattenPermutes(xs: seq<seq<Request>>, ys: seq<seq<Request>>)
    requires |xs| == |ys|
    requires forall k :: 0 <= k < |xs| ==> multiset(xs[k]) == multiset(ys[k])
    ensures multiset(Flatten(xs)) == multiset(Flatten(ys))
    decreases |xs|
  {
    if xs != [] {
      var n := |xs| - 1;
      FlattenPermutes(xs[..n], ys[..n]);
      assert multiset(xs[n]) == multiset(ys[n]);
    }
  }

  // In every interleaving each arrival is in exactly one place, once for each
  // time it arrived: waiting, in flight or answered.
  lemma {:induction false} ExactlyOnce(actions: seq<Action>)
    requires Run(actions).Some?
    ensures var s := Run(actions).value;
      && InOrder(s)
      && multiset(s.enqueued) == multiset(s.batch) + multiset(InFlight(s)) + multiset(s.answered)
  {
    ReachableInv(actions);
    var s := Run(actions).value;
    FlattenPermutes(s.taken, s.sorted);
    assert Flatten(s.sorted) == s.answered + InFlight(s);
  }

  // A request that arrives once has one of the three fates, and one answer at most.
  lemma {:induction false} OneFate(actions: seq<Action>, r: Request)
    requires Run(actions).Some? && multiset(Run(actions).value.enqueued)[r] == 1
    ensures var s := Run(actions).value;
      && InOrder(s)
      && multiset(s.answered)[r] <= 1
      && (r in s.answered <==> r !in s.batch && r !in InFlight(s))
      && (r in s.batch ==> r !in InFlight(s))
  {
    ExactlyOnce(actions);
    var s := Run(actions).value;
    assert r in s.answered <==> r in multiset(s.answered);
    assert r in s.batch <==> r in multiset(s.batch);
    assert r in InFlight(s) <==> r in multiset(InFlight(s));
  }

  // Within a batch a smaller request is never answered before a larger one.
  lemma {:induction false} LargerFirst(actions: seq<Action>, k: nat, i: nat, j: nat)
    requires Run(actions).Some?
    requires k < |Run(actions).value.sorted| && i < j < |Run(actions).value.sorted[k]|
    ensures var s := Run(actions).value;
      && s.sorted[k][i].count >= s.sorted[k][j].count
      && |s.taken| == |s.sorted|
      && multiset(s.sorted[k]) == multiset(s.taken[k])
      && (Served(s, k, j) ==> Served(s, k, i))
      && (Served(s, k, i) ==> s.answered[Position(s, k, i)] == s.sorted[k][i])
  {
    ReachableInv(actions);
    var s := Run(actions).value;
    FlattenAt(s.sorted, k, i);
    if g :| g in s.loops {
      assert Flatten(s.sorted) == s.answered + s.loops[g];
    }
  }

  // Where the i-th request of the k-th batch stands in the order of service
  function Position(s: State, k: nat, i: nat): nat
    requires k < |s.sorted|
  {
    |Flatten(s.sorted[..k])| + i
  }

  predicate Served(s: State, k: nat, i: nat)
    requires k < |s.sorted|
  {
    Position(s, k, i) < |s.answered|
  }

  lemma {:induction false} FlattenAt(xs: seq<seq<Request>>, k: nat, i: nat)
    requires k < |xs| && i < |xs[k]|
    ensures |Flatten(xs[..k])| + i < |Flatten(xs)|
    ensures Flatten(xs)[|Flatten(xs[..k])| + i] == xs[k][i]
    decreases |xs|
  {
    var n := |xs| - 1;
    if k < n {
      FlattenAt(xs[..n], k, i);
      assert xs[..n][..k] == xs[..k];
    }
  }

  // What is left to do once nothing more arrives
  function Measure(s: State): int {
    4 * |s.armed| + 3 * |s.starting| + |s.loops| + |s.batch| + 2 * (|s.enqueued| - |s.answered|)
  }

  lemma MeasureStep(s: State, a: Action)
    requires Inv(s) && Enabled(s, a)
    ensures a.Enqueue? ==> Measure(Next(s, a)) <= Measure(s) + 7
    ensures !a.Enqueue? ==> Measure(Next(s, a)) < Measure(s)
  {
    var n := Next(s, a);
    AttendedStep(s, a);
    LoopsCount(s);
    LoopsCount(n);
    match a
    case Enqueue(_) => OneMore(Stopped(s), s.armed, s.timers);
    case Fire(t) => assert |s.armed - {t}| == |s.armed| - 1;
    case Check(g) => assert |s.starting - {g}| == |s.starting| - 1;
    case Drain(_, _) =>
    case Exit(_) =>
    case Deliver(_) =>
  }

  lemma OneMore(part: set<nat>, all: set<nat>, n: nat)
    requires part <= all
    ensures |part + {n}| <= |all| + 1
  {
    assert |all + {n}| <= |all| + 1;
    assert all + {n} == (part + {n}) + (all - part);
    assert |part| <= |all| by {
      assert all == part + (all - part);
    }
  }

  lemma MeasureBounded(s: State)
    requires Inv(s)
    ensures Measure(s) >= 0
  {
    FlattenPermutes(s.taken, s.sorted);
    assert |multiset(Flatten(s.taken))| == |multiset(Flatten(s.sorted))|;
    if g :| g in s.loops {
      assert Flatten(s.sorted) == s.answered + s.loops[g];
    } else {
      assert s.loops == map[];
    }
  }

  // The number of arrivals among the steps of an interleaving
  function Arrivals(actions: seq<Action>): nat {
    if actions == [] then 0
    else Arrivals(actions[..|actions| - 1]) + if actions[|actions| - 1].Enqueue? then 1 else 0
  }

  // Every interleaving is finite work: at most seven steps besides the arrival
  // itself for each request.
  lemma {:induction false} WorkIsBounded(actions: seq<Action>)
    requires Run(actions).Some?
    ensures |actions| + Measure(Run(actions).value) <= 8 * Arrivals(actions)
    ensures |actions| <= 8 * Arrivals(actions)
  {
    ReachableInv(actions);
    MeasureBounded(Run(actions).value);
    if actions != [] {
      var before := actions[..|actions| - 1];
      WorkIsBounded(before);
      ReachableInv(before);
      MeasureStep(Run(before).value, actions[|actions| - 1]);
    }
  }

  // Once arrivals stop, the rest of the run is no longer than the measure.
  lemma {:induction false} DrainIsBounded(actions: seq<Action>, rest: seq<Action>)
    requires Run(actions + rest).Some? && Run(actions).Some?
    requires forall i :: 0 <= i < |rest| ==> !rest[i].Enqueue?
    ensures |rest| + Measure(Run(actions + rest).value) <= Measure(Run(actions).value)
    ensures |rest| <= Measure(Run(actions).value)
    decreases |rest|
  {
    ReachableInv(actions + rest);
    MeasureBounded(Run(actions + rest).value);
    if rest == [] {
      assert actions + rest == actions;
    } else {
      var n := |rest| - 1;
      assert (actions + rest)[..|actions| + n] == actions + rest[..n];
      DrainIsBounded(actions, rest[..n]);
      ReachableInv(actions + rest[..n]);
      MeasureStep(Run(actions + rest[..n]).value, rest[n]);
    }
  }

  ghost predicate Stuck(s: State) {
    forall a :: Enabled(s, a) ==> a.Enqueue?
  }

  // A state in which nothing but an arrival can happen is at rest: everything
  // that arrived has been answered and the flag and the timer are cleared.
  lemma {:induction false} StuckIsDone(actions: seq<Action>)
    requires Run(actions).Some? && Stuck(Run(actions).value)
    ensures var s := Run(actions).value;
      && multiset(s.answered) == multiset(s.enqueued)
      && s.batch == [] && !s.processing && s.timer.None?
      && s.armed == {} && s.starting == {} && s.loops == map[]
  {
    ReachableInv(actions);
    ExactlyOnce(actions);
    var s := Run(actions).value;
    if t :| t in s.armed {
      assert Enabled(s, Fire(t));
    }
    if g :| g in s.starting {
      assert Enabled(s, Check(g));
    }
    if g :| g in s.loops {
      LoopMoves(s, g);
    }
    assert s.loops == map[];
  }

  lemma LoopMoves(s: State, g: nat)
    requires g in s.loops
    ensures !Stuck(s)
  {
    if s.loops[g] != [] {
      assert Enabled(s, Deliver(g));
    } else if s.batch == [] {
      assert Enabled(s, Exit(g));
    } else {
      var order := SomeOrder(s.batch);
      assert Enabled(s, Drain(g, order));
    }
  }

  lemma {:induction false} SomeOrder(xs: seq<Request>) returns (ys: seq<Request>)
    ensures multiset(ys) == multiset(xs) && Descending(ys)
  {
    if xs == [] {
      ys := [];
    } else {
      var i := LargestAt(xs);
      var rest := xs[..i] + xs[i + 1..];
      assert xs == xs[..i] + ([xs[i]] + xs[i + 1..]);
      var tail := SomeOrder(rest);
      ys := [xs[i]] + tail;
      forall j | 0 <= j < |tail|
        ensures tail[j].count <= xs[i].count
      {
        assert tail[j] in multiset(tail);
        assert tail[j] in rest;
      }
    }
  }

  lemma LargestAt(xs: seq<Request>) returns (i: nat)
    requires xs != []
    ensures i < |xs| && forall j :: 0 <= j < |xs| ==> xs[j].count <= xs[i].count
  {
    i := 0;
    for n := 1 to |xs|
      invariant i < n && forall j :: 0 <= j < n ==> xs[j].count <= xs[i].count
    {
      if xs[n].count > xs[i].count {
        i := n;
      }
    }
  }

  // Each arrival is meant to restart the wait: after it, its own timer is the
  // only one armed.
  ghost predicate Restarts(s: State) {
    forall r :: Next(s, Enqueue(r)).armed == {s.timers}
  }

  // No goroutine leaves while a timer is armed.
  ghost predicate CleanExits(actions: seq<Action>)
    requires Run(actions).Some?
  {
    forall n {:trigger actions[n]} :: 0 <= n < |actions| && actions[n].Exit? ==>
      Run(actions[..n]).Some? && Run(actions[..n]).value.armed == {}
  }

  lemma {:induction false} PrefixRuns(actions: seq<Action>, n: nat)
    requires Run(actions).Some? && n <= |actions|
    ensures Run(actions[..n]).Some?
    decreases |actions|
  {
    if n < |actions| {
      PrefixRuns(actions[..|actions| - 1], n);
      assert actions[..|actions| - 1][..n] == actions[..n];
    } else {
      assert actions[..n] == actions;
    }
  }

  // A goroutine that leaves forgets the current timer even when it is armed.
  // So an arrival restarts the wait all along a run exactly when no goroutine
  // left with a timer armed; otherwise a stale timer may cut the wait short.
  lemma {:induction false} RestartsExactlyIfCleanExits(actions: seq<Action>)
    requires Run(actions).Some?
    ensures CleanExits(actions) <==>
      forall n :: 0 <= n <= |actions| ==> Run(actions[..n]).Some? && Restarts(Run(actions[..n]).value)
  {
    forall n | 0 <= n <= |actions|
      ensures Run(actions[..n]).Some?
    {
      PrefixRuns(actions, n);
    }
    if CleanExits(actions) {
      forall n | 0 <= n <= |actions|
        ensures Restarts(Run(actions[..n]).value)
      {
        CleanKeepsTimer(actions, n);
      }
    } else {
      var n :| 0 <= n < |actions| && actions[n].Exit? && Run(actions[..n]).value.armed != {};
      UncleanExit(actions, n);
    }
  }

  // The timers armed are none but the one the queue refers to.
  ghost predicate TimerKept(s: State) {
    forall t :: t in s.armed ==> s.timer == Some(t)
  }

  lemma {:induction false} CleanKeepsTimer(actions: seq<Action>, n: nat)
    requires Run(actions).Some? && CleanExits(actions) && n <= |actions|
    ensures Run(actions[..n]).Some? && TimerKept(Run(actions[..n]).value)
  {
    PrefixRuns(actions, n);
    if n > 0 {
      CleanKeepsTimer(actions, n - 1);
      assert actions[..n][..n - 1] == actions[..n - 1];
      assert actions[..n][n - 1] == actions[n - 1];
    }
  }

  lemma UncleanExit(actions: seq<Action>, n: nat)
    requires n < |actions| && actions[n].Exit? && Run(actions[..n + 1]).Some?
    requires Run(actions[..n]).Some? && Run(actions[..n]).value.armed != {}
    ensures !Restarts(Run(actions[..n + 1]).value)
  {
    assert actions[..n + 1] == actions[..n] + [actions[n]];
    RunSnoc(actions[..n], actions[n]);
    ReachableInv(actions[..n]);
    ExitForgets(Run(actions[..n]).value, actions[n].goroutine);
  }

  lemma ExitForgets(s: State, g: nat)
    requires Numbered(s) && Enabled(s, Exit(g)) && s.armed != {}
    ensures !Restarts(Next(s, Exit(g)))
  {
    var t :| t in s.armed;
    var later := Next(Next(s, Exit(g)), Enqueue(Request(0, 0)));
    assert t in later.armed && t < s.timers;
  }
  // A run on which it happens: the second request arms timer 1 while goroutine 0
  // is in the drain loop, which serves that request and leaves with the timer
  // still armed. The next arrival then has two timers running.
  const FORGETFUL: seq<Action> :=
    [Enqueue(Request(0, 1)), Fire(0), Check(0), Drain(0, [Request(0, 1)]), Enqueue(Request(1, 1)), Deliver(0),
     Drain(0, [Request(1, 1)]), Deliver(0), Exit(0)]

  lemma Continue(n: nat, s: State) returns (t: State)
    requires n < |FORGETFUL| && Run(FORGETFUL[..n]) == Some(s) && Enabled(s, FORGETFUL[n])
    ensures Run(FORGETFUL[..n + 1]) == Some(t) && t == Next(s, FORGETFUL[n])
  {
    t := Next(s, FORGETFUL[n]);
    assert FORGETFUL[..n + 1] == FORGETFUL[..n] + [FORGETFUL[n]];
    RunSnoc(FORGETFUL[..n], FORGETFUL[n]);
  }

  // Up to the first timer
  lemma ForgetfulArrival() returns (s: State)
    ensures Run(FORGETFUL[..2]) == Some(s)
    ensures s.batch == [Request(0, 1)] && s.timer == Some(0) && s.armed == {} && s.timers == 1
    ensures s.starting == {0} && s.loops == map[] && !s.processing
  {
    assert FORGETFUL[..0] == [];
    s := Continue(0, EMPTY);
    s := Continue(1, s);
  }

  // Up to the drainer's start
  lemma ForgetfulCheck() returns (s: State)
    ensures Run(FORGETFUL[..3]) == Some(s)
    ensures s.batch == [Request(0, 1)] && s.timer == Some(0) && s.armed == {} && s.timers == 1
    ensures AtHead(s, 0)
  {
    var before := ForgetfulArrival();
    s := Continue(2, before);
  }

  // Up to the first drain
  lemma ForgetfulStart() returns (s: State)
    ensures Run(FORGETFUL[..4]) == Some(s)
    ensures s.batch == [] && s.timer == Some(0) && s.armed == {} && s.timers == 1
    ensures 0 in s.loops && s.loops[0] == [Request(0, 1)]
  {
    var before := ForgetfulCheck();
    assert before.batch == FORGETFUL[3].order;
    s := Continue(3, before);
  }

  // Up to the end of the first batch; the second request has come meanwhile
  lemma ForgetfulMiddle() returns (s: State)
    ensures Run(FORGETFUL[..6]) == Some(s)
    ensures s.batch == [Request(1, 1)] && s.armed == {1} && s.timers == 2 && AtHead(s, 0)
  {
    var before := ForgetfulStart();
    s := Continue(4, before);
    assert s.batch == [] + [Request(1, 1)] == [Request(1, 1)];
    assert s.loops == before.loops;
    s := Continue(5, s);
  }

  // Up to the second drain
  lemma ForgetfulDrain() returns (s: State)
    ensures Run(FORGETFUL[..7]) == Some(s)
    ensures s.batch == [] && s.armed == {1} && s.timers == 2
    ensures 0 in s.loops && s.loops[0] == [Request(1, 1)]
  {
    var before := ForgetfulMiddle();
    assert before.batch == FORGETFUL[6].order;
    s := Continue(6, before);
  }

  // Up to the last step
  lemma ForgetfulEnd() returns (s: State)
    ensures Run(FORGETFUL[..8]) == Some(s)
    ensures s.batch == [] && s.armed == {1} && s.timers == 2 && AtHead(s, 0)
  {
    var before := ForgetfulDrain();
    s := Continue(7, before);
  }

  lemma ForgottenTimer()
    ensures Run(FORGETFUL).Some? && !CleanExits(FORGETFUL)
    ensures var s := Run(FORGETFUL).value;
      s.armed == {1} && s.timer.None? && !Restarts(s) && Next(s, Enqueue(Request(2, 1))).armed == {1, 2}
  {
    var s := ForgetfulEnd();
    assert FORGETFUL[8].Exit? && Run(FORGETFUL[..8]).value.armed == {1};
    s := Continue(8, s);
    assert FORGETFUL[..9] == FORGETFUL;
    assert 1 in Next(s, Enqueue(Request(2, 1))).armed;
  }
}
