// The queue itself. Every section it runs
// under its lock is one step of the
// protocol, so its fields always show a
// state some interleaving reaches.
module Queue {
  import opened Basics
  import opened QueueSteps
  import Sorting

  class MutationQueue {
    var batch: seq<Request>
    var timer: Option<nat>
    var processing: bool

    // What the runtime keeps for the queue: timers that have been made, those
    // still armed, goroutines about to enter processBatch, and results sent.
    var timers: nat
    var armed: set<nat>
    var starting: set<nat>
    var answered: seq<Request>

    // The steps taken so far
    ghost var run: seq<Action>

    constructor ()
      ensures Valid() && run == []
    {
      batch, timer, processing := [], None, false;
      timers, armed, starting, answered := 0, {}, {}, [];
      run := [];
    }

    ghost predicate Valid()
      reads this
    {
      Run(run).Some? && Shows(Run(run).value)
    }

    ghost predicate Shows(s: State)
      reads this
    {
      && s.batch == batch && s.timer == timer && s.processing == processing
      && s.timers == timers && s.armed == armed && s.starting == starting && s.answered == answered
    }

    ghost function Now(): State
      requires Valid()
      reads this
    {
      Run(run).value
    }

    // The locked section of EnqueueFunc
    method EnqueueFunc(request: Request)
      requires Valid()
      modifies this
      ensures Valid() && run == old(run) + [Enqueue(request)]
    {
      batch := batch + [request];
      if timer.Some? {
        armed := armed - {timer.value};
      }
      armed := armed + {timers};
      timer := Some(timers);
      timers := timers + 1;
      RunSnoc(run, Enqueue(request));
      run := run + [Enqueue(request)];
    }

    // The runtime starts processBatch in a goroutine of its own.
    method TimerFires(t: nat)
      requires Valid() && t in armed
      modifies this
      ensures Valid() && run == old(run) + [Fire(t)]
    {
      armed := armed - {t};
      starting := starting + {t};
      RunSnoc(run, Fire(t));
      run := run + [Fire(t)];
    }

    // The locked section at the head of processBatch
    method Begin(g: nat) returns (mine: bool)
      requires Valid() && g in starting
      modifies this
      ensures Valid() && run == old(run) + [Check(g)]
      ensures mine == !old(processing)
    {
      RunSnoc(run, Check(g));
      run := run + [Check(g)];
      starting := starting - {g};
      if processing {
        return false;
      }
      processing := true;
      return true;
    }

    // The locked section of the drain loop, and the sort that follows it. No
    // result means that the goroutine leaves.
    method TakeBatch(g: nat) returns (order: seq<Request>)
      requires Valid() && AtHead(Now(), g)
      modifies this
      ensures Valid()
      ensures order == [] <==> old(batch) == []
      ensures run == old(run) + [if order == [] then Exit(g) else Drain(g, order)]
      ensures multiset(order) == multiset(old(batch)) && Descending(order)
    {
      if batch == [] {
        processing := false;
        timer := None;
        RunSnoc(run, Exit(g));
        run := run + [Exit(g)];
        return [];
      }
      order := Sorting.SortByKey(batch, (r: Request) => -r.count);
      Sorting.PermutationFacts(batch, order);
      RunSnoc(run, Drain(g, order));
      run := run + [Drain(g, order)];
      batch := [];
    }

    // Runs the mutation of a request and sends its result.
    method Serve(g: nat, request: Request)
      requires Valid() && g in Now().loops && Now().loops[g] != [] && Now().loops[g][0] == request
      modifies this
      ensures Valid() && run == old(run) + [Deliver(g)]
      ensures processing == old(processing) && batch == old(batch)
    {
      RunSnoc(run, Deliver(g));
      answered := answered + [request];
      run := run + [Deliver(g)];
    }

    // What other goroutines do while one is in the drain loop: requests
    // arrive, timers fire, and goroutines find the flag set and return. A wish
    // that is not possible is dropped.
    method Meanwhile(wishes: seq<Action>)
      requires Valid() && processing
      modifies this
      ensures Valid() && processing && old(run) <= run
      ensures Now().loops == old(Now().loops)
      ensures wishes == [] ==> batch == old(batch)
    {
      for i := 0 to |wishes|
        invariant Valid() && processing && old(run) <= run
        invariant Now().loops == old(Now().loops)
        invariant wishes == [] ==> batch == old(batch)
      {
        match wishes[i] {
          case Enqueue(request) => EnqueueFunc(request);
          case Fire(t) =>
            if t in armed {
              TimerFires(t);
            }
          case Check(h) =>
            if h in starting {
              var mine := Begin(h);
              assert !mine;
            }
          case Drain(_, _) =>
          case Exit(_) =>
          case Deliver(_) =>
        }
      }
    }

    // A point where others may act
    method Pause(others: seq<seq<Action>>) returns (left: seq<seq<Action>>)
      requires Valid() && processing
      modifies this
      ensures Valid() && processing && old(run) <= run
      ensures Now().loops == old(Now().loops)
      ensures |left| < |others| || (left == others && batch == old(batch))
    {
      left := others;
      if left != [] {
        Meanwhile(left[0]);
        left := left[1..];
      }
    }

    // One goroutine, from the check to its return, while others act in between;
    // others[0], others[1], ... is what they do at each point where they may.
    method ProcessBatch(g: nat, others: seq<seq<Action>>)
      requires Valid() && g in starting
      modifies this
      ensures Valid() && old(run) <= run
      ensures old(processing) ==> run == old(run) + [Check(g)]
      ensures !old(processing) ==> batch == [] && !processing && timer.None?
      ensures !old(processing) ==> multiset(answered) == multiset(Now().enqueued)
    {
      var mine := Begin(g);
      if !mine {
        return;
      }
      var left := others;
      while true
        invariant Valid() && old(run) <= run && processing
        invariant AtHead(Now(), g)
        decreases |left|, |batch|
      {
        left := Pause(left);
        var order := TakeBatch(g);
        if order == [] {
          break;
        }
        left := ServeAll(g, order, left);
      }
      Finished(run);
    }

    method ServeAll(g: nat, order: seq<Request>, others: seq<seq<Action>>) returns (left: seq<seq<Action>>)
      requires Valid() && processing && g in Now().loops && Now().loops[g] == order
      modifies this
      ensures Valid() && old(run) <= run && processing && AtHead(Now(), g)
      ensures |left| < |others| || (left == others && batch == old(batch))
    {
      left := others;
      for i := 0 to |order|
        invariant Valid() && old(run) <= run && processing
        invariant g in Now().loops && Now().loops[g] == order[i..]
        invariant |left| < |others| || (left == others && batch == old(batch))
      {
        Serve(g, order[i]);
        left := Pause(left);
      }
    }
  }

  // When the drain loop is left, everything that arrived has been answered.
  lemma Finished(actions: seq<Action>)
    requires Run(actions).Some? && actions != [] && actions[|actions| - 1].Exit?
    ensures multiset(Run(actions).value.answered) == multiset(Run(actions).value.enqueued)
  {
    ExactlyOnce(actions);
    var n := |actions| - 1;
    ReachableInv(actions[..n]);
    assert Run(actions).value.loops == map[];
  }
}
