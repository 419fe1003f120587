// The analytics queue takes what it has room for and gets through what it took.
module QueueProgress {
  import opened Prelude
  import opened AnalyticsQueue

  // ----- What a sender is told -----

  // After any run a fact gets the next place in the queue if and only if fewer than 256 slots are
  // queued or reserved; otherwise it is dropped and nothing else changes.
  lemma FactIsTakenIffRoom<R, F, E>(red: Reducer<R, F, E>, steps: seq<Step<F>>, fact: F)
    requires Run(red, steps).Some?
    ensures Run(red, steps + [TrySend(fact)]).Some?
    ensures var s, t := Run(red, steps).value, Run(red, steps + [TrySend(fact)]).value;
            if |s.queue| + |s.reserved| < 256
            then t == s.(queue := s.queue + [Fact(fact)], enqueued := s.enqueued + [Fact(fact)], accepted := s.accepted + [fact])
            else t == s.(dropped := s.dropped + [fact])
  {
    OneMore(red, steps, TrySend(fact));
  }

  lemma OneMore<R, F, E>(red: Reducer<R, F, E>, steps: seq<Step<F>>, step: Step<F>)
    requires Run(red, steps).Some?
    ensures Run(red, steps + [step]) ==
            if Enabled(Run(red, steps).value, step) then Some(Apply(red, Run(red, steps).value, step)) else None
  {
    assert (steps + [step])[..|steps|] == steps;
  }

  // A flush gets a slot under the same bound, and a flusher with a slot can always queue its
  // message behind everything accepted so far, or give the slot back.
  lemma FlushIsQueued<R, F, E>(red: Reducer<R, F, E>, steps: seq<Step<F>>, id: nat)
    requires Run(red, steps).Some?
    ensures var s := Run(red, steps).value;
            && (Run(red, steps + [Reserve]).Some? <==> |s.queue| + |s.reserved| < 256)
            && (Run(red, steps + [Push(id)]).Some? <==> id in s.reserved)
            && (Run(red, steps + [Abandon(id)]).Some? <==> id in s.reserved)
            && (id in s.reserved ==>
                  var t := Run(red, steps + [Push(id)]).value;
                  && t.queue == s.queue + [Flush(id)] && t.reserved == s.reserved - {id}
                  && id in t.barriers && t.barriers[id].facts == s.accepted)
            && (id in s.reserved ==> Run(red, steps + [Abandon(id)]).value == s.(reserved := s.reserved - {id}))
  {
    OneMore(red, steps, Reserve);
    OneMore(red, steps, Push(id));
    OneMore(red, steps, Abandon(id));
  }

  // The facts senders offered, in order.
  function Offered<F>(steps: seq<Step<F>>): seq<F> {
    if steps == [] then []
    else
      var n := |steps| - 1;
      Offered(steps[..n]) + if steps[n].TrySend? then [steps[n].fact] else []
  }

  // Every fact offered was accepted or dropped, and none was both.
  lemma {:induction false} OfferedFactsAreAccountedFor<R, F, E>(red: Reducer<R, F, E>, steps: seq<Step<F>>)
    requires Run(red, steps).Some?
    ensures var s := Run(red, steps).value; multiset(Offered(steps)) == multiset(s.accepted) + multiset(s.dropped)
  {
    if steps != [] {
      var n := |steps| - 1;
      RunStep(red, steps);
      OfferedFactsAreAccountedFor(red, steps[..n]);
    }
  }

  // ----- The worker always gets through the queue -----

  predicate IsWork<F>(step: Step<F>) {
    step.Receive? || step.Reduce? || step.Deliver? || step.Signal?
  }

  // A processed flush was signalled, or the worker is on its way to do so.
  ghost predicate Owed<R, F, E>(s: State<R, F, E>) {
    forall i :: 0 <= i < |s.processed| && s.processed[i].Flush? ==>
      || s.processed[i].id in s.signalled
      || (s.worker.Sending? && s.worker.m == s.processed[i])
      || (s.worker.Signalling? && s.worker.id == s.processed[i].id)
  }

  lemma OwedKept<R, F, E>(red: Reducer<R, F, E>, s: State<R, F, E>, step: Step<F>)
    requires Owed(s) && Enabled(s, step)
    ensures Owed(Apply(red, s, step))
  {
    var t := Apply(red, s, step);
    if step.Reduce? {
      assert forall i :: 0 <= i < |s.processed| ==> t.processed[i] == s.processed[i];
    }
  }

  lemma {:induction false} RunsOwe<R, F, E>(red: Reducer<R, F, E>, steps: seq<Step<F>>)
    requires Run(red, steps).Some?
    ensures Owed(Run(red, steps).value)
  {
    if steps != [] {
      var n := |steps| - 1;
      RunsOwe(red, steps[..n]);
      OwedKept(red, Run(red, steps[..n]).value, steps[n]);
    }
  }

  // How many steps of the worker are left.
  function Left<R, F, E>(s: State<R, F, E>): nat {
    4 * |s.queue| + match s.worker case Waiting => 0 case Reducing(_) => 3 case Sending(_, _) => 2 case Signalling(_) => 1
  }

  function NextWork<R, F, E>(s: State<R, F, E>): Step<F> {
    match s.worker
    case Waiting => Receive
    case Reducing(_) => Reduce
    case Sending(_, _) => Deliver
    case Signalling(_) => Signal
  }

  lemma WorkProgresses<R, F, E>(red: Reducer<R, F, E>, s: State<R, F, E>)
    requires Left(s) > 0
    ensures Enabled(s, NextWork(s))
    ensures var t := Apply(red, s, NextWork(s));
            Left(t) < Left(s) && t.accepted == s.accepted && t.barriers == s.barriers && t.reserved == s.reserved
  {}

  // After any run the worker alone can finish: every accepted fact is ingested in the order it was
  // accepted, everything emitted is handed over, and every queued flush is signalled.
  lemma {:induction false} TheQueueDrains<R, F, E>(red: Reducer<R, F, E>, steps: seq<Step<F>>) returns (more: seq<Step<F>>)
    requires Run(red, steps).Some?
    ensures forall i :: 0 <= i < |more| ==> IsWork(more[i])
    ensures |more| <= Left(Run(red, steps).value)
    ensures Run(red, steps + more).Some?
    ensures var s, t := Run(red, steps).value, Run(red, steps + more).value;
            && t.queue == [] && t.worker == Waiting
            && t.accepted == s.accepted && Facts(t.processed) == s.accepted
            && t.handed == Emitted(red, t.processed)
            && t.barriers == s.barriers && forall id :: id in s.barriers ==> id in t.signalled
    decreases Left(Run(red, steps).value)
  {
    var s := Run(red, steps).value;
    if Left(s) == 0 {
      more := [];
      assert steps + more == steps;
      IdleIsDone(red, steps);
    } else {
      var step := NextWork(s);
      WorkProgresses(red, s);
      OneMore(red, steps, step);
      var rest := TheQueueDrains(red, steps + [step]);
      more := [step] + rest;
      assert steps + more == steps + [step] + rest;
    }
  }

  lemma IdleIsDone<R, F, E>(red: Reducer<R, F, E>, steps: seq<Step<F>>)
    requires Run(red, steps).Some? && Left(Run(red, steps).value) == 0
    ensures var s := Run(red, steps).value;
            && Facts(s.processed) == s.accepted && s.handed == Emitted(red, s.processed)
            && forall id :: id in s.barriers ==> id in s.signalled
  {
    RunsAreSafe(red, steps);
    RunsOwe(red, steps);
    var s := Run(red, steps).value;
    assert s.enqueued == s.processed;
    assert s.handed + [] == s.handed;
    forall id | id in s.barriers
      ensures id in s.signalled
    {
      assert IsAt(s.enqueued, id, s.barriers[id]);
    }
  }
}
