// The bounded analytics queue: senders, flushers and one worker, as the steps they may take in any
// interleaving. The reducer is a parameter.
module AnalyticsQueue {
  import opened Prelude

  const QUEUE_SIZE := 256

  datatype Reducer<!R, !F, E> = Reducer(start: R, ingest: (R, F) -> (R, seq<E>), flush: R -> (R, seq<E>))

  datatype Message<F> = Fact(fact: F) | Flush(id: nat)

  // Where the worker stands with the message it took.
  datatype Worker<F, E> =
    | Waiting
    | Reducing(m: Message<F>)
    | Sending(m: Message<F>, events: seq<E>)
    | Signalling(id: nat)

  // The place a flush got in the queue and the facts accepted before it.
  datatype Barrier<F> = Barrier(place: nat, facts: seq<F>)

  // `reserved` holds the flushes that have a slot but are not queued yet. The fields from
  // `enqueued` on are history.
  datatype State<R, F, E> = State(
    queue: seq<Message<F>>,
    reserved: set<nat>,
    nextFlush: nat,
    worker: Worker<F, E>,
    reducer: R,
    handed: seq<E>,
    signalled: set<nat>,
    enqueued: seq<Message<F>>,
    processed: seq<Message<F>>,
    accepted: seq<F>,
    dropped: seq<F>,
    barriers: map<nat, Barrier<F>>)

  // A flusher may give up at any time; once its message is queued that changes nothing here.
  datatype Step<F> =
    | TrySend(fact: F)
    | Reserve
    | Push(id: nat)
    | Abandon(id: nat)
    | Receive
    | Reduce
    | Deliver
    | Signal

  function Start<R, F, E>(red: Reducer<R, F, E>): State<R, F, E> {
    State([], {}, 0, Waiting, red.start, [], {}, [], [], [], [], map[])
  }

  predicate HasRoom<R, F, E>(s: State<R, F, E>) {
    |s.queue| + |s.reserved| < QUEUE_SIZE
  }

  predicate Enabled<R, F, E>(s: State<R, F, E>, step: Step<F>) {
    match step
    case TrySend(_) => true
    case Reserve => HasRoom(s)
    case Push(id) => id in s.reserved
    case Abandon(id) => id in s.reserved
    case Receive => s.worker.Waiting? && s.queue != []
    case Reduce => s.worker.Reducing?
    case Deliver => s.worker.Sending?
    case Signal => s.worker.Signalling?
  }

  // What the reducer does with one message.
  function Work<R, F, E>(red: Reducer<R, F, E>, r: R, m: Message<F>): (R, seq<E>) {
    match m
    case Fact(fact) => red.ingest(r, fact)
    case Flush(_) => red.flush(r)
  }

  function Apply<R, F, E>(red: Reducer<R, F, E>, s: State<R, F, E>, step: Step<F>): State<R, F, E>
    requires Enabled(s, step)
  {
    match step
    case TrySend(fact) =>
      if HasRoom(s)
      then s.(queue := s.queue + [Fact(fact)], enqueued := s.enqueued + [Fact(fact)], accepted := s.accepted + [fact])
      else s.(dropped := s.dropped + [fact])
    case Reserve => s.(reserved := s.reserved + {s.nextFlush}, nextFlush := s.nextFlush + 1)
    case Push(id) =>
      s.(reserved := s.reserved - {id}, queue := s.queue + [Flush(id)],
         barriers := s.barriers[id := Barrier(|s.enqueued|, s.accepted)], enqueued := s.enqueued + [Flush(id)])
    case Abandon(id) => s.(reserved := s.reserved - {id})
    case Receive => s.(worker := Reducing(s.queue[0]), queue := s.queue[1..])
    case Reduce =>
      var (r, events) := Work(red, s.reducer, s.worker.m);
      s.(reducer := r, worker := Sending(s.worker.m, events), processed := s.processed + [s.worker.m])
    case Deliver =>
      s.(handed := s.handed + s.worker.events,
         worker := match s.worker.m case Fact(_) => Waiting case Flush(id) => Signalling(id))
    case Signal => s.(signalled := s.signalled + {s.worker.id}, worker := Waiting)
  }

  // The state after the steps, if each was possible when it was taken.
  function Run<R, F, E>(red: Reducer<R, F, E>, steps: seq<Step<F>>): Option<State<R, F, E>> {
    if steps == [] then Some(Start(red))
    else
      var n := |steps| - 1;
      match Run(red, steps[..n])
      case None => None
      case Some(s) => if Enabled(s, steps[n]) then Some(Apply(red, s, steps[n])) else None
  }

  // ----- What a list of messages does to a fresh reducer -----

  function Facts<F>(ms: seq<Message<F>>): seq<F> {
    if ms == [] then []
    else
      var n := |ms| - 1;
      Facts(ms[..n]) + match ms[n] case Fact(fact) => [fact] case Flush(_) => []
  }

  // A fresh reducer after it ingested every fact and flushed at every flush, in order.
  function Reduced<R, F, E>(red: Reducer<R, F, E>, ms: seq<Message<F>>): R {
    if ms == [] then red.start
    else
      var n := |ms| - 1;
      if ms[n].Fact? then red.ingest(Reduced(red, ms[..n]), ms[n].fact).0 else red.flush(Reduced(red, ms[..n])).0
  }

  // The events it gave on the way.
  function Emitted<R, F, E>(red: Reducer<R, F, E>, ms: seq<Message<F>>): seq<E> {
    if ms == [] then []
    else
      var n := |ms| - 1;
      Emitted(red, ms[..n]) +
      if ms[n].Fact? then red.ingest(Reduced(red, ms[..n]), ms[n].fact).1 else red.flush(Reduced(red, ms[..n])).1
  }

  lemma FactsGrow<F>(ms: seq<Message<F>>, m: Message<F>)
    ensures Facts(ms + [m]) == Facts(ms) + match m case Fact(fact) => [fact] case Flush(_) => []
  {
    assert (ms + [m])[..|ms|] == ms;
  }

  lemma WorkGrows<R, F, E>(red: Reducer<R, F, E>, ms: seq<Message<F>>, m: Message<F>)
    ensures Reduced(red, ms + [m]) == Work(red, Reduced(red, ms), m).0
    ensures Emitted(red, ms + [m]) == Emitted(red, ms) + Work(red, Reduced(red, ms), m).1
  {
    assert (ms + [m])[..|ms|] == ms;
  }

  lemma {:induction false} FactsJoin<F>(a: seq<Message<F>>, b: seq<Message<F>>)
    ensures Facts(a + b) == Facts(a) + Facts(b)
    decreases |b|
  {
    if b == [] {
      assert a + b == a;
    } else {
      var n := |b| - 1;
      assert (a + b)[..|a + b| - 1] == a + b[..n];
      FactsJoin(a, b[..n]);
    }
  }

  // ----- Invariants -----

  function InFlight<F, E>(w: Worker<F, E>): seq<Message<F>> {
    if w.Reducing? then [w.m] else []
  }

  function Pending<F, E>(w: Worker<F, E>): seq<E> {
    if w.Sending? then w.events else []
  }

  // The queue loses, doubles and reorders nothing, and stays within its size.
  ghost predicate Fifo<R, F, E>(s: State<R, F, E>) {
    && s.enqueued == s.processed + InFlight(s.worker) + s.queue
    && s.accepted == Facts(s.enqueued)
    && |s.queue| + |s.reserved| <= QUEUE_SIZE
  }

  // The reducer and the events handed to sending are what the processed messages make of them.
  ghost predicate Replayed<R, F, E>(red: Reducer<R, F, E>, s: State<R, F, E>) {
    && s.reducer == Reduced(red, s.processed)
    && s.handed + Pending(s.worker) == Emitted(red, s.processed)
  }

  ghost predicate IsAt<F>(enqueued: seq<Message<F>>, id: nat, b: Barrier<F>) {
    b.place < |enqueued| && enqueued[b.place] == Flush(id) && b.facts == Facts(enqueued[..b.place])
  }

  // Every flush in the queue has one place, known by its barrier.
  ghost predicate Places<F>(enqueued: seq<Message<F>>, barriers: map<nat, Barrier<F>>) {
    && (forall id :: id in barriers ==> IsAt(enqueued, id, barriers[id]))
    && (forall i :: 0 <= i < |enqueued| && enqueued[i].Flush? ==>
          enqueued[i].id in barriers && barriers[enqueued[i].id].place == i)
  }

  ghost predicate Placed<R, F, E>(s: State<R, F, E>) {
    && Places(s.enqueued, s.barriers)
    && (forall id :: id in s.barriers ==> id < s.nextFlush && id !in s.reserved)
    && (forall id :: id in s.reserved ==> id < s.nextFlush)
  }

  // The flush the worker is about to signal is the last message processed.
  ghost predicate AtBarrier<R, F, E>(s: State<R, F, E>) {
    && (s.worker.Sending? ==> s.processed != [] && s.processed[|s.processed| - 1] == s.worker.m)
    && (s.worker.Signalling? ==> s.processed != [] && s.processed[|s.processed| - 1] == Flush(s.worker.id))
  }

  // A signalled flush is behind the worker, and everything up to it was handed to sending.
  ghost predicate Flushed<R, F, E>(red: Reducer<R, F, E>, s: State<R, F, E>, id: nat) {
    && id in s.barriers
    && var place := s.barriers[id].place;
      && place < |s.processed| && s.processed[place] == Flush(id)
      && Facts(s.processed[..place]) == s.barriers[id].facts
      && Emitted(red, s.processed[..place + 1]) <= s.handed
  }

  ghost predicate Signals<R, F, E>(red: Reducer<R, F, E>, s: State<R, F, E>) {
    forall id :: id in s.signalled ==> Flushed(red, s, id)
  }

  ghost predicate Safe<R, F, E>(red: Reducer<R, F, E>, s: State<R, F, E>) {
    Fifo(s) && Replayed(red, s) && Placed(s) && AtBarrier(s) && Signals(red, s)
  }

  lemma AcceptedKept<R, F, E>(red: Reducer<R, F, E>, s: State<R, F, E>, step: Step<F>)
    requires s.accepted == Facts(s.enqueued) && Enabled(s, step)
    ensures var t := Apply(red, s, step); t.accepted == Facts(t.enqueued)
  {
    match step {
      case TrySend(fact) =>
        FactsGrow(s.enqueued, Fact(fact));
      case Push(id) =>
        FactsGrow(s.enqueued, Flush(id));
        assert Facts(s.enqueued) + [] == Facts(s.enqueued);
      case _ =>
    }
  }

  lemma OrderKept<R, F, E>(red: Reducer<R, F, E>, s: State<R, F, E>, step: Step<F>)
    requires s.enqueued == s.processed + InFlight(s.worker) + s.queue && Enabled(s, step)
    ensures var t := Apply(red, s, step); t.enqueued == t.processed + InFlight(t.worker) + t.queue
  {
  }

  lemma FifoKept<R, F, E>(red: Reducer<R, F, E>, s: State<R, F, E>, step: Step<F>)
    requires Fifo(s) && Enabled(s, step)
    ensures Fifo(Apply(red, s, step))
  {
    AcceptedKept(red, s, step);
    OrderKept(red, s, step);
  }

  lemma ReplayedKept<R, F, E>(red: Reducer<R, F, E>, s: State<R, F, E>, step: Step<F>)
    requires Replayed(red, s) && Enabled(s, step)
    ensures Replayed(red, Apply(red, s, step))
  {
    if step.Reduce? {
      WorkGrows(red, s.processed, s.worker.m);
      assert s.handed + [] == s.handed;
    }
  }

  lemma TakeOfPrefix<T>(a: seq<T>, b: seq<T>, n: nat)
    requires a <= b && n <= |a|
    ensures b[..n] == a[..n]
  {
  }

  lemma StillAt<F>(enqueued: seq<Message<F>>, m: Message<F>, id: nat, b: Barrier<F>)
    requires IsAt(enqueued, id, b)
    ensures IsAt(enqueued + [m], id, b)
  {
    TakeOfPrefix(enqueued, enqueued + [m], b.place);
  }

  lemma PlacesAfterFact<F>(enqueued: seq<Message<F>>, barriers: map<nat, Barrier<F>>, fact: F)
    requires Places(enqueued, barriers)
    ensures Places(enqueued + [Fact(fact)], barriers)
  {
    forall id | id in barriers
      ensures IsAt(enqueued + [Fact(fact)], id, barriers[id])
    {
      StillAt(enqueued, Fact(fact), id, barriers[id]);
    }
  }

  lemma NowAt<F>(enqueued: seq<Message<F>>, id: nat)
    ensures IsAt(enqueued + [Flush(id)], id, Barrier(|enqueued|, Facts(enqueued)))
  {
    assert (enqueued + [Flush(id)])[..|enqueued|] == enqueued;
  }

  lemma PlacesAfterFlush<F>(enqueued: seq<Message<F>>, barriers: map<nat, Barrier<F>>, id: nat)
    requires Places(enqueued, barriers) && id !in barriers
    ensures Places(enqueued + [Flush(id)], barriers[id := Barrier(|enqueued|, Facts(enqueued))])
  {
    var after := enqueued + [Flush(id)];
    var now := barriers[id := Barrier(|enqueued|, Facts(enqueued))];
    forall k | k in now
      ensures IsAt(after, k, now[k])
    {
      if k == id {
        NowAt(enqueued, id);
      } else {
        StillAt(enqueued, Flush(id), k, barriers[k]);
      }
    }
    forall i | 0 <= i < |after| && after[i].Flush?
      ensures after[i].id in now && now[after[i].id].place == i
    {
      if i < |enqueued| {
        assert after[i] == enqueued[i];
      }
    }
  }

  lemma PlacedKept<R, F, E>(red: Reducer<R, F, E>, s: State<R, F, E>, step: Step<F>)
    requires Fifo(s) && Placed(s) && Enabled(s, step)
    ensures Placed(Apply(red, s, step))
  {
    match step {
      case TrySend(fact) =>
        PlacesAfterFact(s.enqueued, s.barriers, fact);
      case Push(id) =>
        PlacesAfterFlush(s.enqueued, s.barriers, id);
      case _ =>
    }
  }

  lemma AtBarrierKept<R, F, E>(red: Reducer<R, F, E>, s: State<R, F, E>, step: Step<F>)
    requires AtBarrier(s) && Enabled(s, step)
    ensures AtBarrier(Apply(red, s, step))
  {
  }

  lemma HistoryGrows<R, F, E>(red: Reducer<R, F, E>, s: State<R, F, E>, step: Step<F>)
    requires Enabled(s, step)
    ensures var t := Apply(red, s, step); s.processed <= t.processed && s.handed <= t.handed
  {
  }

  lemma BarrierKept<R, F, E>(red: Reducer<R, F, E>, s: State<R, F, E>, step: Step<F>, id: nat)
    requires Placed(s) && Enabled(s, step) && id in s.barriers
    ensures var t := Apply(red, s, step); id in t.barriers && t.barriers[id] == s.barriers[id]
  {
  }

  lemma FlushedKept<R, F, E>(red: Reducer<R, F, E>, s: State<R, F, E>, step: Step<F>, id: nat)
    requires Flushed(red, s, id) && Placed(s) && Enabled(s, step)
    ensures Flushed(red, Apply(red, s, step), id)
  {
    var t := Apply(red, s, step);
    HistoryGrows(red, s, step);
    BarrierKept(red, s, step, id);
    var place := s.barriers[id].place;
    TakeOfPrefix(s.processed, t.processed, place);
    TakeOfPrefix(s.processed, t.processed, place + 1);
  }

  // The last message processed is the flush about to be signalled: its barrier is there.
  lemma BarrierReached<R, F, E>(s: State<R, F, E>, id: nat)
    requires Fifo(s) && Placed(s) && s.processed != [] && s.processed[|s.processed| - 1] == Flush(id)
    ensures id in s.barriers && s.barriers[id].place == |s.processed| - 1
    ensures Facts(s.processed[..|s.processed| - 1]) == s.barriers[id].facts
    ensures Facts(s.processed) == s.barriers[id].facts
  {
    var last := |s.processed| - 1;
    assert s.processed <= s.enqueued;
    assert s.enqueued[last] == s.processed[last];
    TakeOfPrefix(s.processed, s.enqueued, last);
  }

  // When the signal fires, nothing has been processed since the barrier.
  lemma SignalFlushes<R, F, E>(red: Reducer<R, F, E>, s: State<R, F, E>)
    requires Safe(red, s) && s.worker.Signalling?
    ensures s.worker.id in s.barriers
    ensures s.barriers[s.worker.id].place == |s.processed| - 1
    ensures Facts(s.processed) == s.barriers[s.worker.id].facts
    ensures Flushed(red, s, s.worker.id)
    ensures s.handed == Emitted(red, s.processed)
    ensures var front := s.processed[..|s.processed| - 1];
            && s.handed == Emitted(red, front) + red.flush(Reduced(red, front)).1
            && s.reducer == red.flush(Reduced(red, front)).0
  {
    BarrierReached(s, s.worker.id);
    assert s.processed[..|s.processed| - 1 + 1] == s.processed;
    assert s.handed + [] == s.handed;
  }

  lemma SignalsKept<R, F, E>(red: Reducer<R, F, E>, s: State<R, F, E>, step: Step<F>)
    requires Safe(red, s) && Enabled(s, step)
    ensures Signals(red, Apply(red, s, step))
  {
    var t := Apply(red, s, step);
    forall id | id in t.signalled
      ensures Flushed(red, t, id)
    {
      if id in s.signalled {
        FlushedKept(red, s, step, id);
      } else {
        SignalFlushes(red, s);
        FlushedKept(red, s, step, id);
      }
    }
  }

  lemma {:induction false} RunsAreSafe<R, F, E>(red: Reducer<R, F, E>, steps: seq<Step<F>>)
    requires Run(red, steps).Some?
    ensures Safe(red, Run(red, steps).value)
  {
    if steps != [] {
      var n := |steps| - 1;
      RunsAreSafe(red, steps[..n]);
      var s := Run(red, steps[..n]).value;
      FifoKept(red, s, steps[n]);
      ReplayedKept(red, s, steps[n]);
      PlacedKept(red, s, steps[n]);
      AtBarrierKept(red, s, steps[n]);
      SignalsKept(red, s, steps[n]);
    }
  }

  // ----- Main results -----

  // After any interleaving the accepted facts are those ingested, then the one the worker holds,
  // then those queued.
  lemma AcceptedFactsAreConserved<R, F, E>(red: Reducer<R, F, E>, steps: seq<Step<F>>)
    requires Run(red, steps).Some?
    ensures var s := Run(red, steps).value;
            && s.accepted == Facts(s.processed) + Facts(InFlight(s.worker)) + Facts(s.queue)
            && |s.queue| + |s.reserved| <= QUEUE_SIZE
            && s.reducer == Reduced(red, s.processed)
            && s.handed + Pending(s.worker) == Emitted(red, s.processed)
  {
    RunsAreSafe(red, steps);
    var s := Run(red, steps).value;
    FactsJoin(s.processed + InFlight(s.worker), s.queue);
    FactsJoin(s.processed, InFlight(s.worker));
  }

  // After any interleaving in which the signal of flush `id` fires last, the facts ingested are
  // exactly those accepted before its barrier, all their events were handed to sending, and last
  // came the events the reducer gave when it flushed.
  lemma SignalMeansFlushed<R, F, E>(red: Reducer<R, F, E>, steps: seq<Step<F>>)
    requires steps != [] && steps[|steps| - 1].Signal? && Run(red, steps).Some?
    ensures var before := Run(red, steps[..|steps| - 1]).value;
            var s := Run(red, steps).value;
            var id := before.worker.id;
            && id in s.signalled && id in s.barriers
            && Facts(s.processed) == s.barriers[id].facts
            && s.processed != [] && s.processed[|s.processed| - 1] == Flush(id)
            && var front := s.processed[..|s.processed| - 1];
               && s.handed == Emitted(red, front) + red.flush(Reduced(red, front)).1
               && s.reducer == red.flush(Reduced(red, front)).0
  {
    RunsAreSafe(red, steps[..|steps| - 1]);
    SignalFlushes(red, Run(red, steps[..|steps| - 1]).value);
  }

  lemma RunStep<R, F, E>(red: Reducer<R, F, E>, steps: seq<Step<F>>)
    requires steps != [] && Run(red, steps).Some?
    ensures var n := |steps| - 1;
            && Run(red, steps[..n]).Some?
            && Enabled(Run(red, steps[..n]).value, steps[n])
            && Run(red, steps).value == Apply(red, Run(red, steps[..n]).value, steps[n])
  {
  }

  // The barrier's facts are those accepted when the flush was queued, whatever came later.
  lemma {:induction false} BarrierHoldsWhatWasAccepted<R, F, E>(red: Reducer<R, F, E>, steps: seq<Step<F>>, n: nat, id: nat)
    requires n < |steps| && steps[n] == Push(id) && Run(red, steps).Some?
    ensures Run(red, steps[..n]).Some?
    ensures var s := Run(red, steps).value;
            id in s.barriers && s.barriers[id].facts == Run(red, steps[..n]).value.accepted
    decreases |steps|
  {
    var last := |steps| - 1;
    RunStep(red, steps);
    if n < last {
      var front := steps[..last];
      assert front[..n] == steps[..n] && front[n] == steps[n];
      BarrierHoldsWhatWasAccepted(red, front, n, id);
      RunsAreSafe(red, front);
      BarrierKept(red, Run(red, front).value, steps[last], id);
    }
  }

  // A flush that was signalled stays served: every fact accepted before it was ingested ahead of
  // it and all events up to it were handed over.
  lemma SignalledStaysFlushed<R, F, E>(red: Reducer<R, F, E>, steps: seq<Step<F>>, id: nat)
    requires Run(red, steps).Some? && id in Run(red, steps).value.signalled
    ensures Flushed(red, Run(red, steps).value, id)
  {
    RunsAreSafe(red, steps);
  }
}
