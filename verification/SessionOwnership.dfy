// Whose messages a session's connection handles when lookups and handling overlap: those of the
// session, all of them, and no others.
module SessionOwnership {
  import opened Prelude
  import opened Json
  import opened FixtureServer
  import opened LegacySessions
  import opened SessionRaces

  // ----- The session's own requests -----

  // Step `j` is the creating initialize at `i`, or a later lookup of `s` before its DELETE.
  predicate Own(steps: seq<Step>, i: nat, s: string, j: nat) {
    && i <= j < |steps| && steps[j].Begin? && Delivers(steps[j].req)
    && (j == i || (Consults(s, steps[j].req) && Undeleted(steps, i, s, j)))
  }

  predicate Undeleted(steps: seq<Step>, i: nat, s: string, n: nat)
    requires n <= |steps|
  {
    forall k :: i < k < n ==> !Deletes(steps[k], s)
  }

  // The message was sent as one of them.
  ghost predicate Sent(steps: seq<Step>, i: nat, s: string, post: nat, json: Json) {
    exists j: nat :: Own(steps, i, s, j) && steps[j].post == post && steps[j].req.body == Decoded(json)
  }

  // `i` mints `s`, and nothing after it does.
  predicate MintedOnce(steps: seq<Step>, i: nat, s: string) {
    i < |steps| && Mints(steps[i], s) && forall k :: i < k < |steps| ==> !Mints(steps[k], s)
  }

  // ----- What every step keeps -----

  // Only `s` leads to connection `r`, as long as it is not deleted.
  ghost predicate Leads(table: map<string, nat>, steps: seq<Step>, i: nat, s: string, r: nat) {
    && (forall t :: t in table && table[t] == r ==> t == s)
    && (s in table <==> Undeleted(steps, i, s, |steps|))
    && (s in table ==> table[s] == r)
  }

  ghost predicate FlightsOwned(flights: map<nat, Flight>, steps: seq<Step>, i: nat, s: string, r: nat) {
    forall p :: p in flights && flights[p].conn == r ==> Sent(steps, i, s, p, flights[p].json)
  }

  ghost predicate HandledOwned(handled: seq<Handling>, steps: seq<Step>, i: nat, s: string, r: nat) {
    forall k :: 0 <= k < |handled| && handled[k].conn == r ==> Sent(steps, i, s, handled[k].post, handled[k].json)
  }

  ghost predicate AllServed(w: World, steps: seq<Step>, i: nat, s: string, r: nat) {
    forall j: nat :: Own(steps, i, s, j) ==>
      InService(w, steps[j].post, r, steps[j].req.body.json)
  }

  lemma OwnGrows(front: seq<Step>, last: Step, i: nat, s: string, j: nat)
    requires j < |front|
    ensures Own(front + [last], i, s, j) <==> Own(front, i, s, j)
  {
    var steps := front + [last];
    assert forall k :: 0 <= k < |front| ==> steps[k] == front[k];
    if Own(steps, i, s, j) && j != i {
      assert forall k :: i < k < j ==> front[k] == steps[k];
    }
  }

  lemma SentGrows(front: seq<Step>, last: Step, i: nat, s: string, post: nat, json: Json)
    requires Sent(front, i, s, post, json)
    ensures Sent(front + [last], i, s, post, json)
  {
    var j: nat :| Own(front, i, s, j) && front[j].post == post && front[j].req.body == Decoded(json);
    OwnGrows(front, last, i, s, j);
    assert (front + [last])[j] == front[j];
  }

  lemma SentNow(front: seq<Step>, last: Step, i: nat, s: string)
    requires i < |front| && last.Begin? && Consults(s, last.req) && Undeleted(front, i, s, |front|)
    ensures Own(front + [last], i, s, |front|)
    ensures Sent(front + [last], i, s, last.post, last.req.body.json)
  {
    var steps := front + [last];
    assert steps[|front|] == last && forall k :: i < k < |front| ==> steps[k] == front[k];
  }

  lemma UndeletedGrows(front: seq<Step>, last: Step, i: nat, s: string)
    requires i < |front|
    ensures Undeleted(front + [last], i, s, |front| + 1) <==> Undeleted(front, i, s, |front|) && !Deletes(last, s)
  {
    var steps := front + [last];
    assert steps[|front|] == last && forall k :: 0 <= k < |front| ==> steps[k] == front[k];
  }

  // ----- One step -----

  lemma StartLeads(w: World, front: seq<Step>, post: nat, req: Request, i: nat, s: string, r: nat)
    requires i < |front| && Leads(w.table, front, i, s, r) && r < |w.conns| && !Mints(Begin(post, req), s)
    ensures Leads(Start(w, post, req).table, front + [Begin(post, req)], i, s, r)
  {
    UndeletedGrows(front, Begin(post, req), i, s);
    StartChangesTable(w, post, req, s);
  }

  // A request gets onto connection `r` only by looking `s` up.
  lemma StartOpens(w: World, post: nat, req: Request, s: string, r: nat)
    requires r < |w.conns| && (forall t :: t in w.table && w.table[t] == r ==> t == s)
    requires post in Start(w, post, req).flights && Start(w, post, req).flights[post].conn == r && post !in w.flights
    ensures Consults(s, req) && s in w.table && req.body == Decoded(Start(w, post, req).flights[post].json)
  {
  }

  lemma StartOwns(w: World, front: seq<Step>, post: nat, req: Request, i: nat, s: string, r: nat)
    requires i < |front| && r < |w.conns| && post !in w.flights
    requires Leads(w.table, front, i, s, r) && FlightsOwned(w.flights, front, i, s, r)
    ensures FlightsOwned(Start(w, post, req).flights, front + [Begin(post, req)], i, s, r)
  {
    var next := Start(w, post, req);
    forall p | p in next.flights && next.flights[p].conn == r
      ensures Sent(front + [Begin(post, req)], i, s, p, next.flights[p].json)
    {
      if p == post {
        StartOpens(w, post, req, s, r);
        SentNow(front, Begin(post, req), i, s);
      } else {
        StartKeepsPost(w, post, req, p);
        SentGrows(front, Begin(post, req), i, s, p, w.flights[p].json);
      }
    }
  }

  lemma HandledStaysOwned(handled: seq<Handling>, front: seq<Step>, last: Step, i: nat, s: string, r: nat)
    requires HandledOwned(handled, front, i, s, r)
    ensures HandledOwned(handled, front + [last], i, s, r)
  {
    forall k | 0 <= k < |handled| && handled[k].conn == r
      ensures Sent(front + [last], i, s, handled[k].post, handled[k].json)
    {
      SentGrows(front, last, i, s, handled[k].post, handled[k].json);
    }
  }

  lemma FlightsStayOwned(flights: map<nat, Flight>, front: seq<Step>, last: Step, i: nat, s: string, r: nat)
    requires FlightsOwned(flights, front, i, s, r)
    ensures FlightsOwned(flights, front + [last], i, s, r)
  {
    forall p | p in flights && flights[p].conn == r
      ensures Sent(front + [last], i, s, p, flights[p].json)
    {
      SentGrows(front, last, i, s, p, flights[p].json);
    }
  }

  lemma FinishOwns(handler: Handler, w: World, post: nat, steps: seq<Step>, i: nat, s: string, r: nat)
    requires post in w.flights && FlightsOwned(w.flights, steps, i, s, r) && HandledOwned(w.handled, steps, i, s, r)
    ensures var next := SessionRaces.Handled(handler, w, post, w.flights[post]);
            FlightsOwned(next.flights, steps, i, s, r) && HandledOwned(next.handled, steps, i, s, r)
  {
  }

  lemma StepServes(handler: Handler, w: World, front: seq<Step>, last: Step, i: nat, s: string, r: nat)
    requires i < |front| && Enabled(w, last) && Leads(w.table, front, i, s, r) && AllServed(w, front, i, s, r)
    ensures AllServed(Apply(handler, w, last), front + [last], i, s, r)
  {
    var steps, n := front + [last], |front|;
    forall j: nat | Own(steps, i, s, j)
      ensures InService(Apply(handler, w, last), steps[j].post, r, steps[j].req.body.json)
    {
      if j < n {
        OwnGrows(front, last, i, s, j);
        assert steps[j] == front[j];
        StepKeepsService(handler, w, last, front[j].post, r, front[j].req.body.json);
      } else {
        assert steps[j] == last && forall k :: i < k < n ==> front[k] == steps[k];
        ConsultingStart(w, last.post, last.req, s);
      }
    }
  }

  // ----- Runs -----

  ghost predicate Owns(w: World, steps: seq<Step>, i: nat, s: string, r: nat) {
    && r < |w.conns|
    && Leads(w.table, steps, i, s, r)
    && FlightsOwned(w.flights, steps, i, s, r)
    && HandledOwned(w.handled, steps, i, s, r)
    && AllServed(w, steps, i, s, r)
  }

  lemma MintOwns(w: World, front: seq<Step>, step: Step, s: string)
    requires WellFounded(w) && Enabled(w, step) && Mints(step, s)
    ensures Owns(Start(w, step.post, step.req), front + [step], |front|, s, |w.conns|)
  {
    var steps, i, r := front + [step], |front|, |w.conns|;
    var next := Start(w, step.post, step.req);
    assert steps[i] == step && Own(steps, i, s, i);
    assert Sent(steps, i, s, step.post, step.req.body.json);
    assert next.flights[step.post] == Flight(r, step.req.body.json, Some(s));
  }

  lemma StepOwns(handler: Handler, w: World, front: seq<Step>, last: Step, i: nat, s: string, r: nat)
    requires i < |front| && Enabled(w, last) && !Mints(last, s) && Owns(w, front, i, s, r)
    ensures Owns(Apply(handler, w, last), front + [last], i, s, r)
  {
    StepServes(handler, w, front, last, i, s, r);
    match last {
      case Begin(post, req) =>
        StartTouches(w, post, req);
        StartLeads(w, front, post, req, i, s, r);
        StartOwns(w, front, post, req, i, s, r);
        HandledStaysOwned(w.handled, front, last, i, s, r);
      case Finish(post) =>
        UndeletedGrows(front, last, i, s);
        FlightsStayOwned(w.flights, front, last, i, s, r);
        HandledStaysOwned(w.handled, front, last, i, s, r);
        FinishOwns(handler, w, post, front + [last], i, s, r);
    }
  }

  lemma MintedBefore(front: seq<Step>, last: Step, i: nat, s: string)
    requires MintedOnce(front + [last], i, s) && i < |front|
    ensures MintedOnce(front, i, s) && !Mints(last, s)
  {
    var steps := front + [last];
    assert steps[|front|] == last && forall k :: 0 <= k < |front| ==> steps[k] == front[k];
  }

  lemma {:induction false} RunOwns(handler: Handler, steps: seq<Step>, i: nat, s: string)
    requires Run(handler, steps).Some? && MintedOnce(steps, i, s)
    ensures Run(handler, steps[..i]).Some?
    ensures Owns(Run(handler, steps).value, steps, i, s, |Run(handler, steps[..i]).value.conns|)
    decreases |steps|
  {
    var front, last := steps[..|steps| - 1], steps[|steps| - 1];
    RunStep(handler, steps);
    var w := Run(handler, front).value;
    assert steps == front + [last];
    if i == |front| {
      EveryConnectionIsAlone(handler, front);
      MintOwns(w, front, last, s);
    } else {
      assert front[..i] == steps[..i];
      MintedBefore(front, last, i, s);
      RunOwns(handler, front, i, s);
      StepOwns(handler, w, front, last, i, s, |Run(handler, front[..i]).value.conns|);
    }
  }

  // ----- The session, from its creation on -----

  ghost predicate HandledOnce(w: World) {
    && (forall k :: 0 <= k < |w.handled| ==> w.handled[k].post in w.replies && w.handled[k].post !in w.flights)
    && (forall k, l :: 0 <= k < l < |w.handled| ==> w.handled[k].post != w.handled[l].post)
    && (forall p :: p in w.flights ==> p !in w.replies)
  }

  lemma StepHandlesOnce(handler: Handler, w: World, step: Step)
    requires HandledOnce(w) && Enabled(w, step)
    ensures HandledOnce(Apply(handler, w, step))
  {
    if step.Begin? {
      StartTouches(w, step.post, step.req);
    }
  }

  lemma {:induction false} EveryMessageIsHandledOnce(handler: Handler, steps: seq<Step>)
    requires Run(handler, steps).Some?
    ensures HandledOnce(Run(handler, steps).value)
    decreases |steps|
  {
    if steps != [] {
      RunStep(handler, steps);
      EveryMessageIsHandledOnce(handler, steps[..|steps| - 1]);
      StepHandlesOnce(handler, Run(handler, steps[..|steps| - 1]).value, steps[|steps| - 1]);
    }
  }

  // However POSTs and DELETEs overlap, a session minted at step `i` has one connection. What is
  // handled there is what the creating initialize and the later lookups of the session sent before
  // its DELETE, and nothing else; none of it is refused, lost or handled twice; and the answers
  // are those of a separate stdio connection fed these messages in handling order.
  lemma SessionIsItsOwnStdio(srv: Server, steps: seq<Step>, i: nat, s: string)
    requires !srv.mode.Modern? && Run(HandlerOf(srv), steps).Some? && MintedOnce(steps, i, s)
    ensures Run(HandlerOf(srv), steps[..i]).Some?
    ensures var w := Run(HandlerOf(srv), steps).value;
            var r := |Run(HandlerOf(srv), steps[..i]).value.conns|;
            var lines := Bodies(LinesOn(w.handled, r));
            && r < |w.conns|
            && HandledOwned(w.handled, steps, i, s, r) && FlightsOwned(w.flights, steps, i, s, r)
            && AllServed(w, steps, i, s, r) && HandledOnce(w)
            && w.conns[r] == StdioConn(srv, FRESH, lines)
            && AnswersOn(w.handled, r) == Stdio(srv, FRESH, lines)
  {
    RunOwns(HandlerOf(srv), steps, i, s);
    EveryMessageIsHandledOnce(HandlerOf(srv), steps);
    EveryConnectionFollowsStdio(srv, steps, |Run(HandlerOf(srv), steps[..i]).value.conns|);
  }
}
