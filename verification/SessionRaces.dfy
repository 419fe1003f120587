// Legacy POSTs as threads run them: the session is looked up under the lock, and the message is
// handled later, when other requests may have come in between.
module SessionRaces {
  import opened Prelude
  import opened Json
  import opened FixtureServer
  import opened LegacySessions

  // A message that has its connection and waits to be handled.
  datatype Flight = Flight(conn: nat, json: Json, session: Option<string>)

  datatype Handling = Handling(post: nat, conn: nat, json: Json, messages: seq<Outgoing>)

  // Connections are never freed: a deleted session's stays with the threads that hold it.
  // `handled` is history.
  datatype World = World(
    table: map<string, nat>,
    conns: seq<Conn>,
    flights: map<nat, Flight>,
    replies: map<nat, HttpReply>,
    handled: seq<Handling>)

  // Requests are numbered by `post`.
  datatype Step = Begin(post: nat, req: Request) | Finish(post: nat)

  const EMPTY := World(map[], [], map[], map[], [])

  predicate Enabled(w: World, step: Step) {
    match step
    case Begin(post, _) => post !in w.flights && post !in w.replies
    case Finish(post) => post in w.flights
  }

  function ConnAt(conns: seq<Conn>, r: nat): Conn {
    if r < |conns| then conns[r] else FRESH
  }

  function Open(w: World, post: nat, conn: nat, json: Json, session: Option<string>): World {
    w.(flights := w.flights[post := Flight(conn, json, session)])
  }

  function Reply(w: World, post: nat, reply: HttpReply): World {
    w.(replies := w.replies[post := reply])
  }

  // What happens under the lock, with everything before it.
  function Start(w: World, post: nat, req: Request): World {
    if req.Delete? then Reply(w.(table := Without(w.table, req)), post, DeleteReply(w.table, req))
    else if !Delivers(req) then Reply(w, post, Refusal(req))
    else
      var json, rpc := req.body.json, Get(req.body.json.fields, "method");
      if rpc == Str("initialize") then
        Open(w.(table := w.table[req.freshId := |w.conns|], conns := w.conns + [FRESH]),
             post, |w.conns|, json, Some(req.freshId))
      else if rpc == Str("server/discover") then
        Open(w.(conns := w.conns + [FRESH]), post, |w.conns|, json, None)
      else if req.session.None? || req.session.value !in w.table then Reply(w, post, UnknownSession(json))
      else Open(w, post, w.table[req.session.value], json, req.session)
  }

  predicate Names(table: map<string, nat>, req: Request)
    requires req.Delete?
  {
    req.atEndpoint && req.session.Some? && req.session.value in table
  }

  function Without(table: map<string, nat>, req: Request): map<string, nat>
    requires req.Delete?
  {
    if Names(table, req) then table - {req.session.value} else table
  }

  function DeleteReply(table: map<string, nat>, req: Request): HttpReply
    requires req.Delete?
  {
    HttpReply(if !req.atEndpoint then 405 else if Names(table, req) then OK else NOT_FOUND, [], None)
  }

  // How one message is handled on a connection.
  type Handler = (Json, Conn) -> (Conn, Plan)

  function Handled(handler: Handler, w: World, post: nat, f: Flight): World {
    var (conn, plan) := handler(f.json, ConnAt(w.conns, f.conn));
    var reply := RenderPlan(plan, f.session);
    World(
      w.table,
      if f.conn < |w.conns| then w.conns[f.conn := conn] else w.conns,
      w.flights - {post},
      w.replies[post := reply],
      w.handled + [Handling(post, f.conn, f.json, reply.messages)])
  }

  function Apply(handler: Handler, w: World, step: Step): World
    requires Enabled(w, step)
  {
    match step
    case Begin(post, req) => Start(w, post, req)
    case Finish(post) => Handled(handler, w, post, w.flights[post])
  }

  function Run(handler: Handler, steps: seq<Step>): Option<World> {
    if steps == [] then Some(EMPTY)
    else
      var n := |steps| - 1;
      match Run(handler, steps[..n])
      case None => None
      case Some(w) => if Enabled(w, steps[n]) then Some(Apply(handler, w, steps[n])) else None
  }

  // ----- Handling order is stdio order -----

  // The messages handled on a connection, in handling order.
  function LinesOn(handled: seq<Handling>, r: nat): seq<Json> {
    if handled == [] then []
    else
      var n := |handled| - 1;
      LinesOn(handled[..n], r) + if handled[n].conn == r then [handled[n].json] else []
  }

  function AnswersOn(handled: seq<Handling>, r: nat): seq<seq<Outgoing>> {
    if handled == [] then []
    else
      var n := |handled| - 1;
      AnswersOn(handled[..n], r) + if handled[n].conn == r then [handled[n].messages] else []
  }

  // A connection of its own, fed messages one after the other.
  function Fed(handler: Handler, lines: seq<Json>): Conn {
    if lines == [] then FRESH
    else handler(lines[|lines| - 1], Fed(handler, lines[..|lines| - 1])).0
  }

  function Told(handler: Handler, lines: seq<Json>): seq<seq<Outgoing>> {
    if lines == [] then []
    else
      var n := |lines| - 1;
      Told(handler, lines[..n]) + [RenderPlan(handler(lines[n], Fed(handler, lines[..n])).1, None).messages]
  }

  // Every session has a connection of its own.
  ghost predicate Tabled(table: map<string, nat>, n: nat) {
    && (forall s :: s in table ==> table[s] < n)
    && (forall s, t :: s in table && t in table && table[s] == table[t] ==> s == t)
  }

  ghost predicate Flying(flights: map<nat, Flight>, n: nat) {
    forall p :: p in flights ==> flights[p].conn < n
  }

  ghost predicate WellFounded(w: World) {
    && Tabled(w.table, |w.conns|) && Flying(w.flights, |w.conns|)
    && (forall k :: 0 <= k < |w.handled| ==> w.handled[k].conn < |w.conns|)
  }

  ghost predicate Alone(handler: Handler, conn: Conn, handled: seq<Handling>, r: nat) {
    && conn == Fed(handler, LinesOn(handled, r))
    && AnswersOn(handled, r) == Told(handler, LinesOn(handled, r))
  }

  // Each connection stands where one fed only its own messages would stand, and has answered
  // them alike.
  ghost predicate AllAlone(handler: Handler, w: World) {
    forall r :: 0 <= r < |w.conns| ==> Alone(handler, w.conns[r], w.handled, r)
  }

  lemma {:induction false} NothingHandledYet(handled: seq<Handling>, r: nat)
    requires forall k :: 0 <= k < |handled| ==> handled[k].conn < r
    ensures LinesOn(handled, r) == [] && AnswersOn(handled, r) == []
    decreases |handled|
  {
    if handled != [] {
      NothingHandledYet(handled[..|handled| - 1], r);
    }
  }

  lemma HandledGrows(handled: seq<Handling>, h: Handling, r: nat)
    ensures LinesOn(handled + [h], r) == LinesOn(handled, r) + if h.conn == r then [h.json] else []
    ensures AnswersOn(handled + [h], r) == AnswersOn(handled, r) + if h.conn == r then [h.messages] else []
  {
    assert (handled + [h])[..|handled|] == handled;
  }

  lemma FedGrows(handler: Handler, lines: seq<Json>, line: Json)
    ensures Fed(handler, lines + [line]) == handler(line, Fed(handler, lines)).0
    ensures Told(handler, lines + [line]) ==
            Told(handler, lines) + [RenderPlan(handler(line, Fed(handler, lines)).1, None).messages]
  {
    assert (lines + [line])[..|lines|] == lines;
  }

  // Everything but the handling itself leaves the connections alone or adds a fresh one.
  lemma StartTouches(w: World, post: nat, req: Request)
    ensures var next := Start(w, post, req);
            next.handled == w.handled && (next.conns == w.conns || next.conns == w.conns + [FRESH])
  {
  }

  lemma StartKeepsAlone(handler: Handler, w: World, next: World)
    requires WellFounded(w) && AllAlone(handler, w)
    requires next.handled == w.handled && (next.conns == w.conns || next.conns == w.conns + [FRESH])
    ensures AllAlone(handler, next)
  {
    NothingHandledYet(w.handled, |w.conns|);
    forall r | 0 <= r < |next.conns|
      ensures Alone(handler, next.conns[r], next.handled, r)
    {
      if r < |w.conns| {
        assert Alone(handler, w.conns[r], w.handled, r);
      }
    }
  }

  lemma MintKeepsTabled(table: map<string, nat>, n: nat, s: string)
    requires Tabled(table, n)
    ensures Tabled(table[s := n], n + 1) && Tabled(table, n + 1)
  {
  }

  lemma OpenKeepsFlying(flights: map<nat, Flight>, n: nat, m: nat, post: nat, f: Flight)
    requires Flying(flights, n) && n <= m && f.conn < m
    ensures Flying(flights[post := f], m)
  {
  }

  lemma DropKeepsTabled(table: map<string, nat>, n: nat, req: Request)
    requires Tabled(table, n) && req.Delete?
    ensures Tabled(Without(table, req), n)
  {
  }

  lemma StartKeepsFounded(w: World, post: nat, req: Request)
    requires WellFounded(w)
    ensures WellFounded(Start(w, post, req))
  {
    var n := |w.conns|;
    if req.Delete? {
      DropKeepsTabled(w.table, n, req);
    } else if Delivers(req) {
      var json := req.body.json;
      MintKeepsTabled(w.table, n, req.freshId);
      OpenKeepsFlying(w.flights, n, n + 1, post, Flight(n, json, Some(req.freshId)));
      OpenKeepsFlying(w.flights, n, n + 1, post, Flight(n, json, None));
      if req.session.Some? && req.session.value in w.table {
        OpenKeepsFlying(w.flights, n, n, post, Flight(w.table[req.session.value], json, req.session));
      }
    }
  }

  lemma StartKeeps(handler: Handler, w: World, post: nat, req: Request)
    requires WellFounded(w) && AllAlone(handler, w)
    ensures WellFounded(Start(w, post, req)) && AllAlone(handler, Start(w, post, req))
  {
    StartTouches(w, post, req);
    StartKeepsFounded(w, post, req);
    StartKeepsAlone(handler, w, Start(w, post, req));
  }

  lemma HandledKeepsOne(handler: Handler, conn: Conn, handled: seq<Handling>, post: nat, f: Flight)
    requires Alone(handler, conn, handled, f.conn)
    ensures var (next, plan) := handler(f.json, conn);
            Alone(handler, next, handled + [Handling(post, f.conn, f.json, RenderPlan(plan, f.session).messages)], f.conn)
  {
    var h := Handling(post, f.conn, f.json, RenderPlan(handler(f.json, conn).1, f.session).messages);
    HandledGrows(handled, h, f.conn);
    FedGrows(handler, LinesOn(handled, f.conn), f.json);
  }

  lemma HandledKeepsOther(handler: Handler, conn: Conn, handled: seq<Handling>, h: Handling, r: nat)
    requires Alone(handler, conn, handled, r) && h.conn != r
    ensures Alone(handler, conn, handled + [h], r)
  {
    HandledGrows(handled, h, r);
    assert LinesOn(handled, r) + [] == LinesOn(handled, r) && AnswersOn(handled, r) + [] == AnswersOn(handled, r);
  }

  lemma HandledKeeps(handler: Handler, w: World, post: nat)
    requires WellFounded(w) && AllAlone(handler, w) && post in w.flights
    ensures var next := Handled(handler, w, post, w.flights[post]); WellFounded(next) && AllAlone(handler, next)
  {
    var f := w.flights[post];
    var next := Handled(handler, w, post, f);
    var h := next.handled[|w.handled|];
    forall r | 0 <= r < |next.conns|
      ensures Alone(handler, next.conns[r], next.handled, r)
    {
      if r == f.conn {
        HandledKeepsOne(handler, w.conns[r], w.handled, post, f);
      } else {
        HandledKeepsOther(handler, w.conns[r], w.handled, h, r);
      }
    }
  }

  lemma {:induction false} EveryConnectionIsAlone(handler: Handler, steps: seq<Step>)
    requires Run(handler, steps).Some?
    ensures WellFounded(Run(handler, steps).value) && AllAlone(handler, Run(handler, steps).value)
    decreases |steps|
  {
    if steps != [] {
      var n := |steps| - 1;
      EveryConnectionIsAlone(handler, steps[..n]);
      var w := Run(handler, steps[..n]).value;
      match steps[n] {
        case Begin(post, req) => StartKeeps(handler, w, post, req);
        case Finish(post) => HandledKeeps(handler, w, post);
      }
    }
  }

  // ----- The server's own handler -----

  function HandlerOf(srv: Server): Handler {
    (json, conn) => Handle(srv, json, conn)
  }

  function Bodies(lines: seq<Json>): seq<Body> {
    seq(|lines|, i requires 0 <= i < |lines| => Decoded(lines[i]))
  }

  lemma {:induction false} StdioGrows(srv: Server, conn: Conn, lines: seq<Body>, line: Body)
    ensures Stdio(srv, conn, lines + [line]) ==
            Stdio(srv, conn, lines) + [StdioLine(srv, StdioConn(srv, conn, lines), line).1]
    decreases |lines|
  {
    if lines == [] {
      var one := lines + [line];
      assert one[0] == line && one[1..] == [];
      assert Stdio(srv, StdioLine(srv, conn, line).0, one[1..]) == [];
    } else {
      assert (lines + [line])[0] == lines[0] && (lines + [line])[1..] == lines[1..] + [line];
      StdioGrows(srv, StdioLine(srv, conn, lines[0]).0, lines[1..], line);
    }
  }

  lemma StdioConnGrows(srv: Server, conn: Conn, lines: seq<Body>, line: Body)
    ensures StdioConn(srv, conn, lines + [line]) == StdioLine(srv, StdioConn(srv, conn, lines), line).0
  {
    StdioConnOfConcat(srv, conn, lines, [line]);
    var one := [line];
    assert one[1..] == [];
  }

  // What HTTP writes for a message is what stdio writes.
  lemma RenderedAsOnStdio(srv: Server, json: Json, conn: Conn)
    ensures HandlerOf(srv)(json, conn).0 == StdioLine(srv, conn, Decoded(json)).0
    ensures RenderPlan(HandlerOf(srv)(json, conn).1, None).messages == StdioLine(srv, conn, Decoded(json)).1
  {
    assert Streams(Handle(srv, json, conn).1);
  }

  lemma BodiesGrow(front: seq<Json>, last: Json)
    ensures Bodies(front + [last]) == Bodies(front) + [Decoded(last)]
  {
  }

  lemma {:induction false} FedIsStdio(srv: Server, lines: seq<Json>)
    ensures Fed(HandlerOf(srv), lines) == StdioConn(srv, FRESH, Bodies(lines))
    ensures Told(HandlerOf(srv), lines) == Stdio(srv, FRESH, Bodies(lines))
    decreases |lines|
  {
    if lines != [] {
      var front, last := lines[..|lines| - 1], lines[|lines| - 1];
      assert lines == front + [last];
      FedIsStdio(srv, front);
      FedGrows(HandlerOf(srv), front, last);
      BodiesGrow(front, last);
      StdioGrows(srv, FRESH, Bodies(front), Decoded(last));
      StdioConnGrows(srv, FRESH, Bodies(front), Decoded(last));
      RenderedAsOnStdio(srv, last, StdioConn(srv, FRESH, Bodies(front)));
    }
  }

  // However POSTs and DELETEs overlap, every connection answers as a separate stdio connection fed
  // its messages in the order they are handled, and every session has a connection of its own.
  lemma EveryConnectionFollowsStdio(srv: Server, steps: seq<Step>, r: nat)
    requires !srv.mode.Modern? && Run(HandlerOf(srv), steps).Some? && r < |Run(HandlerOf(srv), steps).value.conns|
    ensures var w := Run(HandlerOf(srv), steps).value;
            var lines := Bodies(LinesOn(w.handled, r));
            && Tabled(w.table, |w.conns|)
            && w.conns[r] == StdioConn(srv, FRESH, lines)
            && AnswersOn(w.handled, r) == Stdio(srv, FRESH, lines)
  {
    EveryConnectionIsAlone(HandlerOf(srv), steps);
    var w := Run(HandlerOf(srv), steps).value;
    assert Alone(HandlerOf(srv), w.conns[r], w.handled, r);
    FedIsStdio(srv, LinesOn(w.handled, r));
  }

  // So a result still needs the handshake among the messages handled before on that connection.
  lemma ResultsNeedTheHandshake(srv: Server, steps: seq<Step>, r: nat, k: nat)
    requires !srv.mode.Modern?
    requires Run(HandlerOf(srv), steps).Some? && r < |Run(HandlerOf(srv), steps).value.conns|
    requires var lines := Bodies(LinesOn(Run(HandlerOf(srv), steps).value.handled, r));
             k < |lines| && !Initializes(lines[k])
    ensures var w := Run(HandlerOf(srv), steps).value;
            && k < |AnswersOn(w.handled, r)|
            && (HasResult(AnswersOn(w.handled, r)[k]) ==> ShookHands(Bodies(LinesOn(w.handled, r))[..k]))
  {
    EveryConnectionFollowsStdio(srv, steps, r);
    NoResultBeforeHandshake(srv, Bodies(LinesOn(Run(HandlerOf(srv), steps).value.handled, r)), k);
  }

  // ----- Which messages a DELETE refuses -----

  predicate Mints(step: Step, s: string) {
    step.Begin? && Admitted(step.req) && Initializes(step.req.body) && step.req.freshId == s
  }

  predicate Deletes(step: Step, s: string) {
    step.Begin? && Ends(s, step.req)
  }

  // Minted, and not deleted since.
  ghost predicate Live(steps: seq<Step>, s: string) {
    exists j :: 0 <= j < |steps| && Mints(steps[j], s) && forall k :: j < k < |steps| ==> !Deletes(steps[k], s)
  }

  lemma LiveGrows(front: seq<Step>, last: Step, s: string)
    ensures Live(front + [last], s) <==> Mints(last, s) || (Live(front, s) && !Deletes(last, s))
  {
    var steps, n := front + [last], |front|;
    assert steps[n] == last && forall i :: 0 <= i < n ==> steps[i] == front[i];
    if Live(front, s) && !Deletes(last, s) {
      var j :| 0 <= j < n && Mints(front[j], s) && forall k :: j < k < n ==> !Deletes(front[k], s);
      assert Mints(steps[j], s);
    }
    if Live(steps, s) && !Mints(last, s) {
      var j :| 0 <= j < |steps| && Mints(steps[j], s) && forall k :: j < k < |steps| ==> !Deletes(steps[k], s);
      assert Mints(front[j], s) && !Deletes(steps[n], s);
    }
  }

  lemma StartChangesTable(w: World, post: nat, req: Request, s: string)
    ensures var step := Begin(post, req);
            s in Start(w, post, req).table <==> Mints(step, s) || (s in w.table && !Deletes(step, s))
  {
  }

  // A session is in the table exactly while it is live.
  lemma {:induction false} TableHoldsTheLive(handler: Handler, steps: seq<Step>, s: string)
    requires Run(handler, steps).Some?
    ensures s in Run(handler, steps).value.table <==> Live(steps, s)
    decreases |steps|
  {
    if steps != [] {
      var front, last := steps[..|steps| - 1], steps[|steps| - 1];
      assert steps == front + [last];
      TableHoldsTheLive(handler, front, s);
      LiveGrows(front, last, s);
      if last.Begin? {
        StartChangesTable(Run(handler, front).value, last.post, last.req, s);
      }
    }
  }

  // The message of `post` is on connection `r`: still to be handled, or handled there and answered.
  ghost predicate InService(w: World, post: nat, r: nat, json: Json) {
    || (post in w.flights && post !in w.replies && w.flights[post].conn == r && w.flights[post].json == json)
    || (post in w.replies && post !in w.flights &&
        exists k :: 0 <= k < |w.handled| && w.handled[k] == Handling(post, r, json, w.replies[post].messages))
  }

  lemma StartKeepsPost(w: World, post: nat, req: Request, p: nat)
    requires p != post
    ensures var next := Start(w, post, req);
            && (p in next.flights <==> p in w.flights) && (p in next.replies <==> p in w.replies)
            && (p in w.flights ==> next.flights[p] == w.flights[p])
            && (p in w.replies ==> next.replies[p] == w.replies[p])
  {
  }

  lemma FinishServes(handler: Handler, w: World, post: nat)
    requires post in w.flights && post !in w.replies
    ensures InService(Handled(handler, w, post, w.flights[post]), post, w.flights[post].conn, w.flights[post].json)
  {
    var next := Handled(handler, w, post, w.flights[post]);
    assert next.handled[|w.handled|].post == post;
  }

  lemma StepKeepsService(handler: Handler, w: World, step: Step, post: nat, r: nat, json: Json)
    requires InService(w, post, r, json) && Enabled(w, step)
    ensures InService(Apply(handler, w, step), post, r, json)
  {
    var next := Apply(handler, w, step);
    if step == Finish(post) {
      FinishServes(handler, w, post);
    } else {
      if step.Begin? {
        StartKeepsPost(w, step.post, step.req, post);
        StartTouches(w, step.post, step.req);
      }
      if post in w.replies {
        var k :| 0 <= k < |w.handled| && w.handled[k] == Handling(post, r, json, w.replies[post].messages);
        assert next.handled[k] == w.handled[k];
      }
    }
  }

  lemma StepKeepsReply(handler: Handler, w: World, step: Step, post: nat)
    requires post in w.replies && post !in w.flights && Enabled(w, step)
    ensures var next := Apply(handler, w, step);
            post in next.replies && post !in next.flights && next.replies[post] == w.replies[post]
  {
    if step.Begin? {
      StartKeepsPost(w, step.post, step.req, post);
    }
  }

  // How the lookup of `post` turned out.
  ghost predicate LookedUp(w: World, post: nat, json: Json, live: bool, r: nat)
    requires json.Obj?
  {
    if live then InService(w, post, r, json)
    else post in w.replies && post !in w.flights && SaysNoSession(w.replies[post], json)
  }

  lemma ConsultingStart(w: World, post: nat, req: Request, s: string)
    requires Consults(s, req) && post !in w.flights && post !in w.replies
    ensures LookedUp(Start(w, post, req), post, req.body.json, s in w.table, if s in w.table then w.table[s] else 0)
  {
  }

  lemma RunStep(handler: Handler, steps: seq<Step>)
    requires steps != [] && Run(handler, steps).Some?
    ensures var n := |steps| - 1;
            && Run(handler, steps[..n]).Some?
            && Enabled(Run(handler, steps[..n]).value, steps[n])
            && Run(handler, steps).value == Apply(handler, Run(handler, steps[..n]).value, steps[n])
  {
  }

  // A POST that needs session `s` is refused exactly when `s` is not live at its lookup. If it is,
  // no later DELETE refuses it: it stays on the connection the session had and is answered there.
  lemma {:induction false} DeleteRefusesOnlyLaterLookups(
      handler: Handler, steps: seq<Step>, i: nat, post: nat, req: Request, s: string)
    requires Run(handler, steps).Some?
    requires i < |steps| && steps[i] == Begin(post, req) && Consults(s, req)
    ensures Run(handler, steps[..i]).Some?
    ensures var table := Run(handler, steps[..i]).value.table;
            && (s in table <==> Live(steps[..i], s))
            && LookedUp(Run(handler, steps).value, post, req.body.json, Live(steps[..i], s), if s in table then table[s] else 0)
    decreases |steps|
  {
    var n := |steps| - 1;
    var front := steps[..n];
    RunStep(handler, steps);
    var w := Run(handler, front).value;
    if i == n {
      TableHoldsTheLive(handler, front, s);
      ConsultingStart(w, post, req, s);
    } else {
      assert front[i] == steps[i] && front[..i] == steps[..i];
      DeleteRefusesOnlyLaterLookups(handler, front, i, post, req, s);
      if Live(steps[..i], s) {
        StepKeepsService(handler, w, steps[n], post, Run(handler, steps[..i]).value.table[s], req.body.json);
      } else {
        StepKeepsReply(handler, w, steps[n], post);
      }
    }
  }

  // ----- Without overlap this is the atomic server -----

  function View(w: World): Table {
    map s | s in w.table :: ConnAt(w.conns, w.table[s])
  }

  function ServeNow(handler: Handler, w: World, post: nat, req: Request): World {
    var begun := Start(w, post, req);
    if post in begun.flights then Handled(handler, begun, post, begun.flights[post]) else begun
  }

  lemma MintNow(handler: Handler, w: World, post: nat, req: Request)
    requires WellFounded(w) && Delivers(req) && Get(req.body.json.fields, "method") == Str("initialize")
    ensures var next := ServeNow(handler, w, post, req);
            var (conn, plan) := handler(req.body.json, FRESH);
            && View(next) == View(w)[req.freshId := conn]
            && post in next.replies && next.replies[post] == RenderPlan(plan, Some(req.freshId))
  {
  }

  lemma DiscoverNow(handler: Handler, w: World, post: nat, req: Request)
    requires WellFounded(w) && Delivers(req) && Get(req.body.json.fields, "method") == Str("server/discover")
    ensures var next := ServeNow(handler, w, post, req);
            && View(next) == View(w)
            && post in next.replies && next.replies[post] == RenderPlan(handler(req.body.json, FRESH).1, None)
  {
    assert "server/discover"[0] == 's' && "initialize"[0] == 'i';
  }

  lemma ContinueNow(handler: Handler, w: World, post: nat, req: Request, s: string)
    requires WellFounded(w) && Consults(s, req) && s in w.table
    ensures var next := ServeNow(handler, w, post, req);
            var (conn, plan) := handler(req.body.json, View(w)[s]);
            && View(next) == View(w)[s := conn]
            && post in next.replies && next.replies[post] == RenderPlan(plan, Some(s))
  {
  }

  lemma DeleteNow(handler: Handler, w: World, post: nat, req: Request)
    requires req.Delete? && post !in w.flights
    ensures var next := ServeNow(handler, w, post, req);
            && View(next) == (if Names(w.table, req) then View(w) - {req.session.value} else View(w))
            && post in next.replies && next.replies[post] == DeleteReply(w.table, req)
  {
  }

  // A request whose steps nothing comes between is served as the atomic server serves it.
  lemma UninterruptedIsAtomic(srv: Server, w: World, post: nat, req: Request)
    requires !srv.mode.Modern? && WellFounded(w) && post !in w.flights
    ensures var next := ServeNow(HandlerOf(srv), w, post, req);
            post in next.replies && (View(next), next.replies[post]) == Serve(srv, View(w), req)
  {
    if req.Delete? {
      DeleteNow(HandlerOf(srv), w, post, req);
    } else if Delivers(req) {
      if Get(req.body.json.fields, "method") == Str("initialize") {
        MintNow(HandlerOf(srv), w, post, req);
      } else if Get(req.body.json.fields, "method") == Str("server/discover") {
        DiscoverNow(HandlerOf(srv), w, post, req);
      } else if req.session.Some? && req.session.value in w.table {
        ContinueNow(HandlerOf(srv), w, post, req, req.session.value);
      }
    }
  }
}
