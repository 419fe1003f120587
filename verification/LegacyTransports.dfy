// The two transports as the code runs them: connection state updated in place, a stdio loop,
// and an HTTP server that inserts into and removes from its session dictionary.
module LegacyTransports {
  import opened Prelude
  import opened Json
  import opened FixtureServer
  import opened LegacySessions
  import opened ServerAnswers

  class ConnectionState {
    var initializeSeen: bool
    var initialized: bool

    constructor ()
      ensures View() == FRESH
    {
      initializeSeen, initialized := false, false;
    }

    function View(): Conn
      reads this
    {
      Conn(initializeSeen, initialized)
    }
  }

  method HandleMessage(srv: Server, message: Json, state: ConnectionState) returns (plan: Plan)
    modifies state
    ensures (state.View(), plan) == Handle(srv, message, old(state.View()))
  {
    if !message.Obj? {
      return Fail(Null, INVALID_REQUEST, NotAnObject, BAD_REQUEST);
    }
    var m := message.fields;
    if !WellFormed(m) {
      return Fail(Get(m, "id"), INVALID_REQUEST, InvalidEnvelope, BAD_REQUEST);
    }
    var params := Params(m);
    if !params.Obj? {
      plan := if "id" in m then Fail(m["id"], INVALID_PARAMS, ParamsNotAnObject, BAD_REQUEST)
              else Silent(BAD_REQUEST);
    } else if "id" !in m {
      plan := AcceptNotification(srv, m["method"].s, state);
    } else if srv.mode.Modern? {
      plan := HandleModern(srv, m["id"], m["method"].s, params.fields);
    } else {
      plan := AnswerLegacy(srv, m["id"], m["method"].s, params.fields, state);
    }
  }

  method AcceptNotification(srv: Server, rpc: string, state: ConnectionState) returns (plan: Plan)
    modifies state
    ensures (state.View(), plan) == HandleNotification(srv, rpc, old(state.View()))
  {
    if !srv.mode.Modern? && rpc == "notifications/initialized" {
      if state.initializeSeen {
        state.initialized := true;
      }
    }
    plan := Silent(ACCEPTED);
  }

  method AnswerLegacy(srv: Server, id: Json, rpc: string, params: Fields, state: ConnectionState) returns (plan: Plan)
    modifies state
    ensures !srv.mode.Modern? ==>
              LegacyAnswer(id, srv.mode.Shipping?, rpc, params, old(state.View()), state.View(), plan)
    ensures (state.View(), plan) == HandleLegacy(srv, id, rpc, params, old(state.View()))
  {
    if !srv.mode.Modern? {
      LegacyAnswers(srv, id, rpc, params, state.View());
    }
    if rpc == "initialize" {
      if !Get(params, "protocolVersion").Str? {
        return Fail(id, INVALID_PARAMS, NoProtocolVersion, OK);
      }
      state.initializeSeen := true;
      plan := Succeed(id, Negotiated(Version(srv.mode)));
    } else if rpc == "server/discover" {
      plan := Fail(id, METHOD_NOT_FOUND, UnknownMethod(rpc), NOT_FOUND);
    } else if !state.initialized {
      plan := Fail(id, INVALID_REQUEST, NotInitialized, OK);
    } else {
      plan := ServeLegacy(srv, id, rpc, params);
    }
  }

  // One turn of the stdio loop.
  method AnswerLine(srv: Server, line: Body, state: ConnectionState) returns (written: seq<Outgoing>)
    modifies state
    ensures (state.View(), written) == StdioLine(srv, old(state.View()), line)
  {
    if line.Garbled? {
      return [PARSE_FAILURE];
    }
    var plan := HandleMessage(srv, line.json, state);
    written := plan.notifications + if plan.reply.Some? then [Answer(plan.reply.value)] else [];
  }

  lemma StdioNext(srv: Server, conn: Conn, lines: seq<Body>, i: nat)
    requires i < |lines|
    ensures var (next, out) := StdioLine(srv, conn, lines[i]);
            Stdio(srv, conn, lines[i..]) == [out] + Stdio(srv, next, lines[i + 1..])
  {
    assert lines[i..] == [lines[i]] + lines[i + 1..];
    StdioStarts(srv, conn, lines[i], lines[i + 1..]);
  }

  // Each line's output, in order.
  method RunStdio(srv: Server, lines: seq<Body>) returns (out: seq<seq<Outgoing>>)
    ensures out == Stdio(srv, FRESH, lines)
  {
    var state := new ConnectionState();
    out := [];
    ghost var all := Stdio(srv, FRESH, lines);
    assert lines[0..] == lines && [] + all == all;
    for i := 0 to |lines|
      invariant fresh(state)
      invariant out + Stdio(srv, state.View(), lines[i..]) == all
    {
      StdioNext(srv, state.View(), lines, i);
      var written := AnswerLine(srv, lines[i], state);
      Regroup(out, [written], Stdio(srv, state.View(), lines[i + 1..]));
      out := out + [written];
    }
  }

  class FixtureHttpServer {
    const srv: Server
    var sessions: map<string, ConnectionState>

    constructor (srv: Server)
      ensures Valid() && View() == map[] && this.srv == srv
    {
      this.srv := srv;
      sessions := map[];
    }

    // No two ids share a connection.
    ghost predicate Valid()
      reads this
    {
      forall a, b :: a in sessions && b in sessions && a != b ==> sessions[a] != sessions[b]
    }

    function View(): Table
      reads this, sessions.Values
    {
      map s | s in sessions :: sessions[s].View()
    }

    method DeleteSession(atEndpoint: bool, session: Option<string>) returns (reply: HttpReply)
      requires Valid()
      modifies this
      ensures Valid() && sessions.Values <= old(sessions.Values)
      ensures (View(), reply) == Serve(srv, old(View()), Delete(atEndpoint, session))
    {
      if !atEndpoint || srv.mode.Modern? {
        return HttpReply(405, [], None);
      }
      if session.Some? && session.value in sessions {
        sessions := sessions - {session.value};
        assert View() == old(View()) - {session.value};
        reply := HttpReply(OK, [], None);
      } else {
        reply := HttpReply(NOT_FOUND, [], None);
      }
    }

    method PostMessage(req: Request) returns (reply: HttpReply)
      requires Valid() && req.Post? && req.freshId !in sessions
      modifies this, sessions.Values
      ensures Valid() && fresh(sessions.Values - old(sessions.Values))
      ensures (View(), reply) == Serve(srv, old(View()), req)
    {
      if !req.atEndpoint {
        return Refuse(Null, NOT_FOUND, METHOD_NOT_FOUND, UnknownEndpoint);
      }
      if !req.originAllowed {
        return Refuse(Null, 403, INVALID_REQUEST, OriginNotAllowed);
      }
      if !req.jsonContent {
        return Refuse(Null, 415, INVALID_REQUEST, NotJson);
      }
      if !req.lengthAccepted {
        return Refuse(Null, BAD_REQUEST, INVALID_REQUEST, InvalidLength);
      }
      if req.body.Garbled? {
        return Refuse(Null, BAD_REQUEST, PARSE_ERROR, ParseError);
      }
      if !req.body.json.Obj? {
        return Refuse(Null, BAD_REQUEST, INVALID_REQUEST, NotAnObject);
      }
      if srv.mode.Modern? {
        reply := AnswerModern(req.body.json, req.headersAgree);
      } else {
        reply := Dispatch(req.body.json, req.session, req.freshId);
      }
    }

    method AnswerModern(json: Json, headersAgree: bool) returns (reply: HttpReply)
      requires json.Obj?
      ensures View() == old(View())
      ensures reply == ServeModernMessage(srv, json, headersAgree)
    {
      if "id" in json.fields && !headersAgree {
        return Refuse(json.fields["id"], BAD_REQUEST, HEADER_MISMATCH, HeaderMismatch);
      }
      var state := new ConnectionState();
      var plan := HandleMessage(srv, json, state);
      reply := RenderPlan(plan, None);
    }

    // `freshId` is what `uuid4` returns.
    method Dispatch(json: Json, session: Option<string>, freshId: string) returns (reply: HttpReply)
      requires Valid() && json.Obj? && freshId !in sessions
      modifies this, sessions.Values
      ensures Valid() && fresh(sessions.Values - old(sessions.Values))
      ensures (View(), reply) == ServeMessage(srv, old(View()), json, session, freshId)
    {
      var rpc := Get(json.fields, "method");
      if rpc == Str("initialize") {
        reply := Mint(json, freshId);
      } else if rpc == Str("server/discover") {
        var state := new ConnectionState();
        var plan := HandleMessage(srv, json, state);
        assert View() == old(View());
        reply := RenderPlan(plan, None);
      } else if session.None? || session.value !in sessions {
        reply := UnknownSession(json);
      } else {
        reply := Continue(json, session.value);
      }
    }

    method Mint(json: Json, freshId: string) returns (reply: HttpReply)
      requires Valid() && freshId !in sessions
      modifies this
      ensures Valid() && fresh(sessions.Values - old(sessions.Values))
      ensures var (conn, plan) := Handle(srv, json, FRESH);
              View() == old(View())[freshId := conn] && reply == RenderPlan(plan, Some(freshId))
    {
      var state := new ConnectionState();
      ghost var existing := sessions;
      sessions := sessions[freshId := state];
      assert forall s :: s in existing ==> existing[s] != state;
      var plan := HandleMessage(srv, json, state);
      assert View() == old(View())[freshId := state.View()];
      reply := RenderPlan(plan, Some(freshId));
    }

    method Continue(json: Json, s: string) returns (reply: HttpReply)
      requires Valid() && s in sessions
      modifies sessions[s]
      ensures var (conn, plan) := Handle(srv, json, old(View())[s]);
              View() == old(View())[s := conn] && reply == RenderPlan(plan, Some(s))
    {
      var plan := HandleMessage(srv, json, sessions[s]);
      assert View() == old(View())[s := sessions[s].View()];
      reply := RenderPlan(plan, Some(s));
    }
  }
}
