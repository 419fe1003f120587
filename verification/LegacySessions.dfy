// Legacy connections over the two transports: a stdio loop with one connection, and an HTTP
// server with a table of sessions.
module LegacySessions {
  import opened Prelude
  import opened Json
  import opened FixtureServer

  // A stdin line or a POST body, after `json.loads`.
  datatype Body = Garbled | Decoded(json: Json)

  // ----- stdio -----

  const PARSE_FAILURE := Answer(Error(Null, PARSE_ERROR, ParseError))

  function StdioLine(srv: Server, conn: Conn, line: Body): (Conn, seq<Outgoing>) {
    match line
    case Garbled => (conn, [PARSE_FAILURE])
    case Decoded(json) =>
      var (next, plan) := Handle(srv, json, conn);
      (next, plan.notifications + if plan.reply.Some? then [Answer(plan.reply.value)] else [])
  }

  // What is written for each line.
  function Stdio(srv: Server, conn: Conn, lines: seq<Body>): seq<seq<Outgoing>>
    decreases |lines|
  {
    if lines == [] then []
    else
      var (next, out) := StdioLine(srv, conn, lines[0]);
      [out] + Stdio(srv, next, lines[1..])
  }

  function StdioConn(srv: Server, conn: Conn, lines: seq<Body>): Conn
    decreases |lines|
  {
    if lines == [] then conn
    else StdioConn(srv, StdioLine(srv, conn, lines[0]).0, lines[1..])
  }

  // ----- HTTP -----

  // `headersAgree` is what the modern header validation says of the request.
  datatype Request =
    | Post(
        atEndpoint: bool,
        originAllowed: bool,
        jsonContent: bool,
        lengthAccepted: bool,
        headersAgree: bool,
        body: Body,
        session: Option<string>,
        freshId: string)
    | Delete(atEndpoint: bool, session: Option<string>)

  datatype HttpReply = HttpReply(status: nat, messages: seq<Outgoing>, session: Option<string>)

  type Table = map<string, Conn>

  function Refuse(id: Json, status: nat, code: int, reason: Reason): HttpReply {
    HttpReply(status, [Answer(Error(id, code, reason))], None)
  }

  function RenderPlan(plan: Plan, session: Option<string>): HttpReply {
    HttpReply(
      plan.status,
      if plan.reply.None? then []
      else (if plan.forceSse then plan.notifications else []) + [Answer(plan.reply.value)],
      session)
  }

  // The checks made before a POST body is looked at.
  predicate Admitted(req: Request) {
    req.Post? && req.atEndpoint && req.originAllowed && req.jsonContent && req.lengthAccepted
  }

  // A POST whose message is looked at.
  predicate Delivers(req: Request) {
    Admitted(req) && req.body.Decoded? && req.body.json.Obj?
  }

  // What the other POSTs are answered.
  function Refusal(req: Request): HttpReply
    requires req.Post? && !Delivers(req)
  {
    if !req.atEndpoint then Refuse(Null, NOT_FOUND, METHOD_NOT_FOUND, UnknownEndpoint)
    else if !req.originAllowed then Refuse(Null, 403, INVALID_REQUEST, OriginNotAllowed)
    else if !req.jsonContent then Refuse(Null, 415, INVALID_REQUEST, NotJson)
    else if !req.lengthAccepted then Refuse(Null, BAD_REQUEST, INVALID_REQUEST, InvalidLength)
    else if req.body.Garbled? then Refuse(Null, BAD_REQUEST, PARSE_ERROR, ParseError)
    else Refuse(Null, BAD_REQUEST, INVALID_REQUEST, NotAnObject)
  }

  function UnknownSession(json: Json): HttpReply
    requires json.Obj?
  {
    Refuse(Get(json.fields, "id"), BAD_REQUEST, INVALID_REQUEST, NoSession)
  }

  function Serve(srv: Server, table: Table, req: Request): (Table, HttpReply) {
    match req
    case Delete(atEndpoint, session) =>
      if !atEndpoint || srv.mode.Modern? then (table, HttpReply(405, [], None))
      else if session.Some? && session.value in table then (table - {session.value}, HttpReply(OK, [], None))
      else (table, HttpReply(NOT_FOUND, [], None))
    case Post(_, _, _, _, _, body, session, freshId) =>
      if !Delivers(req) then (table, Refusal(req))
      else if srv.mode.Modern? then (table, ServeModernMessage(srv, body.json, req.headersAgree))
      else ServeMessage(srv, table, body.json, session, freshId)
  }

  // Every modern message is handled on a state of its own.
  function ServeModernMessage(srv: Server, json: Json, headersAgree: bool): HttpReply
    requires json.Obj?
  {
    if "id" in json.fields && !headersAgree
    then Refuse(json.fields["id"], BAD_REQUEST, HEADER_MISMATCH, HeaderMismatch)
    else RenderPlan(Handle(srv, json, FRESH).1, None)
  }

  function ServeMessage(srv: Server, table: Table, json: Json, session: Option<string>, freshId: string): (Table, HttpReply)
    requires json.Obj?
  {
    var rpc := Get(json.fields, "method");
    if rpc == Str("initialize") then
      var (conn, plan) := Handle(srv, json, FRESH);
      (table[freshId := conn], RenderPlan(plan, Some(freshId)))
    else if rpc == Str("server/discover") then
      (table, RenderPlan(Handle(srv, json, FRESH).1, None))
    else if session.None? || session.value !in table then
      (table, UnknownSession(json))
    else
      var (conn, plan) := Handle(srv, json, table[session.value]);
      (table[session.value := conn], RenderPlan(plan, session))
  }

  function ServeAll(srv: Server, table: Table, reqs: seq<Request>): (Table, seq<HttpReply>)
    decreases |reqs|
  {
    if reqs == [] then (table, [])
    else
      var (next, reply) := Serve(srv, table, reqs[0]);
      var (last, replies) := ServeAll(srv, next, reqs[1..]);
      (last, [reply] + replies)
  }

  // ----- The conversation on one session, inside an arbitrary interleaving -----

  predicate Initializes(body: Body) {
    body.Decoded? && body.json.Obj? && Get(body.json.fields, "method") == Str("initialize")
  }

  predicate OnSession(s: string, req: Request) {
    Admitted(req) && req.session == Some(s) && !Initializes(req.body)
  }

  predicate Ends(s: string, req: Request) {
    req.Delete? && req.atEndpoint && req.session == Some(s)
  }

  predicate NeverMints(s: string, reqs: seq<Request>) {
    forall r :: r in reqs && r.Post? ==> r.freshId != s
  }

  // The messages that arrive on session `s` before it is deleted.
  function Lines(s: string, reqs: seq<Request>): seq<Body> {
    if reqs == [] || Ends(s, reqs[0]) then []
    else (if OnSession(s, reqs[0]) then [reqs[0].body] else []) + Lines(s, reqs[1..])
  }

  // What each of them is answered.
  function Answers(srv: Server, table: Table, s: string, reqs: seq<Request>): seq<seq<Outgoing>>
    decreases |reqs|
  {
    if reqs == [] || Ends(s, reqs[0]) then []
    else
      var (next, reply) := Serve(srv, table, reqs[0]);
      (if OnSession(s, reqs[0]) then [reply.messages] else []) + Answers(srv, next, s, reqs[1..])
  }

  predicate Deleted(s: string, reqs: seq<Request>) {
    exists r :: r in reqs && Ends(s, r)
  }

  lemma DiscoveryIgnoresState(srv: Server, json: Json, conn: Conn)
    requires !srv.mode.Modern? && json.Obj? && Get(json.fields, "method") == Str("server/discover")
    ensures Handle(srv, json, conn) == (conn, Handle(srv, json, FRESH).1)
  {
    assert "server/discover" != "initialize" && "server/discover" != "notifications/initialized" by {
      assert |"server/discover"| != |"initialize"|;
      assert |"server/discover"| != |"notifications/initialized"|;
    }
  }

  lemma OneMessageOnSession(srv: Server, table: Table, s: string, req: Request)
    requires !srv.mode.Modern? && s in table && OnSession(s, req)
    ensures var (next, reply) := Serve(srv, table, req);
            var (conn, out) := StdioLine(srv, table[s], req.body);
            s in next && next[s] == conn && reply.messages == out
  {
    if req.body.Decoded? && req.body.json.Obj? {
      if Get(req.body.json.fields, "method") == Str("server/discover") {
        DiscoveryIgnoresState(srv, req.body.json, table[s]);
      }
      assert Streams(Handle(srv, req.body.json, table[s]).1);
    }
  }

  lemma OtherRequestsLeaveSessionAlone(srv: Server, table: Table, s: string, req: Request)
    requires s in table && !OnSession(s, req) && !Ends(s, req)
    requires req.Post? ==> req.freshId != s
    ensures var next := Serve(srv, table, req).0; s in next && next[s] == table[s]
  {}

  lemma {:induction false} SessionFollowsStdio(srv: Server, table: Table, s: string, reqs: seq<Request>)
    requires !srv.mode.Modern? && s in table && NeverMints(s, reqs)
    ensures Answers(srv, table, s, reqs) == Stdio(srv, table[s], Lines(s, reqs))
    ensures !Deleted(s, reqs) ==>
              var last := ServeAll(srv, table, reqs).0;
              s in last && last[s] == StdioConn(srv, table[s], Lines(s, reqs))
    decreases |reqs|
  {
    if reqs != [] && !Ends(s, reqs[0]) {
      var (next, reply) := Serve(srv, table, reqs[0]);
      if OnSession(s, reqs[0]) {
        OneMessageOnSession(srv, table, s, reqs[0]);
        assert Lines(s, reqs) == [reqs[0].body] + Lines(s, reqs[1..]);
      } else {
        OtherRequestsLeaveSessionAlone(srv, table, s, reqs[0]);
        assert Lines(s, reqs) == Lines(s, reqs[1..]);
      }
      SessionFollowsStdio(srv, next, s, reqs[1..]);
      if !Deleted(s, reqs) {
        assert !Deleted(s, reqs[1..]);
      }
    }
  }

  lemma StdioStarts(srv: Server, conn: Conn, first: Body, rest: seq<Body>)
    ensures var (next, out) := StdioLine(srv, conn, first);
            Stdio(srv, conn, [first] + rest) == [out] + Stdio(srv, next, rest)
  {
    assert ([first] + rest)[1..] == rest;
  }

  lemma MintAnswers(srv: Server, table: Table, create: Request)
    requires !srv.mode.Modern? && Admitted(create) && Initializes(create.body)
    ensures var (next, reply) := Serve(srv, table, create);
            var (conn, out) := StdioLine(srv, FRESH, create.body);
            && reply.session == Some(create.freshId) && reply.messages == out
            && create.freshId in next && next[create.freshId] == conn
  {
    assert Streams(Handle(srv, create.body.json, FRESH).1);
  }

  // Whatever else the server is doing, a session minted by `create` is answered as a separate
  // stdio connection would answer `create` followed by the messages on the session.
  lemma SessionEqualsStdio(srv: Server, table: Table, create: Request, reqs: seq<Request>)
    requires !srv.mode.Modern? && Admitted(create) && Initializes(create.body)
    requires NeverMints(create.freshId, reqs)
    ensures var s := create.freshId;
            var (next, reply) := Serve(srv, table, create);
            && reply.session == Some(s)
            && s in next
            && [reply.messages] + Answers(srv, next, s, reqs) == Stdio(srv, FRESH, [create.body] + Lines(s, reqs))
  {
    var s := create.freshId;
    var next := Serve(srv, table, create).0;
    MintAnswers(srv, table, create);
    SessionFollowsStdio(srv, next, s, reqs);
    StdioStarts(srv, FRESH, create.body, Lines(s, reqs));
  }

  // ----- The handshake -----

  predicate OffersInitialize(body: Body) {
    && Initializes(body)
    && var m := body.json.fields;
    && WellFormed(m) && "id" in m && Params(m).Obj?
    && Get(Params(m).fields, "protocolVersion").Str?
  }

  predicate ConfirmsInitialized(body: Body) {
    && body.Decoded? && body.json.Obj?
    && var m := body.json.fields;
    && WellFormed(m) && "id" !in m && Params(m).Obj?
    && m["method"] == Str("notifications/initialized")
  }

  lemma LineEffect(srv: Server, conn: Conn, line: Body)
    requires !srv.mode.Modern?
    ensures StdioLine(srv, conn, line).0 ==
            Conn(conn.initializeSeen || OffersInitialize(line),
                 conn.initialized || (conn.initializeSeen && ConfirmsInitialized(line)))
  {}

  ghost predicate Offered(lines: seq<Body>) {
    exists i :: 0 <= i < |lines| && OffersInitialize(lines[i])
  }

  // A well-formed initialize, and later the notification that completes it.
  ghost predicate ShookHands(lines: seq<Body>) {
    exists i, j :: 0 <= i < j < |lines| && OffersInitialize(lines[i]) && ConfirmsInitialized(lines[j])
  }

  lemma {:induction false} StdioConnOfConcat(srv: Server, conn: Conn, a: seq<Body>, b: seq<Body>)
    ensures StdioConn(srv, conn, a + b) == StdioConn(srv, StdioConn(srv, conn, a), b)
    decreases |a|
  {
    if a == [] {
      assert a + b == b;
    } else {
      assert (a + b)[1..] == a[1..] + b;
      StdioConnOfConcat(srv, StdioLine(srv, conn, a[0]).0, a[1..], b);
    }
  }

  lemma {:induction false} InitializedIffHandshake(srv: Server, lines: seq<Body>)
    requires !srv.mode.Modern?
    ensures StdioConn(srv, FRESH, lines) == Conn(Offered(lines), ShookHands(lines))
    decreases |lines|
  {
    if lines != [] {
      var n := |lines| - 1;
      var front, last := lines[..n], lines[n];
      InitializedIffHandshake(srv, front);
      assert lines == front + [last];
      StdioConnOfConcat(srv, FRESH, front, [last]);
      LineEffect(srv, StdioConn(srv, FRESH, front), last);
      HandshakeGrows(front, last);
    }
  }

  lemma OfferedGrows(front: seq<Body>, last: Body)
    ensures Offered(front + [last]) <==> Offered(front) || OffersInitialize(last)
  {
    var lines, n := front + [last], |front|;
    assert lines[n] == last;
    if Offered(front) {
      var i :| 0 <= i < n && OffersInitialize(front[i]);
      assert OffersInitialize(lines[i]);
    }
    if Offered(lines) {
      var i :| 0 <= i < |lines| && OffersInitialize(lines[i]);
      assert i < n ==> OffersInitialize(front[i]);
    }
  }

  lemma ShookHandsStays(front: seq<Body>, last: Body)
    requires ShookHands(front) || (Offered(front) && ConfirmsInitialized(last))
    ensures ShookHands(front + [last])
  {
    var lines, n := front + [last], |front|;
    assert lines[n] == last;
    if ShookHands(front) {
      var i, j :| 0 <= i < j < n && OffersInitialize(front[i]) && ConfirmsInitialized(front[j]);
      assert OffersInitialize(lines[i]) && ConfirmsInitialized(lines[j]);
    } else {
      var i :| 0 <= i < n && OffersInitialize(front[i]);
      assert OffersInitialize(lines[i]) && ConfirmsInitialized(lines[n]);
    }
  }

  lemma ShookHandsBefore(front: seq<Body>, last: Body)
    requires ShookHands(front + [last])
    ensures ShookHands(front) || (Offered(front) && ConfirmsInitialized(last))
  {
    var lines, n := front + [last], |front|;
    var i, j :| 0 <= i < j < |lines| && OffersInitialize(lines[i]) && ConfirmsInitialized(lines[j]);
    assert OffersInitialize(front[i]);
    if j < n {
      assert ConfirmsInitialized(front[j]);
    }
  }

  lemma HandshakeGrows(front: seq<Body>, last: Body)
    ensures Offered(front + [last]) <==> Offered(front) || OffersInitialize(last)
    ensures ShookHands(front + [last]) <==> ShookHands(front) || (Offered(front) && ConfirmsInitialized(last))
  {
    OfferedGrows(front, last);
    if ShookHands(front + [last]) {
      ShookHandsBefore(front, last);
    } else if ShookHands(front) || (Offered(front) && ConfirmsInitialized(last)) {
      ShookHandsStays(front, last);
    }
  }

  lemma {:induction false} StdioAt(srv: Server, conn: Conn, lines: seq<Body>, k: nat)
    requires k < |lines|
    ensures |Stdio(srv, conn, lines)| == |lines|
    ensures Stdio(srv, conn, lines)[k] == StdioLine(srv, StdioConn(srv, conn, lines[..k]), lines[k]).1
    decreases |lines|
  {
    var next := StdioLine(srv, conn, lines[0]).0;
    if k > 0 {
      StdioAt(srv, next, lines[1..], k - 1);
      assert lines[..k][1..] == lines[1..][..k - 1];
    } else if |lines| > 1 {
      StdioAt(srv, next, lines[1..], 0);
    }
  }

  predicate HasResult(out: seq<Outgoing>) {
    exists o :: o in out && o.Answer? && o.reply.Result?
  }

  lemma ResultNeedsInitialized(srv: Server, conn: Conn, line: Body)
    requires !srv.mode.Modern? && HasResult(StdioLine(srv, conn, line).1) && !Initializes(line)
    ensures conn.initialized
  {}

  // On any line sequence, only initialize gets a result before the handshake is complete.
  lemma NoResultBeforeHandshake(srv: Server, lines: seq<Body>, k: nat)
    requires !srv.mode.Modern? && k < |lines| && !Initializes(lines[k])
    ensures |Stdio(srv, FRESH, lines)| == |lines|
    ensures HasResult(Stdio(srv, FRESH, lines)[k]) ==> ShookHands(lines[..k])
  {
    StdioAt(srv, FRESH, lines, k);
    if HasResult(Stdio(srv, FRESH, lines)[k]) {
      ResultNeedsInitialized(srv, StdioConn(srv, FRESH, lines[..k]), lines[k]);
      InitializedIffHandshake(srv, lines[..k]);
    }
  }

  lemma {:induction false} LinesNeverInitialize(s: string, reqs: seq<Request>)
    ensures forall line :: line in Lines(s, reqs) ==> !Initializes(line)
    decreases |reqs|
  {
    if reqs != [] {
      LinesNeverInitialize(s, reqs[1..]);
    }
  }

  // A live session is initialized exactly when the initialize that minted it was well-formed
  // and the confirming notification arrived on it.
  lemma SessionInitializedIff(srv: Server, table: Table, create: Request, reqs: seq<Request>)
    requires !srv.mode.Modern? && Admitted(create) && Initializes(create.body)
    requires NeverMints(create.freshId, reqs) && !Deleted(create.freshId, reqs)
    ensures var s := create.freshId;
            var last := ServeAll(srv, Serve(srv, table, create).0, reqs).0;
            s in last &&
            (last[s].initialized <==>
             OffersInitialize(create.body) && exists line :: line in Lines(s, reqs) && ConfirmsInitialized(line))
  {
    var s := create.freshId;
    var next := Serve(srv, table, create).0;
    SessionFollowsStdio(srv, next, s, reqs);
    var own := Lines(s, reqs);
    var lines := [create.body] + own;
    assert lines[1..] == own;
    InitializedIffHandshake(srv, lines);
    LinesNeverInitialize(s, reqs);
    HandshakeStartsWith(create.body, own);
  }

  lemma HandshakeStartsWith(first: Body, own: seq<Body>)
    requires forall line :: line in own ==> !Initializes(line)
    ensures ShookHands([first] + own) <==> OffersInitialize(first) && exists line :: line in own && ConfirmsInitialized(line)
  {
    var lines := [first] + own;
    assert forall i :: 0 < i < |lines| ==> lines[i] == own[i - 1] && lines[i] in own;
    if OffersInitialize(first) && exists line :: line in own && ConfirmsInitialized(line) {
      var line :| line in own && ConfirmsInitialized(line);
      var j :| 0 <= j < |own| && own[j] == line;
      assert lines[0] == first && lines[j + 1] == line;
    }
  }

  lemma HandshakeUpTo(first: Body, own: seq<Body>, k: nat)
    requires k < |own| && forall line :: line in own ==> !Initializes(line)
    ensures ([first] + own)[k + 1] == own[k] && !Initializes(own[k])
    ensures ShookHands(([first] + own)[..k + 1]) <==>
            OffersInitialize(first) && exists line :: line in own[..k] && ConfirmsInitialized(line)
  {
    assert own[k] in own;
    assert ([first] + own)[..k + 1] == [first] + own[..k];
    HandshakeStartsWith(first, own[..k]);
  }

  // `out` is what stdio writes for `first` and then `own`.
  lemma ResultNeedsHandshake(srv: Server, first: Body, own: seq<Body>, out: seq<seq<Outgoing>>, k: nat)
    requires !srv.mode.Modern? && k < |own|
    requires forall line :: line in own ==> !Initializes(line)
    requires out == Stdio(srv, FRESH, [first] + own)
    ensures |out| == |own| + 1
    ensures HasResult(out[k + 1]) ==> OffersInitialize(first) && exists line :: line in own[..k] && ConfirmsInitialized(line)
  {
    HandshakeUpTo(first, own, k);
    NoResultBeforeHandshake(srv, [first] + own, k + 1);
  }

  // The same for answers: a session gets a result only after its own handshake.
  lemma SessionResultNeedsHandshake(srv: Server, table: Table, create: Request, reqs: seq<Request>, k: nat)
    requires !srv.mode.Modern? && Admitted(create) && Initializes(create.body)
    requires NeverMints(create.freshId, reqs) && k < |Lines(create.freshId, reqs)|
    ensures var answers := Answers(srv, Serve(srv, table, create).0, create.freshId, reqs);
            var own := Lines(create.freshId, reqs);
            && |answers| == |own|
            && (HasResult(answers[k]) ==>
                  OffersInitialize(create.body) && exists line :: line in own[..k] && ConfirmsInitialized(line))
  {
    var (next, reply) := Serve(srv, table, create);
    var own, answers := Lines(create.freshId, reqs), Answers(srv, next, create.freshId, reqs);
    SessionEqualsStdio(srv, table, create, reqs);
    LinesNeverInitialize(create.freshId, reqs);
    ResultNeedsHandshake(srv, create.body, own, [reply.messages] + answers, k);
    assert ([reply.messages] + answers)[k + 1] == answers[k];
  }

  // ----- Deletion -----

  // A request that needs session `s` to be live.
  predicate Consults(s: string, req: Request) {
    && OnSession(s, req) && req.body.Decoded? && req.body.json.Obj?
    && Get(req.body.json.fields, "method") != Str("server/discover")
  }

  // What a message for a session that does not exist is told, under its own id.
  predicate SaysNoSession(reply: HttpReply, json: Json) {
    json.Obj? && reply == HttpReply(400, [Answer(Error(Get(json.fields, "id"), -32600, NoSession))], None)
  }

  lemma {:induction false} DeadSessionIsRefused(srv: Server, table: Table, s: string, reqs: seq<Request>, k: nat)
    requires !srv.mode.Modern? && s !in table && NeverMints(s, reqs) && k < |reqs|
    ensures |ServeAll(srv, table, reqs).1| == |reqs|
    ensures Consults(s, reqs[k]) ==>
              SaysNoSession(ServeAll(srv, table, reqs).1[k], reqs[k].body.json)
    ensures Ends(s, reqs[k]) ==> ServeAll(srv, table, reqs).1[k] == HttpReply(404, [], None)
    decreases |reqs|
  {
    var next := Serve(srv, table, reqs[0]).0;
    assert reqs[0] in reqs && s !in next;
    if |reqs| > 1 {
      DeadSessionIsRefused(srv, next, s, reqs[1..], if k == 0 then 0 else k - 1);
    }
  }

  // Once deleted, an id that is never minted again is refused for the rest of the run.
  lemma DeletedSessionIsRefused(srv: Server, table: Table, s: string, del: Request, reqs: seq<Request>, k: nat)
    requires !srv.mode.Modern? && Ends(s, del) && NeverMints(s, reqs) && k < |reqs|
    ensures var (next, reply) := Serve(srv, table, del);
            && reply == HttpReply(if s in table then 200 else 404, [], None)
            && |ServeAll(srv, next, reqs).1| == |reqs|
            && (Consults(s, reqs[k]) ==>
                  SaysNoSession(ServeAll(srv, next, reqs).1[k], reqs[k].body.json))
            && (Ends(s, reqs[k]) ==> ServeAll(srv, next, reqs).1[k] == HttpReply(404, [], None))
  {
    DeadSessionIsRefused(srv, Serve(srv, table, del).0, s, reqs, k);
  }
}
