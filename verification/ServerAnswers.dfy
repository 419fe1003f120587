// What the fixture server answers to each request, seen from outside: the plan of a message and the
// output of a stdio connection. Codes, statuses and names are written out.
module ServerAnswers {
  import opened Prelude
  import opened Json
  import opened FixtureServer
  import opened LegacySessions

  // ----- Requests and answers -----

  predicate IsRequest(m: Fields, rpc: string) {
    && Get(m, "jsonrpc") == Str("2.0") && Get(m, "method") == Str(rpc)
    && "id" in m && ("params" !in m || m["params"].Obj?)
  }

  function ParamsIn(m: Fields): Fields {
    if "params" in m && m["params"].Obj? then m["params"].fields else map[]
  }

  function Good(id: Json, payload: Payload): Plan {
    Plan(Some(Result(id, payload)), [], 200, false)
  }

  function Bad(id: Json, code: int, reason: Reason, status: nat): Plan {
    Plan(Some(Error(id, code, reason)), [], status, false)
  }

  // ----- One reply each -----

  // Answering discovery under another id is what two profiles are for.
  predicate KeepsIds(srv: Server, m: Fields) {
    srv.mode.Modern? && (srv.profile.MismatchedDiscoveryId? || srv.profile.NullDiscoveryId?) ==>
      Get(m, "method") != Str("server/discover")
  }

  lemma RequestPlan(srv: Server, m: Fields, conn: Conn)
    requires Get(m, "jsonrpc") == Str("2.0") && Get(m, "method").Str? && "id" in m && KeepsIds(srv, m)
    ensures RepliesTo(Handle(srv, Obj(m), conn).1, m["id"])
  {
  }

  // Whatever the state and the mode, a well-formed request is answered by its notifications and then
  // exactly one reply, under its own id.
  lemma EveryRequestGetsOneReply(srv: Server, m: Fields, conn: Conn)
    requires Get(m, "jsonrpc") == Str("2.0") && Get(m, "method").Str? && "id" in m && KeepsIds(srv, m)
    ensures var out := StdioLine(srv, conn, Decoded(Obj(m))).1;
            && out != [] && out[|out| - 1].Answer? && out[|out| - 1].reply.id == m["id"]
            && forall i :: 0 <= i < |out| - 1 ==> out[i].Notification?
  {
    RequestPlan(srv, m, conn);
    var plan := Handle(srv, Obj(m), conn).1;
    var out := StdioLine(srv, conn, Decoded(Obj(m))).1;
    assert forall i :: 0 <= i < |out| - 1 ==> out[i] == plan.notifications[i] && out[i] in plan.notifications;
  }

  // Everything else: a value that is no object, a malformed envelope, params of another type, and
  // messages without an id.
  lemma OtherMessages(srv: Server, json: Json, conn: Conn)
    ensures !json.Obj? ==> Handle(srv, json, conn) == (conn, Bad(Null, -32600, NotAnObject, 400))
    ensures json.Obj? ==>
              var m := json.fields;
              var envelope := Get(m, "jsonrpc") == Str("2.0") && Get(m, "method").Str?;
              var params := "params" !in m || m["params"].Obj?;
              && (!envelope ==> Handle(srv, json, conn) == (conn, Bad(Get(m, "id"), -32600, InvalidEnvelope, 400)))
              && (envelope && !params && "id" in m ==>
                    Handle(srv, json, conn) == (conn, Bad(m["id"], -32602, ParamsNotAnObject, 400)))
              && (envelope && !params && "id" !in m ==> Handle(srv, json, conn) == (conn, Plan(None, [], 400, false)))
              && (envelope && params && "id" !in m ==> Handle(srv, json, conn).1 == Plan(None, [], 202, false))
  {
  }

  // ----- Legacy requests -----

  lemma LegacyInitialize(srv: Server, m: Fields, conn: Conn)
    requires !srv.mode.Modern? && IsRequest(m, "initialize")
    ensures Handle(srv, Obj(m), conn) ==
            if Get(ParamsIn(m), "protocolVersion").Str?
            then (Conn(true, conn.initialized),
                  Good(m["id"], Negotiated(if srv.mode.Shipping? then "2025-06-18" else "2025-11-25")))
            else (conn, Bad(m["id"], -32602, NoProtocolVersion, 200))
  {
  }

  lemma LegacyDiscover(srv: Server, m: Fields, conn: Conn)
    requires !srv.mode.Modern? && IsRequest(m, "server/discover")
    ensures Handle(srv, Obj(m), conn) == (conn, Bad(m["id"], -32601, UnknownMethod("server/discover"), 404))
  {
    assert "server/discover"[0] == 's' && "initialize"[0] == 'i';
  }

  predicate Opens(rpc: string) {
    rpc == "initialize" || rpc == "server/discover"
  }

  lemma LegacyTooEarly(srv: Server, m: Fields, rpc: string, conn: Conn)
    requires !srv.mode.Modern? && IsRequest(m, rpc) && !Opens(rpc) && !conn.initialized
    ensures Handle(srv, Obj(m), conn) == (conn, Bad(m["id"], -32600, NotInitialized, 200))
  {
  }

  lemma LegacyReady(srv: Server, m: Fields, rpc: string, conn: Conn)
    requires !srv.mode.Modern? && IsRequest(m, rpc) && !Opens(rpc) && conn.initialized
    ensures Handle(srv, Obj(m), conn) == (conn, ServeLegacy(srv, m["id"], rpc, ParamsIn(m)))
  {
  }

  // The methods with one fixed result, and the result.
  predicate Plain(rpc: string) {
    rpc in {"ping", "logging/setLevel", "tools/list", "resources/templates/list", "prompts/list"}
  }

  lemma ServesPlain(srv: Server, id: Json, params: Fields)
    requires !srv.mode.Modern?
    ensures ServeLegacy(srv, id, "ping", params) == Good(id, Acknowledged)
    ensures ServeLegacy(srv, id, "logging/setLevel", params) == Good(id, Acknowledged)
    ensures ServeLegacy(srv, id, "tools/list", params) == Good(id, ToolPage(0, None, None))
    ensures ServeLegacy(srv, id, "resources/templates/list", params) == Good(id, ResourceTemplates)
    ensures ServeLegacy(srv, id, "prompts/list", params) == Good(id, Prompts)
  {
  }

  // ----- Listings, resources and prompts, in both modes -----

  lemma ResourcePages(id: Json, params: Fields)
    ensures var cursor := Get(params, "cursor");
            ListResources(id, params) ==
            if cursor == Null then Good(id, ResourcePage("test://fixture/readme", Some("page-2")))
            else if cursor == Str("page-2") then Good(id, ResourcePage(HELLO_URI, None))
            else Bad(id, -32602, InvalidCursor, 200)
  {
  }

  lemma ResourceContents(id: Json, params: Fields)
    ensures var uri := Get(params, "uri");
            ReadResource(id, params) ==
            if uri == Str("test://fixture/readme") || uri == Str(HELLO_URI) then Good(id, Contents(uri.s))
            else Bad(id, -32602, ResourceNotFound, 200)
  {
  }

  lemma PromptGreets(id: Json, params: Fields, name: string)
    ensures GetPrompt(id, params) == Good(id, Greeting(name)) <==>
            && Get(params, "name") == Str("fixture.greeting")
            && "arguments" in params && params["arguments"].Obj?
            && Get(params["arguments"].fields, "name") == Str(name)
    ensures GetPrompt(id, params).reply.value.Error? ==> GetPrompt(id, params).reply.value.code == -32602
  {
  }

  // ----- Tools, in both modes -----

  predicate IsCall(params: Fields, name: string, arguments: Fields) {
    && Get(params, "name") == Str(name)
    && (if "arguments" in params then params["arguments"] == Obj(arguments) else arguments == map[])
  }

  lemma CallRuns(srv: Server, id: Json, params: Fields, meta: Fields, name: string, arguments: Fields)
    requires IsCall(params, name, arguments)
    ensures CallTool(srv, id, params, meta) ==
            if KnownTool(srv, name) then RunTool(srv, id, name, arguments, params, meta)
            else Bad(id, -32602, UnknownTool(name), 200)
  {
  }

  lemma MalformedCalls(srv: Server, id: Json, params: Fields, meta: Fields)
    requires !Get(params, "name").Str? || ("arguments" in params && !params["arguments"].Obj?)
    ensures CallTool(srv, id, params, meta) == Bad(id, -32602, MalformedCall, 200)
  {
  }

  lemma EchoRuns(srv: Server, id: Json, arguments: Fields, params: Fields, meta: Fields)
    ensures KnownTool(srv, "echo")
    ensures RunTool(srv, id, "echo", arguments, params, meta) ==
            if Get(arguments, "text").Str?
            then Good(id, ToolOutput(Some(Get(arguments, "text").s), Some(Obj(map["text" := Get(arguments, "text")])), false))
            else Bad(id, -32602, InvalidArguments, 200)
  {
  }

  lemma MetadataRuns(srv: Server, id: Json, arguments: Fields, params: Fields, meta: Fields)
    ensures KnownTool(srv, "client_metadata") && KnownTool(srv, "fail")
    ensures RunTool(srv, id, "client_metadata", arguments, params, meta) == Good(id, ToolOutput(None, Some(Obj(meta)), false))
    ensures RunTool(srv, id, "fail", arguments, params, meta) ==
            Good(id, ToolOutput(Some("Intentional tool execution failure"), None, true))
  {
  }

  lemma HeaderEchoRuns(srv: Server, id: Json, arguments: Fields, params: Fields, meta: Fields)
    ensures KnownTool(srv, "header_echo")
    ensures RunTool(srv, id, "header_echo", arguments, params, meta) ==
            if && Get(arguments, "region").Str? && Get(arguments, "enabled").Bool? && Get(arguments, "greeting").Str?
               && Get(arguments, "attempt").Int? && -9007199254740991 <= Get(arguments, "attempt").n <= 9007199254740991
            then Good(id, ToolOutput(None, Some(Obj(arguments)), false))
            else Bad(id, -32602, InvalidArguments, 200)
  {
  }

  // Progress is reported to the token given, and logged when a level is.
  lemma ProgressRuns(srv: Server, id: Json, arguments: Fields, params: Fields, meta: Fields)
    ensures KnownTool(srv, "progress")
    ensures var token := Get(meta, "progressToken");
            var progress := if token.Str? || token.Int? then [Notification("notifications/progress", token)] else [];
            var log := if Get(meta, "io.modelcontextprotocol/logLevel").Str?
                       then [Notification("notifications/message", Str("info"))] else [];
            RunTool(srv, id, "progress", arguments, params, meta) ==
            Plan(Some(Result(id, ToolOutput(Some("progress complete"), None, false))), progress + log, 200, progress + log != [])
  {
    assert META_PREFIX + "logLevel" == "io.modelcontextprotocol/logLevel";
  }

  lemma LargeIntegerRuns(srv: Server, id: Json, arguments: Fields, params: Fields, meta: Fields)
    ensures RunTool(srv, id, "review_large_integer", arguments, params, meta) ==
            if Get(arguments, "value").Int? && 9007199254740993 <= Get(arguments, "value").n <= 9223372036854775807
            then Good(id, ToolOutput(None, Some(Obj(map["value" := Get(arguments, "value")])), false))
            else Bad(id, -32602, InvalidArguments, 200)
    ensures RunTool(srv, id, "review_protocol_env", arguments, params, meta) ==
            Good(id, ToolOutput(None, Some(Obj(map["value" := if srv.env.Some? then Str(srv.env.value) else Null])), false))
  {
  }

  // ----- Which tools there are -----

  // The two review profiles add tools of their own, two of them only in modern mode.
  lemma ReviewTools(srv: Server, name: string)
    requires !srv.profile.CatalogMax? && !srv.profile.CatalogOverLimit?
    ensures KnownTool(srv, name) <==>
            || name in {"client_metadata", "echo", "fail", "header_echo", "progress"}
            || (srv.mode.Modern? && name == "request_input")
            || ((srv.profile == Review || srv.profile == RepeatedCursor)
                && (|| name in {"review_large_integer", "review_protocol_env"}
                    || (srv.mode.Modern? && name in {"review_integer_elicitation", "review_mrtr_cap"})))
  {
  }

  lemma LastDigit(i: nat)
    ensures i == 10 * (i / 10) + i % 10
  {
  }

  lemma FourDigits(i: nat)
    requires i < 10000
    ensures i == 1000 * (i / 1000 % 10) + 100 * (i / 100 % 10) + 10 * (i / 10 % 10) + i % 10
  {
    LastDigit(i);
    LastDigit(i / 10);
    LastDigit(i / 100);
    assert i / 10 / 10 == i / 100 && i / 100 / 10 == i / 1000;
    assert i / 1000 < 10;
  }

  lemma DigitsDiffer(i: nat, j: nat)
    requires Digit(i) == Digit(j)
    ensures i % 10 == j % 10
  {
  }

  lemma CatalogNamesDiffer(i: nat, j: nat)
    requires i < 10000 && j < 10000 && CatalogName(i) == CatalogName(j)
    ensures i == j
  {
    var a, b := CatalogName(i), CatalogName(j);
    assert |"catalog_boundary_"| == 17;
    assert a[17] == b[17] && a[18] == b[18] && a[19] == b[19] && a[20] == b[20];
    DigitsDiffer(i / 1000, j / 1000);
    DigitsDiffer(i / 100, j / 100);
    DigitsDiffer(i / 10, j / 10);
    DigitsDiffer(i, j);
    FourDigits(i);
    FourDigits(j);
  }

  // The catalog profiles fill the list to 1024 tools, or to one more.
  lemma CatalogTools(srv: Server, i: nat)
    requires (srv.profile.CatalogMax? || srv.profile.CatalogOverLimit?) && i < 10000
    ensures KnownTool(srv, CatalogName(i)) <==>
            i + (if srv.mode.Modern? then 6 else 5) < (if srv.profile.CatalogMax? then 1024 else 1025)
  {
    var name := CatalogName(i);
    assert name[1] == 'a' && name[0] == 'c' && name[16] == '_';
    assert "client_metadata"[1] == 'l' && "echo"[0] == 'e' && "fail"[0] == 'f' && "header_echo"[0] == 'h';
    assert "progress"[0] == 'p' && "request_input"[0] == 'r';
    forall j: nat | j < 1020 && name == CatalogName(j)
      ensures j == i
    {
      CatalogNamesDiffer(i, j);
    }
  }

  // ----- A legacy conversation over stdio -----

  // What stdio has written for line `k`, and when the connection is ready for it.
  lemma LineAfter(srv: Server, lines: seq<Body>, k: nat, m: Fields)
    requires !srv.mode.Modern? && k < |lines| && lines[k] == Decoded(Obj(m))
    ensures |Stdio(srv, FRESH, lines)| == |lines|
    ensures var conn := StdioConn(srv, FRESH, lines[..k]);
            var plan := Handle(srv, Obj(m), conn).1;
            && (conn.initialized <==> ShookHands(lines[..k]))
            && Stdio(srv, FRESH, lines)[k] ==
               plan.notifications + if plan.reply.Some? then [Answer(plan.reply.value)] else []
  {
    StdioAt(srv, FRESH, lines, k);
    InitializedIffHandshake(srv, lines[..k]);
  }

  lemma AnswerAt(srv: Server, lines: seq<Body>, k: nat, m: Fields, reply: Reply, status: nat)
    requires !srv.mode.Modern? && k < |lines| && lines[k] == Decoded(Obj(m))
    requires Handle(srv, Obj(m), StdioConn(srv, FRESH, lines[..k])).1 == Plan(Some(reply), [], status, false)
    ensures |Stdio(srv, FRESH, lines)| == |lines| && Stdio(srv, FRESH, lines)[k] == [Answer(reply)]
  {
    LineAfter(srv, lines, k, m);
    var none: seq<Outgoing> := [];
    assert none + [Answer(reply)] == [Answer(reply)];
  }

  // A well-formed initialize is answered with the server's own version at any time.
  lemma InitializeIsNegotiated(srv: Server, lines: seq<Body>, k: nat, m: Fields)
    requires !srv.mode.Modern? && k < |lines| && lines[k] == Decoded(Obj(m))
    requires IsRequest(m, "initialize") && Get(ParamsIn(m), "protocolVersion").Str?
    ensures |Stdio(srv, FRESH, lines)| == |lines|
    ensures Stdio(srv, FRESH, lines)[k] ==
            [Answer(Result(m["id"], Negotiated(if srv.mode.Shipping? then "2025-06-18" else "2025-11-25")))]
  {
    LegacyInitialize(srv, m, StdioConn(srv, FRESH, lines[..k]));
    AnswerAt(srv, lines, k, m, Result(m["id"], Negotiated(if srv.mode.Shipping? then "2025-06-18" else "2025-11-25")), 200);
  }

  // The fixed results.
  function PlainResult(rpc: string): Payload {
    if rpc == "tools/list" then ToolPage(0, None, None)
    else if rpc == "resources/templates/list" then ResourceTemplates
    else if rpc == "prompts/list" then Prompts
    else Acknowledged
  }

  // Each of the plain methods gets its result exactly when the handshake was made before it, and is
  // told to wait otherwise.
  lemma PlainMethodsAreServedIff(srv: Server, lines: seq<Body>, k: nat, m: Fields, rpc: string)
    requires !srv.mode.Modern? && k < |lines| && lines[k] == Decoded(Obj(m)) && IsRequest(m, rpc) && Plain(rpc)
    ensures |Stdio(srv, FRESH, lines)| == |lines|
    ensures Stdio(srv, FRESH, lines)[k] ==
            [Answer(if ShookHands(lines[..k]) then Result(m["id"], PlainResult(rpc)) else Error(m["id"], -32600, NotInitialized))]
    ensures HasResult(Stdio(srv, FRESH, lines)[k]) <==> ShookHands(lines[..k])
  {
    var conn := StdioConn(srv, FRESH, lines[..k]);
    LineAfter(srv, lines, k, m);
    PlainIsNoOpener(rpc);
    if conn.initialized {
      LegacyReady(srv, m, rpc, conn);
      ServesPlain(srv, m["id"], ParamsIn(m));
      AnswerAt(srv, lines, k, m, Result(m["id"], PlainResult(rpc)), 200);
    } else {
      LegacyTooEarly(srv, m, rpc, conn);
      AnswerAt(srv, lines, k, m, Error(m["id"], -32600, NotInitialized), 200);
    }
  }

  lemma PlainIsNoOpener(rpc: string)
    requires Plain(rpc)
    ensures !Opens(rpc)
  {
  }

  // The methods a legacy connection knows.
  const LEGACY_METHODS := {"initialize", "ping", "logging/setLevel", "tools/list", "tools/call", "resources/list",
                           "resources/templates/list", "resources/read", "prompts/list", "prompts/get"}

  lemma ServesKnown(srv: Server, id: Json, rpc: string, params: Fields)
    ensures rpc == "tools/call" ==> ServeLegacy(srv, id, rpc, params) == CallTool(srv, id, params, map[])
    ensures rpc == "resources/list" ==> ServeLegacy(srv, id, rpc, params) == ListResources(id, params)
    ensures rpc == "resources/read" ==> ServeLegacy(srv, id, rpc, params) == ReadResource(id, params)
    ensures rpc == "prompts/get" ==> ServeLegacy(srv, id, rpc, params) == GetPrompt(id, params)
    ensures rpc !in LEGACY_METHODS ==> ServeLegacy(srv, id, rpc, params) == Bad(id, -32601, UnknownMethod(rpc), 404)
  {
  }

  // After the handshake, method not found is said of exactly the methods outside the list.
  lemma OnlyUnknownMethodsAreNotFound(srv: Server, m: Fields, rpc: string, conn: Conn)
    requires !srv.mode.Modern? && IsRequest(m, rpc) && conn.initialized
    ensures var reply := Handle(srv, Obj(m), conn).1.reply.value;
            (reply.Error? && reply.code == -32601) <==> rpc !in LEGACY_METHODS
    ensures rpc !in LEGACY_METHODS ==> Handle(srv, Obj(m), conn) == (conn, Bad(m["id"], -32601, UnknownMethod(rpc), 404))
  {
    if rpc == "initialize" {
      LegacyInitialize(srv, m, conn);
    } else if rpc == "server/discover" {
      LegacyDiscover(srv, m, conn);
      DiscoveryIsNotLegacy();
    } else {
      LegacyReady(srv, m, rpc, conn);
      ServesKnown(srv, m["id"], rpc, ParamsIn(m));
      ServesPlain(srv, m["id"], ParamsIn(m));
    }
  }

  // What a legacy request does to its connection and what it is answered, by its method.
  ghost predicate LegacyAnswer(id: Json, shipping: bool, rpc: string, params: Fields, conn: Conn, next: Conn, plan: Plan) {
    && RepliesTo(plan, id)
    && (rpc == "initialize" && Get(params, "protocolVersion").Str? ==>
          && next == Conn(true, conn.initialized)
          && plan == Good(id, Negotiated(if shipping then "2025-06-18" else "2025-11-25")))
    && (rpc == "initialize" && !Get(params, "protocolVersion").Str? ==>
          next == conn && plan == Bad(id, -32602, NoProtocolVersion, 200))
    && (rpc == "server/discover" ==> next == conn && plan == Bad(id, -32601, UnknownMethod(rpc), 404))
    && (rpc !in {"initialize", "server/discover"} ==>
          && next == conn
          && (!conn.initialized ==> plan == Bad(id, -32600, NotInitialized, 200))
          && (conn.initialized ==>
                && (rpc in {"ping", "logging/setLevel"} ==> plan == Good(id, Acknowledged))
                && (rpc == "tools/list" ==> plan == Good(id, ToolPage(0, None, None)))
                && (rpc == "resources/templates/list" ==> plan == Good(id, ResourceTemplates))
                && (rpc == "prompts/list" ==> plan == Good(id, Prompts))
                && (rpc in {"tools/call", "resources/list", "resources/read", "prompts/get"} ==> Finds(plan))
                && (rpc !in LEGACY_METHODS ==> plan == Bad(id, -32601, UnknownMethod(rpc), 404))))
  }

  lemma LegacyAnswers(srv: Server, id: Json, rpc: string, params: Fields, conn: Conn)
    requires !srv.mode.Modern?
    ensures var (next, plan) := HandleLegacy(srv, id, rpc, params, conn);
            LegacyAnswer(id, srv.mode.Shipping?, rpc, params, conn, next, plan)
  {
    DiscoveryIsNotLegacy();
    ServesPlain(srv, id, params);
    ServesKnown(srv, id, rpc, params);
  }

  lemma DiscoveryIsNotLegacy()
    ensures "server/discover" !in LEGACY_METHODS
  {
    assert "server/discover"[0] == 's';
  }

  // An echo gives its text back.
  lemma EchoReturnsItsText(srv: Server, lines: seq<Body>, k: nat, m: Fields, arguments: Fields, text: string)
    requires !srv.mode.Modern? && k < |lines| && lines[k] == Decoded(Obj(m)) && IsRequest(m, "tools/call")
    requires IsCall(ParamsIn(m), "echo", arguments) && Get(arguments, "text") == Str(text)
    ensures |Stdio(srv, FRESH, lines)| == |lines|
    ensures Stdio(srv, FRESH, lines)[k] ==
            [Answer(if ShookHands(lines[..k])
                    then Result(m["id"], ToolOutput(Some(text), Some(Obj(map["text" := Str(text)])), false))
                    else Error(m["id"], -32600, NotInitialized))]
  {
    var conn := StdioConn(srv, FRESH, lines[..k]);
    LineAfter(srv, lines, k, m);
    CallIsNoOpener();
    if conn.initialized {
      LegacyReady(srv, m, "tools/call", conn);
      ServesKnown(srv, m["id"], "tools/call", ParamsIn(m));
      CallRuns(srv, m["id"], ParamsIn(m), map[], "echo", arguments);
      EchoRuns(srv, m["id"], arguments, ParamsIn(m), map[]);
      AnswerAt(srv, lines, k, m, Result(m["id"], ToolOutput(Some(text), Some(Obj(map["text" := Str(text)])), false)), 200);
    } else {
      LegacyTooEarly(srv, m, "tools/call", conn);
      AnswerAt(srv, lines, k, m, Error(m["id"], -32600, NotInitialized), 200);
    }
  }

  lemma CallIsNoOpener()
    ensures !Opens("tools/call")
  {
    assert "tools/call"[0] == 't' && "initialize"[0] == 'i' && "server/discover"[0] == 's';
  }

  // ----- The other legacy methods -----

  // A call of a known tool runs it on the arguments sent, without metadata.
  lemma LegacyToolCalls(srv: Server, m: Fields, conn: Conn, name: string, arguments: Fields)
    requires !srv.mode.Modern? && IsRequest(m, "tools/call") && IsCall(ParamsIn(m), name, arguments) && conn.initialized
    ensures var (next, plan) := Handle(srv, Obj(m), conn);
            var id := m["id"];
            && next == conn
            && (name == "client_metadata" ==> plan == Good(id, ToolOutput(None, Some(Obj(map[])), false)))
            && (name == "fail" ==> plan == Good(id, ToolOutput(Some("Intentional tool execution failure"), None, true)))
            && (name == "progress" ==> plan == Good(id, ToolOutput(Some("progress complete"), None, false)))
            && (name == "header_echo" && HeaderEchoArguments(arguments) ==> plan == Good(id, ToolOutput(None, Some(Obj(arguments)), false)))
            && (name == "header_echo" && !HeaderEchoArguments(arguments) ==> plan == Bad(id, -32602, InvalidArguments, 200))
            && (!KnownTool(srv, name) ==> plan == Bad(id, -32602, UnknownTool(name), 200))
  {
    var params, none := ParamsIn(m), map[];
    CallIsNoOpener();
    LegacyReady(srv, m, "tools/call", conn);
    ServesKnown(srv, m["id"], "tools/call", params);
    CallRuns(srv, m["id"], params, none, name, arguments);
    MetadataRuns(srv, m["id"], arguments, params, none);
    HeaderEchoRuns(srv, m["id"], arguments, params, none);
    ProgressRuns(srv, m["id"], arguments, params, none);
  }

  lemma LegacyReads(srv: Server, m: Fields, rpc: string, conn: Conn)
    requires !srv.mode.Modern? && IsRequest(m, rpc) && conn.initialized
    ensures var (next, plan) := Handle(srv, Obj(m), conn);
            var id, cursor, uri := m["id"], Get(ParamsIn(m), "cursor"), Get(ParamsIn(m), "uri");
            && (rpc == "resources/list" && cursor == Null ==>
                  plan == Good(id, ResourcePage("test://fixture/readme", Some("page-2"))))
            && (rpc == "resources/list" && cursor == Str("page-2") ==> plan == Good(id, ResourcePage(HELLO_URI, None)))
            && (rpc == "resources/list" && cursor != Null && cursor != Str("page-2") ==> plan == Bad(id, -32602, InvalidCursor, 200))
            && (rpc == "resources/read" && uri in {Str("test://fixture/readme"), Str(HELLO_URI)} ==> plan == Good(id, Contents(uri.s)))
            && (rpc == "resources/read" && uri !in {Str("test://fixture/readme"), Str(HELLO_URI)} ==>
                  plan == Bad(id, -32602, ResourceNotFound, 200))
  {
    if rpc == "resources/list" || rpc == "resources/read" {
      ReadsAreNoOpeners(rpc);
      LegacyReady(srv, m, rpc, conn);
      ServesKnown(srv, m["id"], rpc, ParamsIn(m));
      ResourcePages(m["id"], ParamsIn(m));
      ResourceContents(m["id"], ParamsIn(m));
    }
  }

  lemma ReadsAreNoOpeners(rpc: string)
    requires rpc in {"resources/list", "resources/read", "prompts/get"}
    ensures !Opens(rpc)
  {
    assert rpc[0] == 'r' || rpc[0] == 'p';
    assert "initialize"[0] == 'i' && "server/discover"[0] == 's';
  }

  lemma LegacyGreets(srv: Server, m: Fields, conn: Conn, name: string)
    requires !srv.mode.Modern? && IsRequest(m, "prompts/get") && conn.initialized
    ensures Handle(srv, Obj(m), conn).1 == Good(m["id"], Greeting(name)) <==>
            && Get(ParamsIn(m), "name") == Str("fixture.greeting")
            && "arguments" in ParamsIn(m) && ParamsIn(m)["arguments"].Obj?
            && Get(ParamsIn(m)["arguments"].fields, "name") == Str(name)
  {
    ReadsAreNoOpeners("prompts/get");
    LegacyReady(srv, m, "prompts/get", conn);
    ServesKnown(srv, m["id"], "prompts/get", ParamsIn(m));
    PromptGreets(m["id"], ParamsIn(m), name);
  }

  // ----- Modern requests -----

  function MetaIn(m: Fields): Json {
    Get(ParamsIn(m), "_meta")
  }

  predicate HasMeta(m: Fields) {
    && MetaIn(m).Obj?
    && Get(MetaIn(m).fields, "io.modelcontextprotocol/protocolVersion").Str?
    && Get(MetaIn(m).fields, "io.modelcontextprotocol/clientCapabilities").Obj?
  }

  predicate SpeaksModern(m: Fields) {
    HasMeta(m) && Get(MetaIn(m).fields, "io.modelcontextprotocol/protocolVersion") == Str("2026-07-28")
  }

  lemma MetaNames()
    ensures META_PREFIX + "protocolVersion" == "io.modelcontextprotocol/protocolVersion"
    ensures META_PREFIX + "clientCapabilities" == "io.modelcontextprotocol/clientCapabilities"
  {
  }

  lemma ModernHandles(srv: Server, m: Fields, rpc: string, conn: Conn)
    requires srv.mode.Modern? && IsRequest(m, rpc)
    ensures Handle(srv, Obj(m), conn) == (conn, HandleModern(srv, m["id"], rpc, ParamsIn(m)))
  {
  }

  // Metadata is demanded of every request but initialize, which this version refuses.
  lemma ModernGate(srv: Server, m: Fields, rpc: string, conn: Conn)
    requires srv.mode.Modern? && IsRequest(m, rpc)
    ensures var (next, plan) := Handle(srv, Obj(m), conn);
            && next == conn
            && (rpc == "initialize" ==> plan == Bad(m["id"], -32601, InitializeUnsupported, 404))
            && (rpc != "initialize" && !MetaIn(m).Obj? ==> plan == Bad(m["id"], -32602, NoMeta, 400))
            && (rpc != "initialize" && MetaIn(m).Obj? && !HasMeta(m) ==> plan == Bad(m["id"], -32602, IncompleteMeta, 400))
            && (rpc != "initialize" && HasMeta(m) && !SpeaksModern(m) ==> plan == Bad(m["id"], -32022, UnsupportedVersion, 400))
  {
    ModernHandles(srv, m, rpc, conn);
    MetaNames();
  }

  const MODERN_METHODS := {"server/discover", "tools/list", "tools/call", "resources/list", "resources/templates/list",
                           "resources/read", "prompts/list", "prompts/get", "subscriptions/listen"}

  lemma ModernServes(srv: Server, id: Json, rpc: string, params: Fields, meta: Fields)
    requires Get(params, "_meta") == Obj(meta)
    requires Get(meta, "io.modelcontextprotocol/protocolVersion") == Str("2026-07-28")
    requires Get(meta, "io.modelcontextprotocol/clientCapabilities").Obj? && rpc != "initialize"
    ensures var plan := HandleModern(srv, id, rpc, params);
            && (rpc == "server/discover" ==> plan == Discover(srv, id))
            && (rpc == "tools/list" ==> plan == ListTools(srv, id, params))
            && (rpc == "tools/call" ==> plan == CallTool(srv, id, params, meta))
            && (rpc == "resources/list" ==> plan == ListResources(id, params))
            && (rpc == "resources/templates/list" ==> plan == Good(id, ResourceTemplates))
            && (rpc == "resources/read" ==> plan == ReadResource(id, params))
            && (rpc == "prompts/list" ==> plan == Good(id, Prompts))
            && (rpc == "prompts/get" ==> plan == GetPrompt(id, params))
            && (rpc == "subscriptions/listen" ==> plan == Listen(id, params))
            && (rpc !in MODERN_METHODS ==> plan == Bad(id, -32601, UnknownMethod(rpc), 404))
  {
    MetaNames();
  }

  lemma ModernFinds(srv: Server, id: Json, rpc: string, params: Fields, meta: Fields)
    requires Get(params, "_meta") == Obj(meta)
    requires Get(meta, "io.modelcontextprotocol/protocolVersion") == Str("2026-07-28")
    requires Get(meta, "io.modelcontextprotocol/clientCapabilities").Obj? && rpc in MODERN_METHODS && rpc != "initialize"
    ensures Finds(HandleModern(srv, id, rpc, params))
  {
    ModernServes(srv, id, rpc, params, meta);
  }

  lemma InitializeIsNotModern()
    ensures "initialize" !in MODERN_METHODS
  {
    assert "initialize"[0] == 'i';
  }

  // With good metadata, too, method not found is said of exactly the methods outside the list.
  lemma OnlyUnknownModernMethodsAreNotFound(srv: Server, m: Fields, rpc: string, conn: Conn)
    requires srv.mode.Modern? && IsRequest(m, rpc) && SpeaksModern(m)
    ensures var reply := Handle(srv, Obj(m), conn).1.reply.value;
            (reply.Error? && reply.code == -32601) <==> rpc !in MODERN_METHODS
  {
    ModernHandles(srv, m, rpc, conn);
    if rpc == "initialize" {
      InitializeIsNotModern();
      ModernGate(srv, m, rpc, conn);
    } else {
      ModernServes(srv, m["id"], rpc, ParamsIn(m), MetaIn(m).fields);
      if rpc in MODERN_METHODS {
        ModernFinds(srv, m["id"], rpc, ParamsIn(m), MetaIn(m).fields);
      }
    }
  }

  lemma ModernPlain(srv: Server, m: Fields, rpc: string, conn: Conn)
    requires srv.mode.Modern? && IsRequest(m, rpc) && SpeaksModern(m) && rpc != "initialize"
    ensures var (next, plan) := Handle(srv, Obj(m), conn);
            var id, cursor := m["id"], Get(ParamsIn(m), "cursor");
            var paged := srv.profile.Review? || srv.profile.RepeatedCursor?;
            && next == conn
            && (rpc == "prompts/list" ==> plan == Good(id, Prompts))
            && (rpc == "resources/templates/list" ==> plan == Good(id, ResourceTemplates))
            && (rpc == "tools/list" && !paged ==> plan == Good(id, ToolPage(0, None, None)))
            && (rpc == "tools/list" && paged && cursor == Null ==> plan == Good(id, ToolPage(0, Some(2), Some("review-page-2"))))
            && (rpc == "tools/list" && srv.profile.Review? && cursor == Str("review-page-2") ==>
                  plan == Good(id, ToolPage(2, None, None)))
            && (rpc == "tools/list" && srv.profile.RepeatedCursor? && cursor == Str("review-page-2") ==>
                  plan == Good(id, ToolPage(2, None, Some("review-page-2"))))
            && (rpc == "tools/list" && paged && cursor != Null && cursor != Str("review-page-2") ==>
                  plan == Bad(id, -32602, InvalidCursor, 200))
  {
    ModernHandles(srv, m, rpc, conn);
    ModernServes(srv, m["id"], rpc, ParamsIn(m), MetaIn(m).fields);
  }

  lemma ModernDiscovery(srv: Server, m: Fields, conn: Conn)
    requires srv.mode.Modern? && IsRequest(m, "server/discover") && SpeaksModern(m)
    ensures Handle(srv, Obj(m), conn) ==
            (conn, Good(if srv.profile.NullDiscoveryId? then Null
                        else if srv.profile.MismatchedDiscoveryId? then Str("review-mismatched-" + srv.show(m["id"]))
                        else m["id"], Discovery))
  {
    assert "server/discover"[0] == 's' && "initialize"[0] == 'i';
    ModernHandles(srv, m, "server/discover", conn);
    ModernServes(srv, m["id"], "server/discover", ParamsIn(m), MetaIn(m).fields);
  }

  lemma ModernCall(srv: Server, m: Fields, conn: Conn, name: string, arguments: Fields)
    requires srv.mode.Modern? && IsRequest(m, "tools/call") && SpeaksModern(m) && IsCall(ParamsIn(m), name, arguments)
    ensures Handle(srv, Obj(m), conn) ==
            (conn, if KnownTool(srv, name) then RunTool(srv, m["id"], name, arguments, ParamsIn(m), MetaIn(m).fields)
                   else Bad(m["id"], -32602, UnknownTool(name), 200))
  {
    CallIsNoOpener();
    ModernHandles(srv, m, "tools/call", conn);
    ModernServes(srv, m["id"], "tools/call", ParamsIn(m), MetaIn(m).fields);
    CallRuns(srv, m["id"], ParamsIn(m), MetaIn(m).fields, name, arguments);
  }

  lemma ModernEcho(srv: Server, m: Fields, conn: Conn, arguments: Fields, text: string)
    requires srv.mode.Modern? && IsRequest(m, "tools/call") && SpeaksModern(m)
    requires IsCall(ParamsIn(m), "echo", arguments) && Get(arguments, "text") == Str(text)
    ensures Handle(srv, Obj(m), conn) ==
            (conn, Good(m["id"], ToolOutput(Some(text), Some(Obj(map["text" := Str(text)])), false)))
  {
    ModernCall(srv, m, conn, "echo", arguments);
    EchoRuns(srv, m["id"], arguments, ParamsIn(m), MetaIn(m).fields);
  }

  // ----- Asking for input -----

  predicate Elicits(meta: Fields) {
    var capabilities := Get(meta, "io.modelcontextprotocol/clientCapabilities");
    capabilities.Obj? && Get(capabilities.fields, "elicitation").Obj?
  }

  lemma ElicitsMeans(meta: Fields)
    ensures HasElicitation(meta) <==> Elicits(meta)
  {
    MetaNames();
  }

  // The retry of a call whose input was given as `answer` under `key`.
  predicate Retries(params: Fields, state: string, key: string, answer: Json) {
    && Get(params, "requestState") == Str(state) && Get(params, "inputResponses").Obj?
    && Get(params["inputResponses"].fields, key) == answer
  }

  predicate Agrees(answer: Json, key: string, value: Json) {
    && answer.Obj? && Get(answer.fields, "action") == Str("accept")
    && Get(answer.fields, "content").Obj? && Get(answer.fields["content"].fields, key) == value
  }

  // The first call asks; a retry that gives the state back with an accepted text returns the text,
  // and every other retry is refused.
  lemma InputRoundTrips(srv: Server, id: Json, arguments: Fields, params: Fields, meta: Fields, text: string)
    ensures var plan := RunTool(srv, id, "request_input", arguments, params, meta);
            && (!Elicits(meta) ==> plan == Bad(id, -32021, NoElicitationSupport, 400))
            && (Elicits(meta) && Get(params, "inputResponses") == Null && Get(params, "requestState") == Null ==>
                  plan == Good(id, InputRequired(1, "opaque:request_input:v1")))
            && (Elicits(meta) && !(Get(params, "inputResponses") == Null && Get(params, "requestState") == Null) ==>
                  (plan == Good(id, ToolOutput(Some(text), Some(Obj(map["confirmation" := Str(text)])), false)) <==>
                   exists answer :: Retries(params, "opaque:request_input:v1", "confirmation", answer)
                                    && Agrees(answer, "confirmation", Str(text))))
            && (plan.reply.value.Error? ==> plan.reply.value.code in {-32021, -32602})
  {
    ElicitsMeans(meta);
    if Elicits(meta) && !(Get(params, "inputResponses") == Null && Get(params, "requestState") == Null) {
      RequestInputMeans(id, params, meta, text);
    }
  }

  lemma IntegerInputMeans(id: Json, params: Fields, meta: Fields, n: int)
    requires HasElicitation(meta) && !(Get(params, "inputResponses") == Null && Get(params, "requestState") == Null)
    ensures IntegerElicitation(id, params, meta) == Good(id, ToolOutput(None, Some(Obj(map["value" := Int(n)])), false)) <==>
            && 9007199254740993 <= n <= 9223372036854775807
            && exists answer :: Retries(params, "opaque:review_integer_elicitation:v1", "large_integer", answer)
                                && Agrees(answer, "value", Int(n))
  {
    var responses := Get(params, "inputResponses");
    if responses.Obj? {
      var answer := Get(responses.fields, "large_integer");
      assert Get(params, "requestState") == Str("opaque:review_integer_elicitation:v1") ==>
          Retries(params, "opaque:review_integer_elicitation:v1", "large_integer", answer);
    }
    assert map["value" := Int(n)]["value"] == Int(n);
  }

  lemma IntegerIsAsked(srv: Server, id: Json, arguments: Fields, params: Fields, meta: Fields)
    ensures var plan := RunTool(srv, id, "review_integer_elicitation", arguments, params, meta);
            && (!Elicits(meta) ==> plan == Bad(id, -32021, NoElicitationSupport, 400))
            && (Elicits(meta) && Get(params, "inputResponses") == Null && Get(params, "requestState") == Null ==>
                  plan == Good(id, InputRequired(1, "opaque:review_integer_elicitation:v1")))
  {
    ElicitsMeans(meta);
  }

  // The same for the integer, which must come back exactly.
  lemma IntegerRoundTrips(srv: Server, id: Json, arguments: Fields, params: Fields, meta: Fields, n: int)
    requires Elicits(meta) && !(Get(params, "inputResponses") == Null && Get(params, "requestState") == Null)
    ensures RunTool(srv, id, "review_integer_elicitation", arguments, params, meta) ==
            Good(id, ToolOutput(None, Some(Obj(map["value" := Int(n)])), false)) <==>
            && 9007199254740993 <= n <= 9223372036854775807
            && exists answer :: Retries(params, "opaque:review_integer_elicitation:v1", "large_integer", answer)
                                && Agrees(answer, "value", Int(n))
  {
    ElicitsMeans(meta);
    IntegerInputMeans(id, params, meta, n);
  }

  lemma ManyInputsAreAsked(srv: Server, id: Json, arguments: Fields, params: Fields, meta: Fields)
    ensures RunTool(srv, id, "review_mrtr_cap", arguments, params, meta) ==
            if Elicits(meta) then Good(id, InputRequired(65, "opaque:review_mrtr_cap:v1"))
            else Bad(id, -32021, NoElicitationSupport, 400)
  {
    ElicitsMeans(meta);
  }

  // ----- Subscriptions -----

  function Flag(wanted: Fields, flag: string, rpc: string, id: Json): seq<Outgoing> {
    if Get(wanted, flag) == Bool(true) then [Notification(rpc, id)] else []
  }

  // A subscription is acknowledged, told of each change it asked for and of each known resource in
  // its list, and closed.
  lemma ListenNotifies(id: Json, params: Fields)
    ensures !Get(params, "notifications").Obj? ==> Listen(id, params) == Bad(id, -32602, NoFilter, 200)
    ensures Get(params, "notifications").Obj? ==>
              var wanted := Get(params, "notifications").fields;
              var first := [Notification("notifications/subscriptions/acknowledged", id)]
                + Flag(wanted, "toolsListChanged", "notifications/tools/list_changed", id)
                + Flag(wanted, "promptsListChanged", "notifications/prompts/list_changed", id)
                + Flag(wanted, "resourcesListChanged", "notifications/resources/list_changed", id);
              Listen(id, params) == Plan(Some(Result(id, SubscriptionClosed)), first + Updates(wanted), 200, true)
  {
  }

  lemma UpdatesAreListed(wanted: Fields, uri: Json)
    ensures Notification("notifications/resources/updated", uri) in Updates(wanted) <==>
            var listed := Get(wanted, "resourceSubscriptions");
            && listed.Arr? && (forall v :: v in listed.items ==> v.Str?)
            && uri in listed.items && (uri == Str("test://fixture/readme") || uri == Str(HELLO_URI))
  {
    var listed := Get(wanted, "resourceSubscriptions");
    if listed.Arr? && forall v :: v in listed.items ==> v.Str? {
      KnownResourcesAre(listed.items, uri);
      var uris := KnownResources(listed.items);
      if uri in uris {
        var i :| 0 <= i < |uris| && uris[i] == uri;
        assert Updates(wanted)[i] == Notification("notifications/resources/updated", uri);
      }
    }
  }

  lemma {:induction false} KnownResourcesAre(items: seq<Json>, uri: Json)
    ensures uri in KnownResources(items) <==>
            uri in items && (uri == Str("test://fixture/readme") || uri == Str(HELLO_URI))
  {
    if items != [] {
      KnownResourcesAre(items[1..], uri);
    }
  }

  lemma RequestInputMeans(id: Json, params: Fields, meta: Fields, text: string)
    requires HasElicitation(meta) && !(Get(params, "inputResponses") == Null && Get(params, "requestState") == Null)
    ensures RequestInput(id, params, meta) == Good(id, ToolOutput(Some(text), Some(Obj(map["confirmation" := Str(text)])), false)) <==>
            exists answer :: Retries(params, "opaque:request_input:v1", "confirmation", answer)
                             && Agrees(answer, "confirmation", Str(text))
  {
    var responses := Get(params, "inputResponses");
    if responses.Obj? {
      var answer := Get(responses.fields, "confirmation");
      assert Get(params, "requestState") == Str("opaque:request_input:v1") ==>
          Retries(params, "opaque:request_input:v1", "confirmation", answer);
    }
  }

  // ----- Over HTTP -----

  // A POST that is not looked at, by the first thing wrong with it.
  lemma PostRefusals(srv: Server, table: Table, req: Request)
    requires req.Post?
    ensures var (next, reply) := Serve(srv, table, req);
            && (!req.atEndpoint ==> reply == HttpReply(404, [Answer(Error(Null, -32601, UnknownEndpoint))], None))
            && (req.atEndpoint && !req.originAllowed ==>
                  reply == HttpReply(403, [Answer(Error(Null, -32600, OriginNotAllowed))], None))
            && (req.atEndpoint && req.originAllowed && !req.jsonContent ==>
                  reply == HttpReply(415, [Answer(Error(Null, -32600, NotJson))], None))
            && (req.atEndpoint && req.originAllowed && req.jsonContent && !req.lengthAccepted ==>
                  reply == HttpReply(400, [Answer(Error(Null, -32600, InvalidLength))], None))
            && (Admitted(req) && req.body.Garbled? ==>
                  reply == HttpReply(400, [Answer(Error(Null, -32700, ParseError))], None))
            && (Admitted(req) && req.body.Decoded? && !req.body.json.Obj? ==>
                  reply == HttpReply(400, [Answer(Error(Null, -32600, NotAnObject))], None))
            && (!(Admitted(req) && req.body.Decoded? && req.body.json.Obj?) ==> next == table)
  {
  }

  // DELETE and the sessions of a legacy server.
  lemma DeleteReplies(srv: Server, table: Table, req: Request)
    requires req.Delete?
    ensures Serve(srv, table, req) ==
            if !req.atEndpoint || srv.mode.Modern? then (table, HttpReply(405, [], None))
            else if req.session.Some? && req.session.value in table
            then (table - {req.session.value}, HttpReply(200, [], None))
            else (table, HttpReply(404, [], None))
  {
  }

  // A message on a live session is answered with its plan's status under the session's id.
  lemma SessionReplies(srv: Server, table: Table, s: string, req: Request)
    requires !srv.mode.Modern? && Consults(s, req) && s in table
    ensures var (next, reply) := Serve(srv, table, req);
            var (conn, plan) := Handle(srv, req.body.json, table[s]);
            next == table[s := conn] && reply.status == plan.status && reply.session == Some(s)
  {
  }
}
