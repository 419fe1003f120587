// The MCP fixture server: one JSON-RPC message in, one response plan out. Only a legacy
// connection has state.
module FixtureServer {
  import opened Prelude
  import opened Json

  datatype Mode = Shipping | Legacy | Modern

  function Version(mode: Mode): string {
    match mode
    case Shipping => "2025-06-18"
    case Legacy => "2025-11-25"
    case Modern => "2026-07-28"
  }

  datatype Profile =
    | Default
    | Review
    | RepeatedCursor
    | MismatchedDiscoveryId
    | NullDiscoveryId
    | SseCrComments
    | SseCommentFlood
    | CatalogMax
    | CatalogOverLimit

  // `env` is the value of CODEX_MCP_PROTOCOL_VERSION in the server's environment, and `show`
  // is Python's `str` on decoded values.
  datatype Server = Server(mode: Mode, profile: Profile, env: Option<string>, show: Json -> string)

  // A value of `ConnectionState`.
  datatype Conn = Conn(initializeSeen: bool, initialized: bool)

  const FRESH := Conn(false, false)

  const PARSE_ERROR := -32700
  const INVALID_REQUEST := -32600
  const METHOD_NOT_FOUND := -32601
  const INVALID_PARAMS := -32602
  const HEADER_MISMATCH := -32020
  const MISSING_REQUIRED_CLIENT_CAPABILITY := -32021
  const UNSUPPORTED_PROTOCOL_VERSION := -32022

  const OK := 200
  const ACCEPTED := 202
  const BAD_REQUEST := 400
  const NOT_FOUND := 404

  const MAX_CATALOG_ITEMS := 1024
  const REVIEW_EXACT_INTEGER := 9007199254740993
  const REVIEW_MAX_INTEGER := 9223372036854775807
  const MAX_SAFE_INTEGER := 9007199254740991
  const REVIEW_MRTR_INPUT_REQUEST_COUNT := 65
  const REVIEW_PAGE_CURSOR := "review-page-2"
  const README_URI := "test://fixture/readme"
  const HELLO_URI := "test://fixture/\U{3053}\U{3093}\U{306B}\U{3061}\U{306F}"
  const META_PREFIX := "io.modelcontextprotocol/"

  // The results the server can give; listings of fixed fixture data are named, not spelled out.
  datatype Payload =
    | Negotiated(version: string)
    | Acknowledged
    | Discovery
    | ToolPage(skip: nat, take: Option<nat>, nextCursor: Option<string>)
    | ToolOutput(text: Option<string>, structured: Option<Json>, isError: bool)
    | InputRequired(requests: nat, requestState: string)
    | ResourcePage(uri: string, nextCursor: Option<string>)
    | ResourceTemplates
    | Contents(uri: string)
    | Prompts
    | Greeting(name: string)
    | SubscriptionClosed

  // Why a request is refused; the messages that explain it to a reader are not spelled out.
  datatype Reason =
    | ParseError | NotAnObject | InvalidEnvelope | ParamsNotAnObject | UnknownMethod(rpc: string)
    | UnknownEndpoint | OriginNotAllowed | NotJson | InvalidLength | NoSession | HeaderMismatch
    | NoProtocolVersion | NotInitialized
    | InitializeUnsupported | NoMeta | IncompleteMeta | UnsupportedVersion
    | InvalidCursor | MalformedCall | UnknownTool(name: string) | InvalidArguments
    | NoElicitationSupport | InvalidRetry | NotAccepted | InvalidContent
    | ResourceNotFound | UnknownPrompt | NoFilter

  datatype Reply =
    | Result(id: Json, payload: Payload)
    | Error(id: Json, code: int, reason: Reason)

  datatype Outgoing = Notification(rpc: string, params: Json) | Answer(reply: Reply)

  datatype Plan = Plan(reply: Option<Reply>, notifications: seq<Outgoing>, status: nat, forceSse: bool)

  // Notifications only ever accompany a reply that is streamed, so no transport drops one.
  predicate Streams(plan: Plan) {
    plan.notifications != [] ==> plan.reply.Some? && plan.forceSse
  }

  // The plan answers the request `id`, once, after notifications only.
  predicate RepliesTo(plan: Plan, id: Json) {
    && Streams(plan)
    && plan.reply.Some? && plan.reply.value.id == id
    && forall n :: n in plan.notifications ==> n.Notification?
  }

  // The method is one the server has.
  predicate Finds(plan: Plan) {
    plan.reply.Some? && (plan.reply.value.Error? ==> plan.reply.value.code != METHOD_NOT_FOUND)
  }

  function Fail(id: Json, code: int, reason: Reason, status: nat): (plan: Plan)
    ensures RepliesTo(plan, id)
  {
    Plan(Some(Error(id, code, reason)), [], status, false)
  }

  function Succeed(id: Json, payload: Payload): (plan: Plan)
    ensures RepliesTo(plan, id)
  {
    Plan(Some(Result(id, payload)), [], OK, false)
  }

  function Silent(status: nat): (plan: Plan)
    ensures Streams(plan)
  {
    Plan(None, [], status, false)
  }

  // ----- Messages -----

  predicate WellFormed(m: Fields) {
    Get(m, "jsonrpc") == Str("2.0") && Get(m, "method").Str?
  }

  function Params(m: Fields): Json {
    GetOr(m, "params", Obj(map[]))
  }

  function Handle(srv: Server, message: Json, conn: Conn): (r: (Conn, Plan))
    ensures Streams(r.1)
    ensures r.1.reply.None? <==>
            && message.Obj? && Get(message.fields, "jsonrpc") == Str("2.0") && Get(message.fields, "method").Str?
            && "id" !in message.fields
    ensures message.Obj? && Get(message.fields, "method") != Str("server/discover") && r.1.reply.Some? ==>
              RepliesTo(r.1, Get(message.fields, "id"))
  {
    match message
    case Obj(m) =>
      if !WellFormed(m) then
        (conn, Fail(Get(m, "id"), INVALID_REQUEST, InvalidEnvelope, BAD_REQUEST))
      else if !Params(m).Obj? then
        (conn, if "id" in m then Fail(m["id"], INVALID_PARAMS, ParamsNotAnObject, BAD_REQUEST)
               else Silent(BAD_REQUEST))
      else if "id" !in m then
        HandleNotification(srv, m["method"].s, conn)
      else if srv.mode.Modern? then
        (conn, HandleModern(srv, m["id"], m["method"].s, Params(m).fields))
      else
        HandleLegacy(srv, m["id"], m["method"].s, Params(m).fields, conn)
    case _ =>
      (conn, Fail(Null, INVALID_REQUEST, NotAnObject, BAD_REQUEST))
  }

  function HandleNotification(srv: Server, rpc: string, conn: Conn): (r: (Conn, Plan))
    ensures Streams(r.1)
  {
    if !srv.mode.Modern? && rpc == "notifications/initialized" && conn.initializeSeen
    then (conn.(initialized := true), Silent(ACCEPTED))
    else (conn, Silent(ACCEPTED))
  }

  function HandleLegacy(srv: Server, id: Json, rpc: string, params: Fields, conn: Conn): (r: (Conn, Plan))
    ensures RepliesTo(r.1, id)
  {
    if rpc == "initialize" then
      if !Get(params, "protocolVersion").Str? then
        (conn, Fail(id, INVALID_PARAMS, NoProtocolVersion, OK))
      else
        (conn.(initializeSeen := true), Succeed(id, Negotiated(Version(srv.mode))))
    else if rpc == "server/discover" then
      (conn, Fail(id, METHOD_NOT_FOUND, UnknownMethod(rpc), NOT_FOUND))
    else if !conn.initialized then
      (conn, Fail(id, INVALID_REQUEST, NotInitialized, OK))
    else
      (conn, ServeLegacy(srv, id, rpc, params))
  }

  function ServeLegacy(srv: Server, id: Json, rpc: string, params: Fields): (plan: Plan)
    ensures RepliesTo(plan, id)
  {
    if rpc == "ping" || rpc == "logging/setLevel" then Succeed(id, Acknowledged)
    else if rpc == "tools/list" then ListTools(srv, id, params)
    else if rpc == "tools/call" then CallTool(srv, id, params, map[])
    else if rpc == "resources/list" then ListResources(id, params)
    else if rpc == "resources/templates/list" then Succeed(id, ResourceTemplates)
    else if rpc == "resources/read" then ReadResource(id, params)
    else if rpc == "prompts/list" then Succeed(id, Prompts)
    else if rpc == "prompts/get" then GetPrompt(id, params)
    else Fail(id, METHOD_NOT_FOUND, UnknownMethod(rpc), NOT_FOUND)
  }

  function HandleModern(srv: Server, id: Json, rpc: string, params: Fields): (plan: Plan)
    ensures RepliesTo(plan, if rpc == "server/discover" && plan.reply.Some? && plan.reply.value.Result? then DiscoveryId(srv, id) else id)
  {
    if rpc == "initialize" then
      Fail(id, METHOD_NOT_FOUND, InitializeUnsupported, NOT_FOUND)
    else if !Get(params, "_meta").Obj? then
      Fail(id, INVALID_PARAMS, NoMeta, BAD_REQUEST)
    else
      var meta := params["_meta"].fields;
      var version := Get(meta, META_PREFIX + "protocolVersion");
      if !version.Str? || !Get(meta, META_PREFIX + "clientCapabilities").Obj? then
        Fail(id, INVALID_PARAMS, IncompleteMeta, BAD_REQUEST)
      else if version.s != Version(Modern) then
        Fail(id, UNSUPPORTED_PROTOCOL_VERSION, UnsupportedVersion, BAD_REQUEST)
      else if rpc == "server/discover" then Discover(srv, id)
      else if rpc == "tools/list" then ListTools(srv, id, params)
      else if rpc == "tools/call" then CallTool(srv, id, params, meta)
      else if rpc == "resources/list" then ListResources(id, params)
      else if rpc == "resources/templates/list" then Succeed(id, ResourceTemplates)
      else if rpc == "resources/read" then ReadResource(id, params)
      else if rpc == "prompts/list" then Succeed(id, Prompts)
      else if rpc == "prompts/get" then GetPrompt(id, params)
      else if rpc == "subscriptions/listen" then Listen(id, params)
      else Fail(id, METHOD_NOT_FOUND, UnknownMethod(rpc), NOT_FOUND)
  }

  // Two profiles answer discovery under the wrong id on purpose.
  function DiscoveryId(srv: Server, id: Json): Json {
    if srv.profile.MismatchedDiscoveryId? then Str("review-mismatched-" + srv.show(id))
    else if srv.profile.NullDiscoveryId? then Null
    else id
  }

  function Discover(srv: Server, id: Json): (plan: Plan)
    ensures RepliesTo(plan, DiscoveryId(srv, id))
  {
    Succeed(DiscoveryId(srv, id), Discovery)
  }

  // ----- Tools -----

  predicate PagesTools(srv: Server) {
    srv.mode.Modern? && (srv.profile.Review? || srv.profile.RepeatedCursor?)
  }

  function ListTools(srv: Server, id: Json, params: Fields): (plan: Plan)
    ensures RepliesTo(plan, id) && Finds(plan)
  {
    if !PagesTools(srv) then Succeed(id, ToolPage(0, None, None))
    else
      var cursor := Get(params, "cursor");
      if cursor == Null then Succeed(id, ToolPage(0, Some(2), Some(REVIEW_PAGE_CURSOR)))
      else if cursor == Str(REVIEW_PAGE_CURSOR) then
        Succeed(id, ToolPage(2, None, if srv.profile.RepeatedCursor? then Some(REVIEW_PAGE_CURSOR) else None))
      else Fail(id, INVALID_PARAMS, InvalidCursor, OK)
  }

  function Digit(n: nat): char {
    '0' + (n % 10) as char
  }

  function CatalogName(i: nat): string {
    "catalog_boundary_" + [Digit(i / 1000), Digit(i / 100), Digit(i / 10), Digit(i)]
  }

  predicate KnownTool(srv: Server, name: string) {
    var catalog := MAX_CATALOG_ITEMS + (if srv.profile.CatalogOverLimit? then 1 else 0);
    || name in {"client_metadata", "echo", "fail", "header_echo", "progress"}
    || (srv.mode.Modern? && name == "request_input")
    || ((srv.profile.Review? || srv.profile.RepeatedCursor?) &&
        (name in {"review_large_integer", "review_protocol_env"} ||
         (srv.mode.Modern? && name in {"review_integer_elicitation", "review_mrtr_cap"})))
    || ((srv.profile.CatalogMax? || srv.profile.CatalogOverLimit?) &&
        exists i: nat :: i < catalog - (if srv.mode.Modern? then 6 else 5) && name == CatalogName(i))
  }

  predicate IntWithin(v: Json, low: int, high: int) {
    v.Int? && low <= v.n <= high
  }

  predicate HeaderEchoArguments(arguments: Fields) {
    && Get(arguments, "region").Str?
    && IntWithin(Get(arguments, "attempt"), -MAX_SAFE_INTEGER, MAX_SAFE_INTEGER)
    && Get(arguments, "enabled").Bool?
    && Get(arguments, "greeting").Str?
  }

  function Output(id: Json, structured: Json): (plan: Plan)
    ensures RepliesTo(plan, id) && Finds(plan)
  {
    Succeed(id, ToolOutput(None, Some(structured), false))
  }

  function CallTool(srv: Server, id: Json, params: Fields, meta: Fields): (plan: Plan)
    ensures RepliesTo(plan, id) && Finds(plan)
  {
    var arguments := GetOr(params, "arguments", Obj(map[]));
    if !Get(params, "name").Str? || !arguments.Obj? then
      Fail(id, INVALID_PARAMS, MalformedCall, OK)
    else if !KnownTool(srv, params["name"].s) then
      Fail(id, INVALID_PARAMS, UnknownTool(params["name"].s), OK)
    else
      RunTool(srv, id, params["name"].s, arguments.fields, params, meta)
  }

  function RunTool(srv: Server, id: Json, name: string, arguments: Fields, params: Fields, meta: Fields): (plan: Plan)
    ensures RepliesTo(plan, id) && Finds(plan)
  {
    if name == "request_input" then RequestInput(id, params, meta)
    else if name == "review_integer_elicitation" then IntegerElicitation(id, params, meta)
    else if name == "review_mrtr_cap" then
      if !HasElicitation(meta) then NoElicitation(id)
      else Succeed(id, InputRequired(REVIEW_MRTR_INPUT_REQUEST_COUNT, "opaque:review_mrtr_cap:v1"))
    else if name == "review_large_integer" then
      if IntWithin(Get(arguments, "value"), REVIEW_EXACT_INTEGER, REVIEW_MAX_INTEGER)
      then Output(id, Obj(map["value" := arguments["value"]]))
      else Fail(id, INVALID_PARAMS, InvalidArguments, OK)
    else if name == "review_protocol_env" then
      Output(id, Obj(map["value" := if srv.env.Some? then Str(srv.env.value) else Null]))
    else if name == "echo" then
      if Get(arguments, "text").Str?
      then Succeed(id, ToolOutput(Some(arguments["text"].s), Some(Obj(map["text" := arguments["text"]])), false))
      else Fail(id, INVALID_PARAMS, InvalidArguments, OK)
    else if name == "client_metadata" then Output(id, Obj(meta))
    else if name == "header_echo" then
      if HeaderEchoArguments(arguments) then Output(id, Obj(arguments))
      else Fail(id, INVALID_PARAMS, InvalidArguments, OK)
    else if name == "fail" then
      Succeed(id, ToolOutput(Some("Intentional tool execution failure"), None, true))
    else
      var notes := if name == "progress" then ProgressNotifications(meta) else [];
      Plan(Some(Result(id, ToolOutput(Some("progress complete"), None, false))), notes, OK, notes != [])
  }

  function ProgressNotifications(meta: Fields): seq<Outgoing> {
    var token := Get(meta, "progressToken");
    (if token.Str? || token.Int? then [Notification("notifications/progress", token)] else [])
    + (if Get(meta, META_PREFIX + "logLevel").Str? then [Notification("notifications/message", Str("info"))] else [])
  }

  predicate HasElicitation(meta: Fields) {
    var capabilities := GetOr(meta, META_PREFIX + "clientCapabilities", Obj(map[]));
    capabilities.Obj? && Get(capabilities.fields, "elicitation").Obj?
  }

  function NoElicitation(id: Json): (plan: Plan)
    ensures RepliesTo(plan, id) && Finds(plan)
  {
    Fail(id, MISSING_REQUIRED_CLIENT_CAPABILITY, NoElicitationSupport, BAD_REQUEST)
  }

  function RequestInput(id: Json, params: Fields, meta: Fields): (plan: Plan)
    ensures RepliesTo(plan, id) && Finds(plan)
  {
    var responses, state := Get(params, "inputResponses"), Get(params, "requestState");
    if !HasElicitation(meta) then NoElicitation(id)
    else if responses == Null && state == Null then Succeed(id, InputRequired(1, "opaque:request_input:v1"))
    else if state != Str("opaque:request_input:v1") || !responses.Obj? then
      Fail(id, INVALID_PARAMS, InvalidRetry, OK)
    else
      var confirmation := Get(responses.fields, "confirmation");
      if !confirmation.Obj? || Get(confirmation.fields, "action") != Str("accept") then
        Fail(id, INVALID_PARAMS, NotAccepted, OK)
      else
        var content := Get(confirmation.fields, "content");
        if !content.Obj? || !Get(content.fields, "confirmation").Str? then
          Fail(id, INVALID_PARAMS, InvalidContent, OK)
        else
          var text := Get(content.fields, "confirmation").s;
          Succeed(id, ToolOutput(Some(text), Some(Obj(map["confirmation" := Str(text)])), false))
  }

  function IntegerElicitation(id: Json, params: Fields, meta: Fields): (plan: Plan)
    ensures RepliesTo(plan, id) && Finds(plan)
  {
    var responses, state := Get(params, "inputResponses"), Get(params, "requestState");
    if !HasElicitation(meta) then NoElicitation(id)
    else if responses == Null && state == Null then
      Succeed(id, InputRequired(1, "opaque:review_integer_elicitation:v1"))
    else if state != Str("opaque:review_integer_elicitation:v1") || !responses.Obj? then
      Fail(id, INVALID_PARAMS, InvalidRetry, OK)
    else
      var response := Get(responses.fields, "large_integer");
      if !response.Obj? || Get(response.fields, "action") != Str("accept") then
        Fail(id, INVALID_PARAMS, NotAccepted, OK)
      else
        var content := Get(response.fields, "content");
        var value := if content.Obj? then Get(content.fields, "value") else Null;
        if !IntWithin(value, REVIEW_EXACT_INTEGER, REVIEW_MAX_INTEGER) then
          Fail(id, INVALID_PARAMS, InvalidContent, OK)
        else Output(id, Obj(map["value" := value]))
  }

  // ----- Resources, prompts and subscriptions -----

  function ListResources(id: Json, params: Fields): (plan: Plan)
    ensures RepliesTo(plan, id) && Finds(plan)
  {
    var cursor := Get(params, "cursor");
    if cursor == Null then Succeed(id, ResourcePage(README_URI, Some("page-2")))
    else if cursor == Str("page-2") then Succeed(id, ResourcePage(HELLO_URI, None))
    else Fail(id, INVALID_PARAMS, InvalidCursor, OK)
  }

  predicate IsResource(v: Json) {
    v == Str(README_URI) || v == Str(HELLO_URI)
  }

  function ReadResource(id: Json, params: Fields): (plan: Plan)
    ensures RepliesTo(plan, id) && Finds(plan)
  {
    var uri := Get(params, "uri");
    if IsResource(uri) then Succeed(id, Contents(uri.s))
    else Fail(id, INVALID_PARAMS, ResourceNotFound, OK)
  }

  function GetPrompt(id: Json, params: Fields): (plan: Plan)
    ensures RepliesTo(plan, id) && Finds(plan)
  {
    var arguments := GetOr(params, "arguments", Obj(map[]));
    if Get(params, "name") != Str("fixture.greeting") then Fail(id, INVALID_PARAMS, UnknownPrompt, OK)
    else if !arguments.Obj? || !Get(arguments.fields, "name").Str? then
      Fail(id, INVALID_PARAMS, InvalidArguments, OK)
    else Succeed(id, Greeting(arguments.fields["name"].s))
  }

  function KnownResources(items: seq<Json>): seq<Json> {
    if items == [] then []
    else (if IsResource(items[0]) then [items[0]] else []) + KnownResources(items[1..])
  }

  function Announce(wanted: Fields, flag: string, rpc: string, id: Json): (notes: seq<Outgoing>)
    ensures forall n :: n in notes ==> n.Notification?
  {
    if Get(wanted, flag) == Bool(true) then [Notification(rpc, id)] else []
  }

  function Updates(wanted: Fields): (notes: seq<Outgoing>)
    ensures forall n :: n in notes ==> n.Notification?
  {
    var listed := Get(wanted, "resourceSubscriptions");
    var uris := if listed.Arr? && forall v :: v in listed.items ==> v.Str? then KnownResources(listed.items) else [];
    seq(|uris|, i requires 0 <= i < |uris| => Notification("notifications/resources/updated", uris[i]))
  }

  function SubscriptionNotes(id: Json, wanted: Fields): (notes: seq<Outgoing>)
    ensures forall n :: n in notes ==> n.Notification?
  {
    [Notification("notifications/subscriptions/acknowledged", id)]
    + Announce(wanted, "toolsListChanged", "notifications/tools/list_changed", id)
    + Announce(wanted, "promptsListChanged", "notifications/prompts/list_changed", id)
    + Announce(wanted, "resourcesListChanged", "notifications/resources/list_changed", id)
    + Updates(wanted)
  }

  function Listen(id: Json, params: Fields): (plan: Plan)
    ensures RepliesTo(plan, id) && Finds(plan)
  {
    var requested := Get(params, "notifications");
    if !requested.Obj? then Fail(id, INVALID_PARAMS, NoFilter, OK)
    else Plan(Some(Result(id, SubscriptionClosed)), SubscriptionNotes(id, requested.fields), OK, true)
  }
}
