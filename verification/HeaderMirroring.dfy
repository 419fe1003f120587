// Modern HTTP requests repeat parts of their body in headers. A request whose headers do not
// repeat it is refused before it reaches the server.
module HeaderMirroring {
  import opened Prelude
  import opened Json
  import opened Text
  import opened FixtureServer
  import opened LegacySessions

  type Headers = map<string, string>

  // Base64 followed by UTF-8 decoding; `None` when either fails.
  type Base64 = string -> Option<string>

  const SENTINEL := "=?base64?"
  const MIRRORED: seq<string> := ["region", "attempt", "enabled", "greeting"]

  // A later header of the same name replaces an earlier one.
  function Normalized(raw: seq<(string, string)>): Headers {
    if raw == [] then map[]
    else
      var n := |raw| - 1;
      Normalized(raw[..n])[Lower(raw[n].0) := raw[n].1]
  }

  predicate PlainSafe(value: string) {
    && value == Trim(value, IsPythonSpace)
    && forall c :: c in value ==> c == '\t' || ' ' <= c <= '~'
  }

  function Decode(b64: Base64, value: string): Option<string> {
    if SENTINEL <= value && EndsWith(value, "?=") then
      // The two sentinels may overlap, and the slice between them is then empty.
      b64(if |SENTINEL| <= |value| - 2 then value[|SENTINEL|..|value| - 2] else "")
    else if SENTINEL <= value || EndsWith(value, "?=") then None
    else if PlainSafe(value) then Some(value)
    else None
  }

  // The text a header must carry for an argument, if it can be mirrored at all.
  function CanonicalText(argument: Json): Option<string> {
    match argument
    case Bool(b) => Some(if b then "true" else "false")
    case Int(n) => Some(IntText(n))
    case Str(s) => Some(s)
    case _ => None
  }

  function MediaType(value: string): string {
    Lower(Before(Trim(value, IsPythonSpace), ';'))
  }

  predicate Accepts(headers: Headers, media: string) {
    exists v :: v in SplitOn(if "accept" in headers then headers["accept"] else "", ',') && MediaType(v) == media
  }

  predicate VersionMatches(headers: Headers, params: Fields) {
    && "mcp-protocol-version" in headers
    && (Get(params, "_meta").Obj? ==>
          var body := Get(params["_meta"].fields, META_PREFIX + "protocolVersion");
          body.Str? ==> body.s == headers["mcp-protocol-version"])
  }

  function NameSource(rpc: string, params: Fields): Json {
    if rpc == "tools/call" || rpc == "prompts/get" then Get(params, "name")
    else if rpc == "resources/read" then Get(params, "uri")
    else Null
  }

  predicate NameMatches(b64: Base64, headers: Headers, source: Json) {
    source == Null ||
    ("mcp-name" in headers && source.Str? && Decode(b64, headers["mcp-name"]) == Some(source.s))
  }

  // One mirrored argument: absent in both places, or decoding to its canonical text.
  predicate ParamMatches(b64: Base64, headers: Headers, arguments: Fields, name: string) {
    var key, argument := "mcp-param-" + name, Get(arguments, name);
    if argument == Null then key !in headers
    else
      && key in headers
      && CanonicalText(argument).Some?
      && Decode(b64, headers[key]) == CanonicalText(argument)
  }

  predicate Validates(b64: Base64, headers: Headers, m: Fields) {
    && Accepts(headers, "application/json") && Accepts(headers, "text/event-stream")
    && (Get(m, "method").Str? && Get(m, "params").Obj? ==>
          var rpc, params := m["method"].s, m["params"].fields;
          && VersionMatches(headers, params)
          && "mcp-method" in headers && headers["mcp-method"] == rpc
          && NameMatches(b64, headers, NameSource(rpc, params))
          && (rpc == "tools/call" && Get(params, "name") == Str("header_echo") ==>
                var arguments := GetOr(params, "arguments", Obj(map[]));
                arguments.Obj? ==>
                  forall i :: 0 <= i < |MIRRORED| ==> ParamMatches(b64, headers, arguments.fields, MIRRORED[i])))
  }

  // The validation as the code runs it: the first failing check ends it.
  method ValidateHeaders(b64: Base64, raw: seq<(string, string)>, m: Fields) returns (ok: bool)
    ensures ok == Validates(b64, Normalized(raw), m)
  {
    var headers: Headers := map[];
    for i := 0 to |raw|
      invariant headers == Normalized(raw[..i])
    {
      headers := headers[Lower(raw[i].0) := raw[i].1];
      assert raw[..i + 1][..i] == raw[..i];
    }
    assert raw[..|raw|] == raw;
    if !Accepts(headers, "application/json") || !Accepts(headers, "text/event-stream") {
      return false;
    }
    if !Get(m, "method").Str? || !Get(m, "params").Obj? {
      return true;
    }
    var rpc, params := m["method"].s, m["params"].fields;
    if !VersionMatches(headers, params) || "mcp-method" !in headers || headers["mcp-method"] != rpc {
      return false;
    }
    if !NameMatches(b64, headers, NameSource(rpc, params)) {
      return false;
    }
    if rpc != "tools/call" || Get(params, "name") != Str("header_echo") {
      return true;
    }
    var arguments := GetOr(params, "arguments", Obj(map[]));
    if !arguments.Obj? {
      return true;
    }
    ok := MirroredMatch(b64, headers, arguments.fields);
  }

  method MirroredMatch(b64: Base64, headers: Headers, arguments: Fields) returns (ok: bool)
    ensures ok == forall i :: 0 <= i < |MIRRORED| ==> ParamMatches(b64, headers, arguments, MIRRORED[i])
  {
    for k := 0 to |MIRRORED|
      invariant forall i :: 0 <= i < k ==> ParamMatches(b64, headers, arguments, MIRRORED[i])
    {
      var key, argument := "mcp-param-" + MIRRORED[k], Get(arguments, MIRRORED[k]);
      if argument == Null {
        if key in headers {
          return false;
        }
      } else {
        if key !in headers {
          return false;
        }
        var expected, decoded := CanonicalText(argument), Decode(b64, headers[key]);
        if decoded.None? || expected.None? || decoded != expected {
          return false;
        }
      }
    }
    ok := true;
  }

  // A modern POST whose body decoded to an object.
  function ServeModern(srv: Server, b64: Base64, raw: seq<(string, string)>, m: Fields): Option<Reply> {
    if "id" in m && !Validates(b64, Normalized(raw), m) then
      Some(Error(m["id"], HEADER_MISMATCH, HeaderMismatch))
    else Handle(srv, Obj(m), FRESH).1.reply
  }

  // Over HTTP that is what is answered, and the session table plays no part.
  lemma ModernPostIsServed(srv: Server, table: Table, b64: Base64, raw: seq<(string, string)>, req: Request, m: Fields)
    requires srv.mode.Modern? && Admitted(req) && req.body == Decoded(Obj(m))
    requires req.headersAgree == Validates(b64, Normalized(raw), m)
    ensures var (next, reply) := Serve(srv, table, req);
            var answer := ServeModern(srv, b64, raw, m);
            && next == table && reply.session == None
            && (reply.messages == [] <==> answer.None?)
            && (answer.Some? ==> reply.messages[|reply.messages| - 1] == Answer(answer.value))
  {
    RenderedAnswer(Handle(srv, Obj(m), FRESH).1);
  }

  lemma RenderedAnswer(plan: Plan)
    ensures var reply := RenderPlan(plan, None);
            && reply.session == None && (reply.messages == [] <==> plan.reply.None?)
            && (plan.reply.Some? ==> reply.messages[|reply.messages| - 1] == Answer(plan.reply.value))
  {}

  predicate Calls(m: Fields, tool: string) {
    && Get(m, "method") == Str("tools/call") && Params(m).Obj?
    && Get(Params(m).fields, "name") == Str(tool)
  }

  function Arguments(m: Fields): Json
    requires Params(m).Obj?
  {
    GetOr(Params(m).fields, "arguments", Obj(map[]))
  }

  // The `_meta` object of the params.
  function Meta(m: Fields): Fields
    requires Params(m).Obj? && Get(Params(m).fields, "_meta").Obj?
  {
    Get(Params(m).fields, "_meta").fields
  }

  // A tool result means the headers were checked, and the tool run is the one they name.
  lemma ResultMeansValidated(srv: Server, b64: Base64, raw: seq<(string, string)>, m: Fields, tool: string)
    requires srv.mode.Modern? && Calls(m, tool)
    requires var r := ServeModern(srv, b64, raw, m); r.Some? && r.value.Result?
    ensures var headers := Normalized(raw);
            && Validates(b64, headers, m)
            && "mcp-name" in headers && Decode(b64, headers["mcp-name"]) == Some(tool)
            && Arguments(m).Obj? && "id" in m && Get(Params(m).fields, "_meta").Obj?
            && ServeModern(srv, b64, raw, m) ==
               RunTool(srv, m["id"], tool, Arguments(m).fields, Params(m).fields, Meta(m)).reply
  {
    var params := Params(m).fields;
    assert WellFormed(m) && "id" in m && "params" in m;
    ModernToolsCall(srv, m["id"], params, Meta(m));
  }

  lemma ModernToolsCall(srv: Server, id: Json, params: Fields, meta: Fields)
    requires srv.mode.Modern? && Get(params, "_meta") == Obj(meta)
    requires var r := HandleModern(srv, id, "tools/call", params).reply; r.Some? && r.value.Result?
    ensures HandleModern(srv, id, "tools/call", params) == CallTool(srv, id, params, meta)
  {}

  lemma HeaderEchoOutput(srv: Server, id: Json, arguments: Fields, params: Fields, meta: Fields)
    ensures RunTool(srv, id, "header_echo", arguments, params, meta) ==
            if HeaderEchoArguments(arguments) then Output(id, Obj(arguments))
            else Fail(id, INVALID_PARAMS, InvalidArguments, OK)
  {}

  predicate EchoSucceeds(srv: Server, b64: Base64, raw: seq<(string, string)>, m: Fields) {
    && srv.mode.Modern? && Calls(m, "header_echo")
    && var r := ServeModern(srv, b64, raw, m); r.Some? && r.value.Result?
  }

  lemma EchoResult(srv: Server, b64: Base64, raw: seq<(string, string)>, m: Fields)
    requires EchoSucceeds(srv, b64, raw, m)
    ensures "id" in m && Arguments(m).Obj? && HeaderEchoArguments(Arguments(m).fields)
    ensures ServeModern(srv, b64, raw, m) == Some(Result(m["id"], ToolOutput(None, Some(Arguments(m)), false)))
    ensures forall i :: 0 <= i < |MIRRORED| ==> ParamMatches(b64, Normalized(raw), Arguments(m).fields, MIRRORED[i])
  {
    ResultMeansValidated(srv, b64, raw, m, "header_echo");
    HeaderEchoOutput(srv, m["id"], Arguments(m).fields, Params(m).fields, Meta(m));
  }

  // A `header_echo` result carries the arguments its headers decode to.
  lemma HeaderEchoMirrorsHeaders(srv: Server, b64: Base64, raw: seq<(string, string)>, m: Fields, i: nat)
    requires EchoSucceeds(srv, b64, raw, m) && i < |MIRRORED|
    ensures var key := "mcp-param-" + MIRRORED[i];
            && Arguments(m).Obj?
            && ServeModern(srv, b64, raw, m) == Some(Result(m["id"], ToolOutput(None, Some(Arguments(m)), false)))
            && key in Normalized(raw)
            && Decode(b64, Normalized(raw)[key]).Some?
            && Decode(b64, Normalized(raw)[key]) == CanonicalText(Get(Arguments(m).fields, MIRRORED[i]))
  {
    EchoResult(srv, b64, raw, m);
    SameTypeAtName(Arguments(m).fields, Arguments(m).fields, MIRRORED[i]);
    assert ParamMatches(b64, Normalized(raw), Arguments(m).fields, MIRRORED[i]);
  }

  // Two `header_echo` results whose headers decode alike carry the same four values.
  lemma EqualHeadersForceEqualValues(
    srv: Server, b64: Base64, raw: seq<(string, string)>, m: Fields, raw': seq<(string, string)>, m': Fields, i: nat)
    requires EchoSucceeds(srv, b64, raw, m) && EchoSucceeds(srv, b64, raw', m') && i < |MIRRORED|
    requires var key := "mcp-param-" + MIRRORED[i];
             key in Normalized(raw) && key in Normalized(raw') ==>
               Decode(b64, Normalized(raw)[key]) == Decode(b64, Normalized(raw')[key])
    ensures Arguments(m).Obj? && Arguments(m').Obj?
    ensures Get(Arguments(m).fields, MIRRORED[i]) == Get(Arguments(m').fields, MIRRORED[i])
  {
    HeaderEchoMirrorsHeaders(srv, b64, raw, m, i);
    HeaderEchoMirrorsHeaders(srv, b64, raw', m', i);
    EchoResult(srv, b64, raw, m);
    EchoResult(srv, b64, raw', m');
    var a, b := Get(Arguments(m).fields, MIRRORED[i]), Get(Arguments(m').fields, MIRRORED[i]);
    SameTypeAtName(Arguments(m).fields, Arguments(m').fields, MIRRORED[i]);
    CanonicalTextIsInjective(a, b);
  }

  lemma CanonicalTextIsInjective(a: Json, b: Json)
    requires (a.Str? && b.Str?) || (a.Int? && b.Int?) || (a.Bool? && b.Bool?)
    requires CanonicalText(a) == CanonicalText(b)
    ensures a == b
  {
    if a.Int? {
      IntTextIsInjective(a.n, b.n);
    } else if a.Bool? {
      assert |"true"| != |"false"|;
    }
  }

  lemma SameTypeAtName(x: Fields, y: Fields, name: string)
    requires HeaderEchoArguments(x) && HeaderEchoArguments(y) && name in MIRRORED
    ensures var a, b := Get(x, name), Get(y, name);
            (a.Str? && b.Str?) || (a.Int? && b.Int?) || (a.Bool? && b.Bool?)
  {}
}
