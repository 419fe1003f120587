// The client's side of header mirroring: what a header decodes to, that a request which mirrors its
// body is served, and that one which does not is refused.
module MirroredRequests {
  import opened Prelude
  import opened Json
  import opened Text
  import opened FixtureServer
  import opened HeaderMirroring
  import opened ServerAnswers

  // ----- Writing and reading one header -----

  predicate IsMarked(value: string) {
    "=?base64?" <= value || EndsWith(value, "?=")
  }

  // Printable ASCII without white space at either end.
  predicate IsPlain(value: string) {
    && !IsMarked(value)
    && (forall c :: c in value ==> c == '\t' || ' ' <= c <= '~')
    && (value != [] ==> !IsPythonSpace(value[0]) && !IsPythonSpace(value[|value| - 1]))
  }

  lemma {:induction false} TrimEndIs(s: string, space: char -> bool)
    ensures TrimEnd(s, space) == s <==> (s == [] || !space(s[|s| - 1]))
    ensures |TrimEnd(s, space)| <= |s|
  {
    if s != [] && space(s[|s| - 1]) {
      TrimEndIs(s[..|s| - 1], space);
    }
  }

  lemma {:induction false} TrimStartIs(s: string, space: char -> bool)
    ensures TrimStart(s, space) == s <==> (s == [] || !space(s[0]))
    ensures |TrimStart(s, space)| <= |s|
  {
    if s != [] && space(s[0]) {
      TrimStartIs(s[1..], space);
    }
  }

  lemma TrimIs(s: string, space: char -> bool)
    ensures Trim(s, space) == s <==> (s == [] || (!space(s[0]) && !space(s[|s| - 1])))
  {
    TrimStartIs(s, space);
    TrimEndIs(TrimStart(s, space), space);
    if s != [] && space(s[0]) {
      TrimStartIs(s[1..], space);
    }
  }

  // A header without markers is read as it stands, if it is plain; one with both is decoded.
  lemma DecodeMeans(b64: Base64, value: string, encoded: string)
    ensures !IsMarked(value) ==> Decode(b64, value) == if IsPlain(value) then Some(value) else None
    ensures Decode(b64, "=?base64?" + encoded + "?=") == b64(encoded)
    ensures ("=?base64?" <= value) != EndsWith(value, "?=") ==> Decode(b64, value) == None
  {
    TrimIs(value, IsPythonSpace);
    var marked := "=?base64?" + encoded + "?=";
    assert marked[..9] == "=?base64?" && marked[9..|marked| - 2] == encoded && marked[|marked| - 2..] == "?=";
  }

  // How a client writes a text.
  function Mirror(encode: string -> string, text: string): string {
    if IsPlain(text) then text else "=?base64?" + encode(text) + "?="
  }

  ghost predicate Inverse(b64: Base64, encode: string -> string) {
    forall text :: b64(encode(text)) == Some(text)
  }

  lemma MirrorReadsBack(b64: Base64, encode: string -> string, text: string)
    requires Inverse(b64, encode)
    ensures Decode(b64, Mirror(encode, text)) == Some(text)
  {
    DecodeMeans(b64, text, encode(text));
  }

  // ----- The accepted media types -----

  lemma {:induction false} SplitFirst(a: string, b: string, sep: char)
    requires sep !in a
    ensures SplitOn(a + [sep] + b, sep) == [a] + SplitOn(b, sep)
    decreases |a|
  {
    if a == [] {
      assert a + [sep] + b == [sep] + b && ([sep] + b)[1..] == b;
    } else {
      var s := a + [sep] + b;
      assert s[0] == a[0] && s[1..] == a[1..] + [sep] + b && a[0] in a;
      SplitFirst(a[1..], b, sep);
      var rest := SplitOn(s[1..], sep);
      assert rest[0] == a[1..] && rest[1..] == SplitOn(b, sep) && [a[0]] + a[1..] == a;
    }
  }

  lemma {:induction false} SplitLast(a: string, sep: char)
    requires sep !in a
    ensures SplitOn(a, sep) == [a]
    decreases |a|
  {
    if a != [] {
      assert a[0] in a;
      SplitLast(a[1..], sep);
      assert [a[0]] + a[1..] == a;
    }
  }

  lemma {:induction false} BeforeAll(s: string, sep: char)
    requires sep !in s
    ensures Before(s, sep) == s
  {
    if s != [] {
      assert s[0] in s;
      BeforeAll(s[1..], sep);
    }
  }

  predicate IsMedia(media: string) {
    && media != [] && !IsPythonSpace(media[0]) && !IsPythonSpace(media[|media| - 1])
    && forall c :: c in media ==> c != ';' && c != ',' && !('A' <= c <= 'Z')
  }

  lemma LowerStays(s: string)
    requires forall c :: c in s ==> !('A' <= c <= 'Z')
    ensures Lower(s) == s
  {
    forall i | 0 <= i < |s|
      ensures Lower(s)[i] == s[i]
    {
      assert s[i] in s;
    }
  }

  lemma MediaTypeOf(media: string)
    requires IsMedia(media)
    ensures MediaType(media) == media && MediaType(" " + media) == media
  {
    TrimIs(media, IsPythonSpace);
    TrimStartIs(media, IsPythonSpace);
    var spaced := " " + media;
    assert spaced[0] == ' ' && spaced[1..] == media;
    assert TrimStart(spaced, IsPythonSpace) == TrimStart(media, IsPythonSpace);
    BeforeAll(media, ';');
    LowerStays(media);
  }

  // `name` is `written` with its capitals made small.
  predicate IsSmall(written: string, name: string) {
    && |name| == |written|
    && forall i :: 0 <= i < |written| ==>
         name[i] as int == written[i] as int + if 'A' <= written[i] <= 'Z' then 32 else 0
  }

  lemma LowerMeans(written: string, name: string)
    ensures Lower(written) == name <==> IsSmall(written, name)
  {
    if IsSmall(written, name) {
      forall i | 0 <= i < |written|
        ensures Lower(written)[i] == name[i]
      {}
    }
  }

  lemma {:induction false} BeforeFirst(s: string, rest: string, sep: char)
    requires sep !in s && rest != [] && rest[0] == sep
    ensures Before(s + rest, sep) == s
  {
    if s == [] {
      assert s + rest == rest;
    } else {
      assert s[0] in s && (s + rest)[0] == s[0] && (s + rest)[1..] == s[1..] + rest;
      BeforeFirst(s[1..], rest, sep);
      assert [s[0]] + s[1..] == s;
    }
  }

  // White space around it, its parameters and its capitals do not change a media type.
  lemma MediaTypeReads(before: string, written: string, params: string, after: string, media: string)
    requires AllOf(before, IsPythonSpace) && AllOf(after, IsPythonSpace) && IsSmall(written, media)
    requires written != [] && !IsPythonSpace(written[0]) && ';' !in written
    requires params == [] || params[0] == ';'
    requires var s := written + params; !IsPythonSpace(s[|s| - 1])
    ensures MediaType(before + ((written + params) + after)) == media
  {
    var s := written + params;
    assert s[0] == written[0];
    TrimDropsAround(before, s, after, IsPythonSpace);
    if params == [] {
      assert s == written;
      BeforeAll(written, ';');
    } else {
      BeforeFirst(written, params, ';');
    }
    LowerMeans(written, media);
  }

  // ----- Header names -----

  // The last header written under the name, whatever its capitals.
  predicate LastHeader(raw: seq<(string, string)>, name: string, i: nat) {
    i < |raw| && IsSmall(raw[i].0, name) && forall j :: i < j < |raw| ==> !IsSmall(raw[j].0, name)
  }

  lemma {:induction false} HeadersAreRead(raw: seq<(string, string)>, name: string, i: nat)
    ensures LastHeader(raw, name, i) ==> name in Normalized(raw) && Normalized(raw)[name] == raw[i].1
    ensures (forall j :: 0 <= j < |raw| ==> !IsSmall(raw[j].0, name)) ==> name !in Normalized(raw)
    decreases |raw|
  {
    if raw != [] {
      var n := |raw| - 1;
      LowerMeans(raw[n].0, name);
      HeadersAreRead(raw[..n], name, i);
      if LastHeader(raw, name, i) && i < n {
        assert LastHeader(raw[..n], name, i);
      }
    }
  }

  // A list of two media types offers both.
  lemma AcceptsTwo(headers: Headers, a: string, b: string)
    requires IsMedia(a) && IsMedia(b)
    requires "accept" in headers && headers["accept"] == a + [','] + (" " + b)
    ensures Accepts(headers, a) && Accepts(headers, b)
  {
    var spaced := " " + b;
    assert ',' !in a && ',' !in spaced;
    SplitFirst(a, spaced, ',');
    SplitLast(spaced, ',');
    var parts := SplitOn(headers["accept"], ',');
    assert parts == [a] + [spaced] && parts[0] == a && parts[1] == spaced;
    MediaTypeOf(a);
    MediaTypeOf(b);
  }

  lemma Media()
    ensures IsMedia("application/json") && IsMedia("text/event-stream")
  {
  }

  // ----- A request that mirrors its body -----

  // The headers a client sends with a tool call.
  predicate Carries(encode: string -> string, headers: Headers, tool: string) {
    && "accept" in headers && headers["accept"] == "application/json" + [','] + (" " + "text/event-stream")
    && "mcp-protocol-version" in headers && headers["mcp-protocol-version"] == "2026-07-28"
    && "mcp-method" in headers && headers["mcp-method"] == "tools/call"
    && "mcp-name" in headers && headers["mcp-name"] == Mirror(encode, tool)
  }

  // A header holds the text of an argument.
  predicate Holds(encode: string -> string, headers: Headers, key: string, text: string) {
    key in headers && headers[key] == Mirror(encode, text)
  }

  predicate CarriesEcho(encode: string -> string, headers: Headers, region: string, attempt: int, enabled: bool, greeting: string) {
    && Carries(encode, headers, "header_echo")
    && Holds(encode, headers, "mcp-param-region", region)
    && Holds(encode, headers, "mcp-param-attempt", IntText(attempt))
    && Holds(encode, headers, "mcp-param-enabled", if enabled then "true" else "false")
    && Holds(encode, headers, "mcp-param-greeting", greeting)
  }

  function EchoArguments(region: string, attempt: int, enabled: bool, greeting: string): Fields {
    map["region" := Str(region), "attempt" := Int(attempt), "enabled" := Bool(enabled), "greeting" := Str(greeting)]
  }

  lemma EchoFields(region: string, attempt: int, enabled: bool, greeting: string)
    ensures var a := EchoArguments(region, attempt, enabled, greeting);
            && Get(a, "region") == Str(region) && Get(a, "attempt") == Int(attempt)
            && Get(a, "enabled") == Bool(enabled) && Get(a, "greeting") == Str(greeting)
  {
    assert "region"[0] == 'r' && "attempt"[0] == 'a' && "enabled"[0] == 'e' && "greeting"[0] == 'g';
  }

  lemma ParamIsMirrored(b64: Base64, encode: string -> string, headers: Headers, arguments: Fields, name: string, text: string)
    requires Inverse(b64, encode) && Get(arguments, name) != Null && CanonicalText(Get(arguments, name)) == Some(text)
    requires Holds(encode, headers, "mcp-param-" + name, text)
    ensures ParamMatches(b64, headers, arguments, name)
  {
    MirrorReadsBack(b64, encode, text);
  }

  lemma EchoIsMirrored(
      b64: Base64, encode: string -> string, headers: Headers, region: string, attempt: int, enabled: bool, greeting: string)
    requires Inverse(b64, encode) && CarriesEcho(encode, headers, region, attempt, enabled, greeting)
    ensures var a := EchoArguments(region, attempt, enabled, greeting);
            forall i :: 0 <= i < |MIRRORED| ==> ParamMatches(b64, headers, a, MIRRORED[i])
  {
    var a := EchoArguments(region, attempt, enabled, greeting);
    EchoFields(region, attempt, enabled, greeting);
    ParamKeys();
    ParamIsMirrored(b64, encode, headers, a, "region", region);
    ParamIsMirrored(b64, encode, headers, a, "attempt", IntText(attempt));
    ParamIsMirrored(b64, encode, headers, a, "enabled", if enabled then "true" else "false");
    ParamIsMirrored(b64, encode, headers, a, "greeting", greeting);
    AllFour(b64, headers, a);
  }

  lemma AllFour(b64: Base64, headers: Headers, a: Fields)
    requires ParamMatches(b64, headers, a, "region") && ParamMatches(b64, headers, a, "attempt")
    requires ParamMatches(b64, headers, a, "enabled") && ParamMatches(b64, headers, a, "greeting")
    ensures forall i :: 0 <= i < |MIRRORED| ==> ParamMatches(b64, headers, a, MIRRORED[i])
  {
    assert MIRRORED[0] == "region" && MIRRORED[1] == "attempt" && MIRRORED[2] == "enabled" && MIRRORED[3] == "greeting";
  }

  lemma ParamKeys()
    ensures "mcp-param-" + "region" == "mcp-param-region" && "mcp-param-" + "attempt" == "mcp-param-attempt"
    ensures "mcp-param-" + "enabled" == "mcp-param-enabled" && "mcp-param-" + "greeting" == "mcp-param-greeting"
  {
  }

  // ----- What is served and what is refused -----

  lemma CallValidates(b64: Base64, encode: string -> string, headers: Headers, m: Fields, arguments: Fields)
    requires Inverse(b64, encode) && Carries(encode, headers, "header_echo")
    requires IsRequest(m, "tools/call") && SpeaksModern(m) && IsCall(ParamsIn(m), "header_echo", arguments)
    requires forall i :: 0 <= i < |MIRRORED| ==> ParamMatches(b64, headers, arguments, MIRRORED[i])
    ensures Validates(b64, headers, m)
  {
    Media();
    AcceptsTwo(headers, "application/json", "text/event-stream");
    MetaNames();
    MirrorReadsBack(b64, encode, "header_echo");
  }

  // A call whose headers mirror its arguments is served, whatever texts they are.
  lemma MirroredEchoIsServed(
      srv: Server, b64: Base64, encode: string -> string, raw: seq<(string, string)>, m: Fields,
      region: string, attempt: int, enabled: bool, greeting: string)
    requires srv.mode.Modern? && Inverse(b64, encode) && IsRequest(m, "tools/call") && SpeaksModern(m)
    requires CarriesEcho(encode, Normalized(raw), region, attempt, enabled, greeting)
    requires IsCall(ParamsIn(m), "header_echo", EchoArguments(region, attempt, enabled, greeting))
    requires -9007199254740991 <= attempt <= 9007199254740991
    ensures ServeModern(srv, b64, raw, m) ==
            Some(Result(m["id"], ToolOutput(None, Some(Obj(EchoArguments(region, attempt, enabled, greeting))), false)))
  {
    var a := EchoArguments(region, attempt, enabled, greeting);
    EchoIsMirrored(b64, encode, Normalized(raw), region, attempt, enabled, greeting);
    CallValidates(b64, encode, Normalized(raw), m, a);
    ModernCall(srv, m, FRESH, "header_echo", a);
    EchoFields(region, attempt, enabled, greeting);
    HeaderEchoRuns(srv, m["id"], a, ParamsIn(m), MetaIn(m).fields);
  }

  // Every request that is not refused for its headers names its method, its version and, where it
  // has one, its tool, prompt or resource in them.
  lemma ServedHeadersAgree(srv: Server, b64: Base64, raw: seq<(string, string)>, m: Fields)
    requires srv.mode.Modern? && "id" in m && Get(m, "method").Str? && Get(m, "params").Obj?
    requires ServeModern(srv, b64, raw, m) != Some(Error(m["id"], -32020, HeaderMismatch))
    ensures var headers, rpc, params := Normalized(raw), m["method"].s, m["params"].fields;
            && "mcp-method" in headers && headers["mcp-method"] == rpc
            && "mcp-protocol-version" in headers
            && (Get(params, "_meta").Obj? &&
                Get(params["_meta"].fields, "io.modelcontextprotocol/protocolVersion").Str? ==>
                  headers["mcp-protocol-version"] == params["_meta"].fields["io.modelcontextprotocol/protocolVersion"].s)
            && (rpc in {"tools/call", "prompts/get"} && Get(params, "name") != Null ==>
                  "mcp-name" in headers && Get(params, "name").Str? && Decode(b64, headers["mcp-name"]) == Some(params["name"].s))
            && (rpc == "resources/read" && Get(params, "uri") != Null ==>
                  "mcp-name" in headers && Get(params, "uri").Str? && Decode(b64, headers["mcp-name"]) == Some(params["uri"].s))
  {
    MetaNames();
    assert "resources/read"[0] == 'r' && "tools/call"[0] == 't' && "prompts/get"[0] == 'p';
  }

  // A header_echo call that returns its arguments had all four of them in its headers.
  lemma EchoedArgumentsWereMirrored(srv: Server, b64: Base64, raw: seq<(string, string)>, m: Fields)
    requires EchoSucceeds(srv, b64, raw, m)
    ensures Arguments(m).Obj? && HeaderEchoArguments(Arguments(m).fields)
    ensures var headers, arguments := Normalized(raw), Arguments(m).fields;
            && "mcp-param-" + "region" in headers && "mcp-param-" + "attempt" in headers
            && "mcp-param-" + "enabled" in headers && "mcp-param-" + "greeting" in headers
            && Decode(b64, headers["mcp-param-" + "region"]) == Some(arguments["region"].s)
            && Decode(b64, headers["mcp-param-" + "attempt"]) == Some(IntText(arguments["attempt"].n))
            && Decode(b64, headers["mcp-param-" + "enabled"]) == Some(if arguments["enabled"].b then "true" else "false")
            && Decode(b64, headers["mcp-param-" + "greeting"]) == Some(arguments["greeting"].s)
  {
    EchoResult(srv, b64, raw, m);
    HeaderEchoMirrorsHeaders(srv, b64, raw, m, 0);
    HeaderEchoMirrorsHeaders(srv, b64, raw, m, 1);
    HeaderEchoMirrorsHeaders(srv, b64, raw, m, 2);
    HeaderEchoMirrorsHeaders(srv, b64, raw, m, 3);
  }
}
