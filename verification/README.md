# dcode, verified

A Dafny model of the parts of dcode where a mistake would be hard to see, with proofs of what they
are for. `dafny verify dfyconfig.toml` checks the whole project.

The model follows the source component by component.

* **The MCP fixture server** (`FixtureServer`, `ServerAnswers`, `LegacySessions`,
  `LegacyTransports`, `SessionRaces`, `SessionOwnership`, `HeaderMirroring`, `MirroredRequests`,
  `SseFraming`). One message handler serves stdio and HTTP. The main result is that, whatever
  requests for other sessions come in between, an HTTP session cannot be told from a stdio
  connection of its own; `SessionOwnership` proves it again for threads that look a session up first
  and handle the message later. `ServerAnswers` says what each request is answered. The modern
  transport's header mirroring and the three event-stream framings are proved against independent
  readers.
* **Reports and regression gates** (`ConformanceReport`, `ReportReader`, `RegressionGate`,
  `GateMeaning`, `SkippedTransport`, `ReviewReport`, `ReviewGate`, `ReviewBaseline`,
  `ReviewReader`, `ReviewMeaning`, `ReviewRuns`, `OfficialCases`, `OfficialReports`). The readers'
  loops are proved to compute an identity map and to complain exactly about invalid reports; the two
  `Meaning` modules say on the reports' own fields what is read, what is valid and what passes. The
  gate is a preorder, so chains of accepted candidates and their baselines only improve.
* **The app-server client** (`AppServerClient`, `ClientReplies`). One inbox is shared by requests,
  waits and server-initiated requests; an induction principle over runs accounts for every message.
* **The analytics queue** (`AnalyticsQueue`, `QueueProgress`, `Dedupe`, `EventBatches`). Senders,
  flushers and the worker take steps in any order; the dedupe sets and the batching loop are
  imperative.
* **The agent spawn graph** (`SpawnGraph`, `SpawnUpdates`). A single-parent edge table with a
  breadth-first listing, exactly when that listing ends, and what each update does to it.
* **Parsers and printers** (`AcceptedLines`, `PatchTotals`, `ReleaseVersion`, `ReleaseSpellings`,
  `WrapperArgs`, `WrapperMeaning` and the proofs beside them).

Code that updates things in place is modelled by classes and loops proved against functions; the
laws are then lemmas about those functions. Some properties one might expect are false of the code,
and the exact conditions are proved: compaction keeps the verdict of every candidate iff the checks
without SKIP still cover the suite (`RegressionGate.CompactionPreservesVerdicts`, with a report for
which it fails in `SkippedTransport`), and argument rewriting is a fixed point iff the manifest path
added is not `--` (`WrapperArgs.RewritingIsAFixedPointIff`). A third, that a case succeeds whenever
all scenarios do, holds iff only the known statuses occur (`OfficialCases.CaseSucceedsIff`). A
fourth, that only spellings of versions are normalised, fails on one family of texts
(`ReleaseSpellings.NormalizeAcceptsExactlyTheSpellings`, with a member of it in
`AnAccidentIsAccepted`).

Some readings of the source that the model settles:

* JSON values are compared as Python compares them, so `true` and `1.0` answer request 1.
* The documentation calls descendant listing breadth-first without saying what happens on cycles;
  the query uses `UNION ALL`, so it stops iff the root is on no matching cycle.
* The plugin check clears a full dedupe set before it looks for a key, the app check after.
* `1-bet-alpha5` normalises to `1b5`, because the substitutions run one after the other; nothing
  else that is no spelling of a version is accepted.
* Git's patch lines may carry a carriage return; `str::lines` drops it only before a newline.

## Model

| member | source | states |
|---|---|---|
| FixtureServer.Handle | scripts/mcp_conformance/server.py:306-348 | exactly the well-formed messages without an id go unanswered; every other message but a discovery is answered under its own id, and notifications are planned only together with a reply that is streamed, so no transport can drop one |
| LegacyTransports.ConnectionState.constructor | scripts/mcp_conformance/server.py:77-80 | a new connection has seen nothing |
| LegacyTransports.HandleMessage | scripts/mcp_conformance/server.py:306-348 | updates the connection in place exactly as the handler's specification says, for objects, malformed requests, notifications and requests |
| LegacyTransports.AcceptNotification | scripts/mcp_conformance/server.py:350-362 | `notifications/initialized` completes the handshake only after an accepted initialize |
| LegacyTransports.AnswerLegacy | scripts/mcp_conformance/server.py:487-572 | every legacy request, by its method: what it does to the connection, the version negotiated or the error code, the not-initialized refusal, the fixed results, and -32601 for the methods outside the list |
| LegacyTransports.AnswerLine | scripts/mcp_conformance/server.py:1641-1671 | one line in, its output out, the connection updated in place |
| LegacyTransports.RunStdio | scripts/mcp_conformance/server.py:1641-1671 | the stdio loop writes, line by line, what the stdio specification gives on a fresh connection |
| LegacyTransports.FixtureHttpServer.constructor | scripts/mcp_conformance/server.py:1374-1393 | starts with no sessions |
| LegacyTransports.FixtureHttpServer.DeleteSession | scripts/mcp_conformance/server.py:1412-1431 | removes exactly the named session, or answers 404 and changes nothing; away from the endpoint and in modern mode 405; no two ids share a connection |
| LegacyTransports.FixtureHttpServer.PostMessage | scripts/mcp_conformance/server.py:1433-1540 | the whole table and reply after a POST in every mode, for every refusal before the message is looked at |
| LegacyTransports.FixtureHttpServer.AnswerModern | scripts/mcp_conformance/server.py:1490-1540 | a modern request with mismatching headers is refused, any other message is handled on a state of its own, and no session moves |
| LegacyTransports.FixtureHttpServer.Dispatch | scripts/mcp_conformance/server.py:1505-1568 | initialize mints a session, everything else needs a known one, discovery runs on a throw-away state |
| LegacyTransports.FixtureHttpServer.Mint | scripts/mcp_conformance/server.py:1547-1552 | the new id gets a connection of its own, the others are untouched |
| LegacyTransports.FixtureHttpServer.Continue | scripts/mcp_conformance/server.py:1555-1568 | only the addressed session's state moves |
| LegacySessions.DiscoveryIgnoresState | scripts/mcp_conformance/server.py:1553-1554 | a throw-away state is enough for discovery: its answer does not depend on the connection and leaves it alone |
| LegacySessions.OneMessageOnSession | scripts/mcp_conformance/server.py:1433-1568 | one POST on a session does to it and answers what one stdio line does |
| LegacySessions.OtherRequestsLeaveSessionAlone | scripts/mcp_conformance/server.py:1412-1568 | requests for other sessions neither change nor remove this one |
| LegacySessions.SessionFollowsStdio | scripts/mcp_conformance/server.py:1433-1568 | under any interleaving, the answers on a session are a stdio connection's answers to its own messages, and so is its state |
| LegacySessions.SessionEqualsStdio | scripts/mcp_conformance/server.py:1542-1671 | from its creating initialize on, a session answers as a separate stdio connection fed that initialize and then its own messages |
| LegacySessions.InitializedIffHandshake | scripts/mcp_conformance/server.py:350-362 | after any lines, a connection has seen initialize iff a well-formed one arrived, and is initialized iff an id-less `notifications/initialized` arrived after it |
| LegacySessions.NoResultBeforeHandshake | scripts/mcp_conformance/server.py:487-572 | no method but initialize gets a result before the handshake |
| LegacySessions.SessionInitializedIff | scripts/mcp_conformance/server.py:1542-1568 | a session that was not deleted is initialized iff its creating initialize was well-formed and the notification arrived on it |
| LegacySessions.SessionResultNeedsHandshake | scripts/mcp_conformance/server.py:487-572 | on a session, too, a result needs the handshake among its own earlier messages |
| LegacySessions.DeadSessionIsRefused | scripts/mcp_conformance/server.py:1555-1568 | an id that is not in the table is refused with 400 on every later POST that consults it, and DELETE answers 404 |
| LegacySessions.DeletedSessionIsRefused | scripts/mcp_conformance/server.py:1412-1431 | after DELETE the id is refused for ever |
| ServerAnswers.EveryRequestGetsOneReply | scripts/mcp_conformance/server.py:306-348 | in every state and mode a well-formed request is answered by its notifications and then exactly one reply, under its own id |
| ServerAnswers.OtherMessages | scripts/mcp_conformance/server.py:306-362 | what every message that is not a well-formed request gets: its code and status, or silence |
| ServerAnswers.InitializeIsNegotiated | scripts/mcp_conformance/server.py:494-519 | an initialize line with a protocol version is answered with the server's own version, whatever came before |
| ServerAnswers.PlainMethodsAreServedIff | scripts/mcp_conformance/server.py:520-572 | ping, log level and the fixed listings get their result iff the handshake was made on earlier lines, and -32600 otherwise |
| ServerAnswers.OnlyUnknownMethodsAreNotFound | scripts/mcp_conformance/server.py:520-572 | after the handshake -32601 is said of exactly the methods outside the list |
| ServerAnswers.EchoReturnsItsText | scripts/mcp_conformance/server.py:625-792 | over stdio an echo is answered with its own text iff the handshake was made |
| ServerAnswers.LegacyToolCalls | scripts/mcp_conformance/server.py:625-792 | what each of the other tools returns on a legacy connection, and the error for unknown tools and arguments |
| ServerAnswers.LegacyAnswers | scripts/mcp_conformance/server.py:487-572 | the whole answer to a legacy request by its method, with codes and results written out |
| ServerAnswers.LegacyReads | scripts/mcp_conformance/server.py:1040-1102 | resource pages and contents on a legacy connection |
| ServerAnswers.LegacyGreets | scripts/mcp_conformance/server.py:1120-1153 | a prompt greets the name it was given |
| ServerAnswers.ModernGate | scripts/mcp_conformance/server.py:364-412 | which modern requests are turned away before their method is looked at, and with what |
| ServerAnswers.OnlyUnknownModernMethodsAreNotFound | scripts/mcp_conformance/server.py:364-485 | in modern mode -32601 is said of exactly initialize and the methods outside the list |
| ServerAnswers.ModernPlain | scripts/mcp_conformance/server.py:442-605 | the listings of modern mode, and the pages of tools under the two paging profiles |
| ServerAnswers.ModernDiscovery | scripts/mcp_conformance/server.py:414-440 | discovery is answered under the request's id but for the two profiles made to answer under another |
| ServerAnswers.ModernEcho | scripts/mcp_conformance/server.py:625-792 | a modern echo returns its text |
| ServerAnswers.MalformedCalls | scripts/mcp_conformance/server.py:631-640 | a call without a text name or with arguments that are no object is refused |
| ServerAnswers.LargeIntegerRuns | scripts/mcp_conformance/server.py:690-735 | the large-integer and environment tools |
| ServerAnswers.ReviewTools | scripts/mcp_conformance/server.py:132-291 | which tools are known under each profile and mode |
| ServerAnswers.CatalogTools | scripts/mcp_conformance/server.py:132-291 | the numbered tools of the catalog profiles are known up to exactly 1024 or 1025 tools in all |
| ServerAnswers.InputRoundTrips | scripts/mcp_conformance/server.py:943-1038 | without elicitation support -32021, on the first call a request for input, and after it a text iff the retry carries the state handed out and an accepted confirmation of that text |
| ServerAnswers.IntegerRoundTrips | scripts/mcp_conformance/server.py:794-894 | an integer is returned iff the retry carries the state handed out and an accepted value in the range |
| ServerAnswers.IntegerIsAsked | scripts/mcp_conformance/server.py:794-850 | without elicitation support -32021, on the first call a request for the integer |
| ServerAnswers.ManyInputsAreAsked | scripts/mcp_conformance/server.py:896-941 | one tool asks for 65 inputs at once |
| ServerAnswers.ListenNotifies | scripts/mcp_conformance/server.py:1155-1234 | a subscription is acknowledged, then announces exactly what was asked for, then closes |
| ServerAnswers.UpdatesAreListed | scripts/mcp_conformance/server.py:1155-1234 | a resource is announced as updated iff it is known and listed |
| ServerAnswers.PostRefusals | scripts/mcp_conformance/server.py:1433-1488 | the status and code of every POST refused before its message is looked at |
| ServerAnswers.DeleteReplies | scripts/mcp_conformance/server.py:1412-1431 | the table and the status after every DELETE |
| SessionRaces.EveryConnectionFollowsStdio | scripts/mcp_conformance/server.py:1505-1568 | with lookups under the lock and handling outside it, in any overlap of POSTs and DELETEs, every live session has a connection of its own, and each connection stands and answers as a separate stdio connection fed the messages handled on it, in that order |
| SessionRaces.EveryConnectionIsAlone | scripts/mcp_conformance/server.py:1505-1568 | an invariant of every run, for any handler: connections do not influence each other |
| SessionRaces.ResultsNeedTheHandshake | scripts/mcp_conformance/server.py:487-572 | under any overlap a result needs the handshake among the messages handled before it on that connection |
| SessionRaces.TableHoldsTheLive | scripts/mcp_conformance/server.py:1412-1431 | a session is in the table iff it was minted and not deleted since |
| SessionRaces.DeleteRefusesOnlyLaterLookups | scripts/mcp_conformance/server.py:1422-1426 | a POST that needs a session is refused iff the session is not live at its lookup; if it is, no later DELETE refuses it and it is answered on the connection the session had |
| SessionRaces.UninterruptedIsAtomic | scripts/mcp_conformance/server.py:1433-1568 | a request whose steps nothing comes between is served exactly as the atomic server serves it |
| SessionOwnership.SessionIsItsOwnStdio | scripts/mcp_conformance/server.py:1412-1568 | however requests overlap, what is handled on a minted session's connection is what the creating initialize and the session's later lookups before its DELETE sent, and nothing else; none of it is refused, lost or handled twice; and the answers are those of a separate stdio connection fed these messages in handling order |
| SessionOwnership.RunOwns | scripts/mcp_conformance/server.py:1542-1568 | for any handler: only the session leads to its connection, every message on it is the session's own, and every own message is served there |
| SessionOwnership.EveryMessageIsHandledOnce | scripts/mcp_conformance/server.py:1505-1540 | no message is handled twice, and a handled one is answered |
| HeaderMirroring.ValidateHeaders | scripts/mcp_conformance/server.py:1253-1341 | accepts exactly the requests whose media types, version, method, name and parameter headers agree with the body |
| HeaderMirroring.MirroredMatch | scripts/mcp_conformance/server.py:1309-1341 | the loop over mirrored parameters accepts iff every one is mirrored or absent on both sides |
| HeaderMirroring.ModernPostIsServed | scripts/mcp_conformance/server.py:1489-1540 | over HTTP a modern message is answered by validation and a fresh state, and the session table plays no part |
| HeaderMirroring.ResultMeansValidated | scripts/mcp_conformance/server.py:1489-1501 | a tool call that gets a result passed validation, its Mcp-Name decodes to the tool, and that tool was run on the arguments and the `_meta` object sent |
| HeaderMirroring.EchoResult | scripts/mcp_conformance/server.py:737-771 | `header_echo` returns exactly the arguments, which have the required types and are mirrored one by one |
| HeaderMirroring.HeaderEchoMirrorsHeaders | scripts/mcp_conformance/server.py:1309-1341 | every Mcp-Param header of a successful `header_echo` is present and decodes to the canonical text of the matching field of the result |
| HeaderMirroring.CanonicalTextIsInjective | scripts/mcp_conformance/server.py:1328-1341 | within strings, integers and booleans the canonical text determines the value |
| HeaderMirroring.EqualHeadersForceEqualValues | scripts/mcp_conformance/server.py:1309-1341 | two successful calls whose headers decode alike carry the same region, attempt, enabled and greeting |
| MirroredRequests.DecodeMeans | scripts/mcp_conformance/server.py:1237-1250 | a header without markers decodes to itself iff it is plain; one between both markers to what base64 decodes; one with a single marker to nothing |
| MirroredRequests.MirrorReadsBack | scripts/mcp_conformance/server.py:1237-1250 | a text a client writes plainly or in base64 decodes to that text |
| MirroredRequests.HeadersAreRead | scripts/mcp_conformance/server.py:1257-1257 | the last header written under a name counts, whatever its capitals |
| MirroredRequests.MediaTypeReads | scripts/mcp_conformance/server.py:1258-1262 | white space, parameters and capitals do not change a media type |
| MirroredRequests.MirroredEchoIsServed | scripts/mcp_conformance/server.py:1253-1341 | a header_echo call whose headers mirror its body is served and returns its arguments |
| MirroredRequests.EchoedArgumentsWereMirrored | scripts/mcp_conformance/server.py:1309-1341 | a header_echo call that returns its arguments had all four of them in its headers, as texts |
| MirroredRequests.ServedHeadersAgree | scripts/mcp_conformance/server.py:1253-1305 | a request that is not refused had headers that repeat its method, its protocol version and the name or resource it is about |
| SseFraming.FramesReadBack | scripts/mcp_conformance/server.py:1361-1371 | data frames parsed by sections 9.2.5 and 9.2.6 of the WHATWG HTML standard give back their texts, with LF or CR line ends |
| SseFraming.CommentsAreIgnored | scripts/mcp_conformance/server.py:1349-1360 | any run of comment lines before the frames changes nothing a reader sees |
| SseFraming.StreamRoundTrips | scripts/mcp_conformance/server.py:1344-1371 | for each of the three framings, parsing the encoded stream returns exactly the messages in order |
| SseFraming.FloodExceedsTheLimit | scripts/mcp_conformance/server.py:1349-1357 | the comment flood is 4097 lines of 2048 bytes, longer than an event may be |
| SseFraming.StreamBreaks | scripts/mcp_conformance/server.py:1344-1371 | two profiles start with a comment and use no LF; all others use no CR and start with the first event |
| AppServerClient.EveryRunAccountsForEveryMessage | scripts/mcp_conformance/run_codex_compliance.py:242-353 | in every run the consumed messages are the event log merged in order with the messages requests handed back, and the i-th reply sent answers the i-th server request read: under its id, an accepted form for an elicitation, the method named in an error otherwise |
| AppServerClient.EveryRequestReturnsItsOwnAnswer | scripts/mcp_conformance/run_codex_compliance.py:242-276 | in every run, a request that returns a message returns one without a method whose id is the number of requests made so far, itself included |
| AppServerClient.RunHands | scripts/mcp_conformance/run_codex_compliance.py:242-317 | from any state, the ids used and the messages handed back are those of the requests of the run, in order |
| AppServerClient.EveryRunNumbersItsRequests | scripts/mcp_conformance/run_codex_compliance.py:247-249 | in every run the requests carry the ids 1, 2, 3 and so on, and a message that answers one of them answers no other |
| AppServerClient.RequestReturnsItsAnswer | scripts/mcp_conformance/run_codex_compliance.py:255-276 | a request returns a message iff that is the first arrival with its id and no method before the stream ends or patience runs out; stale responses and server requests reusing the id are passed over |
| AppServerClient.WaitReturnsTheFirstFittingEvent | scripts/mcp_conformance/run_codex_compliance.py:278-317 | a wait returns the earliest event from its start index on with the method, object params and the condition; server requests arriving meanwhile are never taken for it |
| AppServerClient.WaitReturnsIff | scripts/mcp_conformance/run_codex_compliance.py:278-317 | a wait returns a message iff it is the first fitting event logged from the start index on or, when none is logged, the first fitting arrival before the stream ends or patience runs out |
| AppServerClient.RunKeeps | scripts/mcp_conformance/run_codex_compliance.py:242-353 | what every single step keeps, every run of calls keeps |
| AppServerClient.KeptIsInductive | scripts/mcp_conformance/run_codex_compliance.py:242-353 | each step of request, wait, reply and notification keeps the account of messages and replies |
| AppServerClient.AppServerClient.constructor | scripts/mcp_conformance/run_codex_compliance.py:159-201 | starts at id 1 with empty logs |
| AppServerClient.AppServerClient.HandleServerRequest | scripts/mcp_conformance/run_codex_compliance.py:319-353 | logs the request, records the form of an elicitation and sends exactly one reply, the one the request must get, under its id |
| AppServerClient.AppServerClient.SendRequest | scripts/mcp_conformance/run_codex_compliance.py:242-276 | the wait loop returns and leaves the state the request specification gives |
| AppServerClient.AppServerClient.WaitForNotification | scripts/mcp_conformance/run_codex_compliance.py:278-317 | the scan of the log and the wait loop return and leave the state the wait specification gives |
| ClientReplies.EveryServerRequestIsAnswered | scripts/mcp_conformance/run_codex_compliance.py:319-353 | in every run the messages with an id and a method text, whichever call read them, were answered once each and in order, and the forms recorded are those of the elicitations |
| ClientReplies.EveryCallIsSentOnce | scripts/mcp_conformance/run_codex_compliance.py:242-253 | besides replies a run sends one message for each request and notification called, in order, numbered 1, 2, 3, with its own method and parameters |
| ClientReplies.RequestsHandBackAnswers | scripts/mcp_conformance/run_codex_compliance.py:255-276 | a request that returns a message returns one without a method whose id Python calls equal to its own |
| ClientReplies.WaitsHandBackTheFirst | scripts/mcp_conformance/run_codex_compliance.py:278-317 | a wait returns a message iff it is the first fitting event from the start index on or, if none was logged, the first fitting message to arrive in time |
| ClientReplies.RequestsSeeTheEnd | scripts/mcp_conformance/run_codex_compliance.py:255-276 | a request reports the end of the stream iff it comes in time and before the answer |
| ClientReplies.WaitsSeeTheEnd | scripts/mcp_conformance/run_codex_compliance.py:297-317 | a wait reports the end of the stream iff it comes in time and before a fitting message |
| OfficialCases.LoadChecks | scripts/mcp_conformance/official_conformance.py:306-342 | loads exactly the objects that are more than information: by their place without an id, by their id without a name, and as failed without a status |
| OfficialCases.CountNames | scripts/mcp_conformance/run_codex_compliance.py:1178-1180 | counts how often each check name occurs |
| OfficialCases.BuildScenario | scripts/mcp_conformance/run_codex_compliance.py:1177-1222 | one result per assertion, one for the adapter, and one for the runner when nothing else explains a failure |
| OfficialCases.BuildOfficialCase | scripts/mcp_conformance/run_codex_compliance.py:1176-1239 | the case's checks in order; it succeeds iff there is a check and all succeed |
| OfficialCases.ScenarioChecksSucceedIff | scripts/mcp_conformance/run_codex_compliance.py:1111-1222 | a scenario's checks all succeed iff the adapter did, every status is one that succeeds, and a failed run is explained |
| OfficialCases.NoMaskedFailure | scripts/mcp_conformance/run_codex_compliance.py:1111-1239 | a case succeeds iff there is at least one scenario and every scenario passes; it always has a check |
| OfficialCases.RunPassesIff | scripts/mcp_conformance/official_conformance.py:458-480 | a scenario result of a run passes iff the run succeeded and used only the known statuses |
| OfficialCases.CaseSucceedsIff | scripts/mcp_conformance/run_codex_compliance.py:138-140 | over run results, a case succeeds iff there is one, every run succeeded and every status is SUCCESS, FAILURE, WARNING, SKIPPED or INFO |
| OfficialCases.CaseOfRunsSucceedsIff | scripts/mcp_conformance/official_conformance.py:458-480 | a case succeeds iff there is a run and each exited with 0, made checks, kept its adapter and had only successes, skips and information |
| OfficialCases.LoadedChecks | scripts/mcp_conformance/official_conformance.py:306-342 | a check is loaded iff some entry says it |
| OfficialCases.UnknownStatusFailsTheCase | scripts/mcp_conformance/official_conformance.py:458-480 | a status outside that list: the run counts as a success, the case fails |
| OfficialCases.RepeatedObservationsShareAName | scripts/mcp_conformance/run_codex_compliance.py:1127-1128 | numbered repetitions of a check have one stable name in the regression gate |
| OfficialReports.BuiltCaseReadsBack | scripts/mcp_conformance/run_codex_compliance.py:1111-1239 | written into a report, the checks of a built case are read without complaint, and the identities and statuses found are exactly what the scenarios said |
| OfficialReports.EmptyCaseReadsBack | scripts/mcp_conformance/run_codex_compliance.py:1226-1235 | a case without scenarios is read as one failure |
| OfficialReports.CaseSucceedsIffNothingFails | scripts/mcp_conformance/run_codex_compliance.py:138-140 | a built case succeeds iff the gate finds no failure in it |
| OfficialReports.WrittenChecksAreRead | scripts/mcp_conformance/run_codex_compliance.py:1575-1595 | any sound checks are read back under their identities and statuses, and nothing else is |
| OfficialReports.LoadedChecksAreNamed | scripts/mcp_conformance/official_conformance.py:306-342 | the loader leaves no check id empty |
| ConformanceReport.NumberedNameIsStable | scripts/mcp_conformance/run_codex_compliance.py:1378-1384 | a trailing number after `#` never changes a check's stable name |
| ConformanceReport.StableName | scripts/mcp_conformance/run_codex_compliance.py:1381-1384 | a prefix of the name, and nonempty when the name is |
| ConformanceReport.AddChecksMeans | scripts/mcp_conformance/run_codex_compliance.py:1575-1595 | an identity has a status in the map iff it had it before or a well-formed check says so |
| ConformanceReport.FullIdsMeans | scripts/mcp_conformance/run_codex_compliance.py:1529-1615 | a full report's map holds exactly what the checks of the required cases say |
| ConformanceReport.AddRecordsMeans | scripts/mcp_conformance/run_codex_compliance.py:1452-1490 | a bucket adds exactly its well-formed records under its status |
| ConformanceReport.CompactIdsMeans | scripts/mcp_conformance/run_codex_compliance.py:1446-1490 | a compact report's map holds exactly its passing and failing records |
| ConformanceReport.IdsAreWellKept | scripts/mcp_conformance/run_codex_compliance.py:1395-1615 | no identity is kept without a status |
| ConformanceReport.SameStatusesSameMap | scripts/mcp_conformance/run_codex_compliance.py:1395-1615 | such maps are equal when they say the same |
| ReportReader.ReadReport | scripts/mcp_conformance/run_codex_compliance.py:1395-1615 | the map read is what the report's own cases or records say, status by status, and errors are raised exactly when the report is not acceptable on its fields |
| ReportReader.ReadPreamble | scripts/mcp_conformance/run_codex_compliance.py:1401-1427 | no error iff schema, metadata and selection are as required |
| ReportReader.CompareScenarios | scripts/mcp_conformance/run_codex_compliance.py:1602-1613 | no error iff the observed scenarios are the catalog's |
| ReportReader.ReadBucket | scripts/mcp_conformance/run_codex_compliance.py:1452-1490 | adds a bucket's records; no error iff all are well-formed and none repeats |
| ReportReader.ReadCompactMode | scripts/mcp_conformance/run_codex_compliance.py:1492-1526 | no error iff the mode's catalog and transports are covered |
| ReportReader.ReadCompact | scripts/mcp_conformance/run_codex_compliance.py:1429-1527 | a compact report: its map, and no error iff its parts are valid and cover the suite |
| ReportReader.FileCases | scripts/mcp_conformance/run_codex_compliance.py:1529-1549 | files cases by mode and transport; no error iff each is well-formed and none repeats |
| ReportReader.ReadChecks | scripts/mcp_conformance/run_codex_compliance.py:1575-1600 | adds a case's observations; no error iff every check is well-formed |
| ReportReader.ReadSlot | scripts/mcp_conformance/run_codex_compliance.py:1563-1600 | the same for a required mode and transport, which must be there with checks |
| ReportReader.ReadMode | scripts/mcp_conformance/run_codex_compliance.py:1552-1613 | both transports of a mode and its catalog |
| ReportReader.ReadFull | scripts/mcp_conformance/run_codex_compliance.py:1529-1615 | a full report: its map, and no error iff its parts are valid and cover the suite |
| RegressionGate.NoWorseMeans | scripts/mcp_conformance/run_codex_compliance.py:1703-1737 | no new failure and nothing missing means: failures only shrink, passes only grow, nothing recorded goes unobserved |
| RegressionGate.GateIsReflexive | scripts/mcp_conformance/run_codex_compliance.py:1680-1745 | a report passes against itself iff it is valid and shipping-clean |
| RegressionGate.GateIsTransitive | scripts/mcp_conformance/run_codex_compliance.py:1680-1745 | passing composes |
| RegressionGate.AcceptedChainsOnlyImprove | scripts/mcp_conformance/run_codex_compliance.py:1680-1745 | along any chain of accepted reports the FAIL set only shrinks, the PASS set only grows, no recorded check disappears, and the last passes against the first |
| RegressionGate.BaselineStandsForItsReport | scripts/mcp_conformance/run_codex_compliance.py:1618-1745 | a covered report and its baseline accept each other |
| RegressionGate.MaintainedChainsOnlyImprove | scripts/mcp_conformance/run_codex_compliance.py:1618-1745 | the same along any chain in which accepted candidates and compactions alternate; the last report passes against the first iff it is still valid |
| RegressionGate.RequiredScenariosReadBack | scripts/mcp_conformance/run_codex_compliance.py:1618-1662 | the selection written into a baseline is read back mode by mode |
| RegressionGate.CompactReadsBack | scripts/mcp_conformance/run_codex_compliance.py:1618-1662 | a baseline reads back as the report's map without SKIP, and is valid iff that map still covers every mode, transport and scenario |
| RegressionGate.CompactionPreservesVerdicts | scripts/mcp_conformance/run_codex_compliance.py:1618-1745 | against a baseline every candidate gets the same four lists as against the full report, and the same verdict for all candidates iff the map without SKIP still covers the suite |
| SkippedTransport.SkippedTransportLosesItsVerdict | scripts/mcp_conformance/run_codex_compliance.py:1618-1745 | for every suite with scenarios, a report on which it fails: one required transport was only skipped, so the report passes against itself and not against its own baseline |
| SkippedTransport.CasesFile | scripts/mcp_conformance/run_codex_compliance.py:1529-1549 | distinct cases are filed one each, without complaint |
| RegressionGate.CompactionIsIdempotent | scripts/mcp_conformance/run_codex_compliance.py:1618-1662 | compacting a baseline gives it back |
| ReportReader.SortFailures | scripts/mcp_conformance/run_codex_compliance.py:1708-1717 | the loop over the candidate's failures gives the sorted new, known and shipping failures |
| ReportReader.SortRecorded | scripts/mcp_conformance/run_codex_compliance.py:1719-1734 | the loop over the baseline gives the sorted missing, fixed and shipping failures |
| ReportReader.EvaluateGate | scripts/mcp_conformance/run_codex_compliance.py:1680-1745 | on the two reports' fields: success iff both are acceptable, both record the same boolean policy, neither fails a shipping check, no failure appears, no pass disappears and no failure goes unobserved; and what each of the four lists holds |
| ReportReader.CompactBaseline | scripts/mcp_conformance/run_codex_compliance.py:1618-1662 | a baseline is made exactly of an acceptable report with a policy and no shipping failure; it keeps the policy and the header, lists both buckets in order and observes what the report does, but for SKIP |
| GateMeaning.CheckMeans | scripts/mcp_conformance/run_codex_compliance.py:1361-1393 | a check counts for an identity and status iff its fields name them and its success agrees |
| GateMeaning.RecordMeans | scripts/mcp_conformance/run_codex_compliance.py:1452-1490 | a baseline record counts for an identity iff its fields name it |
| GateMeaning.ReportMeans | scripts/mcp_conformance/run_codex_compliance.py:1395-1615 | the identity map holds a status iff the first case of the mode and transport has a check that says so, or a record of the bucket does |
| GateMeaning.ValidMeans | scripts/mcp_conformance/run_codex_compliance.py:1395-1615 | when a report is acceptable, on its fields: header, catalogs, cases or records, transports and scenarios |
| GateMeaning.PassesMeans | scripts/mcp_conformance/run_codex_compliance.py:1680-1745 | a candidate passes iff both reports are acceptable, their policy is one boolean, no shipping check fails and nothing gets worse |
| GateMeaning.VerdictMeans | scripts/mcp_conformance/run_codex_compliance.py:1680-1745 | the verdict and the members of the four lists, on the reports' fields |
| GateMeaning.IdentityOrder | scripts/mcp_conformance/run_codex_compliance.py:1708-1734 | identities are listed by version, transport, source, scenario and check |
| GateMeaning.BaselineExistsIff | scripts/mcp_conformance/run_codex_compliance.py:1618-1662 | which reports have a baseline, and everything it says |
| GateMeaning.PolicyNeverChanges | scripts/mcp_conformance/run_codex_compliance.py:1693-1701 | every report of a chain of accepted candidates and compactions records the first one's policy |
| GateMeaning.AcceptedPolicyNeverChanges | scripts/mcp_conformance/run_codex_compliance.py:1693-1701 | the same along a chain of accepted candidates |
| ReviewReport.MatrixIsRequired | scripts/mcp_conformance/review_regressions.py:71-90 | the matrix run for all modes lists each required case once and nothing else |
| ReviewReport.KeysAreDistinct | scripts/mcp_conformance/review_regressions.py:71-90 | two matrix slots never share a mode and case name |
| ReviewGate.CaseMapCounts | scripts/mcp_conformance/review_regressions.py:774-853 | distinctly named checks give one identity each, and as many failed ones as failed checks |
| ReviewGate.CasePassesIff | scripts/mcp_conformance/review_regressions.py:774-853 | a case passes in the map iff it succeeded in the run |
| ReviewGate.RunTotals | scripts/mcp_conformance/review_regressions.py:774-853 | the totals of any run with distinct keys are those counted from its identity map |
| ReviewGate.AssembledCasesFile | scripts/mcp_conformance/review_regressions.py:940-993 | every assembled case is filed without complaint under its own key |
| ReviewGate.WellNamedValidates | scripts/mcp_conformance/review_regressions.py:774-1029 | an assembled report of the required cases with nonempty, distinct, prefixed names validates to exactly the run's outcomes |
| ReviewGate.AssembledReportValidatesIff | scripts/mcp_conformance/review_regressions.py:774-1029 | the report of an all-modes run validates iff every case recorded such checks |
| ReviewBaseline.CompactReadsBack | scripts/mcp_conformance/review_regressions.py:1032-1067 | a valid report's baseline validates to the same identity map and summary |
| ReviewBaseline.CompactionIsIdempotent | scripts/mcp_conformance/review_regressions.py:1032-1067 | compacting a baseline gives it back |
| ReviewBaseline.NoWorseMeans | scripts/mcp_conformance/review_regressions.py:1070-1110 | no new failure and nothing missing means no identity got worse or lost |
| ReviewBaseline.PassesMeans | scripts/mcp_conformance/review_regressions.py:1070-1110 | the gate passes iff both reports are valid and nothing got worse |
| ReviewBaseline.AcceptedChainsOnlyImprove | scripts/mcp_conformance/review_regressions.py:1070-1110 | along any chain of accepted reports nothing gets worse, and the last passes against the first |
| ReviewBaseline.CompactionPreservesVerdicts | scripts/mcp_conformance/review_regressions.py:1032-1110 | every candidate gets the same verdict and lists against the baseline as against the report |
| ReviewReader.ReadReview | scripts/mcp_conformance/review_regressions.py:859-1029 | the outcomes read are what the first check of the first case, or the records, say; errors are raised exactly when the report is not acceptable on its fields, totals included |
| ReviewReader.CollectErrors | scripts/mcp_conformance/review_regressions.py:859-1029 | the errors as the code collects them are none exactly for valid reports |
| ReviewReader.ReadCases | scripts/mcp_conformance/review_regressions.py:940-993 | files the cases of a full report; no error iff all are well-formed |
| ReviewReader.ReadCase | scripts/mcp_conformance/review_regressions.py:944-993 | files one case; no error iff it is required, new, consistent and well-named |
| ReviewReader.ReadChecks | scripts/mcp_conformance/review_regressions.py:963-988 | adds a case's checks; no error iff names are prefixed and distinct |
| ReviewReader.ReadRefs | scripts/mcp_conformance/review_regressions.py:886-903 | the case references of a baseline; no error iff well-formed and distinct |
| ReviewReader.ReadRecords | scripts/mcp_conformance/review_regressions.py:909-938 | adds a bucket's records; no error iff well-formed and new |
| ReviewReader.ReadCompact | scripts/mcp_conformance/review_regressions.py:882-938 | a baseline's observed cases and map, and no error iff its parts are valid |
| ReviewReader.SortFailures | scripts/mcp_conformance/review_regressions.py:1070-1110 | the sorted new and known failures |
| ReviewReader.SortRecorded | scripts/mcp_conformance/review_regressions.py:1070-1110 | the sorted missing and fixed checks |
| ReviewReader.EvaluateReviewGate | scripts/mcp_conformance/review_regressions.py:1070-1110 | on the two reports' fields: success iff both are acceptable, nothing recorded goes missing and no failure appears; and what each of the four lists holds |
| ReviewReader.CompactReviewBaseline | scripts/mcp_conformance/review_regressions.py:1032-1067 | a baseline is made exactly of an acceptable report; it is acceptable, records the same outcomes in order and keeps the totals |
| ReviewMeaning.ReportMeans | scripts/mcp_conformance/review_regressions.py:859-993 | an outcome is recorded iff the first check of the first case says so, or a record does |
| ReviewMeaning.RequiredCasesAre | scripts/mcp_conformance/review_regressions.py:71-90 | which cases are required, profile by profile |
| ReviewMeaning.ValidMeans | scripts/mcp_conformance/review_regressions.py:859-1029 | when a reviewer report is acceptable, on its fields: header, modes, cases or records, verdicts and totals |
| ReviewMeaning.GateMeans | scripts/mcp_conformance/review_regressions.py:1070-1110 | a candidate passes iff both reports are acceptable, nothing recorded goes missing and no failure appears |
| ReviewMeaning.VerdictMeans | scripts/mcp_conformance/review_regressions.py:1070-1110 | the verdict and the members of the four lists, on the reports' fields |
| ReviewMeaning.BaselineExistsIff | scripts/mcp_conformance/review_regressions.py:1032-1067 | which reports have a baseline, and everything it says |
| ReviewRuns.AssembledVerdicts | scripts/mcp_conformance/review_regressions.py:774-853 | whatever was run, a case succeeds iff it made checks and all passed, and the report iff there are cases and all succeed |
| ReviewRuns.RunMapMeans | scripts/mcp_conformance/review_regressions.py:774-853 | a run's report records exactly the outcomes of the cases it ran |
| SpawnGraph.SpawnGraphStore.constructor | codex-rs/state/migrations/0021_thread_spawn_edges.sql:1-8 | starts without edges |
| SpawnGraph.SpawnGraphStore.UpsertEdge | codex-rs/state/src/runtime/threads.rs:89-115 | the table afterwards is the old one with the child's row set to the given parent and status |
| SpawnGraph.SpawnGraphStore.SetEdgeStatus | codex-rs/state/src/runtime/threads.rs:117-128 | an existing row keeps its parent and gets the status; without a row the table is unchanged |
| SpawnGraph.SpawnGraphStore.InsertEdgeIfAbsent | codex-rs/state/src/runtime/threads.rs:304-325 | a new child gets an open row under the parent; a known one leaves the table unchanged |
| SpawnGraph.SpawnGraphStore.ListChildren | codex-rs/state/src/runtime/threads.rs:228-248 | exactly the children over matching edges, in id order |
| SpawnGraph.SpawnGraphStore.ListDescendants | codex-rs/state/src/runtime/threads.rs:250-302 | exactly the threads reachable over matching edges, each once, by depth and then id, whenever the root is on no matching cycle |
| SpawnGraph.CollectRows | codex-rs/state/src/runtime/threads.rs:255-289 | the worklist ends and has found each descendant once with its depth |
| SpawnGraph.SortRows | codex-rs/state/src/runtime/threads.rs:287-294 | the collected rows in depth and id order |
| SpawnGraph.AllDescendantsCollected | codex-rs/state/src/runtime/threads.rs:255-289 | what the worklist holds at the end is what the recursive query reaches |
| SpawnGraph.ReachedByIffDescendsAt | codex-rs/state/src/runtime/threads.rs:255-289 | a path of matching edges down from the root is a climb over parents, depth by depth |
| SpawnGraph.ReachableCycleIsOwn | codex-rs/state/migrations/0021_thread_spawn_edges.sql:1-8 | because a child has one parent, a cycle reachable from the root is one the root is on |
| SpawnGraph.DepthIsUnique | codex-rs/agent-graph-store/src/store.rs:49-59 | off a cycle, a descendant has one depth |
| SpawnGraph.RowsAreBoundedIffNoCycle | codex-rs/state/src/runtime/threads.rs:255-289 | the recursive query stops iff the root is on no matching cycle, and then within as many levels as there are edges |
| SpawnGraph.ListingHasNoRepeats | codex-rs/agent-graph-store/src/store.rs:49-59 | no thread is listed twice |
| SpawnGraph.ListingIsUnique | codex-rs/agent-graph-store/src/store.rs:49-59 | the order by depth and id leaves one possible listing |
| SpawnGraph.FilteredListingIsSubsequence | codex-rs/agent-graph-store/src/store.rs:49-59 | a filtered listing is the unfiltered one restricted to threads whose whole root path matches |
| SpawnGraph.ListingsByStatusAreDisjoint | codex-rs/agent-graph-store/src/store.rs:49-59 | the Open and Closed listings share no thread |
| SpawnGraph.ReparentingMovesExactlyTheSubtree | codex-rs/agent-graph-store/src/store.rs:18-27 | replacing an edge moves the child's subtree below the new parent, depth by depth, and nothing else |
| SpawnGraph.UpsertStaysAcyclicIff | codex-rs/agent-graph-store/src/store.rs:18-27 | an upsert keeps an acyclic graph acyclic iff the parent is not in the child's own subtree |
| SpawnGraph.SetStatusKeepsUnfilteredListings | codex-rs/agent-graph-store/src/store.rs:29-36 | status updates never change unfiltered listings or cycles |
| SpawnGraph.GuardedRunsStayAcyclic | codex-rs/agent-graph-store/src/store.rs:18-59 | any run of updates whose upserts keep to that guard can be listed from every root under every filter |
| SpawnUpdates.TableAfter | codex-rs/state/src/runtime/threads.rs:89-128 | the table after each update, row by row |
| SpawnUpdates.ClimbMeans | codex-rs/state/src/runtime/threads.rs:255-289 | a filtered descent is an unfiltered one whose every edge passes the filter |
| SpawnUpdates.StatusUpdateOnChildren | codex-rs/agent-graph-store/src/store.rs:29-36 | after a status update the child is listed under its parent by a filter iff the filter is the new status; other children as before |
| SpawnUpdates.StatusUpdateOnDescents | codex-rs/agent-graph-store/src/store.rs:29-36 | every descent afterwards is the old one with the new status on the one edge |
| SpawnUpdates.StatusUpdateElsewhere | codex-rs/agent-graph-store/src/store.rs:29-36 | a path that does not cross the edge is as it was |
| SpawnUpdates.UpsertOnChildren | codex-rs/agent-graph-store/src/store.rs:18-27 | after an upsert the child is listed under its new parent alone, by its new status |
| SpawnUpdates.InsertOnChildren | codex-rs/state/src/runtime/threads.rs:304-325 | an insert lists a new child as open and leaves a known one alone |
| AnalyticsQueue.RunsAreSafe | codex-rs/analytics/src/client.rs:135-172 | every interleaving of senders, flushers and the worker keeps order, capacity, replay and barrier invariants |
| AnalyticsQueue.AcceptedFactsAreConserved | codex-rs/analytics/src/client.rs:135-172 | after any interleaving the accepted facts are those processed, then the one in hand, then those queued; the reducer is a fresh one that ingested and flushed in that order, and the events handed over and pending are all it gave |
| AnalyticsQueue.SignalMeansFlushed | codex-rs/analytics/src/client.rs:143-149 | when a flush is signalled, exactly the facts accepted before its barrier were ingested, and the events handed over end with those the reducer's flush gave |
| AnalyticsQueue.BarrierHoldsWhatWasAccepted | codex-rs/analytics/src/client.rs:233-254 | a barrier stands for the facts accepted when its flush was queued, whatever comes later |
| AnalyticsQueue.SignalledStaysFlushed | codex-rs/analytics/src/client.rs:233-254 | a signalled flush stays served in every later state |
| QueueProgress.FactIsTakenIffRoom | codex-rs/analytics/src/client.rs:162-172 | after any run a fact is queued iff fewer than 256 slots are queued or reserved; otherwise it is dropped and nothing else changes |
| QueueProgress.FlushIsQueued | codex-rs/analytics/src/client.rs:233-248 | a flush gets a slot under the same bound, and its barrier is what was accepted when it was queued |
| QueueProgress.OfferedFactsAreAccountedFor | codex-rs/analytics/src/client.rs:162-172 | every fact offered was accepted or dropped, and none was both |
| QueueProgress.TheQueueDrains | codex-rs/analytics/src/client.rs:135-155 | after any run the worker alone can finish: every accepted fact ingested in order, every event handed over, every queued flush signalled |
| Dedupe.EmittedKeys.constructor | codex-rs/analytics/src/client.rs:156-160 | starts empty |
| Dedupe.EmittedKeys.ShouldEnqueueAppUsed | codex-rs/analytics/src/client.rs:174-190 | without a connector the use is reported and nothing is remembered; otherwise a set of 4096 keys is first emptied and the use is reported iff its turn and connector are not in it |
| Dedupe.EmittedKeys.ShouldEnqueuePluginUsed | codex-rs/analytics/src/client.rs:192-213 | a set of 4096 keys is first emptied; then the use is reported iff it has no id, or its turn and its own or else its remote id are not in the set |
| Dedupe.AdmissionsAreAccountedFor | codex-rs/analytics/src/client.rs:174-213 | the set never exceeds 4096 keys, and keyed admissions are 4096 per clear plus its size |
| Dedupe.KeysHeldWereAdmitted | codex-rs/analytics/src/client.rs:174-213 | every key held was admitted earlier in the run |
| Dedupe.SuppressedKeysWereAdmitted | codex-rs/analytics/src/client.rs:174-213 | a call is suppressed only for a key admitted earlier |
| Dedupe.BelowCapAgreesWithUnbounded | codex-rs/analytics/src/client.rs:174-213 | while fewer than 4096 distinct keys came before, a call is admitted iff an unbounded set would admit it |
| Dedupe.EachKeyIsAdmittedRarely | codex-rs/analytics/src/client.rs:174-213 | with T keyed admissions one key is admitted at most T / 4096 times rounded up, hence at most 1 + floor(T / 4096) |
| Dedupe.AppIsReportedOncePerTurn | codex-rs/analytics/src/client.rs:174-190 | until 4096 distinct uses were seen an app is reported iff its connector was not used before in the same turn |
| Dedupe.PluginIsReportedOncePerTurn | codex-rs/analytics/src/client.rs:192-213 | the same for a plugin, by its own id or its remote one |
| EventBatches.TrackEventRequestBatches | codex-rs/analytics/src/client.rs:660-681 | every event leaves in its place; a batch with an accepted-lines event holds it alone, and of two neighbouring batches one does |
| EventBatches.SplitIsUnique | codex-rs/analytics/src/client.rs:660-681 | there is only one such split of any event list |
| EventBatches.OrdinaryEventsShareOneBatch | codex-rs/analytics/src/client.rs:660-681 | events without an accepted-line event make at most one batch |
| EventBatches.RetainJoins | codex-rs/analytics/src/events.rs:100-107 | the filter judges events independently and keeps order and repetition |
| EventBatches.RetainOne | codex-rs/analytics/src/events.rs:100-107 | an event stays iff it is a plugin, skill or tool-call event with a plugin id |
| EventBatches.RetainForApiKey | codex-rs/analytics/src/client.rs:646-648 | filtering in place gives that list in order |
| EventBatches.SendTrackEvents | codex-rs/analytics/src/client.rs:634-658 | no login or another backend sends nothing, the Codex backend sends every event in its batches, an API key sends in one request the plugin, skill and tool events that name their plugin |
| EventBatches.SplitHas | codex-rs/analytics/src/client.rs:660-681 | what a split is, event by event |
| EventBatches.RetainKeepsNamed | codex-rs/analytics/src/events.rs:100-107 | filtering keeps exactly the plugin, skill and tool events that name their plugin |
| AcceptedLines.AcceptedLineFingerprints | codex-rs/analytics/src/accepted_lines.rs:30-83 | the loop over lines returns what the line-by-line specification gives |
| AcceptedLines.ScanLine | codex-rs/analytics/src/accepted_lines.rs:39-76 | one turn of the loop, branch by branch |
| AcceptedLines.AcceptAdded | codex-rs/analytics/src/accepted_lines.rs:60-71 | an added line always counts and is fingerprinted iff there is a path and the line is effective |
| AcceptedLinesProofs.ScanOfAGitPatch | codex-rs/analytics/src/accepted_lines.rs:30-83 | scanning the text of any git-format patch counts exactly its added and deleted body lines, bodies that look like headers included, and yields one fingerprint per effective added line under its file's path, in order |
| AcceptedLinesProofs.ScanFindsTheFiles | codex-rs/analytics/src/accepted_lines.rs:30-83 | the fingerprints are under the path each file really has, when no path ends in white space |
| AcceptedLinesProofs.ScanOfJoinedDiffs | codex-rs/analytics/src/accepted_lines.rs:30-83 | a newline-terminated diff followed by one starting with `diff --git ` scans to the sum of counts and the concatenation of fingerprints |
| AcceptedLinesProofs.ScanAdds | codex-rs/analytics/src/accepted_lines.rs:30-83 | what was seen before is only ever added to |
| AcceptedLinesProofs.ScanChomped | codex-rs/analytics/src/accepted_lines.rs:39-39 | carriage returns before newlines change nothing |
| AcceptedLinesProofs.NewNameGivesPath | codex-rs/analytics/src/accepted_lines.rs:143-155 | a `b/` name gives back its path up to trailing white space, hence exactly iff the path has none |
| AcceptedLinesProofs.NoPathForDeletedFiles | codex-rs/analytics/src/accepted_lines.rs:143-147 | `/dev/null` is no path |
| AcceptedLinesProofs.NormalizedLinesAreStable | codex-rs/analytics/src/accepted_lines.rs:157-169 | a normalised line normalises to itself |
| AcceptedLinesProofs.SameTextMeansSameWords | codex-rs/analytics/src/accepted_lines.rs:157-169 | two lines have the same normal text iff they have the same words |
| PatchTotals.ScanCountsThePatch | codex-rs/analytics/src/accepted_lines.rs:30-83 | scanning a git patch gives the numbers of its added and deleted lines and, file by file, one fingerprint for each added line whose words exceed three bytes and hold a letter, digit or underscore |
| PatchTotals.NormalizeLineMeans | codex-rs/analytics/src/accepted_lines.rs:157-169 | a line is known by its words with one space between them, if they are effective |
| PatchTotals.WordsOfSpaced | codex-rs/analytics/src/accepted_lines.rs:158-158 | however its words are spaced, a line has exactly those words |
| PatchTotals.NameGivesPath | codex-rs/analytics/src/accepted_lines.rs:143-155 | the path of any name, with white space around it and with or without a prefix |
| ReleaseVersionProofs.MatchMeans | sdk/python/release_version.py:10-12 | the full match succeeds iff the text is a rendered normal form, and finds the only one |
| ReleaseVersionProofs.OwnNameReplaced | sdk/python/release_version.py:76-78 | a name, a dot and a number at the end become the short form |
| ReleaseVersionProofs.UndottedNameReplaced | sdk/python/release_version.py:76-78 | and so without the dot |
| ReleaseVersionProofs.ReplacedHadTheName | sdk/python/release_version.py:76-78 | nothing else is replaced |
| ReleaseVersionProofs.HotfixReplaced | sdk/python/release_version.py:75-75 | an alpha with two numbers becomes an alpha post-release |
| ReleaseVersionProofs.UndottedHotfixReplaced | sdk/python/release_version.py:75-75 | and so without the dot |
| ReleaseVersionProofs.ReplacedHadAHotfix | sdk/python/release_version.py:75-75 | nothing else is replaced |
| ReleaseVersionProofs.TagNormalizesBack | sdk/python/release_version.py:45-82 | normalising the tag of any accepted version gives the version's normal form |
| ReleaseVersionProofs.NormalizingTwiceChangesNothing | sdk/python/release_version.py:68-82 | normalisation is idempotent on every accepted version |
| ReleaseVersionProofs.SameTagIffSameNormalForm | sdk/python/release_version.py:45-82 | two accepted versions share a tag iff they share a normal form |
| ReleaseVersionProofs.RuntimeVersionsRoundTrip | sdk/python/release_version.py:35-46 | a version is resolved iff it is three numbers with perhaps an alpha and its post-release, and it comes back exactly from its tag |
| ReleaseSpellings.NormalizeAcceptsExactlyTheSpellings | sdk/python/release_version.py:68-82 | a version normalises to a normal form iff it is one of its spellings, short or long, or the one accident the rules allow |
| ReleaseSpellings.EverySpellingNormalizes | sdk/python/release_version.py:68-82 | every spelling normalises, with white space and a prefix or without |
| ReleaseSpellings.TagText | sdk/python/release_version.py:45-65 | the tag text: -alpha.N, -beta.N, -rc.N, -alpha.N.M, and the normal form otherwise |
| ReleaseSpellings.RuntimesAreResolved | sdk/python/release_version.py:9-9 | every runtime version resolves to itself and its tag, text by text |
| ReleaseSpellings.OnlyRuntimesAreResolved | sdk/python/release_version.py:35-42 | no other text is resolved |
| ReleaseSpellings.AnAccidentIsAccepted | sdk/python/release_version.py:75-78 | a text that is no spelling of a version and is accepted all the same |
| WrapperArgs.ParseWrapperArgs | tools/argument-comment-lint/wrapper_common.py:55-104 | the loop over arguments returns the specified record |
| WrapperArgs.BuildFinalArgs | tools/argument-comment-lint/wrapper_common.py:107-122 | the list built in place is the specified one |
| WrapperArgs.ParseKeepsArguments | tools/argument-comment-lint/wrapper_common.py:55-104 | reading splits at the first separator, keeps both sides in order, and only they decide the flags |
| WrapperArgs.ReparseSeesEverything | tools/argument-comment-lint/wrapper_common.py:55-122 | reading completed arguments finds a manifest path, no-deps, a fix or a target selection, and the user's arguments in order |
| WrapperArgs.RewritingIsAFixedPointIff | tools/argument-comment-lint/wrapper_common.py:55-122 | completing completed arguments changes nothing iff the manifest path is not `--` or the user gave one |
| WrapperArgs.SeparatorManifestIsNotAFixedPoint | tools/argument-comment-lint/wrapper_common.py:107-122 | with `--` as the manifest path it does change, already on no arguments |
| WrapperMeaning.ParsedMeans | tools/argument-comment-lint/wrapper_common.py:55-104 | both sides of the separator and every flag, as the arguments give them |
| WrapperMeaning.CompletedArguments | tools/argument-comment-lint/wrapper_common.py:107-122 | the whole completed list, and when the manifest path, the workspace, no-deps and all targets are added |
| WrapperMeaning.NoArguments | tools/argument-comment-lint/wrapper_common.py:55-122 | the completed list for no arguments |

## Left out

- The analytics reducer: a parameter that turns a fact into events and can flush.
- Hashing, base64, UTF-8 decoding, JSON text, and Unicode's letter and digit classes: parameters or assumed inverses where a proof needs one.
- Sockets, subprocesses, clocks and threads: timeouts are a number of messages or a step that may happen at any time; handling one message is atomic and fresh session ids are an input.
- Failed sends of the app-server client: every send succeeds.
- GET, health checks, printing, tables and report files.
- Fixed fixture data: tool definitions and listings are named, not spelled out; the scenario catalog is an input.
- Error texts of the server: each refusal carries a reason in place of its message.
- Error texts of the readers: errors are kinds without their labels, so what is proved is when there is one.
- Python raising TypeError on unhashable JSON values: such values are treated as malformed.
- NaN among JSON numbers.
- Thread ids are numbers; their order stands for the order of their texts.
- The adapter and the scripted app-server exercise.
- Unsigned 64-bit overflow of line counters.
- Waking order of flushers that wait for room in the queue: any order is allowed, so the results hold for the one used.
- The worker's end when all senders are gone.
- AnalyticsQueue.RunsAreSafe: models the worker loop as steps on a value instead of a method, because its interleavings are the point.
- ConformanceReport.StableName: accepts ASCII digits only, where Python's isdecimal accepts every decimal digit.
- ReportReader.ReadReport: does not say which errors are listed, only when there are none.
- ReviewReader.ReadReview: does not say which errors are listed, only when there are none.
- ReleaseVersionProofs.MatchMeans: states the regular expressions as rendered normal forms, not through a general matcher.
