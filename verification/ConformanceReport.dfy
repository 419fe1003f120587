// Conformance reports, in the full form a run writes and in the compact baseline form, and the
// identity-to-status map both are reduced to. A JSON object with fixed keys is a record here;
// a missing key is `Null`, and `None` or `Malformed` is a value of another JSON type.
module ConformanceReport {
  import opened Prelude
  import opened Json
  import opened FixtureServer

  datatype Transport = OfficialHttp | Stdio

  datatype Source = Harness | Official | Supplemental

  datatype Status = Pass | Failing | Skip

  datatype Identity = Identity(mode: Mode, transport: Transport, source: Source, scenario: string, checkId: string)

  type Ids = map<Identity, set<Status>>

  // The pinned upstream suite; `scenarios` is the authenticated catalog of a mode.
  datatype Suite = Suite(repository: string, gitRef: string, scenarios: Mode -> seq<string>)

  datatype Check =
    | MalformedCheck
    | Check(source: Json, scenario: Json, name: Json, checkId: Json, status: Json, success: Json)

  datatype Case =
    | MalformedCase
    | Case(mode: Json, transport: Json, checks: Option<seq<Check>>)

  datatype Record =
    | MalformedRecord
    | Record(mode: Json, transport: Json, source: Json, scenario: Json, checkId: Json)

  datatype Buckets = Buckets(passing: Option<seq<Record>>, failing: Option<seq<Record>>)

  datatype Metadata = Metadata(
    repository: Json,
    gitRef: Json,
    authenticationIncluded: Json,
    scenarios: Option<map<string, Json>>)

  datatype Report = Report(
    schemaVersion: Json,
    versionSuccess: Json,
    modernFeature: Json,
    official: Option<Metadata>,
    automaticAuth: Json,
    baselineKind: Json,
    requiredModes: Json,
    transports: Json,
    checks: Option<Buckets>,
    cases: Option<seq<Case>>)

  const REPORT_SCHEMA_VERSION := 4
  const COMPACT_KIND := "mcp-conformance-regression-baseline-v1"

  function TransportName(t: Transport): string {
    match t
    case OfficialHttp => "official-http"
    case Stdio => "stdio"
  }

  function SourceName(s: Source): string {
    match s
    case Harness => "harness"
    case Official => "official"
    case Supplemental => "supplemental"
  }

  function ModeOf(v: Json): Option<Mode> {
    if v == Str(Version(Shipping)) then Some(Shipping)
    else if v == Str(Version(Legacy)) then Some(Legacy)
    else if v == Str(Version(Modern)) then Some(Modern)
    else None
  }

  function TransportOf(v: Json): Option<Transport> {
    if v == Str(TransportName(OfficialHttp)) then Some(OfficialHttp)
    else if v == Str(TransportName(Stdio)) then Some(Stdio)
    else None
  }

  function SourceOf(v: Json): Option<Source> {
    if v == Str(SourceName(Harness)) then Some(Harness)
    else if v == Str(SourceName(Official)) then Some(Official)
    else if v == Str(SourceName(Supplemental)) then Some(Supplemental)
    else None
  }

  function StatusOf(v: Json): Option<Status> {
    if v == Str("PASS") then Some(Pass)
    else if v == Str("FAIL") then Some(Failing)
    else if v == Str("SKIP") then Some(Skip)
    else None
  }

  lemma NamesReadBack(m: Mode, t: Transport, s: Source)
    ensures ModeOf(Str(Version(m))) == Some(m)
    ensures TransportOf(Str(TransportName(t))) == Some(t)
    ensures SourceOf(Str(SourceName(s))) == Some(s)
  {
    assert Version(Shipping)[5..7] == "06" && Version(Legacy)[5..7] == "11" && Version(Modern)[5..7] == "07";
    assert |"official-http"| != |"stdio"|;
    assert |"harness"| != |"official"| && |"harness"| != |"supplemental"| && |"official"| != |"supplemental"|;
  }

  // ----- Identities -----

  // Where the last '#' is, if there is one.
  function LastHash(s: string): Option<nat> {
    if s == "" then None
    else if s[|s| - 1] == '#' then Some(|s| - 1)
    else LastHash(s[..|s| - 1])
  }

  predicate AllDigits(s: string) {
    s != "" && forall c :: c in s ==> '0' <= c <= '9'
  }

  // A trailing "#n" numbers repeated observations and is not part of the check's name.
  function StableName(name: string): (r: string)
    ensures name != "" ==> r != ""
    ensures r <= name
  {
    match LastHash(name)
    case Some(i) => if 0 < i < |name| && AllDigits(name[i + 1..]) then name[..i] else name
    case None => name
  }

  lemma {:induction false} LastHashIs(s: string, i: nat)
    requires i < |s| && s[i] == '#' && forall j :: i < j < |s| ==> s[j] != '#'
    ensures LastHash(s) == Some(i)
    decreases |s|
  {
    if i < |s| - 1 {
      LastHashIs(s[..|s| - 1], i);
    }
  }

  // Numbering an observation does not change which check it is.
  lemma NumberedNameIsStable(stem: string, number: string)
    requires stem != "" && AllDigits(number)
    ensures StableName((stem + "#") + number) == stem
  {
    var name := (stem + "#") + number;
    forall j | |stem| < j < |name|
      ensures name[j] != '#'
    {
      assert name[j] == number[j - |stem| - 1] && number[j - |stem| - 1] in number;
    }
    LastHashIs(name, |stem|);
    assert name[|stem| + 1..] == number && name[..|stem|] == stem;
  }

  // Absent, or a nonempty string.
  predicate OptionalText(v: Json) {
    v == Null || (v.Str? && v.s != "")
  }

  function IdentityOf(mode: Mode, transport: Transport, c: Check): (r: Option<Identity>)
    ensures r.Some? ==> r.value.mode == mode && r.value.transport == transport && r.value.checkId != ""
  {
    if c.MalformedCheck? || SourceOf(c.source).None? || !c.name.Str? || c.name.s == ""
       || !OptionalText(c.scenario) || !OptionalText(c.checkId)
    then None
    else Some(Identity(
                mode, transport, SourceOf(c.source).value,
                if c.scenario.Str? then c.scenario.s else "",
                if c.checkId.Str? then c.checkId.s else StableName(c.name.s)))
  }

  // The observation a well-formed check makes.
  function EntryOf(mode: Mode, transport: Transport, c: Check): (r: Option<(Identity, Status)>)
    ensures r.Some? ==> r.value.0.mode == mode && r.value.0.transport == transport && r.value.0.checkId != ""
  {
    var id := IdentityOf(mode, transport, c);
    if id.Some? && StatusOf(c.status).Some? && c.success == Bool(StatusOf(c.status).value != Failing)
    then Some((id.value, StatusOf(c.status).value))
    else None
  }

  // ----- The identity map of a report -----

  function At(ids: Ids, id: Identity): set<Status> {
    if id in ids then ids[id] else {}
  }

  function Add(ids: Ids, id: Identity, s: Status): Ids {
    ids[id := At(ids, id) + {s}]
  }

  function AddChecks(ids: Ids, mode: Mode, transport: Transport, checks: seq<Check>): Ids {
    if checks == [] then ids
    else
      var n := |checks| - 1;
      var before := AddChecks(ids, mode, transport, checks[..n]);
      match EntryOf(mode, transport, checks[n])
      case Some(e) => Add(before, e.0, e.1)
      case None => before
  }

  // A required case is filed under its mode and its transport's name.
  function CaseKey(c: Case): Option<(Mode, string)> {
    if c.Case? && ModeOf(c.mode).Some? && c.transport.Str? then Some((ModeOf(c.mode).value, c.transport.s)) else None
  }

  // The first case filed under each key.
  function CaseTable(cases: seq<Case>): map<(Mode, string), Case> {
    if cases == [] then map[]
    else
      var n := |cases| - 1;
      var before := CaseTable(cases[..n]);
      match CaseKey(cases[n])
      case Some(k) => if k in before then before else before[k := cases[n]]
      case None => before
  }

  function Cases(report: Report): seq<Case> {
    if report.cases.Some? then report.cases.value else []
  }

  // The checks a required case lists; none when the case is missing or malformed.
  function SlotChecks(table: map<(Mode, string), Case>, mode: Mode, transport: Transport): seq<Check> {
    var k := (mode, TransportName(transport));
    if k in table && table[k].Case? && table[k].checks.Some? then table[k].checks.value else []
  }

  function AddMode(ids: Ids, table: map<(Mode, string), Case>, mode: Mode): Ids {
    AddChecks(
      AddChecks(ids, mode, Stdio, SlotChecks(table, mode, Stdio)),
      mode, OfficialHttp, SlotChecks(table, mode, OfficialHttp))
  }

  function FullIds(table: map<(Mode, string), Case>): Ids {
    AddMode(AddMode(AddMode(map[], table, Shipping), table, Legacy), table, Modern)
  }

  function RecordIdentity(r: Record): Option<Identity> {
    if r.MalformedRecord? || ModeOf(r.mode).None? || TransportOf(r.transport).None? || SourceOf(r.source).None?
       || !r.scenario.Str? || !r.checkId.Str? || r.checkId.s == ""
    then None
    else Some(Identity(ModeOf(r.mode).value, TransportOf(r.transport).value, SourceOf(r.source).value,
                       r.scenario.s, r.checkId.s))
  }

  function AddRecords(ids: Ids, records: seq<Record>, s: Status): Ids {
    if records == [] then ids
    else
      var n := |records| - 1;
      var before := AddRecords(ids, records[..n], s);
      match RecordIdentity(records[n])
      case Some(id) => Add(before, id, s)
      case None => before
  }

  function Bucket(records: Option<seq<Record>>): seq<Record> {
    if records.Some? then records.value else []
  }

  predicate IsCompact(report: Report) {
    report.baselineKind != Null
  }

  function IdsOf(report: Report): Ids {
    if !IsCompact(report) then FullIds(CaseTable(Cases(report)))
    else if report.baselineKind != Str(COMPACT_KIND) || report.checks.None? then map[]
    else
      var b := report.checks.value;
      AddRecords(AddRecords(map[], Bucket(b.passing), Pass), Bucket(b.failing), Failing)
  }

  // ----- When a report is acceptable -----

  function Selected(report: Report): map<string, Json> {
    if report.official.Some? && report.official.value.scenarios.Some?
    then report.official.value.scenarios.value else map[]
  }

  function StringArray(items: seq<string>): Json {
    Arr(seq(|items|, i requires 0 <= i < |items| => Str(items[i])))
  }

  predicate RunsCatalog(suite: Suite, report: Report, mode: Mode) {
    Get(Selected(report), Version(mode)) == StringArray(suite.scenarios(mode))
  }

  predicate MetadataOk(suite: Suite, m: Metadata) {
    && m.repository == Str(suite.repository)
    && m.gitRef == Str(suite.gitRef)
    && m.authenticationIncluded == Bool(true)
    && m.scenarios.Some?
  }

  predicate PreambleOk(suite: Suite, report: Report) {
    && EqualsInt(report.schemaVersion, REPORT_SCHEMA_VERSION)
    && report.versionSuccess == Bool(true)
    && report.modernFeature == Bool(true)
    && report.official.Some? && MetadataOk(suite, report.official.value)
  }

  predicate HeaderOk(suite: Suite, report: Report) {
    PreambleOk(suite, report) && forall m :: RunsCatalog(suite, report, m)
  }

  // Each case is an object, files under a string, and files under a new key.
  predicate CasesOk(cases: seq<Case>) {
    cases == [] ||
    (var n := |cases| - 1;
     && CasesOk(cases[..n])
     && CaseOk(cases[n])
     && (CaseKey(cases[n]).Some? ==> CaseKey(cases[n]).value !in CaseTable(cases[..n])))
  }

  predicate CaseOk(c: Case) {
    c.Case? && (ModeOf(c.mode).Some? ==> c.transport.Str?)
  }

  predicate ChecksOk(mode: Mode, transport: Transport, checks: seq<Check>) {
    forall c :: c in checks ==> EntryOf(mode, transport, c).Some?
  }

  predicate SlotOk(table: map<(Mode, string), Case>, mode: Mode, transport: Transport) {
    SlotChecks(table, mode, transport) != [] && ChecksOk(mode, transport, SlotChecks(table, mode, transport))
  }

  predicate FullOk(report: Report) {
    && report.cases.Some? && CasesOk(report.cases.value)
    && forall m, t :: SlotOk(CaseTable(report.cases.value), m, t)
  }

  function RecordIds(records: seq<Record>): set<Identity> {
    set r | r in records && RecordIdentity(r).Some? :: RecordIdentity(r).value
  }

  predicate RecordsOk(records: seq<Record>) {
    records == [] ||
    (var n := |records| - 1;
     && RecordsOk(records[..n])
     && RecordIdentity(records[n]).Some?
     && RecordIdentity(records[n]).value !in RecordIds(records[..n]))
  }

  // Both transports, in either order.
  predicate TransportsOk(v: Json) {
    v == Arr([Str("stdio"), Str("official-http")]) || v == Arr([Str("official-http"), Str("stdio")])
  }

  predicate CompactOk(report: Report) {
    && report.baselineKind == Str(COMPACT_KIND)
    && report.requiredModes == Arr([Str(Version(Shipping)), Str(Version(Legacy)), Str(Version(Modern))])
    && TransportsOk(report.transports)
    && report.checks.Some?
    && report.checks.value.passing.Some? && RecordsOk(report.checks.value.passing.value)
    && report.checks.value.failing.Some? && RecordsOk(report.checks.value.failing.value)
  }

  predicate CountsForScenario(id: Identity, mode: Mode) {
    id.mode == mode && id.transport == OfficialHttp && id.source != Supplemental
  }

  function ObservedScenarios(ids: Ids, mode: Mode): set<string> {
    set id | id in ids && CountsForScenario(id, mode) :: id.scenario
  }

  function Catalog(suite: Suite, mode: Mode): set<string> {
    set s | s in suite.scenarios(mode)
  }

  predicate Reaches(ids: Ids, mode: Mode, transport: Transport) {
    exists id :: id in ids && id.mode == mode && id.transport == transport
  }

  // Every required transport is observed, and on HTTP exactly the catalog's scenarios.
  predicate Covers(suite: Suite, ids: Ids) {
    && (forall m, t :: Reaches(ids, m, t))
    && forall m :: ObservedScenarios(ids, m) == Catalog(suite, m)
  }

  predicate Valid(suite: Suite, report: Report) {
    && HeaderOk(suite, report)
    && (if IsCompact(report) then CompactOk(report) else FullOk(report))
    && Covers(suite, IdsOf(report))
  }

  // ----- What the identity map records -----

  predicate WellKept(ids: Ids) {
    forall id :: id in ids ==> ids[id] != {} && id.checkId != ""
  }

  ghost predicate SaidIn(mode: Mode, transport: Transport, checks: seq<Check>, id: Identity, s: Status) {
    exists i :: 0 <= i < |checks| && EntryOf(mode, transport, checks[i]) == Some((id, s))
  }

  lemma SaidInGrows(mode: Mode, transport: Transport, front: seq<Check>, last: Check, id: Identity, s: Status)
    ensures SaidIn(mode, transport, front + [last], id, s) <==>
            SaidIn(mode, transport, front, id, s) || EntryOf(mode, transport, last) == Some((id, s))
  {
    var checks, n := front + [last], |front|;
    assert checks[n] == last && forall i :: 0 <= i < n ==> checks[i] == front[i];
    if SaidIn(mode, transport, front, id, s) {
      var i :| 0 <= i < n && EntryOf(mode, transport, front[i]) == Some((id, s));
      assert EntryOf(mode, transport, checks[i]) == Some((id, s));
    }
  }

  lemma {:induction false} AddChecksMeans(ids: Ids, mode: Mode, transport: Transport, checks: seq<Check>, id: Identity, s: Status)
    ensures s in At(AddChecks(ids, mode, transport, checks), id) <==>
            s in At(ids, id) || SaidIn(mode, transport, checks, id, s)
    decreases |checks|
  {
    if checks != [] {
      var n := |checks| - 1;
      AddChecksMeans(ids, mode, transport, checks[..n], id, s);
      assert checks == checks[..n] + [checks[n]];
      SaidInGrows(mode, transport, checks[..n], checks[n], id, s);
    }
  }

  lemma {:induction false} AddChecksWellKept(ids: Ids, mode: Mode, transport: Transport, checks: seq<Check>)
    requires WellKept(ids)
    ensures WellKept(AddChecks(ids, mode, transport, checks))
    decreases |checks|
  {
    if checks != [] {
      AddChecksWellKept(ids, mode, transport, checks[..|checks| - 1]);
    }
  }

  // A full report observes `s` for an identity when a check of that identity's case says so.
  ghost predicate Says(table: map<(Mode, string), Case>, id: Identity, s: Status) {
    SaidIn(id.mode, id.transport, SlotChecks(table, id.mode, id.transport), id, s)
  }

  lemma AddModeMeans(ids: Ids, table: map<(Mode, string), Case>, mode: Mode, id: Identity, s: Status)
    ensures s in At(AddMode(ids, table, mode), id) <==>
            s in At(ids, id) || (id.mode == mode && Says(table, id, s))
    ensures WellKept(ids) ==> WellKept(AddMode(ids, table, mode))
  {
    var mid := AddChecks(ids, mode, Stdio, SlotChecks(table, mode, Stdio));
    AddChecksMeans(ids, mode, Stdio, SlotChecks(table, mode, Stdio), id, s);
    AddChecksMeans(mid, mode, OfficialHttp, SlotChecks(table, mode, OfficialHttp), id, s);
    if WellKept(ids) {
      AddChecksWellKept(ids, mode, Stdio, SlotChecks(table, mode, Stdio));
      AddChecksWellKept(mid, mode, OfficialHttp, SlotChecks(table, mode, OfficialHttp));
    }
  }

  lemma FullIdsMeans(table: map<(Mode, string), Case>, id: Identity, s: Status)
    ensures s in At(FullIds(table), id) <==> Says(table, id, s)
    ensures WellKept(FullIds(table))
  {
    var one := AddMode(map[], table, Shipping);
    var two := AddMode(one, table, Legacy);
    AddModeMeans(map[], table, Shipping, id, s);
    AddModeMeans(one, table, Legacy, id, s);
    AddModeMeans(two, table, Modern, id, s);
  }

  lemma {:induction false} AddRecordsMeans(ids: Ids, records: seq<Record>, status: Status, id: Identity, s: Status)
    ensures s in At(AddRecords(ids, records, status), id) <==>
            s in At(ids, id) || (s == status && id in RecordIds(records))
    ensures WellKept(ids) ==> WellKept(AddRecords(ids, records, status))
    decreases |records|
  {
    if records != [] {
      var n := |records| - 1;
      AddRecordsMeans(ids, records[..n], status, id, s);
      assert records == records[..n] + [records[n]];
    }
  }

  lemma CompactIdsMeans(b: Buckets, id: Identity, s: Status)
    ensures var ids := AddRecords(AddRecords(map[], Bucket(b.passing), Pass), Bucket(b.failing), Failing);
            && (s in At(ids, id) <==>
                (s == Pass && id in RecordIds(Bucket(b.passing))) || (s == Failing && id in RecordIds(Bucket(b.failing))))
            && WellKept(ids)
  {
    var one := AddRecords(map[], Bucket(b.passing), Pass);
    AddRecordsMeans(map[], Bucket(b.passing), Pass, id, s);
    AddRecordsMeans(one, Bucket(b.failing), Failing, id, s);
  }

  lemma IdsAreWellKept(report: Report)
    ensures WellKept(IdsOf(report))
  {
    var id := Identity(Shipping, Stdio, Harness, "", "");
    if !IsCompact(report) {
      FullIdsMeans(CaseTable(Cases(report)), id, Pass);
    } else if report.checks.Some? {
      CompactIdsMeans(report.checks.value, id, Pass);
    }
  }

  lemma SameStatusesSameMap(a: Ids, b: Ids)
    requires WellKept(a) && WellKept(b)
    requires forall id, s :: s in At(a, id) <==> s in At(b, id)
    ensures a == b
  {
    forall id
      ensures id in a <==> id in b
      ensures id in a && id in b ==> a[id] == b[id]
    {
      assert At(a, id) == At(b, id);
    }
  }
}
