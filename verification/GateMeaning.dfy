// What a report says and when the gate lets a candidate pass, stated on the reports' own fields.
module GateMeaning {
  import opened Prelude
  import opened Json
  import opened FixtureServer
  import opened Ordering
  import opened ConformanceReport
  import opened RegressionGate

  // ----- The names reports use -----

  predicate NamesMode(v: Json, m: Mode) {
    v == Str(match m case Shipping => "2025-06-18" case Legacy => "2025-11-25" case Modern => "2026-07-28")
  }

  predicate NamesTransport(v: Json, t: Transport) {
    v == Str(match t case OfficialHttp => "official-http" case Stdio => "stdio")
  }

  predicate NamesSource(v: Json, s: Source) {
    v == Str(match s case Harness => "harness" case Official => "official" case Supplemental => "supplemental")
  }

  predicate NamesStatus(v: Json, s: Status) {
    v == Str(match s case Pass => "PASS" case Failing => "FAIL" case Skip => "SKIP")
  }

  lemma ModesAreRead(v: Json, m: Mode)
    ensures ModeOf(v) == Some(m) <==> NamesMode(v, m)
  {
    NamesReadBack(m, Stdio, Harness);
  }

  lemma TransportsAreRead(v: Json, t: Transport)
    ensures TransportOf(v) == Some(t) <==> NamesTransport(v, t)
  {
    NamesReadBack(Shipping, t, Harness);
  }

  lemma SourcesAreRead(v: Json, s: Source)
    ensures SourceOf(v) == Some(s) <==> NamesSource(v, s)
  {
    NamesReadBack(Shipping, Stdio, s);
  }

  lemma StatusesAreRead(v: Json, s: Status)
    ensures StatusOf(v) == Some(s) <==> NamesStatus(v, s)
  {
    assert "PASS"[0] == 'P' && "FAIL"[0] == 'F' && "SKIP"[0] == 'S';
  }

  // ----- What one check, record or case says -----

  // Absent and standing for `absent`, or the nonempty text itself.
  predicate TextOr(v: Json, absent: string, text: string) {
    if v == Null then text == absent else v == Str(text) && text != ""
  }

  predicate CheckSays(c: Check, id: Identity, s: Status) {
    && c.Check?
    && NamesSource(c.source, id.source)
    && c.name.Str? && c.name.s != ""
    && TextOr(c.scenario, "", id.scenario)
    && TextOr(c.checkId, StableName(c.name.s), id.checkId)
    && NamesStatus(c.status, s)
    && c.success == Bool(s != Failing)
  }

  lemma IdentityMeans(mode: Mode, transport: Transport, c: Check, id: Identity)
    ensures IdentityOf(mode, transport, c) == Some(id) <==>
            && id.mode == mode && id.transport == transport && c.Check?
            && NamesSource(c.source, id.source) && c.name.Str? && c.name.s != ""
            && TextOr(c.scenario, "", id.scenario) && TextOr(c.checkId, StableName(c.name.s), id.checkId)
  {
    if c.Check? {
      SourcesAreRead(c.source, id.source);
    }
  }

  lemma CheckMeans(mode: Mode, transport: Transport, c: Check, id: Identity, s: Status)
    ensures EntryOf(mode, transport, c) == Some((id, s)) <==>
            id.mode == mode && id.transport == transport && CheckSays(c, id, s)
  {
    IdentityMeans(mode, transport, c, id);
    if c.Check? {
      StatusesAreRead(c.status, s);
    }
  }

  // A check a case may list: it says something about its case.
  ghost predicate CheckSpeaks(m: Mode, t: Transport, c: Check) {
    exists id: Identity, s :: id.mode == m && id.transport == t && CheckSays(c, id, s)
  }

  lemma SpeaksIffEntry(m: Mode, t: Transport, c: Check)
    ensures EntryOf(m, t, c).Some? <==> CheckSpeaks(m, t, c)
  {
    if EntryOf(m, t, c).Some? {
      var e := EntryOf(m, t, c).value;
      CheckMeans(m, t, c, e.0, e.1);
    }
    forall id: Identity, s | id.mode == m && id.transport == t && CheckSays(c, id, s)
      ensures EntryOf(m, t, c).Some?
    {
      CheckMeans(m, t, c, id, s);
    }
  }

  predicate RecordSays(r: Record, id: Identity) {
    && r.Record?
    && NamesMode(r.mode, id.mode) && NamesTransport(r.transport, id.transport) && NamesSource(r.source, id.source)
    && r.scenario == Str(id.scenario) && r.checkId == Str(id.checkId) && id.checkId != ""
  }

  lemma RecordMeans(r: Record, id: Identity)
    ensures RecordIdentity(r) == Some(id) <==> RecordSays(r, id)
  {
    if r.Record? {
      ModesAreRead(r.mode, id.mode);
      TransportsAreRead(r.transport, id.transport);
      SourcesAreRead(r.source, id.source);
    }
  }

  predicate IsCaseOf(c: Case, m: Mode, t: Transport) {
    c.Case? && NamesMode(c.mode, m) && NamesTransport(c.transport, t)
  }

  lemma CaseKeyMeans(c: Case, m: Mode, name: string)
    ensures CaseKey(c) == Some((m, name)) <==> c.Case? && NamesMode(c.mode, m) && c.transport == Str(name)
  {
    if c.Case? {
      ModesAreRead(c.mode, m);
    }
  }

  // Case `i` is the first of its mode and transport.
  predicate FirstCase(cases: seq<Case>, i: nat, m: Mode, t: Transport) {
    i < |cases| && IsCaseOf(cases[i], m, t) && forall j :: 0 <= j < i ==> !IsCaseOf(cases[j], m, t)
  }

  lemma {:induction false} NothingFiled(cases: seq<Case>, m: Mode, t: Transport)
    requires forall j :: 0 <= j < |cases| ==> !IsCaseOf(cases[j], m, t)
    ensures (m, TransportName(t)) !in CaseTable(cases)
    decreases |cases|
  {
    if cases != [] {
      var n := |cases| - 1;
      CaseKeyMeans(cases[n], m, TransportName(t));
      NothingFiled(cases[..n], m, t);
    }
  }

  lemma {:induction false} FirstIsFiled(cases: seq<Case>, m: Mode, t: Transport, i: nat)
    requires FirstCase(cases, i, m, t)
    ensures var table, k := CaseTable(cases), (m, TransportName(t)); k in table && table[k] == cases[i]
    decreases |cases|
  {
    var n := |cases| - 1;
    CaseKeyMeans(cases[n], m, TransportName(t));
    if i == n {
      NothingFiled(cases[..n], m, t);
    } else {
      FirstIsFiled(cases[..n], m, t, i);
    }
  }

  lemma {:induction false} FirstExists(cases: seq<Case>, m: Mode, t: Transport, j: nat) returns (i: nat)
    requires j < |cases| && IsCaseOf(cases[j], m, t)
    ensures FirstCase(cases, i, m, t)
    decreases j
  {
    if FirstCase(cases, j, m, t) {
      i := j;
    } else {
      var k :| 0 <= k < j && IsCaseOf(cases[k], m, t);
      i := FirstExists(cases, m, t, k);
    }
  }

  // ----- What a report observes -----

  ghost predicate CasesSay(cases: seq<Case>, id: Identity, s: Status) {
    exists i: nat, c :: FirstCase(cases, i, id.mode, id.transport) && cases[i].checks.Some?
                   && c in cases[i].checks.value && CheckSays(c, id, s)
  }

  ghost predicate Recorded(records: Option<seq<Record>>, id: Identity) {
    records.Some? && exists r :: r in records.value && RecordSays(r, id)
  }

  // A run's report observes through the first case of each mode and transport; a baseline through
  // its passing and failing records.
  ghost predicate Observes(report: Report, id: Identity, s: Status) {
    if report.baselineKind == Null then report.cases.Some? && CasesSay(report.cases.value, id, s)
    else
      && report.baselineKind == Str("mcp-conformance-regression-baseline-v1")
      && report.checks.Some?
      && ((s == Pass && Recorded(report.checks.value.passing, id)) || (s == Failing && Recorded(report.checks.value.failing, id)))
  }

  lemma SlotMeans(cases: seq<Case>, m: Mode, t: Transport, i: nat)
    requires FirstCase(cases, i, m, t)
    ensures SlotChecks(CaseTable(cases), m, t) == if cases[i].checks.Some? then cases[i].checks.value else []
  {
    FirstIsFiled(cases, m, t, i);
  }

  lemma NoSlot(cases: seq<Case>, m: Mode, t: Transport)
    ensures SlotChecks(CaseTable(cases), m, t) == [] || exists i: nat :: FirstCase(cases, i, m, t)
  {
    if j: nat :| j < |cases| && IsCaseOf(cases[j], m, t) {
      var i := FirstExists(cases, m, t, j);
    } else {
      NothingFiled(cases, m, t);
    }
  }

  lemma SlotSays(cases: seq<Case>, id: Identity, s: Status, i: nat)
    requires FirstCase(cases, i, id.mode, id.transport)
    ensures Says(CaseTable(cases), id, s) <==>
            cases[i].checks.Some? && exists c :: c in cases[i].checks.value && CheckSays(c, id, s)
  {
    SlotMeans(cases, id.mode, id.transport, i);
    var checks := SlotChecks(CaseTable(cases), id.mode, id.transport);
    forall c
      ensures EntryOf(id.mode, id.transport, c) == Some((id, s)) <==> CheckSays(c, id, s)
    {
      CheckMeans(id.mode, id.transport, c, id, s);
    }
    if c :| c in checks && CheckSays(c, id, s) {
      var k :| 0 <= k < |checks| && checks[k] == c;
      assert EntryOf(id.mode, id.transport, checks[k]) == Some((id, s));
    }
  }

  lemma SaysMeans(cases: seq<Case>, id: Identity, s: Status)
    ensures Says(CaseTable(cases), id, s) <==> CasesSay(cases, id, s)
  {
    forall i: nat | FirstCase(cases, i, id.mode, id.transport)
      ensures Says(CaseTable(cases), id, s) <==>
              cases[i].checks.Some? && exists c :: c in cases[i].checks.value && CheckSays(c, id, s)
    {
      SlotSays(cases, id, s, i);
    }
    NoSlot(cases, id.mode, id.transport);
  }

  lemma RecordedMeans(records: Option<seq<Record>>, id: Identity)
    ensures id in RecordIds(Bucket(records)) <==> Recorded(records, id)
  {
    forall r
      ensures RecordIdentity(r) == Some(id) <==> RecordSays(r, id)
    {
      RecordMeans(r, id);
    }
  }

  // The identity map is exactly what the report's fields say.
  lemma ReportMeans(report: Report, id: Identity, s: Status)
    ensures s in At(IdsOf(report), id) <==> Observes(report, id, s)
  {
    if report.baselineKind == Null {
      FullIdsMeans(CaseTable(Cases(report)), id, s);
      SaysMeans(Cases(report), id, s);
    } else if report.checks.Some? {
      CompactIdsMeans(report.checks.value, id, s);
      RecordedMeans(report.checks.value.passing, id);
      RecordedMeans(report.checks.value.failing, id);
    }
  }

  lemma IdentityIsObserved(report: Report, id: Identity)
    ensures id in IdsOf(report) <==> exists s :: Observes(report, id, s)
  {
    IdsAreWellKept(report);
    var ids := IdsOf(report);
    if id in ids {
      var s :| s in ids[id];
      ReportMeans(report, id, s);
    }
    forall s | Observes(report, id, s)
      ensures id in ids
    {
      ReportMeans(report, id, s);
    }
  }

  // ----- When a report is acceptable -----

  predicate HeaderSays(suite: Suite, report: Report) {
    && (report.schemaVersion == Int(4) || report.schemaVersion == Float(4.0))
    && report.versionSuccess == Bool(true)
    && report.modernFeature == Bool(true)
    && report.official.Some?
    && var m := report.official.value;
       && m.repository == Str(suite.repository)
       && m.gitRef == Str(suite.gitRef)
       && m.authenticationIncluded == Bool(true)
       && m.scenarios.Some?
       && ListsScenarios(m.scenarios.value, "2025-06-18", suite.scenarios(Shipping))
       && ListsScenarios(m.scenarios.value, "2025-11-25", suite.scenarios(Legacy))
       && ListsScenarios(m.scenarios.value, "2026-07-28", suite.scenarios(Modern))
  }

  predicate ListsScenarios(selected: map<string, Json>, version: string, catalog: seq<string>) {
    && version in selected && selected[version].Arr?
    && |selected[version].items| == |catalog|
    && forall i :: 0 <= i < |catalog| ==> selected[version].items[i] == Str(catalog[i])
  }

  lemma ListedScenarios(selected: map<string, Json>, version: string, catalog: seq<string>)
    ensures Get(selected, version) == StringArray(catalog) <==> ListsScenarios(selected, version, catalog)
  {
    if ListsScenarios(selected, version, catalog) {
      assert selected[version].items == StringArray(catalog).items;
    }
  }

  lemma HeaderMeans(suite: Suite, report: Report)
    ensures HeaderOk(suite, report) <==> HeaderSays(suite, report)
  {
    var selected := Selected(report);
    ListedScenarios(selected, Version(Shipping), suite.scenarios(Shipping));
    ListedScenarios(selected, Version(Legacy), suite.scenarios(Legacy));
    ListedScenarios(selected, Version(Modern), suite.scenarios(Modern));
    if RunsCatalog(suite, report, Shipping) && RunsCatalog(suite, report, Legacy) && RunsCatalog(suite, report, Modern) {
      forall m
        ensures RunsCatalog(suite, report, m)
      {}
    }
  }

  predicate KnownMode(v: Json) {
    v == Str("2025-06-18") || v == Str("2025-11-25") || v == Str("2026-07-28")
  }

  // An object; one of a known mode names its transport.
  predicate CaseReads(c: Case) {
    c.Case? && (KnownMode(c.mode) ==> c.transport.Str?)
  }

  // Two cases of the same known mode and transport.
  predicate SameSlot(a: Case, b: Case) {
    a.Case? && b.Case? && KnownMode(a.mode) && a.mode == b.mode && a.transport.Str? && a.transport == b.transport
  }

  predicate CasesAgree(cases: seq<Case>) {
    && (forall i :: 0 <= i < |cases| ==> CaseReads(cases[i]))
    && forall i, j :: 0 <= i < j < |cases| ==> !SameSlot(cases[i], cases[j])
  }

  lemma SlotsAgree(a: Case, b: Case)
    ensures CaseOk(a) <==> CaseReads(a)
    ensures SameSlot(a, b) <==> CaseKey(a).Some? && CaseKey(a) == CaseKey(b)
  {
    if a.Case? && b.Case? && CaseKey(a).Some? && CaseKey(a) == CaseKey(b) {
      var k := CaseKey(a).value;
      CaseKeyMeans(a, k.0, k.1);
      CaseKeyMeans(b, k.0, k.1);
    }
  }

  lemma {:induction false} TableKeys(cases: seq<Case>, k: (Mode, string))
    ensures k in CaseTable(cases) <==> exists i :: 0 <= i < |cases| && CaseKey(cases[i]) == Some(k)
    decreases |cases|
  {
    if cases != [] {
      var n := |cases| - 1;
      TableKeys(cases[..n], k);
      assert forall i :: 0 <= i < n ==> cases[..n][i] == cases[i];
      if exists i :: 0 <= i < n && CaseKey(cases[..n][i]) == Some(k) {
        var i :| 0 <= i < n && CaseKey(cases[..n][i]) == Some(k);
        assert CaseKey(cases[i]) == Some(k);
      }
    }
  }

  lemma {:induction false} CasesMean(cases: seq<Case>)
    ensures CasesOk(cases) <==> CasesAgree(cases)
    decreases |cases|
  {
    if cases != [] {
      var n := |cases| - 1;
      CasesMean(cases[..n]);
      SlotsAgree(cases[n], cases[n]);
      OneMoreCase(cases[..n], cases[n]);
      assert cases == cases[..n] + [cases[n]];
    }
  }

  lemma OneMoreCase(front: seq<Case>, last: Case)
    ensures CasesAgree(front + [last]) <==>
            CasesAgree(front) && CaseReads(last) && (CaseKey(last).Some? ==> CaseKey(last).value !in CaseTable(front))
  {
    var cases, n := front + [last], |front|;
    assert cases[n] == last && forall i :: 0 <= i < n ==> cases[i] == front[i];
    forall i | 0 <= i < n
      ensures SameSlot(front[i], last) <==> CaseKey(front[i]).Some? && CaseKey(front[i]) == CaseKey(last)
    {
      SlotsAgree(front[i], last);
    }
    if CaseKey(last).Some? {
      TableKeys(front, CaseKey(last).value);
    }
    if CasesAgree(cases) {
      assert forall i :: 0 <= i < n ==> !SameSlot(cases[i], cases[n]);
      assert forall i, j :: 0 <= i < j < n ==> !SameSlot(cases[i], cases[j]);
      assert forall i :: 0 <= i < n ==> CaseReads(cases[i]);
    }
  }

  // The first case of a mode and transport lists checks, and each says something.
  ghost predicate CaseSpeaks(cases: seq<Case>, m: Mode, t: Transport) {
    exists i: nat :: FirstCase(cases, i, m, t) && cases[i].checks.Some? && cases[i].checks.value != []
                && forall c :: c in cases[i].checks.value ==> CheckSpeaks(m, t, c)
  }

  lemma SlotOkMeans(cases: seq<Case>, m: Mode, t: Transport)
    ensures SlotOk(CaseTable(cases), m, t) <==> CaseSpeaks(cases, m, t)
  {
    forall c
      ensures EntryOf(m, t, c).Some? <==> CheckSpeaks(m, t, c)
    {
      SpeaksIffEntry(m, t, c);
    }
    NoSlot(cases, m, t);
    forall i: nat | FirstCase(cases, i, m, t)
      ensures SlotChecks(CaseTable(cases), m, t) == if cases[i].checks.Some? then cases[i].checks.value else []
    {
      SlotMeans(cases, m, t, i);
    }
  }

  ghost predicate RecordSpeaks(r: Record) {
    exists id :: RecordSays(r, id)
  }

  ghost predicate SameIdentity(a: Record, b: Record) {
    exists id :: RecordSays(a, id) && RecordSays(b, id)
  }

  // Every record says an identity, and no two say the same.
  ghost predicate RecordsSpeak(records: seq<Record>) {
    && (forall i :: 0 <= i < |records| ==> RecordSpeaks(records[i]))
    && forall i, j :: 0 <= i < j < |records| ==> !SameIdentity(records[i], records[j])
  }

  lemma IdentitiesAgree(a: Record, b: Record)
    ensures RecordSpeaks(a) <==> RecordIdentity(a).Some?
    ensures SameIdentity(a, b) <==> RecordIdentity(a).Some? && RecordIdentity(a) == RecordIdentity(b)
  {
    forall id
      ensures RecordSays(a, id) <==> RecordIdentity(a) == Some(id)
      ensures RecordSays(b, id) <==> RecordIdentity(b) == Some(id)
    {
      RecordMeans(a, id);
      RecordMeans(b, id);
    }
    if RecordIdentity(a).Some? {
      assert RecordSays(a, RecordIdentity(a).value);
      assert RecordSays(b, RecordIdentity(a).value) <==> RecordIdentity(b) == RecordIdentity(a);
    }
  }

  lemma RecordsGrow(front: seq<Record>, last: Record)
    ensures RecordsSpeak(front + [last]) <==>
            && RecordsSpeak(front) && RecordSpeaks(last)
            && forall i :: 0 <= i < |front| ==> !SameIdentity(front[i], last)
  {
    var records, n := front + [last], |front|;
    assert records[n] == last && forall i :: 0 <= i < n ==> records[i] == front[i];
    if RecordsSpeak(records) {
      assert RecordSpeaks(records[n]);
      forall i | 0 <= i < n
        ensures RecordSpeaks(front[i]) && !SameIdentity(front[i], last)
      {
        assert RecordSpeaks(records[i]) && !SameIdentity(records[i], records[n]);
      }
      forall i, j | 0 <= i < j < n
        ensures !SameIdentity(front[i], front[j])
      {
        assert !SameIdentity(records[i], records[j]);
      }
    }
  }

  lemma OneMoreRecord(front: seq<Record>, last: Record)
    ensures RecordsSpeak(front + [last]) <==>
            RecordsSpeak(front) && RecordIdentity(last).Some? && RecordIdentity(last).value !in RecordIds(front)
  {
    RecordsGrow(front, last);
    IdentitiesAgree(last, last);
    forall i | 0 <= i < |front|
      ensures SameIdentity(front[i], last) <==> RecordIdentity(front[i]).Some? && RecordIdentity(front[i]) == RecordIdentity(last)
    {
      IdentitiesAgree(front[i], last);
    }
    assert forall i :: 0 <= i < |front| ==> front[i] in front;
  }

  lemma {:induction false} RecordsMean(records: seq<Record>)
    ensures RecordsOk(records) <==> RecordsSpeak(records)
    decreases |records|
  {
    if records != [] {
      var n := |records| - 1;
      RecordsMean(records[..n]);
      OneMoreRecord(records[..n], records[n]);
      assert records == records[..n] + [records[n]];
    }
  }

  ghost predicate BaselineSays(report: Report) {
    && report.baselineKind == Str("mcp-conformance-regression-baseline-v1")
    && report.requiredModes == Arr([Str("2025-06-18"), Str("2025-11-25"), Str("2026-07-28")])
    && (report.transports == Arr([Str("stdio"), Str("official-http")])
        || report.transports == Arr([Str("official-http"), Str("stdio")]))
    && report.checks.Some?
    && report.checks.value.passing.Some? && RecordsSpeak(report.checks.value.passing.value)
    && report.checks.value.failing.Some? && RecordsSpeak(report.checks.value.failing.value)
  }

  lemma BaselineMeans(report: Report)
    ensures CompactOk(report) <==> BaselineSays(report)
  {
    if report.checks.Some? {
      var b := report.checks.value;
      if b.passing.Some? {
        RecordsMean(b.passing.value);
      }
      if b.failing.Some? {
        RecordsMean(b.failing.value);
      }
    }
  }

  ghost predicate RunSays(report: Report) {
    && report.cases.Some? && CasesAgree(report.cases.value)
    && forall m, t :: CaseSpeaks(report.cases.value, m, t)
  }

  lemma RunMeans(report: Report)
    ensures FullOk(report) <==> RunSays(report)
  {
    if report.cases.Some? {
      CasesMean(report.cases.value);
      forall m, t
        ensures SlotOk(CaseTable(report.cases.value), m, t) <==> CaseSpeaks(report.cases.value, m, t)
      {
        SlotOkMeans(report.cases.value, m, t);
      }
    }
  }

  ghost predicate SeenOn(report: Report, m: Mode, t: Transport) {
    exists id: Identity, s :: id.mode == m && id.transport == t && Observes(report, id, s)
  }

  ghost predicate ScenarioSeen(report: Report, m: Mode, x: string) {
    exists id: Identity, s :: id.mode == m && id.transport == OfficialHttp && id.source != Supplemental && id.scenario == x
                    && Observes(report, id, s)
  }

  ghost predicate ObservesAll(suite: Suite, report: Report) {
    && (forall m, t :: SeenOn(report, m, t))
    && forall m, x :: ScenarioSeen(report, m, x) <==> x in suite.scenarios(m)
  }

  lemma CoversMeans(suite: Suite, report: Report)
    ensures Covers(suite, IdsOf(report)) <==> ObservesAll(suite, report)
  {
    var ids := IdsOf(report);
    forall m, t
      ensures Reaches(ids, m, t) <==> SeenOn(report, m, t)
    {
      ReachesMeans(report, m, t);
    }
    forall m, x
      ensures x in ObservedScenarios(ids, m) <==> ScenarioSeen(report, m, x)
    {
      ObservedMeans(report, m, x);
    }
    SameScenarios(suite, report);
  }

  lemma SameScenarios(suite: Suite, report: Report)
    requires forall m, x :: x in ObservedScenarios(IdsOf(report), m) <==> ScenarioSeen(report, m, x)
    ensures (forall m :: ObservedScenarios(IdsOf(report), m) == Catalog(suite, m)) <==>
            (forall m, x :: ScenarioSeen(report, m, x) <==> x in suite.scenarios(m))
  {
    forall m
      ensures ObservedScenarios(IdsOf(report), m) == Catalog(suite, m) <==>
              forall x :: ScenarioSeen(report, m, x) <==> x in suite.scenarios(m)
    {}
  }

  lemma ReachesMeans(report: Report, m: Mode, t: Transport)
    ensures Reaches(IdsOf(report), m, t) <==> SeenOn(report, m, t)
  {
    forall id
      ensures id in IdsOf(report) <==> exists s :: Observes(report, id, s)
    {
      IdentityIsObserved(report, id);
    }
  }

  lemma ObservedMeans(report: Report, m: Mode, x: string)
    ensures x in ObservedScenarios(IdsOf(report), m) <==> ScenarioSeen(report, m, x)
  {
    forall id
      ensures id in IdsOf(report) <==> exists s :: Observes(report, id, s)
    {
      IdentityIsObserved(report, id);
    }
  }

  // An acceptable report, on its fields.
  ghost predicate Acceptable(suite: Suite, report: Report) {
    && HeaderSays(suite, report)
    && (if report.baselineKind != Null then BaselineSays(report) else RunSays(report))
    && ObservesAll(suite, report)
  }

  lemma ValidMeans(suite: Suite, report: Report)
    ensures Valid(suite, report) <==> Acceptable(suite, report)
  {
    HeaderMeans(suite, report);
    BaselineMeans(report);
    RunMeans(report);
    CoversMeans(suite, report);
  }

  // ----- When a candidate passes -----

  ghost predicate NoShippingFailure(report: Report) {
    forall id :: Observes(report, id, Failing) ==> id.mode != Shipping
  }

  ghost predicate KeepsUp(base: Report, cand: Report) {
    && (forall id :: Observes(cand, id, Failing) ==> Observes(base, id, Failing))
    && (forall id :: Observes(base, id, Pass) ==> Observes(cand, id, Pass))
    && forall id :: Observes(base, id, Failing) ==> Observes(cand, id, Failing) || Observes(cand, id, Pass)
  }

  // The gate, on the two reports' fields.
  ghost predicate MayReplace(suite: Suite, cand: Report, base: Report) {
    && Acceptable(suite, base) && Acceptable(suite, cand)
    && cand.automaticAuth.Bool? && cand.automaticAuth == base.automaticAuth
    && NoShippingFailure(base) && NoShippingFailure(cand)
    && KeepsUp(base, cand)
  }

  lemma ObservedSets(report: Report)
    ensures forall id :: id in PassIds(IdsOf(report)) <==> Observes(report, id, Pass)
    ensures forall id :: id in FailIds(IdsOf(report)) <==> Observes(report, id, Failing)
  {
    forall id
      ensures id in PassIds(IdsOf(report)) <==> Observes(report, id, Pass)
      ensures id in FailIds(IdsOf(report)) <==> Observes(report, id, Failing)
    {
      ReportMeans(report, id, Pass);
      ReportMeans(report, id, Failing);
    }
  }

  lemma KeepsUpMeans(base: Report, cand: Report)
    ensures NoWorse(IdsOf(base), IdsOf(cand)) <==> KeepsUp(base, cand)
  {
    ObservedSets(base);
    ObservedSets(cand);
    NoWorseMeans(IdsOf(base), IdsOf(cand));
  }

  lemma PassesMeans(suite: Suite, cand: Report, base: Report)
    ensures Passes(suite, cand, base) <==> MayReplace(suite, cand, base)
  {
    ValidMeans(suite, base);
    ValidMeans(suite, cand);
    ObservedSets(base);
    ObservedSets(cand);
    KeepsUpMeans(base, cand);
  }

  // What the four lists hold.
  lemma ListsMean(base: Report, cand: Report, id: Identity)
    ensures id in NewFailures(IdsOf(base), IdsOf(cand)) <==> Observes(cand, id, Failing) && !Observes(base, id, Failing)
    ensures id in KnownFailures(IdsOf(base), IdsOf(cand)) <==> Observes(cand, id, Failing) && Observes(base, id, Failing)
    ensures id in MissingChecks(IdsOf(base), IdsOf(cand)) <==>
            && !Observes(cand, id, Pass)
            && (Observes(base, id, Pass) || (Observes(base, id, Failing) && !Observes(cand, id, Failing)))
    ensures id in FixedChecks(IdsOf(base), IdsOf(cand)) <==>
            Observes(base, id, Failing) && !Observes(cand, id, Failing) && Observes(cand, id, Pass)
  {
    ObservedSets(base);
    ObservedSets(cand);
  }

  // Reports list identities by protocol version, then transport, source, scenario and check.
  predicate Before(a: Identity, b: Identity) {
    || StringLess(Version(a.mode), Version(b.mode))
    || (a.mode == b.mode
        && (|| StringLess(TransportName(a.transport), TransportName(b.transport))
            || (a.transport == b.transport
                && (|| StringLess(SourceName(a.source), SourceName(b.source))
                    || (a.source == b.source
                        && (|| StringLess(a.scenario, b.scenario)
                            || (a.scenario == b.scenario && StringLess(a.checkId, b.checkId))))))))
  }

  lemma IdentityOrder(a: Identity, b: Identity)
    ensures KeyLess(IdKey(a), IdKey(b)) <==> Before(a, b)
  {
    NamesReadBack(a.mode, a.transport, a.source);
    NamesReadBack(b.mode, b.transport, b.source);
    StringLessIsTotal();
    KeyTail(IdKey(a), IdKey(b));
    KeyTail(IdKey(a)[1..], IdKey(b)[1..]);
    KeyTail(IdKey(a)[2..], IdKey(b)[2..]);
    KeyTail(IdKey(a)[3..], IdKey(b)[3..]);
    KeyTail(IdKey(a)[4..], IdKey(b)[4..]);
  }

  lemma KeyTail(a: seq<string>, b: seq<string>)
    requires a != [] && b != []
    ensures KeyLess(a, b) <==> StringLess(a[0], b[0]) || (a[0] == b[0] && KeyLess(a[1..], b[1..]))
  {}

  // A verdict, on the two reports' fields.
  ghost predicate JudgedBy(suite: Suite, cand: Report, base: Report, v: Verdict) {
    && (v.success <==> MayReplace(suite, cand, base))
    && (forall id :: id in v.newFailures <==> Observes(cand, id, Failing) && !Observes(base, id, Failing))
    && (forall id :: id in v.knownFailures <==> Observes(cand, id, Failing) && Observes(base, id, Failing))
    && (forall id :: id in v.missingChecks <==>
                     && !Observes(cand, id, Pass)
                     && (Observes(base, id, Pass) || (Observes(base, id, Failing) && !Observes(cand, id, Failing))))
    && (forall id :: id in v.fixedChecks <==>
                     Observes(base, id, Failing) && !Observes(cand, id, Failing) && Observes(cand, id, Pass))
  }

  lemma VerdictMeans(suite: Suite, cand: Report, base: Report)
    ensures JudgedBy(suite, cand, base, Evaluate(suite, cand, base))
  {
    PassesMeans(suite, cand, base);
    var v := Evaluate(suite, cand, base);
    forall id
      ensures id in v.newFailures <==> id in NewFailures(IdsOf(base), IdsOf(cand))
      ensures id in v.knownFailures <==> id in KnownFailures(IdsOf(base), IdsOf(cand))
      ensures id in v.missingChecks <==> id in MissingChecks(IdsOf(base), IdsOf(cand))
      ensures id in v.fixedChecks <==> id in FixedChecks(IdsOf(base), IdsOf(cand))
    {}
    forall id {
      ListsMean(base, cand, id);
    }
  }

  // ----- The compact baseline -----

  // The records say identities one after the other, in order.
  ghost predicate InOrder(records: seq<Record>) {
    forall i, j :: 0 <= i < j < |records| ==> SaidBefore(records[i], records[j])
  }

  ghost predicate SaidBefore(a: Record, b: Record) {
    exists x, y :: RecordSays(a, x) && RecordSays(b, y) && Before(x, y)
  }

  // What a baseline of a report must say.
  ghost predicate StandsFor(suite: Suite, c: Report, report: Report) {
    && c.schemaVersion == Int(4) && HeaderSays(suite, c)
    && c.automaticAuth == report.automaticAuth
    && c.baselineKind == Str("mcp-conformance-regression-baseline-v1")
    && c.requiredModes == Arr([Str("2025-06-18"), Str("2025-11-25"), Str("2026-07-28")])
    && c.transports == Arr([Str("stdio"), Str("official-http")])
    && c.cases == None && c.checks.Some?
    && c.checks.value.passing.Some? && InOrder(c.checks.value.passing.value)
    && c.checks.value.failing.Some? && InOrder(c.checks.value.failing.value)
    && forall id, s :: Observes(c, id, s) <==> s != Skip && Observes(report, id, s)
  }

  lemma ListedInOrder(s: set<Identity>)
    requires forall id :: id in s ==> id.checkId != ""
    ensures InOrder(RecordsOf(SortedIds(s)))
  {
    var r := SortedIds(s);
    var records := RecordsOf(r);
    forall i, j | 0 <= i < j < |records|
      ensures SaidBefore(records[i], records[j])
    {
      assert r[i] in r && r[j] in r;
      RecordReadsBack(r[i]);
      RecordReadsBack(r[j]);
      RecordMeans(records[i], r[i]);
      RecordMeans(records[j], r[j]);
      IdentityOrder(r[i], r[j]);
    }
  }

  lemma CompactObserves(suite: Suite, report: Report, id: Identity, s: Status)
    requires Shippable(suite, report)
    ensures Observes(Compact(suite, report).value, id, s) <==> s != Skip && Observes(report, id, s)
  {
    CompactIds(suite, report);
    ReportMeans(Compact(suite, report).value, id, s);
    ReportMeans(report, id, s);
  }

  lemma CompactInOrder(suite: Suite, report: Report)
    requires Shippable(suite, report)
    ensures var b := Compact(suite, report).value.checks.value;
            && b.passing.Some? && InOrder(b.passing.value)
            && b.failing.Some? && InOrder(b.failing.value)
  {
    IdsAreWellKept(report);
    ListedInOrder(PassIds(IdsOf(report)));
    ListedInOrder(FailIds(IdsOf(report)));
  }

  lemma ShippableMeans(suite: Suite, report: Report)
    ensures Shippable(suite, report) <==>
            Acceptable(suite, report) && report.automaticAuth.Bool? && NoShippingFailure(report)
  {
    ValidMeans(suite, report);
    ObservedSets(report);
  }

  lemma BaselineExistsIff(suite: Suite, report: Report)
    ensures Compact(suite, report).Some? <==>
            Acceptable(suite, report) && report.automaticAuth.Bool? && NoShippingFailure(report)
    ensures Compact(suite, report).Some? ==> StandsFor(suite, Compact(suite, report).value, report)
  {
    ShippableMeans(suite, report);
    if Compact(suite, report).Some? {
      var c := Compact(suite, report).value;
      CompactHeader(suite, report);
      HeaderMeans(suite, c);
      CompactInOrder(suite, report);
      forall id, s
        ensures Observes(c, id, s) <==> s != Skip && Observes(report, id, s)
      {
        CompactObserves(suite, report, id, s);
      }
    }
  }

  // ----- The authentication policy along a chain -----

  lemma PolicyIsKept(suite: Suite, base: Report, next: Report)
    requires Succeeds(suite, base, next)
    ensures next.automaticAuth.Bool? && next.automaticAuth == base.automaticAuth
  {}

  // Every report of a chain carries the first one's policy, whether it was accepted or compacted.
  lemma {:induction false} PolicyNeverChanges(suite: Suite, rs: seq<Report>, i: nat)
    requires |rs| >= 2 && MaintainedChain(suite, rs) && i < |rs|
    ensures rs[i].automaticAuth.Bool? && rs[i].automaticAuth == rs[0].automaticAuth
    decreases i
  {
    if i == 0 {
      assert Succeeds(suite, rs[0], rs[0 + 1]);
      PolicyIsKept(suite, rs[0], rs[1]);
    } else {
      assert Succeeds(suite, rs[i - 1], rs[i - 1 + 1]);
      PolicyIsKept(suite, rs[i - 1], rs[i]);
      PolicyNeverChanges(suite, rs, i - 1);
    }
  }

  lemma AcceptedPolicyNeverChanges(suite: Suite, rs: seq<Report>, i: nat)
    requires |rs| >= 2 && AcceptedChain(suite, rs) && i < |rs|
    ensures rs[i].automaticAuth.Bool? && rs[i].automaticAuth == rs[0].automaticAuth
  {
    forall k | 0 <= k < |rs| - 1
      ensures Succeeds(suite, rs[k], rs[k + 1])
    {
      assert Passes(suite, rs[k + 1], rs[k]);
    }
    PolicyNeverChanges(suite, rs, i);
  }
}
