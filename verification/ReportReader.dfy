// Reading a report as the code does: dictionaries filled and errors collected in loops.
module ReportReader {
  import opened Prelude
  import opened Json
  import opened FixtureServer
  import opened Ordering
  import opened ConformanceReport
  import opened RegressionGate
  import opened GateMeaning

  datatype Problem =
    | WrongSchema
    | NoVersionCheck
    | ModernFeatureOff
    | NoMetadata
    | WrongRepository
    | WrongRevision
    | NoOAuthScenarios
    | NoScenarioCatalog
    | UnsupportedFormat
    | WrongRequiredModes
    | WrongTransports
    | NoCheckIdentities
    | NoBucket(status: Status)
    | MalformedIdentity(status: Status)
    | DuplicateIdentity(status: Status)
    | IncompleteCatalog(mode: Mode)
    | MissingCase(mode: Mode, transport: Transport)
    | NoChecks(mode: Mode, transport: Transport)
    | MalformedCheckIn(mode: Mode, transport: Transport)
    | MissingScenarios(mode: Mode, scenarios: set<string>)
    | UnexpectedScenarios(mode: Mode, scenarios: set<string>)
    | NoCases
    | MalformedCaseEntry
    | DuplicateCase(mode: Mode, name: string)
    | NoPolicy
    | DifferentPolicies
    | ShippingFailure(checkId: string)

  method ReadReport(suite: Suite, report: Report) returns (ids: Ids, errors: seq<Problem>)
    ensures forall id, s :: s in At(ids, id) <==> Observes(report, id, s)
    ensures errors == [] <==> Acceptable(suite, report)
    ensures ids == IdsOf(report)
    ensures errors == [] <==> Valid(suite, report)
  {
    ValidMeans(suite, report);
    forall id, s
      ensures s in At(IdsOf(report), id) <==> Observes(report, id, s)
    {
      ReportMeans(report, id, s);
    }
    var preamble := ReadPreamble(suite, report);
    var rest: seq<Problem>;
    if IsCompact(report) {
      ids, rest := ReadCompact(suite, report);
    } else {
      ids, rest := ReadFull(suite, report);
    }
    errors := preamble + rest;
  }

  method ReadPreamble(suite: Suite, report: Report) returns (errors: seq<Problem>)
    ensures errors == [] <==> PreambleOk(suite, report)
  {
    errors := [];
    if !EqualsInt(report.schemaVersion, REPORT_SCHEMA_VERSION) {
      errors := errors + [WrongSchema];
    }
    if report.versionSuccess != Bool(true) {
      errors := errors + [NoVersionCheck];
    }
    if report.modernFeature != Bool(true) {
      errors := errors + [ModernFeatureOff];
    }
    match report.official {
      case None =>
        errors := errors + [NoMetadata];
      case Some(m) =>
        if m.repository != Str(suite.repository) {
          errors := errors + [WrongRepository];
        }
        if m.gitRef != Str(suite.gitRef) {
          errors := errors + [WrongRevision];
        }
        if m.authenticationIncluded != Bool(true) {
          errors := errors + [NoOAuthScenarios];
        }
        if m.scenarios.None? {
          errors := errors + [NoScenarioCatalog];
        }
    }
  }

  // What the observed scenarios of a mode lack or exceed.
  method CompareScenarios(suite: Suite, mode: Mode, observed: set<string>) returns (errors: seq<Problem>)
    ensures errors == [] <==> observed == Catalog(suite, mode)
  {
    var missing, unexpected := Catalog(suite, mode) - observed, observed - Catalog(suite, mode);
    errors := (if missing != {} then [MissingScenarios(mode, missing)] else [])
              + (if unexpected != {} then [UnexpectedScenarios(mode, unexpected)] else []);
    if errors == [] {
      forall s
        ensures s in observed <==> s in Catalog(suite, mode)
      {
        assert s !in missing && s !in unexpected;
      }
    }
  }

  // ----- The compact form -----

  method ReadBucket(before: Ids, records: Option<seq<Record>>, status: Status) returns (ids: Ids, errors: seq<Problem>)
    ensures ids == AddRecords(before, Bucket(records), status)
    ensures errors == [] <==> records.Some? && RecordsOk(records.value)
  {
    ids, errors := before, [];
    if records.None? {
      return ids, [NoBucket(status)];
    }
    var rs := records.value;
    var seen: set<Identity> := {};
    for i := 0 to |rs|
      invariant ids == AddRecords(before, rs[..i], status)
      invariant seen == RecordIds(rs[..i])
      invariant errors == [] <==> RecordsOk(rs[..i])
    {
      ghost var front := rs[..i];
      assert rs[..i + 1] == front + [rs[i]];
      NextRecord(before, front, rs[i], status);
      match RecordIdentity(rs[i]) {
        case None =>
          errors := errors + [MalformedIdentity(status)];
        case Some(id) =>
          if id in seen {
            errors := errors + [DuplicateIdentity(status)];
          } else {
            seen := seen + {id};
            ids := Add(ids, id, status);
          }
      }
    }
    assert rs[..|rs|] == rs;
  }

  // What one more record does; a repeated identity adds nothing.
  lemma NextRecord(before: Ids, front: seq<Record>, last: Record, status: Status)
    ensures match RecordIdentity(last)
            case None =>
              && AddRecords(before, front + [last], status) == AddRecords(before, front, status)
              && RecordIds(front + [last]) == RecordIds(front)
              && !RecordsOk(front + [last])
            case Some(id) =>
              && AddRecords(before, front + [last], status) ==
                 (if id in RecordIds(front) then AddRecords(before, front, status) else Add(AddRecords(before, front, status), id, status))
              && RecordIds(front + [last]) == RecordIds(front) + {id}
              && (RecordsOk(front + [last]) <==> RecordsOk(front) && id !in RecordIds(front))
  {
    var records := front + [last];
    assert records[..|front|] == front && records[|front|] == last;
    assert last in records && forall r :: r in records <==> r in front || r == last;
    match RecordIdentity(last) {
      case None =>
      case Some(id) =>
        assert id in RecordIds(records);
        if id in RecordIds(front) {
          RecordedBefore(before, front, status, id);
        }
    }
  }

  lemma RecordedBefore(before: Ids, records: seq<Record>, status: Status, id: Identity)
    requires id in RecordIds(records)
    ensures Add(AddRecords(before, records, status), id, status) == AddRecords(before, records, status)
  {
    AddRecordsMeans(before, records, status, id, status);
  }

  predicate ModeCovered(suite: Suite, report: Report, ids: Ids, m: Mode) {
    && RunsCatalog(suite, report, m)
    && Reaches(ids, m, Stdio) && Reaches(ids, m, OfficialHttp)
    && ObservedScenarios(ids, m) == Catalog(suite, m)
  }

  method ReadCompactMode(suite: Suite, report: Report, ids: Ids, m: Mode) returns (errors: seq<Problem>)
    ensures errors == [] <==> ModeCovered(suite, report, ids, m)
  {
    errors := [];
    if !RunsCatalog(suite, report, m) {
      errors := errors + [IncompleteCatalog(m)];
    }
    if !Reaches(ids, m, Stdio) {
      errors := errors + [MissingCase(m, Stdio)];
    }
    if !Reaches(ids, m, OfficialHttp) {
      errors := errors + [MissingCase(m, OfficialHttp)];
    }
    var scenarios := CompareScenarios(suite, m, ObservedScenarios(ids, m));
    errors := errors + scenarios;
  }

  method ReadCompact(suite: Suite, report: Report) returns (ids: Ids, errors: seq<Problem>)
    requires IsCompact(report)
    ensures ids == IdsOf(report)
    ensures errors == [] <==>
            CompactOk(report) && (forall m :: RunsCatalog(suite, report, m)) && Covers(suite, ids)
  {
    ids := map[];
    if report.baselineKind != Str(COMPACT_KIND) {
      return ids, [UnsupportedFormat];
    }
    errors := [];
    if report.requiredModes != Arr([Str(Version(Shipping)), Str(Version(Legacy)), Str(Version(Modern))]) {
      errors := errors + [WrongRequiredModes];
    }
    if !TransportsOk(report.transports) {
      errors := errors + [WrongTransports];
    }
    if report.checks.None? {
      return ids, errors + [NoCheckIdentities];
    }
    var b := report.checks.value;
    var passing, failing: seq<Problem>;
    ids, passing := ReadBucket(ids, b.passing, Pass);
    ids, failing := ReadBucket(ids, b.failing, Failing);
    var shipping := ReadCompactMode(suite, report, ids, Shipping);
    var legacy := ReadCompactMode(suite, report, ids, Legacy);
    var modern := ReadCompactMode(suite, report, ids, Modern);
    AllModesCovered(suite, report, ids);
    errors := errors + passing + failing + shipping + legacy + modern;
  }

  lemma AllModesCovered(suite: Suite, report: Report, ids: Ids)
    ensures ModeCovered(suite, report, ids, Shipping) && ModeCovered(suite, report, ids, Legacy) && ModeCovered(suite, report, ids, Modern)
       <==> (forall m :: RunsCatalog(suite, report, m)) && Covers(suite, ids)
  {
    if ModeCovered(suite, report, ids, Shipping) && ModeCovered(suite, report, ids, Legacy) && ModeCovered(suite, report, ids, Modern) {
      forall m
        ensures ModeCovered(suite, report, ids, m)
      {}
    }
  }

  // ----- The full form -----

  method FileCases(cases: Option<seq<Case>>) returns (table: map<(Mode, string), Case>, errors: seq<Problem>)
    ensures table == CaseTable(if cases.Some? then cases.value else [])
    ensures errors == [] <==> cases.Some? && CasesOk(cases.value)
  {
    table, errors := map[], [];
    if cases.None? {
      return table, [NoCases];
    }
    var cs := cases.value;
    for i := 0 to |cs|
      invariant table == CaseTable(cs[..i])
      invariant errors == [] <==> CasesOk(cs[..i])
    {
      assert cs[..i + 1][..i] == cs[..i];
      if !CaseOk(cs[i]) {
        errors := errors + [MalformedCaseEntry];
      } else if CaseKey(cs[i]).Some? {
        var k := CaseKey(cs[i]).value;
        if k in table {
          errors := errors + [DuplicateCase(k.0, k.1)];
        } else {
          table := table[k := cs[i]];
        }
      }
    }
    assert cs[..|cs|] == cs;
  }

  function SlotScenarios(mode: Mode, transport: Transport, checks: seq<Check>): set<string> {
    set c | c in checks && EntryOf(mode, transport, c).Some? && EntryOf(mode, transport, c).value.0.source != Supplemental
      :: EntryOf(mode, transport, c).value.0.scenario
  }

  method ReadSlot(before: Ids, table: map<(Mode, string), Case>, mode: Mode, transport: Transport)
    returns (ids: Ids, observed: set<string>, errors: seq<Problem>)
    ensures ids == AddChecks(before, mode, transport, SlotChecks(table, mode, transport))
    ensures observed == SlotScenarios(mode, transport, SlotChecks(table, mode, transport))
    ensures errors == [] <==> SlotOk(table, mode, transport)
  {
    var k := (mode, TransportName(transport));
    if k !in table {
      return before, {}, [MissingCase(mode, transport)];
    }
    var filed := table[k];
    if filed.MalformedCase? || filed.checks.None? || filed.checks.value == [] {
      return before, {}, [NoChecks(mode, transport)];
    }
    ids, observed, errors := ReadChecks(before, mode, transport, filed.checks.value);
  }

  method ReadChecks(before: Ids, mode: Mode, transport: Transport, checks: seq<Check>)
    returns (ids: Ids, observed: set<string>, errors: seq<Problem>)
    ensures ids == AddChecks(before, mode, transport, checks)
    ensures observed == SlotScenarios(mode, transport, checks)
    ensures errors == [] <==> ChecksOk(mode, transport, checks)
  {
    ids, observed, errors := before, {}, [];
    for i := 0 to |checks|
      invariant ids == AddChecks(before, mode, transport, checks[..i])
      invariant observed == SlotScenarios(mode, transport, checks[..i])
      invariant errors == [] <==> ChecksOk(mode, transport, checks[..i])
    {
      ghost var front := checks[..i];
      assert checks[..i + 1] == front + [checks[i]];
      NextCheck(before, mode, transport, front, checks[i]);
      SlotScenariosGrow(mode, transport, front, checks[i]);
      match EntryOf(mode, transport, checks[i]) {
        case None =>
          errors := errors + [MalformedCheckIn(mode, transport)];
        case Some(e) =>
          ids := Add(ids, e.0, e.1);
          if e.0.source != Supplemental {
            observed := observed + {e.0.scenario};
          }
      }
    }
    assert checks[..|checks|] == checks;
  }

  lemma NextCheck(before: Ids, mode: Mode, transport: Transport, front: seq<Check>, last: Check)
    ensures match EntryOf(mode, transport, last)
            case None =>
              AddChecks(before, mode, transport, front + [last]) == AddChecks(before, mode, transport, front)
            case Some(e) =>
              AddChecks(before, mode, transport, front + [last]) == Add(AddChecks(before, mode, transport, front), e.0, e.1)
  {
    var checks := front + [last];
    assert checks[..|front|] == front && checks[|front|] == last;
  }

  lemma SlotScenariosGrow(mode: Mode, transport: Transport, front: seq<Check>, last: Check)
    ensures ChecksOk(mode, transport, front + [last]) <==> ChecksOk(mode, transport, front) && EntryOf(mode, transport, last).Some?
    ensures SlotScenarios(mode, transport, front + [last]) ==
            SlotScenarios(mode, transport, front) +
            var e := EntryOf(mode, transport, last);
            if e.Some? && e.value.0.source != Supplemental then {e.value.0.scenario} else {}
  {
    var checks := front + [last];
    assert last in checks && forall c :: c in checks <==> c in front || c == last;
    var e := EntryOf(mode, transport, last);
    if e.Some? && e.value.0.source != Supplemental {
      assert e.value.0.scenario in SlotScenarios(mode, transport, checks);
    }
  }

  predicate ModeRead(suite: Suite, report: Report, table: map<(Mode, string), Case>, m: Mode) {
    && RunsCatalog(suite, report, m)
    && SlotOk(table, m, Stdio) && SlotOk(table, m, OfficialHttp)
    && SlotScenarios(m, OfficialHttp, SlotChecks(table, m, OfficialHttp)) == Catalog(suite, m)
  }

  method ReadMode(suite: Suite, report: Report, table: map<(Mode, string), Case>, before: Ids, m: Mode)
    returns (ids: Ids, errors: seq<Problem>)
    ensures ids == AddMode(before, table, m)
    ensures errors == [] <==> ModeRead(suite, report, table, m)
  {
    errors := [];
    if !RunsCatalog(suite, report, m) {
      errors := errors + [IncompleteCatalog(m)];
    }
    var observed: set<string>;
    var stdio, http: seq<Problem>;
    ids, observed, stdio := ReadSlot(before, table, m, Stdio);
    ids, observed, http := ReadSlot(ids, table, m, OfficialHttp);
    if http != [] && SlotChecks(table, m, OfficialHttp) == [] {
      return ids, errors + stdio + http;
    }
    var scenarios := CompareScenarios(suite, m, observed);
    errors := errors + stdio + http + scenarios;
  }

  method ReadFull(suite: Suite, report: Report) returns (ids: Ids, errors: seq<Problem>)
    requires !IsCompact(report)
    ensures ids == IdsOf(report)
    ensures errors == [] <==>
            FullOk(report) && (forall m :: RunsCatalog(suite, report, m)) && Covers(suite, ids)
  {
    var table, filing := FileCases(report.cases);
    var shipping, legacy, modern: seq<Problem>;
    ids, shipping := ReadMode(suite, report, table, map[], Shipping);
    ids, legacy := ReadMode(suite, report, table, ids, Legacy);
    ids, modern := ReadMode(suite, report, table, ids, Modern);
    AllModesRead(suite, report, table);
    errors := filing + shipping + legacy + modern;
  }

  lemma SlotIdentity(table: map<(Mode, string), Case>, id: Identity)
    ensures id in FullIds(table) <==>
            exists c :: c in SlotChecks(table, id.mode, id.transport) &&
                        EntryOf(id.mode, id.transport, c).Some? && EntryOf(id.mode, id.transport, c).value.0 == id
  {
    var checks := SlotChecks(table, id.mode, id.transport);
    if id in FullIds(table) {
      FullIdsMeans(table, id, Pass);
      var s :| s in FullIds(table)[id];
      FullIdsMeans(table, id, s);
      var i :| 0 <= i < |checks| && EntryOf(id.mode, id.transport, checks[i]) == Some((id, s));
      assert checks[i] in checks;
    }
    if exists c :: c in checks && EntryOf(id.mode, id.transport, c).Some? && EntryOf(id.mode, id.transport, c).value.0 == id {
      var c :| c in checks && EntryOf(id.mode, id.transport, c).Some? && EntryOf(id.mode, id.transport, c).value.0 == id;
      var i :| 0 <= i < |checks| && checks[i] == c;
      var s := EntryOf(id.mode, id.transport, c).value.1;
      assert EntryOf(id.mode, id.transport, checks[i]) == Some((id, s));
      FullIdsMeans(table, id, s);
    }
  }

  lemma SlotReaches(table: map<(Mode, string), Case>, m: Mode, t: Transport)
    requires SlotOk(table, m, t)
    ensures Reaches(FullIds(table), m, t)
  {
    var c := SlotChecks(table, m, t)[0];
    var id := EntryOf(m, t, c).value.0;
    SlotIdentity(table, id);
  }

  lemma ScenariosAgree(table: map<(Mode, string), Case>, m: Mode)
    ensures ObservedScenarios(FullIds(table), m) == SlotScenarios(m, OfficialHttp, SlotChecks(table, m, OfficialHttp))
  {
    var checks := SlotChecks(table, m, OfficialHttp);
    forall x | x in ObservedScenarios(FullIds(table), m)
      ensures x in SlotScenarios(m, OfficialHttp, checks)
    {
      var id :| id in FullIds(table) && CountsForScenario(id, m) && id.scenario == x;
      SlotIdentity(table, id);
    }
    forall x | x in SlotScenarios(m, OfficialHttp, checks)
      ensures x in ObservedScenarios(FullIds(table), m)
    {
      var c :| c in checks && EntryOf(m, OfficialHttp, c).Some? &&
               EntryOf(m, OfficialHttp, c).value.0.source != Supplemental && EntryOf(m, OfficialHttp, c).value.0.scenario == x;
      var id := EntryOf(m, OfficialHttp, c).value.0;
      SlotIdentity(table, id);
      assert CountsForScenario(id, m);
    }
  }

  lemma ModeReadMeans(suite: Suite, report: Report, table: map<(Mode, string), Case>, m: Mode)
    ensures ModeRead(suite, report, table, m) <==>
            && RunsCatalog(suite, report, m) && SlotOk(table, m, Stdio) && SlotOk(table, m, OfficialHttp)
            && ObservedScenarios(FullIds(table), m) == Catalog(suite, m)
    ensures ModeRead(suite, report, table, m) ==>
              Reaches(FullIds(table), m, Stdio) && Reaches(FullIds(table), m, OfficialHttp)
  {
    ScenariosAgree(table, m);
    if ModeRead(suite, report, table, m) {
      SlotReaches(table, m, Stdio);
      SlotReaches(table, m, OfficialHttp);
    }
  }

  lemma AllModesRead(suite: Suite, report: Report, table: map<(Mode, string), Case>)
    ensures ModeRead(suite, report, table, Shipping) && ModeRead(suite, report, table, Legacy) && ModeRead(suite, report, table, Modern)
       <==> && (forall m, t :: SlotOk(table, m, t))
            && (forall m :: RunsCatalog(suite, report, m))
            && Covers(suite, FullIds(table))
  {
    ModeReadMeans(suite, report, table, Shipping);
    ModeReadMeans(suite, report, table, Legacy);
    ModeReadMeans(suite, report, table, Modern);
    var ids := FullIds(table);
    if ModeRead(suite, report, table, Shipping) && ModeRead(suite, report, table, Legacy) && ModeRead(suite, report, table, Modern) {
      forall m, t
        ensures SlotOk(table, m, t) && Reaches(ids, m, t)
      {
        assert m == Shipping || m == Legacy || m == Modern;
        assert t == Stdio || t == OfficialHttp;
      }
      forall m
        ensures RunsCatalog(suite, report, m) && ObservedScenarios(ids, m) == Catalog(suite, m)
      {
        assert m == Shipping || m == Legacy || m == Modern;
      }
    }
  }

  // ----- The gate and the compact baseline -----

  method SortIdentities(s: set<Identity>) returns (r: seq<Identity>)
    ensures r == SortedIds(s)
  {
    IdKeyIsInjective();
    r := SortSet(IdKey, s);
    ListingIsUnique(IdKey, s, r, SortedIds(s));
  }

  function ShippingFails(ids: Ids): set<Identity> {
    set id | id in FailIds(ids) && id.mode == Shipping
  }

  method ShippingErrors(failing: seq<Identity>) returns (errors: seq<Problem>)
    ensures errors == [] <==> failing == []
  {
    errors := seq(|failing|, i requires 0 <= i < |failing| => ShippingFailure(failing[i].checkId));
  }

  lemma ShippingCleanMeans(ids: Ids)
    ensures ShippingClean(ids) <==> SortedIds(ShippingFails(ids)) == []
  {
    IdKeyIsInjective();
    EmptyListing(IdKey, ShippingFails(ids));
    if ShippingFails(ids) == {} {
      forall id | id in FailIds(ids) ensures id.mode != Shipping { assert id !in ShippingFails(ids); }
    }
  }

  lemma FailureOutcome(base: Ids, cand: Ids, id: Identity)
    requires id in cand
    ensures id in NewFailures(base, cand) <==> Failing in cand[id] && Failing !in At(base, id)
    ensures id in KnownFailures(base, cand) <==> Failing in cand[id] && Failing in At(base, id)
    ensures id in ShippingFails(cand) <==> Failing in cand[id] && id.mode == Shipping
  {}

  // The candidate's failures, in order: new or known, and those on the shipping protocol.
  method SortFailures(base: Ids, cand: Ids) returns (introduced: seq<Identity>, known: seq<Identity>, shipping: seq<Identity>)
    ensures introduced == SortedIds(NewFailures(base, cand))
    ensures known == SortedIds(KnownFailures(base, cand))
    ensures shipping == SortedIds(ShippingFails(cand))
  {
    var order := SortIdentities(cand.Keys);
    introduced, known, shipping := [], [], [];
    for i := 0 to |order|
      invariant introduced == Keep(order[..i], NewFailures(base, cand))
      invariant known == Keep(order[..i], KnownFailures(base, cand))
      invariant shipping == Keep(order[..i], ShippingFails(cand))
    {
      var id := order[i];
      KeepStep(order, i, NewFailures(base, cand));
      KeepStep(order, i, KnownFailures(base, cand));
      KeepStep(order, i, ShippingFails(cand));
      assert id in cand;
      FailureOutcome(base, cand, id);
      if Failing in cand[id] {
        if id.mode == Shipping {
          shipping := shipping + [id];
        }
        if Failing in At(base, id) {
          known := known + [id];
        } else {
          introduced := introduced + [id];
        }
      }
    }
    assert order[..|order|] == order;
    IdKeyIsInjective();
    KeepIsSorted(IdKey, cand.Keys, NewFailures(base, cand));
    KeepIsSorted(IdKey, cand.Keys, KnownFailures(base, cand));
    KeepIsSorted(IdKey, cand.Keys, ShippingFails(cand));
  }

  lemma RecordedOutcome(base: Ids, cand: Ids, id: Identity)
    requires id in base
    ensures var was, now := base[id], At(cand, id);
            && (id in MissingChecks(base, cand) <==>
                (Pass in was && Pass !in now) || (Failing in was && Failing !in now && Pass !in now))
            && (id in FixedChecks(base, cand) <==> Failing in was && Failing !in now && Pass in now)
            && (id in ShippingFails(base) <==> Failing in was && id.mode == Shipping)
  {}

  // The baseline's recorded checks, in order: missing or fixed, and shipping failures.
  method SortRecorded(base: Ids, cand: Ids) returns (missing: seq<Identity>, fixed: seq<Identity>, shipping: seq<Identity>)
    ensures missing == SortedIds(MissingChecks(base, cand))
    ensures fixed == SortedIds(FixedChecks(base, cand))
    ensures shipping == SortedIds(ShippingFails(base))
  {
    var order := SortIdentities(base.Keys);
    missing, fixed, shipping := [], [], [];
    for i := 0 to |order|
      invariant missing == Keep(order[..i], MissingChecks(base, cand))
      invariant fixed == Keep(order[..i], FixedChecks(base, cand))
      invariant shipping == Keep(order[..i], ShippingFails(base))
    {
      var id := order[i];
      KeepStep(order, i, MissingChecks(base, cand));
      KeepStep(order, i, FixedChecks(base, cand));
      KeepStep(order, i, ShippingFails(base));
      assert id in base;
      RecordedOutcome(base, cand, id);
      var was, now := base[id], At(cand, id);
      if id.mode == Shipping && Failing in was {
        shipping := shipping + [id];
      }
      if Pass in was && Pass !in now {
        missing := missing + [id];
      } else if Failing in was && Failing !in now && Pass !in now {
        missing := missing + [id];
      } else if Failing in was && Failing !in now {
        fixed := fixed + [id];
      }
    }
    assert order[..|order|] == order;
    IdKeyIsInjective();
    KeepIsSorted(IdKey, base.Keys, MissingChecks(base, cand));
    KeepIsSorted(IdKey, base.Keys, FixedChecks(base, cand));
    KeepIsSorted(IdKey, base.Keys, ShippingFails(base));
  }

  method EvaluateGate(suite: Suite, cand: Report, base: Report) returns (v: Verdict, errors: seq<Problem>)
    ensures JudgedBy(suite, cand, base, v)
    ensures v == Evaluate(suite, cand, base)
    ensures v.success <==> errors == [] && v.newFailures == [] && v.missingChecks == []
  {
    var b, baseErrors := ReadReport(suite, base);
    var c, candErrors := ReadReport(suite, cand);
    errors := baseErrors + candErrors;
    if !base.automaticAuth.Bool? || !cand.automaticAuth.Bool? {
      errors := errors + [NoPolicy];
    } else if base.automaticAuth != cand.automaticAuth {
      errors := errors + [DifferentPolicies];
    }
    var introduced, known, candShipping := SortFailures(b, c);
    var missing, fixed, baseShipping := SortRecorded(b, c);
    ShippingCleanMeans(b);
    ShippingCleanMeans(c);
    var candProblems := ShippingErrors(candShipping);
    var baseProblems := ShippingErrors(baseShipping);
    errors := errors + candProblems + baseProblems;
    IdKeyIsInjective();
    EmptyListing(IdKey, NewFailures(b, c));
    EmptyListing(IdKey, MissingChecks(b, c));
    v := Verdict(errors == [] && introduced == [] && missing == [], introduced, missing, known, fixed);
    VerdictMeans(suite, cand, base);
  }

  method CompactBaseline(suite: Suite, report: Report) returns (r: Option<Report>, errors: seq<Problem>)
    ensures r.Some? <==> Acceptable(suite, report) && report.automaticAuth.Bool? && NoShippingFailure(report)
    ensures r.Some? ==> StandsFor(suite, r.value, report)
    ensures r == Compact(suite, report)
    ensures errors == [] <==> r.Some?
  {
    BaselineExistsIff(suite, report);
    var ids;
    ids, errors := ReadReport(suite, report);
    if !report.automaticAuth.Bool? {
      errors := errors + [NoPolicy];
    }
    if exists id :: id in ids && id.mode == Shipping && Failing in ids[id] {
      errors := errors + [ShippingFailure("")];
    }
    if errors != [] {
      return None, errors;
    }
    var passing := SortIdentities(PassIds(ids));
    var failing := SortIdentities(FailIds(ids));
    r := Some(CompactForm(suite, report, passing, failing));
  }
}
