// A built official case as the regression gate reads it.
module OfficialReports {
  import opened Prelude
  import opened Json
  import opened Text
  import opened FixtureServer
  import opened ConformanceReport
  import opened OfficialCases

  // ----- The case in the report -----

  function StatusName(s: Status): string {
    match s case Pass => "PASS" case Failing => "FAIL" case Skip => "SKIP"
  }

  function OptionalJson(v: Option<string>): Json {
    if v.Some? then Str(v.value) else Null
  }

  // `asdict` of a check, with the keys the gate looks at.
  function Written(c: CheckResult): Check {
    Check(Str(SourceName(c.source)), OptionalJson(c.scenario), Str(c.name), OptionalJson(c.checkId),
          Str(StatusName(c.status)), Bool(c.success))
  }

  function AllWritten(checks: seq<CheckResult>): seq<Check> {
    seq(|checks|, i requires 0 <= i < |checks| => Written(checks[i]))
  }

  // ----- One check -----

  // The status and the success of a check agree, and its texts are not empty.
  predicate IsSound(c: CheckResult) {
    && (c.success <==> c.status != Failing)
    && c.name != "" && c.scenario != Some("") && c.checkId != Some("")
  }

  function IdentityFor(mode: Mode, c: CheckResult): Identity {
    Identity(mode, OfficialHttp, c.source,
             if c.scenario.Some? then c.scenario.value else "",
             if c.checkId.Some? then c.checkId.value else StableName(c.name))
  }

  lemma StatusReadsBack(s: Status)
    ensures StatusOf(Str(StatusName(s))) == Some(s)
  {
    assert "PASS"[0] == 'P' && "FAIL"[0] == 'F' && "SKIP"[0] == 'S';
  }

  lemma WrittenReadsBack(mode: Mode, c: CheckResult)
    requires IsSound(c)
    ensures EntryOf(mode, OfficialHttp, Written(c)) == Some((IdentityFor(mode, c), c.status))
  {
    NamesReadBack(mode, OfficialHttp, c.source);
    StatusReadsBack(c.status);
  }

  // ----- A list of checks -----

  ghost predicate Recorded(mode: Mode, checks: seq<CheckResult>, id: Identity, s: Status) {
    exists c :: c in checks && IdentityFor(mode, c) == id && c.status == s
  }

  lemma WrittenAt(mode: Mode, checks: seq<CheckResult>, i: nat)
    requires i < |checks| && forall c :: c in checks ==> IsSound(c)
    ensures EntryOf(mode, OfficialHttp, AllWritten(checks)[i]) == Some((IdentityFor(mode, checks[i]), checks[i].status))
  {
    assert checks[i] in checks;
    WrittenReadsBack(mode, checks[i]);
  }

  lemma WrittenChecksAreOk(mode: Mode, checks: seq<CheckResult>)
    requires forall c :: c in checks ==> IsSound(c)
    ensures ChecksOk(mode, OfficialHttp, AllWritten(checks))
  {
    forall w | w in AllWritten(checks)
      ensures EntryOf(mode, OfficialHttp, w).Some?
    {
      var i :| 0 <= i < |checks| && AllWritten(checks)[i] == w;
      WrittenAt(mode, checks, i);
    }
  }

  lemma WrittenChecksSay(mode: Mode, checks: seq<CheckResult>, id: Identity, s: Status)
    requires forall c :: c in checks ==> IsSound(c)
    ensures SaidIn(mode, OfficialHttp, AllWritten(checks), id, s) <==> Recorded(mode, checks, id, s)
  {
    var written := AllWritten(checks);
    if SaidIn(mode, OfficialHttp, written, id, s) {
      var i :| 0 <= i < |written| && EntryOf(mode, OfficialHttp, written[i]) == Some((id, s));
      WrittenAt(mode, checks, i);
      assert checks[i] in checks;
    }
    if Recorded(mode, checks, id, s) {
      var c :| c in checks && IdentityFor(mode, c) == id && c.status == s;
      var i :| 0 <= i < |checks| && checks[i] == c;
      WrittenAt(mode, checks, i);
      assert EntryOf(mode, OfficialHttp, written[i]) == Some((id, s));
    }
  }

  // What the gate collects from the checks of a case.
  function IdsIn(mode: Mode, checks: seq<CheckResult>): Ids {
    AddChecks(map[], mode, OfficialHttp, AllWritten(checks))
  }

  lemma WrittenChecksAreRead(mode: Mode, checks: seq<CheckResult>, id: Identity, s: Status)
    requires forall c :: c in checks ==> IsSound(c)
    ensures s in At(IdsIn(mode, checks), id) <==> Recorded(mode, checks, id, s)
  {
    AddChecksMeans(map[], mode, OfficialHttp, AllWritten(checks), id, s);
    WrittenChecksSay(mode, checks, id, s);
  }

  lemma RecordedJoins(mode: Mode, a: seq<CheckResult>, b: seq<CheckResult>, id: Identity, s: Status)
    ensures Recorded(mode, a + b, id, s) <==> Recorded(mode, a, id, s) || Recorded(mode, b, id, s)
  {
    assert forall c :: c in a + b <==> c in a || c in b;
  }

  lemma RecordedOne(mode: Mode, c: CheckResult, id: Identity, s: Status)
    ensures Recorded(mode, [c], id, s) <==> IdentityFor(mode, c) == id && c.status == s
  {
    assert c in [c];
  }

  // Nothing failed exactly when no failure is recorded.
  lemma SuccessMeansNoFailure(mode: Mode, checks: seq<CheckResult>)
    requires forall c :: c in checks ==> IsSound(c)
    ensures AllSucceed(checks) <==> forall id :: !Recorded(mode, checks, id, Failing)
  {
    if !AllSucceed(checks) {
      var c :| c in checks && !c.success;
      assert Recorded(mode, checks, IdentityFor(mode, c), Failing);
    }
  }

  // ----- The built case -----

  // Scenario names and check ids, which the loader never leaves empty.
  predicate IsNamed(r: ScenarioResult) {
    r.scenario != "" && forall c :: c in r.checks ==> c.checkId != ""
  }

  lemma {:induction false} LoadedChecksAreNamed(upper: Upper, raws: seq<RawCheck>)
    requires forall raw :: raw in raws && raw.RawCheck? && raw.id.Some? ==> raw.id.value != ""
    ensures forall c :: c in LoadAll(upper, raws) ==> c.checkId != ""
    decreases |raws|
  {
    if raws != [] {
      LoadedChecksAreNamed(upper, raws[..|raws| - 1]);
      assert raws[|raws| - 1] in raws;
    }
  }

  lemma ScenarioChecksAreSound(r: ScenarioResult, c: CheckResult)
    requires IsNamed(r) && c in ScenarioChecks(r)
    ensures IsSound(c)
  {
    if c in OfficialResults(r) {
      var i :| 0 <= i < |r.checks| && c == AssertionResult(r.scenario, ResultName(r, i), r.checks[i]);
      assert r.checks[i] in r.checks;
    }
  }

  lemma {:induction false} AllChecksAre(results: seq<ScenarioResult>, c: CheckResult)
    ensures c in AllChecks(results) <==> exists r :: r in results && c in ScenarioChecks(r)
    decreases |results|
  {
    if results != [] {
      var front, last := results[..|results| - 1], results[|results| - 1];
      assert results == front + [last];
      AllChecksLast(front, last);
      AllChecksAre(front, c);
    }
  }

  // What a run of one scenario says, in the suite's own terms.
  ghost predicate ScenarioSays(mode: Mode, r: ScenarioResult, id: Identity, s: Status) {
    var harness := Identity(mode, OfficialHttp, Harness, r.scenario, id.checkId);
    || (exists c :: c in r.checks && id == Identity(mode, OfficialHttp, Official, r.scenario, c.checkId)
                    && s == if c.status == "SUCCESS" then Pass
                            else if c.status == "SKIPPED" || c.status == "INFO" then Skip
                            else Failing)
    || (id == harness && id.checkId == "harness/" + r.scenario + "/codex-adapter"
        && s == if r.adapterSuccess then Pass else Failing)
    || (id == harness && id.checkId == "harness/" + r.scenario + "/official-runner"
        && s == Failing && r.adapterSuccess && !r.success
        && forall c :: c in r.checks ==> c.status != "FAILURE" && c.status != "WARNING")
  }

  // A name that does not end in a digit carries no number.
  lemma UnnumberedNameIsStable(name: string)
    requires name != "" && !('0' <= name[|name| - 1] <= '9')
    ensures StableName(name) == name
  {
    if LastHash(name).Some? {
      LastHashIsInside(name);
      var digits := name[LastHash(name).value + 1..];
      if digits != [] {
        assert digits[|digits| - 1] == name[|name| - 1] && digits[|digits| - 1] in digits;
      }
    }
  }

  lemma {:induction false} LastHashIsInside(s: string)
    requires LastHash(s).Some?
    ensures LastHash(s).value < |s|
  {
    if s[|s| - 1] != '#' {
      LastHashIsInside(s[..|s| - 1]);
    }
  }

  lemma HarnessNamesAreStable(scenario: string)
    ensures var adapter := "harness/" + scenario + "/codex-adapter"; StableName(adapter) == adapter
    ensures var runner := "harness/" + scenario + "/official-runner"; StableName(runner) == runner
  {
    var adapter, runner := "harness/" + scenario + "/codex-adapter", "harness/" + scenario + "/official-runner";
    assert adapter[|adapter| - 1] == "/codex-adapter"[13] == 'r';
    assert runner[|runner| - 1] == "/official-runner"[15] == 'r';
    UnnumberedNameIsStable(adapter);
    UnnumberedNameIsStable(runner);
  }

  lemma AssertionsRecord(mode: Mode, r: ScenarioResult, id: Identity, s: Status)
    ensures Recorded(mode, OfficialResults(r), id, s) <==>
            exists c :: c in r.checks && id == Identity(mode, OfficialHttp, Official, r.scenario, c.checkId)
                        && s == StatusFor(c.status)
  {
    var own := OfficialResults(r);
    if Recorded(mode, own, id, s) {
      var c :| c in own && IdentityFor(mode, c) == id && c.status == s;
      var i :| 0 <= i < |own| && own[i] == c;
      assert r.checks[i] in r.checks;
    }
    if exists c :: c in r.checks && id == Identity(mode, OfficialHttp, Official, r.scenario, c.checkId) && s == StatusFor(c.status) {
      var c :| c in r.checks && id == Identity(mode, OfficialHttp, Official, r.scenario, c.checkId) && s == StatusFor(c.status);
      var i :| 0 <= i < |r.checks| && r.checks[i] == c;
      assert own[i] in own;
    }
  }

  lemma ScenarioRecords(mode: Mode, r: ScenarioResult, id: Identity, s: Status)
    ensures Recorded(mode, ScenarioChecks(r), id, s) <==> ScenarioSays(mode, r, id, s)
  {
    var own, rest := OfficialResults(r), if UnexplainedFailure(r) then [RunnerResult(r)] else [];
    RecordedJoins(mode, own + [AdapterResult(r)], rest, id, s);
    RecordedJoins(mode, own, [AdapterResult(r)], id, s);
    AssertionsRecord(mode, r, id, s);
    RecordedOne(mode, AdapterResult(r), id, s);
    RecordedOne(mode, RunnerResult(r), id, s);
    HarnessNamesAreStable(r.scenario);
  }

  lemma {:induction false} CaseRecords(mode: Mode, results: seq<ScenarioResult>, id: Identity, s: Status)
    ensures Recorded(mode, AllChecks(results), id, s) <==> exists r :: r in results && ScenarioSays(mode, r, id, s)
  {
    if Recorded(mode, AllChecks(results), id, s) {
      var c :| c in AllChecks(results) && IdentityFor(mode, c) == id && c.status == s;
      AllChecksAre(results, c);
      var r :| r in results && c in ScenarioChecks(r);
      ScenarioRecords(mode, r, id, s);
    }
    if exists r :: r in results && ScenarioSays(mode, r, id, s) {
      var r :| r in results && ScenarioSays(mode, r, id, s);
      ScenarioRecords(mode, r, id, s);
      var c :| c in ScenarioChecks(r) && IdentityFor(mode, c) == id && c.status == s;
      AllChecksAre(results, c);
    }
  }

  lemma CaseChecksAreSound(results: seq<ScenarioResult>)
    requires forall r :: r in results ==> IsNamed(r)
    ensures forall c :: c in CaseChecks(results) ==> IsSound(c)
  {
    forall c | c in CaseChecks(results)
      ensures IsSound(c)
    {
      if results != [] {
        AllChecksAre(results, c);
        var r :| r in results && c in ScenarioChecks(r);
        ScenarioChecksAreSound(r, c);
      }
    }
  }

  // The gate reads a built case without complaint, and finds exactly what the scenarios said.
  lemma BuiltCaseReadsBack(mode: Mode, results: seq<ScenarioResult>, id: Identity, s: Status)
    requires results != [] && forall r :: r in results ==> IsNamed(r)
    ensures ChecksOk(mode, OfficialHttp, AllWritten(CaseChecks(results)))
    ensures s in At(IdsIn(mode, CaseChecks(results)), id) <==> exists r :: r in results && ScenarioSays(mode, r, id, s)
  {
    CaseChecksAreSound(results);
    WrittenChecksAreOk(mode, CaseChecks(results));
    WrittenChecksAreRead(mode, CaseChecks(results), id, s);
    CaseRecords(mode, results, id, s);
  }

  // A case without scenarios is read too, as one failure.
  lemma EmptyCaseReadsBack(mode: Mode, id: Identity, s: Status)
    ensures ChecksOk(mode, OfficialHttp, AllWritten(CaseChecks([])))
    ensures s in At(IdsIn(mode, CaseChecks([])), id) <==>
            id == Identity(mode, OfficialHttp, Harness, "", "harness/official-scenario-selection") && s == Failing
  {
    var name := "harness/official-scenario-selection";
    assert name[|name| - 1] == 'n';
    UnnumberedNameIsStable(name);
    CaseChecksAreSound([]);
    WrittenChecksAreOk(mode, CaseChecks([]));
    WrittenChecksAreRead(mode, CaseChecks([]), id, s);
    RecordedOne(mode, NO_SCENARIOS, id, s);
  }

  // The case succeeds exactly when the gate finds no failure in it.
  lemma CaseSucceedsIffNothingFails(mode: Mode, results: seq<ScenarioResult>)
    requires forall r :: r in results ==> IsNamed(r)
    ensures AllSucceed(CaseChecks(results)) <==> forall id :: Failing !in At(IdsIn(mode, CaseChecks(results)), id)
  {
    CaseChecksAreSound(results);
    SuccessMeansNoFailure(mode, CaseChecks(results));
    FailuresAreRead(mode, CaseChecks(results));
  }

  lemma FailuresAreRead(mode: Mode, checks: seq<CheckResult>)
    requires forall c :: c in checks ==> IsSound(c)
    ensures (forall id :: Failing !in At(IdsIn(mode, checks), id)) <==> forall id :: !Recorded(mode, checks, id, Failing)
  {
    forall id
      ensures Failing in At(IdsIn(mode, checks), id) <==> Recorded(mode, checks, id, Failing)
    {
      WrittenChecksAreRead(mode, checks, id, Failing);
    }
  }
}
