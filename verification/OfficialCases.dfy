// Turning the results of the upstream conformance scenarios into one case of a report.
module OfficialCases {
  import opened Prelude
  import opened Text
  import opened ConformanceReport

  // One entry of checks.json; `None` is a value Python treats as false.
  datatype RawCheck = NotAnObject | RawCheck(id: Option<string>, name: Option<string>, status: Option<string>)

  datatype OfficialCheck = OfficialCheck(checkId: string, name: string, status: string)

  datatype ScenarioResult = ScenarioResult(scenario: string, success: bool, checks: seq<OfficialCheck>, adapterSuccess: bool)

  datatype CheckResult = CheckResult(
    name: string,
    success: bool,
    status: Status,
    source: Source,
    scenario: Option<string>,
    checkId: Option<string>)

  // Python's `str.upper`.
  type Upper = string -> string

  function LoadCheck(upper: Upper, raw: RawCheck, index: nat): Option<OfficialCheck> {
    if raw.NotAnObject? then None
    else
      var checkId := if raw.id.Some? then raw.id.value else "unnamed-" + NatText(index);
      var status := upper(if raw.status.Some? then raw.status.value else "FAILURE");
      if status == "INFO" then None
      else Some(OfficialCheck(checkId, if raw.name.Some? then raw.name.value else checkId, status))
  }

  function LoadAll(upper: Upper, decoded: seq<RawCheck>): seq<OfficialCheck> {
    if decoded == [] then []
    else
      var n := |decoded| - 1;
      LoadAll(upper, decoded[..n]) + match LoadCheck(upper, decoded[n], n + 1) case Some(c) => [c] case None => []
  }

  // `decoded` is the list in the single checks.json, if there is one.
  method LoadChecks(upper: Upper, decoded: Option<seq<RawCheck>>) returns (checks: seq<OfficialCheck>)
    ensures forall c :: c in checks <==> decoded.Some? && IsLoaded(upper, decoded.value, c)
    ensures checks == if decoded.Some? then LoadAll(upper, decoded.value) else []
    ensures forall c :: c in checks ==> c.status != "INFO"
  {
    checks := [];
    if decoded.None? {
      return;
    }
    var raws := decoded.value;
    for i := 0 to |raws|
      invariant checks == LoadAll(upper, raws[..i])
      invariant forall c :: c in checks ==> c.status != "INFO"
    {
      assert raws[..i + 1][..i] == raws[..i];
      match LoadCheck(upper, raws[i], i + 1) {
        case Some(c) => checks := checks + [c];
        case None =>
      }
    }
    assert raws[..|raws|] == raws;
    forall c
      ensures c in checks <==> IsLoaded(upper, raws, c)
    {
      LoadedChecks(upper, raws, c);
    }
  }

  // The entry is an object that is more than information, and `c` is what it says: without an id it
  // goes by its place, without a name by its id, and without a status it failed.
  predicate SaysCheck(upper: Upper, raw: RawCheck, place: nat, c: OfficialCheck) {
    && raw.RawCheck?
    && c.checkId == (match raw.id case Some(id) => id case None => "unnamed-" + NatText(place))
    && c.name == (match raw.name case Some(name) => name case None => c.checkId)
    && c.status == upper(match raw.status case Some(status) => status case None => "FAILURE")
    && c.status != "INFO"
  }

  predicate IsLoaded(upper: Upper, raws: seq<RawCheck>, c: OfficialCheck) {
    exists i :: 0 <= i < |raws| && SaysCheck(upper, raws[i], i + 1, c)
  }

  lemma LoadCheckMeans(upper: Upper, raw: RawCheck, place: nat, c: OfficialCheck)
    ensures LoadCheck(upper, raw, place) == Some(c) <==> SaysCheck(upper, raw, place, c)
  {}

  lemma LoadedGrows(upper: Upper, front: seq<RawCheck>, last: RawCheck, c: OfficialCheck)
    ensures IsLoaded(upper, front + [last], c) <==> IsLoaded(upper, front, c) || SaysCheck(upper, last, |front| + 1, c)
  {
    var raws, n := front + [last], |front|;
    assert raws[n] == last && forall i :: 0 <= i < n ==> raws[i] == front[i];
    if IsLoaded(upper, front, c) {
      var i :| 0 <= i < n && SaysCheck(upper, front[i], i + 1, c);
      assert SaysCheck(upper, raws[i], i + 1, c);
    }
    if SaysCheck(upper, last, n + 1, c) {
      assert SaysCheck(upper, raws[n], n + 1, c);
    }
  }

  lemma {:induction false} LoadedChecks(upper: Upper, raws: seq<RawCheck>, c: OfficialCheck)
    ensures c in LoadAll(upper, raws) <==> IsLoaded(upper, raws, c)
    decreases |raws|
  {
    if raws != [] {
      var front, last := raws[..|raws| - 1], raws[|raws| - 1];
      assert raws == front + [last];
      LoadedChecks(upper, front, c);
      LoadedGrows(upper, front, last, c);
      LoadCheckMeans(upper, last, |raws|, c);
    }
  }

  predicate Failed(status: string) {
    status == "FAILURE" || status == "WARNING"
  }

  function ScenarioOutcome(scenario: string, returncode: int, checks: seq<OfficialCheck>, adapterSuccess: bool): ScenarioResult {
    ScenarioResult(
      scenario,
      returncode == 0 && checks != [] && adapterSuccess && !exists c :: c in checks && Failed(c.status),
      checks,
      adapterSuccess)
  }

  // ----- Building the case -----

  predicate StatusSucceeds(status: string) {
    status == "SUCCESS" || status == "SKIPPED" || status == "INFO"
  }

  function CountName(checks: seq<OfficialCheck>, name: string): nat {
    if checks == [] then 0 else CountName(checks[..|checks| - 1], name) + if checks[|checks| - 1].name == name then 1 else 0
  }

  // A repeated name is numbered by its position.
  function ResultName(r: ScenarioResult, i: nat): string
    requires i < |r.checks|
  {
    "official/" + r.scenario + "/" + r.checks[i].name +
    if CountName(r.checks, r.checks[i].name) > 1 then "#" + NatText(i + 1) else ""
  }

  function StatusFor(status: string): Status {
    if status == "SUCCESS" then Pass
    else if status == "SKIPPED" || status == "INFO" then Skip
    else Failing
  }

  function AssertionResult(scenario: string, name: string, c: OfficialCheck): CheckResult {
    CheckResult(name, StatusSucceeds(c.status), StatusFor(c.status), Official, Some(scenario), Some(c.checkId))
  }

  function AdapterResult(r: ScenarioResult): CheckResult {
    CheckResult("harness/" + r.scenario + "/codex-adapter", r.adapterSuccess, if r.adapterSuccess then Pass else Failing,
                Harness, Some(r.scenario), None)
  }

  function RunnerResult(r: ScenarioResult): CheckResult {
    CheckResult("harness/" + r.scenario + "/official-runner", false, Failing, Harness, Some(r.scenario), None)
  }

  function OfficialResults(r: ScenarioResult): seq<CheckResult> {
    seq(|r.checks|, i requires 0 <= i < |r.checks| => AssertionResult(r.scenario, ResultName(r, i), r.checks[i]))
  }

  // The runner failed without any assertion or the adapter saying so.
  predicate UnexplainedFailure(r: ScenarioResult) {
    r.adapterSuccess && !r.success && !exists c :: c in r.checks && Failed(c.status)
  }

  function ScenarioChecks(r: ScenarioResult): seq<CheckResult> {
    OfficialResults(r) + [AdapterResult(r)] + if UnexplainedFailure(r) then [RunnerResult(r)] else []
  }

  function AllChecks(results: seq<ScenarioResult>): seq<CheckResult> {
    if results == [] then [] else AllChecks(results[..|results| - 1]) + ScenarioChecks(results[|results| - 1])
  }

  const NO_SCENARIOS := CheckResult("harness/official-scenario-selection", false, Failing, Harness, None, None)

  function CaseChecks(results: seq<ScenarioResult>): seq<CheckResult> {
    if results == [] then [NO_SCENARIOS] else AllChecks(results)
  }

  predicate AllSucceed(checks: seq<CheckResult>) {
    forall c :: c in checks ==> c.success
  }

  method CountNames(checks: seq<OfficialCheck>) returns (counts: map<string, nat>)
    ensures forall c :: c in checks ==> c.name in counts && counts[c.name] == CountName(checks, c.name)
  {
    counts := map[];
    for j := 0 to |checks|
      invariant forall name :: (if name in counts then counts[name] else 0) == CountName(checks[..j], name)
      invariant forall k :: 0 <= k < j ==> checks[k].name in counts
    {
      var name := checks[j].name;
      assert checks[..j + 1][..j] == checks[..j];
      counts := counts[name := (if name in counts then counts[name] else 0) + 1];
    }
    assert checks[..|checks|] == checks;
  }

  method BuildScenario(r: ScenarioResult) returns (own: seq<CheckResult>)
    ensures own == ScenarioChecks(r)
  {
    var counts := CountNames(r.checks);
    own := [];
    for j := 0 to |r.checks|
      invariant own == OfficialResults(r)[..j]
    {
      var c := r.checks[j];
      assert c in r.checks;
      var name := "official/" + r.scenario + "/" + c.name + if counts[c.name] > 1 then "#" + NatText(j + 1) else "";
      own := own + [AssertionResult(r.scenario, name, c)];
    }
    assert OfficialResults(r)[..|r.checks|] == OfficialResults(r);
    own := own + [AdapterResult(r)];
    if UnexplainedFailure(r) {
      own := own + [RunnerResult(r)];
    }
  }

  method BuildOfficialCase(results: seq<ScenarioResult>) returns (checks: seq<CheckResult>, success: bool)
    ensures checks == CaseChecks(results)
    ensures success <==> checks != [] && AllSucceed(checks)
  {
    checks := [];
    for i := 0 to |results|
      invariant checks == AllChecks(results[..i])
    {
      assert results[..i + 1][..i] == results[..i];
      var own := BuildScenario(results[i]);
      checks := checks + own;
    }
    assert results[..|results|] == results;
    if results == [] {
      checks := checks + [NO_SCENARIOS];
    }
    success := checks != [] && forall c :: c in checks ==> c.success;
  }

  // ----- No failure is masked -----

  predicate ScenarioPasses(r: ScenarioResult) {
    r.adapterSuccess && r.success && forall c :: c in r.checks ==> StatusSucceeds(c.status)
  }

  lemma ScenarioChecksSucceedIff(r: ScenarioResult)
    ensures AllSucceed(ScenarioChecks(r)) <==> ScenarioPasses(r)
  {
    var own, all := OfficialResults(r), ScenarioChecks(r);
    var adapter := all[|own|];
    assert adapter in all && adapter.success == r.adapterSuccess;
    assert forall i :: 0 <= i < |own| ==> all[i] == own[i];
    assert UnexplainedFailure(r) ==> !all[|all| - 1].success && all[|all| - 1] in all;
    if AllSucceed(all) {
      forall c | c in r.checks
        ensures StatusSucceeds(c.status)
      {
        var i :| 0 <= i < |r.checks| && r.checks[i] == c;
        assert all[i] in all && all[i].success == StatusSucceeds(c.status);
      }
    }
    if ScenarioPasses(r) {
      forall c | c in all
        ensures c.success
      {
        var i :| 0 <= i < |all| && all[i] == c;
        if i < |own| {
          assert r.checks[i] in r.checks;
        }
      }
    }
  }

  lemma AllSucceedConcat(a: seq<CheckResult>, b: seq<CheckResult>)
    ensures AllSucceed(a + b) <==> AllSucceed(a) && AllSucceed(b)
  {
    assert forall c :: c in a + b <==> c in a || c in b;
  }

  lemma AllChecksLast(front: seq<ScenarioResult>, last: ScenarioResult)
    ensures AllChecks(front + [last]) == AllChecks(front) + ScenarioChecks(last)
  {
    assert (front + [last])[..|front|] == front;
  }

  lemma {:induction false} AllChecksSucceedIff(results: seq<ScenarioResult>)
    ensures AllSucceed(AllChecks(results)) <==> forall r :: r in results ==> ScenarioPasses(r)
    ensures results != [] ==> AllChecks(results) != []
    decreases |results|
  {
    if results != [] {
      var front, last := results[..|results| - 1], results[|results| - 1];
      assert results == front + [last];
      AllChecksSucceedIff(front);
      AllChecksLast(front, last);
      ScenarioChecksSucceedIff(last);
      AllSucceedConcat(AllChecks(front), ScenarioChecks(last));
    }
  }

  // Whatever the results claim, a case succeeds only if there is one and each of them succeeded.
  lemma NoMaskedFailure(results: seq<ScenarioResult>)
    ensures CaseChecks(results) != []
    ensures AllSucceed(CaseChecks(results)) <==> results != [] && forall r :: r in results ==> ScenarioPasses(r)
  {
    AllChecksSucceedIff(results);
    if results == [] {
      assert NO_SCENARIOS in CaseChecks(results);
    }
  }

  predicate KnownStatus(status: string) {
    StatusSucceeds(status) || Failed(status)
  }

  // What a scenario run reports about itself.
  ghost predicate FromRun(r: ScenarioResult) {
    exists returncode :: r == ScenarioOutcome(r.scenario, returncode, r.checks, r.adapterSuccess)
  }

  // For results of actual runs, success is exactly: some scenario ran, all succeeded, and no
  // check carries a status outside the five the suite defines.
  lemma CaseSucceedsIff(results: seq<ScenarioResult>)
    requires forall r :: r in results ==> FromRun(r)
    ensures AllSucceed(CaseChecks(results)) <==>
            results != [] && forall r :: r in results ==> r.success && forall c :: c in r.checks ==> KnownStatus(c.status)
  {
    NoMaskedFailure(results);
    forall r | r in results
      ensures ScenarioPasses(r) <==> r.success && forall c :: c in r.checks ==> KnownStatus(c.status)
    {
      RunPassesIff(r);
    }
  }

  lemma RunPassesIff(r: ScenarioResult)
    requires FromRun(r)
    ensures ScenarioPasses(r) <==> r.success && forall c :: c in r.checks ==> KnownStatus(c.status)
  {
    var returncode :| r == ScenarioOutcome(r.scenario, returncode, r.checks, r.adapterSuccess);
  }

  datatype Ran = Ran(scenario: string, returncode: int, checks: seq<OfficialCheck>, adapterSuccess: bool)

  function Outcomes(runs: seq<Ran>): seq<ScenarioResult> {
    seq(|runs|, i requires 0 <= i < |runs| =>
      ScenarioOutcome(runs[i].scenario, runs[i].returncode, runs[i].checks, runs[i].adapterSuccess))
  }

  predicate CleanRun(run: Ran) {
    && run.returncode == 0 && run.checks != [] && run.adapterSuccess
    && forall c :: c in run.checks ==> c.status == "SUCCESS" || c.status == "SKIPPED" || c.status == "INFO"
  }

  // From the runs themselves: a case succeeds exactly when there is one and each exited cleanly,
  // made checks, kept its adapter and had no check but successes, skips and information.
  lemma CaseOfRunsSucceedsIff(runs: seq<Ran>)
    ensures AllSucceed(CaseChecks(Outcomes(runs))) <==> runs != [] && forall i :: 0 <= i < |runs| ==> CleanRun(runs[i])
  {
    var results := Outcomes(runs);
    NoMaskedFailure(results);
    forall i | 0 <= i < |runs|
      ensures ScenarioPasses(results[i]) <==> CleanRun(runs[i])
    {
      StatusesDiffer();
    }
    assert forall i :: 0 <= i < |runs| ==> results[i] in results;
  }

  lemma StatusesDiffer()
    ensures forall s :: StatusSucceeds(s) ==> !Failed(s)
  {
    assert "SUCCESS"[0] == 'S' && "SKIPPED"[0] == 'S' && "INFO"[0] == 'I' && "FAILURE"[0] == 'F' && "WARNING"[0] == 'W';
  }

  // A status the suite does not define fails the case although its scenario succeeded.
  lemma UnknownStatusFailsTheCase()
    ensures var r := ScenarioOutcome("s", 0, [OfficialCheck("id", "n", "ERROR")], true);
            r.success && !AllSucceed(CaseChecks([r]))
  {
    var c := OfficialCheck("id", "n", "ERROR");
    var r := ScenarioOutcome("s", 0, [c], true);
    assert "ERROR" != "SUCCESS" && "ERROR" != "SKIPPED" && "ERROR" != "FAILURE" && "ERROR" != "WARNING" && "ERROR" != "INFO" by {
      assert |"ERROR"| == 5 && |"SUCCESS"| == 7 && |"SKIPPED"| == 7 && |"FAILURE"| == 7 && |"WARNING"| == 7 && |"INFO"| == 4;
    }
    assert c in r.checks;
    assert r in [r];
    NoMaskedFailure([r]);
  }

  // ----- Repeated observations -----

  lemma {:induction false} NatTextIsDigits(n: nat)
    ensures AllDigits(NatText(n))
  {
    if n >= 10 {
      NatTextIsDigits(n / 10);
    }
  }

  // However often a scenario observes a check, the regression gate sees one name.
  lemma RepeatedObservationsShareAName(r: ScenarioResult, i: nat)
    requires i < |r.checks| && CountName(r.checks, r.checks[i].name) > 1
    ensures StableName(ResultName(r, i)) == "official/" + r.scenario + "/" + r.checks[i].name
  {
    var stem := "official/" + r.scenario + "/" + r.checks[i].name;
    NatTextIsDigits(i + 1);
    NumberedNameIsStable(stem, NatText(i + 1));
    assert ResultName(r, i) == (stem + "#") + NatText(i + 1);
  }
}
