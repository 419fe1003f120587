// The no-regressions gate between a baseline and a candidate report, and the compact form a
// baseline is stored in.
module RegressionGate {
  import opened Prelude
  import opened Json
  import opened FixtureServer
  import opened Ordering
  import opened ConformanceReport

  // ----- Order of identities -----

  function IdKey(id: Identity): seq<string> {
    [Version(id.mode), TransportName(id.transport), SourceName(id.source), id.scenario, id.checkId]
  }

  lemma IdKeyIsInjective()
    ensures Injective(IdKey)
  {
    forall x, y | IdKey(x) == IdKey(y)
      ensures x == y
    {
      NamesReadBack(x.mode, x.transport, x.source);
      NamesReadBack(y.mode, y.transport, y.source);
      assert IdKey(x)[0] == IdKey(y)[0] && IdKey(x)[1] == IdKey(y)[1] && IdKey(x)[2] == IdKey(y)[2];
      assert IdKey(x)[3] == IdKey(y)[3] && IdKey(x)[4] == IdKey(y)[4];
    }
  }

  ghost function SortedIds(s: set<Identity>): (r: seq<Identity>)
    ensures Lists(IdKey, s, r)
  {
    IdKeyIsInjective();
    Sorted(IdKey, s)
  }

  // ----- The gate -----

  function PassIds(ids: Ids): set<Identity> {
    set id | id in ids && Pass in ids[id]
  }

  function FailIds(ids: Ids): set<Identity> {
    set id | id in ids && Failing in ids[id]
  }

  function NewFailures(base: Ids, cand: Ids): set<Identity> {
    FailIds(cand) - FailIds(base)
  }

  function KnownFailures(base: Ids, cand: Ids): set<Identity> {
    FailIds(cand) * FailIds(base)
  }

  // A recorded pass that no longer passes, or a recorded failure that is no longer observed.
  function MissingChecks(base: Ids, cand: Ids): set<Identity> {
    (PassIds(base) - PassIds(cand)) + (FailIds(base) - FailIds(cand) - PassIds(cand))
  }

  function FixedChecks(base: Ids, cand: Ids): set<Identity> {
    (FailIds(base) - FailIds(cand)) * PassIds(cand)
  }

  predicate ShippingClean(ids: Ids) {
    forall id :: id in FailIds(ids) ==> id.mode != Shipping
  }

  datatype Verdict = Verdict(
    success: bool,
    newFailures: seq<Identity>,
    missingChecks: seq<Identity>,
    knownFailures: seq<Identity>,
    fixedChecks: seq<Identity>)

  predicate SamePolicy(a: Report, b: Report) {
    a.automaticAuth.Bool? && b.automaticAuth.Bool? && a.automaticAuth == b.automaticAuth
  }

  predicate NoWorse(base: Ids, cand: Ids) {
    NewFailures(base, cand) == {} && MissingChecks(base, cand) == {}
  }

  ghost predicate Passes(suite: Suite, cand: Report, base: Report) {
    && Valid(suite, base) && Valid(suite, cand)
    && SamePolicy(base, cand)
    && ShippingClean(IdsOf(base)) && ShippingClean(IdsOf(cand))
    && NoWorse(IdsOf(base), IdsOf(cand))
  }

  ghost function Evaluate(suite: Suite, cand: Report, base: Report): Verdict {
    var b, c := IdsOf(base), IdsOf(cand);
    Verdict(
      Passes(suite, cand, base),
      SortedIds(NewFailures(b, c)),
      SortedIds(MissingChecks(b, c)),
      SortedIds(KnownFailures(b, c)),
      SortedIds(FixedChecks(b, c)))
  }

  // ----- The gate is a preorder -----

  // What a baseline must be for anything to be accepted against it.
  ghost predicate Shippable(suite: Suite, r: Report) {
    Valid(suite, r) && r.automaticAuth.Bool? && ShippingClean(IdsOf(r))
  }

  lemma GateIsReflexive(suite: Suite, r: Report)
    ensures Passes(suite, r, r) <==> Shippable(suite, r)
  {}

  // No failure appears, no pass disappears, and nothing recorded goes unobserved.
  lemma NoWorseMeans(base: Ids, cand: Ids)
    ensures NoWorse(base, cand) <==>
            && FailIds(cand) <= FailIds(base)
            && PassIds(base) <= PassIds(cand)
            && FailIds(base) <= FailIds(cand) + PassIds(cand)
  {
    EmptyDifferences(FailIds(base), PassIds(base), FailIds(cand), PassIds(cand));
  }

  lemma EmptyDifferences<T>(fb: set<T>, pb: set<T>, fc: set<T>, pc: set<T>)
    ensures fc - fb == {} <==> fc <= fb
    ensures (pb - pc) + (fb - fc - pc) == {} <==> pb <= pc && fb <= fc + pc
  {
    if (pb - pc) + (fb - fc - pc) == {} {
      forall x | x in pb ensures x in pc { assert x !in (pb - pc) + (fb - fc - pc); }
      forall x | x in fb ensures x in fc + pc { assert x !in (pb - pc) + (fb - fc - pc); }
    }
    if fc - fb == {} {
      forall x | x in fc ensures x in fb { assert x !in fc - fb; }
    }
  }

  lemma GateIsTransitive(suite: Suite, a: Report, b: Report, c: Report)
    requires Passes(suite, b, a) && Passes(suite, c, b)
    ensures Passes(suite, c, a)
  {
    NoWorseMeans(IdsOf(a), IdsOf(b));
    NoWorseMeans(IdsOf(b), IdsOf(c));
    NoWorseMeans(IdsOf(a), IdsOf(c));
  }

  // Each report was accepted against the one before.
  ghost predicate AcceptedChain(suite: Suite, rs: seq<Report>) {
    forall i :: 0 <= i < |rs| - 1 ==> Passes(suite, rs[i + 1], rs[i])
  }

  // Along a chain of accepted baselines failures only disappear, passes only appear, and every
  // recorded pass or failure stays recorded.
  lemma AcceptedChainsOnlyImprove(suite: Suite, rs: seq<Report>)
    requires |rs| >= 2 && AcceptedChain(suite, rs)
    ensures var first, last := IdsOf(rs[0]), IdsOf(rs[|rs| - 1]);
            && FailIds(last) <= FailIds(first)
            && PassIds(first) <= PassIds(last)
            && PassIds(first) + FailIds(first) <= PassIds(last) + FailIds(last)
    ensures Passes(suite, rs[|rs| - 1], rs[0])
  {
    var n := |rs| - 1;
    forall i | 0 <= i < n
      ensures Succeeds(suite, rs[i], rs[i + 1])
    {
      assert Passes(suite, rs[i + 1], rs[i]);
    }
    assert Passes(suite, rs[n - 1 + 1], rs[n - 1]);
    MaintainedChainsOnlyImprove(suite, rs);
  }

  // ----- Compact baselines -----

  function RecordOf(id: Identity): Record {
    Record(Str(Version(id.mode)), Str(TransportName(id.transport)), Str(SourceName(id.source)), Str(id.scenario), Str(id.checkId))
  }

  function RecordsOf(ids: seq<Identity>): seq<Record> {
    seq(|ids|, i requires 0 <= i < |ids| => RecordOf(ids[i]))
  }

  function RequiredScenarios(report: Report): map<string, Json> {
    map[Version(Shipping) := Get(Selected(report), Version(Shipping)),
        Version(Legacy) := Get(Selected(report), Version(Legacy)),
        Version(Modern) := Get(Selected(report), Version(Modern))]
  }

  function CompactForm(suite: Suite, report: Report, passing: seq<Identity>, failing: seq<Identity>): Report {
    Report(
      Int(REPORT_SCHEMA_VERSION),
      Bool(true),
      Bool(true),
      Some(Metadata(Str(suite.repository), Str(suite.gitRef), Bool(true), Some(RequiredScenarios(report)))),
      report.automaticAuth,
      Str(COMPACT_KIND),
      Arr([Str(Version(Shipping)), Str(Version(Legacy)), Str(Version(Modern))]),
      Arr([Str("stdio"), Str("official-http")]),
      Some(Buckets(Some(RecordsOf(passing)), Some(RecordsOf(failing)))),
      None)
  }

  ghost function Compact(suite: Suite, report: Report): Option<Report> {
    if Shippable(suite, report)
    then Some(CompactForm(suite, report, SortedIds(PassIds(IdsOf(report))), SortedIds(FailIds(IdsOf(report)))))
    else None
  }

  lemma RecordReadsBack(id: Identity)
    requires id.checkId != ""
    ensures RecordIdentity(RecordOf(id)) == Some(id)
  {
    NamesReadBack(id.mode, id.transport, id.source);
  }

  lemma ListedRecordIds(s: set<Identity>, r: seq<Identity>)
    requires Lists(IdKey, s, r) && forall id :: id in s ==> id.checkId != ""
    ensures forall i :: 0 <= i < |r| ==> RecordIdentity(RecordsOf(r)[i]) == Some(r[i])
    ensures RecordIds(RecordsOf(r)) == s
  {
    var records := RecordsOf(r);
    forall i | 0 <= i < |r|
      ensures RecordIdentity(records[i]) == Some(r[i])
    {
      assert r[i] in r;
      RecordReadsBack(r[i]);
    }
    forall id | id in s
      ensures id in RecordIds(records)
    {
      var i :| 0 <= i < |r| && r[i] == id;
      assert records[i] in records;
    }
  }

  lemma {:induction false} ListedRecordsReadBack(s: set<Identity>, r: seq<Identity>)
    requires Lists(IdKey, s, r) && forall id :: id in s ==> id.checkId != ""
    ensures RecordsOk(RecordsOf(r)) && RecordIds(RecordsOf(r)) == s
    decreases |r|
  {
    ListedRecordIds(s, r);
    if r != [] {
      KeyLessIsTotal();
      DropLast(IdKey, s, r);
      var n := |r| - 1;
      ListedRecordsReadBack(s - {r[n]}, r[..n]);
      assert RecordsOf(r[..n]) == RecordsOf(r)[..n];
    }
  }

  // The original map with every SKIP forgotten.
  function WithoutSkips(ids: Ids): Ids {
    map id | id in ids && ids[id] - {Skip} != {} :: ids[id] - {Skip}
  }

  // Buckets that list the passes and the failures say what the map says, but for SKIP.
  lemma BucketsSay(ids: Ids, b: Buckets)
    requires WellKept(ids)
    requires RecordIds(Bucket(b.passing)) == PassIds(ids) && RecordIds(Bucket(b.failing)) == FailIds(ids)
    ensures AddRecords(AddRecords(map[], Bucket(b.passing), Pass), Bucket(b.failing), Failing) == WithoutSkips(ids)
  {
    var read := AddRecords(AddRecords(map[], Bucket(b.passing), Pass), Bucket(b.failing), Failing);
    forall id, s
      ensures s in At(read, id) <==> s in At(WithoutSkips(ids), id)
      ensures WellKept(read)
    {
      CompactIdsMeans(b, id, s);
    }
    CompactIdsMeans(b, Identity(Shipping, Stdio, Harness, "", ""), Pass);
    SameStatusesSameMap(read, WithoutSkips(ids));
  }

  lemma CompactIds(suite: Suite, report: Report)
    requires Shippable(suite, report)
    ensures var c := Compact(suite, report).value;
            && IsCompact(c) && CompactOk(c)
            && IdsOf(c) == WithoutSkips(IdsOf(report))
  {
    var ids := IdsOf(report);
    IdsAreWellKept(report);
    ListedRecordsReadBack(PassIds(ids), SortedIds(PassIds(ids)));
    ListedRecordsReadBack(FailIds(ids), SortedIds(FailIds(ids)));
    BucketsSay(ids, Compact(suite, report).value.checks.value);
  }

  lemma RequiredScenariosReadBack(report: Report, m: Mode)
    ensures Get(RequiredScenarios(report), Version(m)) == Get(Selected(report), Version(m))
  {
    NamesReadBack(Shipping, Stdio, Harness);
    NamesReadBack(Legacy, Stdio, Harness);
    NamesReadBack(Modern, Stdio, Harness);
  }

  lemma CompactHeader(suite: Suite, report: Report)
    requires Shippable(suite, report)
    ensures var c := Compact(suite, report).value;
            HeaderOk(suite, c) && RequiredScenarios(c) == RequiredScenarios(report)
  {
    var c := Compact(suite, report).value;
    assert Selected(c) == RequiredScenarios(report);
    RequiredScenariosReadBack(report, Shipping);
    RequiredScenariosReadBack(report, Legacy);
    RequiredScenariosReadBack(report, Modern);
    forall m
      ensures RunsCatalog(suite, c, m)
    {
      assert RunsCatalog(suite, report, m);
    }
  }

  // Re-reading the compact form gives the original map without SKIPs, and gives no errors
  // exactly when what is left still covers the required transports and scenarios.
  lemma CompactReadsBack(suite: Suite, report: Report)
    requires Shippable(suite, report)
    ensures var c := Compact(suite, report).value;
            && IdsOf(c) == WithoutSkips(IdsOf(report))
            && (Valid(suite, c) <==> Covers(suite, WithoutSkips(IdsOf(report))))
  {
    CompactIds(suite, report);
    CompactHeader(suite, report);
  }

  lemma WithoutSkipsKeepsTheRest(ids: Ids)
    ensures PassIds(WithoutSkips(ids)) == PassIds(ids)
    ensures FailIds(WithoutSkips(ids)) == FailIds(ids)
  {
    var w := WithoutSkips(ids);
    forall id | id in PassIds(ids)
      ensures id in PassIds(w)
    {
      assert Pass in ids[id] - {Skip};
    }
    forall id | id in FailIds(ids)
      ensures id in FailIds(w)
    {
      assert Failing in ids[id] - {Skip};
    }
  }

  // Every candidate gets the same four lists against either form, and the same verdict for
  // every candidate exactly when the compact form still covers what is required.
  lemma CompactionPreservesVerdicts(suite: Suite, report: Report)
    requires Shippable(suite, report)
    ensures var c := Compact(suite, report).value;
            && (forall cand :: Evaluate(suite, cand, c) == Evaluate(suite, cand, report).(success := Passes(suite, cand, c)))
            && (Covers(suite, WithoutSkips(IdsOf(report))) <==>
                forall cand :: Evaluate(suite, cand, c) == Evaluate(suite, cand, report))
  {
    var c := Compact(suite, report).value;
    CompactReadsBack(suite, report);
    WithoutSkipsKeepsTheRest(IdsOf(report));
    forall cand
      ensures Evaluate(suite, cand, c) == Evaluate(suite, cand, report).(success := Passes(suite, cand, c))
      ensures Valid(suite, c) ==> (Passes(suite, cand, c) <==> Passes(suite, cand, report))
    {
      SameIdsSameLists(IdsOf(c), IdsOf(report), IdsOf(cand));
    }
    if !Covers(suite, WithoutSkips(IdsOf(report))) {
      GateIsReflexive(suite, report);
      assert Evaluate(suite, report, c).success != Evaluate(suite, report, report).success;
    }
  }

  lemma SameIdsSameLists(a: Ids, b: Ids, cand: Ids)
    requires PassIds(a) == PassIds(b) && FailIds(a) == FailIds(b)
    ensures NewFailures(a, cand) == NewFailures(b, cand) && MissingChecks(a, cand) == MissingChecks(b, cand)
    ensures KnownFailures(a, cand) == KnownFailures(b, cand) && FixedChecks(a, cand) == FixedChecks(b, cand)
    ensures ShippingClean(a) == ShippingClean(b) && NoWorse(a, cand) == NoWorse(b, cand)
  {}

  // The compact form is canonical: compacting it again changes nothing.
  lemma CompactionIsIdempotent(suite: Suite, report: Report)
    requires Shippable(suite, report) && Covers(suite, WithoutSkips(IdsOf(report)))
    ensures var c := Compact(suite, report).value; Compact(suite, c) == Some(c)
  {
    var c := Compact(suite, report).value;
    CompactReadsBack(suite, report);
    CompactHeader(suite, report);
    WithoutSkipsKeepsTheRest(IdsOf(report));
    assert FailIds(IdsOf(c)) == FailIds(IdsOf(report)) && PassIds(IdsOf(c)) == PassIds(IdsOf(report));
  }

  // ----- Chains that pass through baselines -----

  // A covered report and its baseline accept each other.
  lemma BaselineStandsForItsReport(suite: Suite, report: Report)
    requires Shippable(suite, report) && Covers(suite, WithoutSkips(IdsOf(report)))
    ensures var c := Compact(suite, report).value; Passes(suite, c, report) && Passes(suite, report, c)
  {
    var c := Compact(suite, report).value;
    CompactReadsBack(suite, report);
    WithoutSkipsKeepsTheRest(IdsOf(report));
    GateIsReflexive(suite, report);
    SameIdsSameLists(IdsOf(c), IdsOf(report), IdsOf(report));
    NoWorseMeans(IdsOf(report), IdsOf(c));
  }

  // What is judged against next: an accepted candidate, or the baseline of the current report.
  ghost predicate Succeeds(suite: Suite, base: Report, next: Report) {
    Passes(suite, next, base) || Compact(suite, base) == Some(next)
  }

  ghost predicate MaintainedChain(suite: Suite, rs: seq<Report>) {
    forall i :: 0 <= i < |rs| - 1 ==> Succeeds(suite, rs[i], rs[i + 1])
  }

  // All of `Passes` but the validity of the newer report.
  ghost predicate Improves(suite: Suite, base: Report, next: Report) {
    && Shippable(suite, base)
    && SamePolicy(base, next)
    && ShippingClean(IdsOf(next))
    && NoWorse(IdsOf(base), IdsOf(next))
  }

  lemma SuccessorsImprove(suite: Suite, base: Report, next: Report)
    requires Succeeds(suite, base, next)
    ensures Improves(suite, base, next)
  {
    if Compact(suite, base) == Some(next) {
      CompactReadsBack(suite, base);
      WithoutSkipsKeepsTheRest(IdsOf(base));
      NoWorseMeans(IdsOf(base), IdsOf(next));
    }
  }

  lemma ImprovementComposes(suite: Suite, a: Report, b: Report, c: Report)
    requires Improves(suite, a, b) && Improves(suite, b, c)
    ensures Improves(suite, a, c)
  {
    NoWorseMeans(IdsOf(a), IdsOf(b));
    NoWorseMeans(IdsOf(b), IdsOf(c));
    NoWorseMeans(IdsOf(a), IdsOf(c));
  }

  lemma {:induction false} ChainImproves(suite: Suite, rs: seq<Report>)
    requires |rs| >= 2 && MaintainedChain(suite, rs)
    ensures Improves(suite, rs[0], rs[|rs| - 1])
    decreases |rs|
  {
    var n := |rs| - 1;
    assert Succeeds(suite, rs[n - 1], rs[n - 1 + 1]);
    SuccessorsImprove(suite, rs[n - 1], rs[n]);
    if n > 1 {
      var front := rs[..n];
      forall i | 0 <= i < |front| - 1
        ensures Succeeds(suite, front[i], front[i + 1])
      {
        assert Succeeds(suite, rs[i], rs[i + 1]);
      }
      ChainImproves(suite, front);
      ImprovementComposes(suite, rs[0], rs[n - 1], rs[n]);
    }
  }

  // However accepted candidates and compactions alternate, failures only disappear, passes only
  // appear and nothing recorded is lost; the last report passes against the first exactly when it
  // is still valid.
  lemma MaintainedChainsOnlyImprove(suite: Suite, rs: seq<Report>)
    requires |rs| >= 2 && MaintainedChain(suite, rs)
    ensures var first, last := IdsOf(rs[0]), IdsOf(rs[|rs| - 1]);
            && FailIds(last) <= FailIds(first)
            && PassIds(first) <= PassIds(last)
            && PassIds(first) + FailIds(first) <= PassIds(last) + FailIds(last)
    ensures Passes(suite, rs[|rs| - 1], rs[0]) <==> Valid(suite, rs[|rs| - 1])
  {
    ChainImproves(suite, rs);
    NoWorseMeans(IdsOf(rs[0]), IdsOf(rs[|rs| - 1]));
  }
}
