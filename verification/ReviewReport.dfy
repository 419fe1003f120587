// Reviewer regression reports: the required case matrix, the report a run assembles, and the
// identity-to-outcome map a full or compact report is reduced to.
module ReviewReport {
  import opened Prelude
  import opened Json
  import opened FixtureServer

  // ----- The case matrix -----

  datatype Wire = OverStdio | OverHttp

  datatype Slot = Slot(mode: Mode, wire: Wire, profile: Profile)

  // A case is named by its mode and its transport.
  type Key = (string, string)

  function WireName(w: Wire): string {
    match w
    case OverStdio => "review-stdio:"
    case OverHttp => "review-http:"
  }

  function ProfileName(p: Profile): string {
    match p
    case Default => "default"
    case Review => "review-regressions"
    case RepeatedCursor => "repeated-cursor"
    case MismatchedDiscoveryId => "discovery-mismatched-id"
    case NullDiscoveryId => "discovery-null-id"
    case SseCrComments => "sse-cr-comments"
    case SseCommentFlood => "sse-comment-flood"
    case CatalogMax => "catalog-max"
    case CatalogOverLimit => "catalog-over-limit"
  }

  function KeyOf(s: Slot): Key {
    (Version(s.mode), WireName(s.wire) + ProfileName(s.profile))
  }

  const HTTP_PROFILES: seq<Profile> :=
    [Review, RepeatedCursor, MismatchedDiscoveryId, NullDiscoveryId, SseCrComments, SseCommentFlood]

  predicate IsRequired(s: Slot) {
    || (s.wire.OverStdio? && s.profile.Review?)
    || (s.mode.Modern? && s.wire.OverHttp? && s.profile in HTTP_PROFILES)
    || s.profile.CatalogMax? || s.profile.CatalogOverLimit?
  }

  function OpeningCases(mode: Mode): seq<Slot> {
    [Slot(mode, OverStdio, Review)] +
    if !mode.Modern? then []
    else seq(|HTTP_PROFILES|, i requires 0 <= i < |HTTP_PROFILES| => Slot(mode, OverHttp, HTTP_PROFILES[i]))
  }

  function CatalogCases(mode: Mode): seq<Slot> {
    [Slot(mode, OverStdio, CatalogMax), Slot(mode, OverStdio, CatalogOverLimit),
     Slot(mode, OverHttp, CatalogMax), Slot(mode, OverHttp, CatalogOverLimit)]
  }

  // The cases in the order a run of all modes appends them.
  function Matrix(): seq<Slot> {
    OpeningCases(Shipping) + OpeningCases(Legacy) + OpeningCases(Modern) +
    CatalogCases(Shipping) + CatalogCases(Legacy) + CatalogCases(Modern)
  }

  predicate NoRepeats<T(==)>(s: seq<T>) {
    forall i, j :: 0 <= i < j < |s| ==> s[i] != s[j]
  }

  lemma NoRepeatsConcat<T>(a: seq<T>, b: seq<T>)
    requires NoRepeats(a) && NoRepeats(b) && forall x :: x in a ==> x !in b
    ensures NoRepeats(a + b)
  {
    var c := a + b;
    forall i, j | 0 <= i < j < |c|
      ensures c[i] != c[j]
    {
      if i < |a| <= j {
        assert a[i] in a && b[j - |a|] in b;
      }
    }
  }

  predicate IsOpening(m: Mode, s: Slot) {
    s.mode == m && ((s.wire.OverStdio? && s.profile.Review?) ||
                    (m.Modern? && s.wire.OverHttp? && s.profile in HTTP_PROFILES))
  }

  predicate IsCatalog(m: Mode, s: Slot) {
    s.mode == m && (s.profile.CatalogMax? || s.profile.CatalogOverLimit?)
  }

  lemma OpeningCasesAre(m: Mode)
    ensures NoRepeats(OpeningCases(m)) && forall s :: s in OpeningCases(m) <==> IsOpening(m, s)
  {
    var cases := OpeningCases(m);
    if m.Modern? {
      forall s | IsOpening(m, s)
        ensures s in cases
      {
        if s.wire.OverStdio? {
          assert cases[0] == s;
        } else {
          var i :| 0 <= i < |HTTP_PROFILES| && HTTP_PROFILES[i] == s.profile;
          assert cases[i + 1] == s;
        }
      }
    }
  }

  lemma CatalogCasesAre(m: Mode)
    ensures NoRepeats(CatalogCases(m)) && forall s :: s in CatalogCases(m) <==> IsCatalog(m, s)
  {
    var cases := CatalogCases(m);
    forall s | IsCatalog(m, s)
      ensures s in cases
    {
      var i := (if s.wire.OverStdio? then 0 else 2) + (if s.profile.CatalogMax? then 0 else 1);
      assert cases[i] == s;
    }
  }

  // A run appends every required case exactly once.
  lemma MatrixIsRequired()
    ensures NoRepeats(Matrix()) && forall s :: s in Matrix() <==> IsRequired(s)
  {
    var a := OpeningCases(Shipping) + OpeningCases(Legacy);
    var b := a + OpeningCases(Modern);
    var c := b + CatalogCases(Shipping);
    var d := c + CatalogCases(Legacy);
    OpeningCasesAre(Shipping);
    OpeningCasesAre(Legacy);
    OpeningCasesAre(Modern);
    CatalogCasesAre(Shipping);
    CatalogCasesAre(Legacy);
    CatalogCasesAre(Modern);
    NoRepeatsConcat(OpeningCases(Shipping), OpeningCases(Legacy));
    NoRepeatsConcat(a, OpeningCases(Modern));
    NoRepeatsConcat(b, CatalogCases(Shipping));
    NoRepeatsConcat(c, CatalogCases(Legacy));
    NoRepeatsConcat(d, CatalogCases(Modern));
    forall s
      ensures s in Matrix() <==> IsRequired(s)
    {
      assert s in Matrix() <==> s in d || s in CatalogCases(Modern);
      assert s.mode == Shipping || s.mode == Legacy || s.mode == Modern;
    }
  }

  // Names of equal length differ in the listed character.
  lemma ProfileNamesDiffer(p: Profile, q: Profile)
    requires ProfileName(p) == ProfileName(q)
    ensures p == q
  {
    assert ProfileName(p)[..3] == ProfileName(q)[..3];
    assert ProfileName(p)[4] == ProfileName(q)[4];
    assert |ProfileName(p)| == |ProfileName(q)|;
  }

  lemma KeysAreDistinct(s: Slot, t: Slot)
    requires KeyOf(s) == KeyOf(t)
    ensures s == t
  {
    var a, b := KeyOf(s).1, KeyOf(t).1;
    assert Version(s.mode)[5..7] == Version(t.mode)[5..7];
    assert a[7] == b[7] && WireName(s.wire)[7] == a[7] && WireName(t.wire)[7] == b[7];
    assert s.wire == t.wire;
    var n := |WireName(s.wire)|;
    assert a[n..] == ProfileName(s.profile) && b[n..] == ProfileName(t.profile);
    ProfileNamesDiffer(s.profile, t.profile);
  }

  // ----- Reports -----

  datatype Identity = Identity(mode: string, transport: string, checkId: string)

  type Ids = map<Identity, bool>

  datatype Check = MalformedCheck | Check(name: Json, success: Json)

  datatype Case = MalformedCase | Case(mode: Json, transport: Json, success: Json, checks: Option<seq<Check>>)

  datatype Record = MalformedRecord | Record(mode: Json, transport: Json, checkId: Json)

  datatype CaseRef = MalformedRef | CaseRef(mode: Json, transport: Json)

  datatype Buckets = Buckets(passing: Option<seq<Record>>, failing: Option<seq<Record>>)

  datatype Summary = Summary(passed: Json, failed: Json, total: Json, casesPassed: Json, casesTotal: Json)

  datatype Report = Report(
    schemaVersion: Json,
    reviewer: Json,
    baselineKind: Json,
    modes: Json,
    requiredModes: Json,
    requiredCases: Option<seq<CaseRef>>,
    checks: Option<Buckets>,
    cases: Option<seq<Case>>,
    summary: Option<Summary>,
    success: Json)

  const REVIEW_SCHEMA_VERSION := 1
  const BASELINE_KIND := "mcp-review-regression-baseline-v1"
  const REVIEWER := "codex-mcp-regression-suite"
  const CHECK_PREFIX := "review/"

  const ALL_MODES := Arr([Str(Version(Shipping)), Str(Version(Legacy)), Str(Version(Modern))])

  function RequiredCases(): set<Key> {
    set s | s in Matrix() :: KeyOf(s)
  }

  function KeyIn(mode: Json, transport: Json): Option<Key> {
    if mode.Str? && transport.Str? then Some((mode.s, transport.s)) else None
  }

  // ----- The full form -----

  predicate CheckOk(c: Check) {
    c.Check? && c.name.Str? && CHECK_PREFIX <= c.name.s && c.success.Bool?
  }

  function CheckIdentity(key: Key, c: Check): Identity
    requires CheckOk(c)
  {
    Identity(key.0, key.1, c.name.s)
  }

  // The outcomes of one case; the first recorded for a name counts.
  function CaseMap(k: Key, checks: seq<Check>): (ids: Ids)
    ensures forall id :: id in ids ==> InCase(id, k)
  {
    if checks == [] then map[]
    else
      var n := |checks| - 1;
      var before := CaseMap(k, checks[..n]);
      if !CheckOk(checks[n]) || CheckIdentity(k, checks[n]) in before then before
      else before[CheckIdentity(k, checks[n]) := checks[n].success.b]
  }

  predicate ChecksOk(checks: seq<Check>) {
    && (forall i :: 0 <= i < |checks| ==> CheckOk(checks[i]))
    && forall i, j :: 0 <= i < j < |checks| ==> checks[i].name != checks[j].name
  }

  predicate AllSucceed(checks: seq<Check>) {
    forall c :: c in checks ==> c.Check? && c.success == Bool(true)
  }

  function ChecksIn(c: Case): seq<Check> {
    if c.Case? && c.checks.Some? then c.checks.value else []
  }

  // `req` is the set of required cases throughout.

  // The cases seen so far and the outcomes they recorded.
  datatype Filed = Filed(observed: set<Key>, ids: Ids)

  // The key a case is filed under, unless it is malformed, unexpected or a duplicate.
  function FilingKey(req: set<Key>, before: set<Key>, c: Case): Option<Key> {
    if c.MalformedCase? || KeyIn(c.mode, c.transport).None? then None
    else
      var k := KeyIn(c.mode, c.transport).value;
      if k in req && k !in before then Some(k) else None
  }

  function FileCases(req: set<Key>, cases: seq<Case>): Filed {
    if cases == [] then Filed({}, map[])
    else
      var n := |cases| - 1;
      var before := FileCases(req, cases[..n]);
      match FilingKey(req, before.observed, cases[n])
      case Some(k) => Filed(before.observed + {k}, before.ids + CaseMap(k, ChecksIn(cases[n])))
      case None => before
  }

  // Every outcome belongs to an observed case.
  ghost predicate FiledUnder(f: Filed) {
    forall id :: id in f.ids ==> (id.mode, id.transport) in f.observed
  }

  predicate CaseOk(req: set<Key>, observed: set<Key>, c: Case) {
    && FilingKey(req, observed, c).Some?
    && ChecksIn(c) != []
    && ChecksOk(ChecksIn(c))
    && c.success == Bool(AllSucceed(ChecksIn(c)))
  }

  predicate CasesOk(req: set<Key>, cases: seq<Case>) {
    cases == [] || (var n := |cases| - 1; CasesOk(req, cases[..n]) && CaseOk(req, FileCases(req, cases[..n]).observed, cases[n]))
  }

  // ----- The compact form -----

  function RefsSeen(refs: seq<CaseRef>): set<Key> {
    set r | r in refs && r.CaseRef? && KeyIn(r.mode, r.transport).Some? :: KeyIn(r.mode, r.transport).value
  }

  predicate RefsOk(refs: seq<CaseRef>) {
    refs == [] ||
    (var n := |refs| - 1;
     && RefsOk(refs[..n])
     && refs[n].CaseRef? && KeyIn(refs[n].mode, refs[n].transport).Some?
     && KeyIn(refs[n].mode, refs[n].transport).value !in RefsSeen(refs[..n]))
  }

  function RecordIdentity(req: set<Key>, r: Record): Option<Identity> {
    if r.MalformedRecord? || KeyIn(r.mode, r.transport).None? || !r.checkId.Str? || !(CHECK_PREFIX <= r.checkId.s)
       || KeyIn(r.mode, r.transport).value !in req
    then None
    else Some(Identity(r.mode.s, r.transport.s, r.checkId.s))
  }

  function AddRecords(req: set<Key>, ids: Ids, records: seq<Record>, success: bool): Ids {
    if records == [] then ids
    else
      var n := |records| - 1;
      var before := AddRecords(req, ids, records[..n], success);
      match RecordIdentity(req, records[n])
      case Some(id) => if id in before then before else before[id := success]
      case None => before
  }

  predicate RecordsOk(req: set<Key>, ids: Ids, records: seq<Record>, success: bool) {
    records == [] ||
    (var n := |records| - 1;
     && RecordsOk(req, ids, records[..n], success)
     && RecordIdentity(req, records[n]).Some?
     && RecordIdentity(req, records[n]).value !in AddRecords(req, ids, records[..n], success))
  }

  function Bucket(records: Option<seq<Record>>): seq<Record> {
    if records.Some? then records.value else []
  }

  // ----- Both forms -----

  predicate IsCompact(r: Report) {
    r.baselineKind != Null
  }

  function Read(req: set<Key>, r: Report): Filed {
    if !IsCompact(r) then FileCases(req, if r.cases.Some? then r.cases.value else [])
    else
      var b := if r.checks.Some? then r.checks.value else Buckets(None, None);
      Filed(
        if r.requiredCases.Some? then RefsSeen(r.requiredCases.value) else {},
        AddRecords(req, AddRecords(req, map[], Bucket(b.passing), true), Bucket(b.failing), false))
  }

  function IdsOf(req: set<Key>, r: Report): Ids {
    Read(req, r).ids
  }

  function Passing(ids: Ids): set<Identity> {
    set id | id in ids && ids[id]
  }

  function Failed(ids: Ids): set<Identity> {
    set id | id in ids && !ids[id]
  }

  predicate InCase(id: Identity, k: Key) {
    (id.mode, id.transport) == k
  }

  // Every recorded check of the case passes, and it has one.
  predicate CasePasses(ids: Ids, k: Key) {
    && (forall id :: id in ids && InCase(id, k) ==> ids[id])
    && exists id :: id in ids && InCase(id, k)
  }

  function PassedCases(f: Filed): set<Key> {
    set k | k in f.observed && CasePasses(f.ids, k)
  }

  predicate SummaryOk(s: Summary, f: Filed) {
    && EqualsInt(s.passed, |Passing(f.ids)|)
    && EqualsInt(s.failed, |f.ids| - |Passing(f.ids)|)
    && EqualsInt(s.total, |f.ids|)
    && EqualsInt(s.casesPassed, |PassedCases(f)|)
    && EqualsInt(s.casesTotal, |f.observed|)
  }

  predicate FullOk(req: set<Key>, r: Report) {
    && r.modes == ALL_MODES
    && r.cases.Some? && CasesOk(req, r.cases.value)
    && r.success == Bool(Read(req, r).observed != {} && Failed(IdsOf(req, r)) == {})
  }

  predicate CompactOk(req: set<Key>, r: Report) {
    && r.baselineKind == Str(BASELINE_KIND)
    && r.requiredModes == ALL_MODES
    && r.requiredCases.Some? && RefsOk(r.requiredCases.value)
    && r.checks.Some?
    && r.checks.value.passing.Some? && RecordsOk(req, map[], r.checks.value.passing.value, true)
    && r.checks.value.failing.Some?
    && RecordsOk(req, AddRecords(req, map[], r.checks.value.passing.value, true), r.checks.value.failing.value, false)
  }

  predicate Valid(req: set<Key>, r: Report) {
    && EqualsInt(r.schemaVersion, REVIEW_SCHEMA_VERSION)
    && r.reviewer == Str(REVIEWER)
    && (if IsCompact(r) then CompactOk(req, r) else FullOk(req, r))
    && Read(req, r).observed == req
    && r.summary.Some? && SummaryOk(r.summary.value, Read(req, r))
  }
}
