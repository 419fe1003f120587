// What a reviewer report says and when the review gate lets a candidate pass, stated on the
// reports' own fields.
module ReviewMeaning {
  import opened Prelude
  import opened Json
  import opened FixtureServer
  import opened Ordering
  import opened ReviewReport
  import opened ReviewBaseline

  // ----- Checks of one case -----

  predicate SaysCheck(c: Check, name: string, b: bool) {
    c.Check? && c.name == Str(name) && "review/" <= name && c.success == Bool(b)
  }

  predicate Mentions(c: Check, name: string) {
    SaysCheck(c, name, true) || SaysCheck(c, name, false)
  }

  predicate Mentioned(checks: seq<Check>, name: string) {
    exists j :: 0 <= j < |checks| && Mentions(checks[j], name)
  }

  // The first check of the name says so.
  predicate ChecksSay(checks: seq<Check>, name: string, b: bool) {
    exists j :: 0 <= j < |checks| && SaysCheck(checks[j], name, b) && !Mentioned(checks[..j], name)
  }

  lemma MentionedGrows(front: seq<Check>, last: Check, name: string)
    ensures Mentioned(front + [last], name) <==> Mentioned(front, name) || Mentions(last, name)
  {
    var checks, n := front + [last], |front|;
    assert checks[n] == last && forall j :: 0 <= j < n ==> checks[j] == front[j];
    if Mentioned(front, name) {
      var j :| 0 <= j < n && Mentions(front[j], name);
      assert Mentions(checks[j], name);
    }
    if Mentions(last, name) {
      assert Mentions(checks[n], name);
    }
  }

  lemma SayGrows(front: seq<Check>, last: Check, name: string, b: bool)
    ensures ChecksSay(front + [last], name, b) <==>
            ChecksSay(front, name, b) || (SaysCheck(last, name, b) && !Mentioned(front, name))
  {
    var checks, n := front + [last], |front|;
    assert checks[n] == last && checks[..n] == front;
    assert forall j :: 0 <= j < n ==> checks[j] == front[j] && checks[..j] == front[..j];
    if ChecksSay(front, name, b) {
      var j :| 0 <= j < n && SaysCheck(front[j], name, b) && !Mentioned(front[..j], name);
      assert SaysCheck(checks[j], name, b) && !Mentioned(checks[..j], name);
    }
    if SaysCheck(last, name, b) && !Mentioned(front, name) {
      assert SaysCheck(checks[n], name, b) && !Mentioned(checks[..n], name);
    }
  }

  // The outcomes of one case are what its first check of each name says.
  lemma {:induction false} CaseMapMeans(k: Key, checks: seq<Check>, name: string, b: bool)
    ensures var ids, id := CaseMap(k, checks), Identity(k.0, k.1, name);
            && (id in ids <==> Mentioned(checks, name))
            && (id in ids && ids[id] == b <==> ChecksSay(checks, name, b))
    decreases |checks|
  {
    if checks != [] {
      var front, last := checks[..|checks| - 1], checks[|checks| - 1];
      assert checks == front + [last];
      CaseMapMeans(k, front, name, b);
      MentionedGrows(front, last, name);
      SayGrows(front, last, name, b);
      if Mentioned(front, name) {
        OutcomeGiven(front, name, b);
      }
    }
  }

  lemma OutcomeGiven(checks: seq<Check>, name: string, b: bool)
    ensures Mentioned(checks, name) || !ChecksSay(checks, name, b)
  {
    if j :| 0 <= j < |checks| && SaysCheck(checks[j], name, b) && !Mentioned(checks[..j], name) {
      assert Mentions(checks[j], name);
    }
  }

  // ----- Cases -----

  predicate CaseIs(c: Case, k: Key) {
    c.Case? && c.mode == Str(k.0) && c.transport == Str(k.1)
  }

  predicate Holds(cases: seq<Case>, k: Key) {
    exists i :: 0 <= i < |cases| && CaseIs(cases[i], k)
  }

  // The first case of the key says so.
  predicate CasesSay(cases: seq<Case>, k: Key, name: string, b: bool) {
    exists i :: 0 <= i < |cases| && CaseIs(cases[i], k) && !Holds(cases[..i], k) && ChecksSay(ChecksIn(cases[i]), name, b)
  }

  lemma HoldsGrows(front: seq<Case>, last: Case, k: Key)
    ensures Holds(front + [last], k) <==> Holds(front, k) || CaseIs(last, k)
  {
    var cases, n := front + [last], |front|;
    assert cases[n] == last && forall i :: 0 <= i < n ==> cases[i] == front[i];
    if Holds(front, k) {
      var i :| 0 <= i < n && CaseIs(front[i], k);
      assert CaseIs(cases[i], k);
    }
    if CaseIs(last, k) {
      assert CaseIs(cases[n], k);
    }
  }

  lemma CasesSayGrows(front: seq<Case>, last: Case, k: Key, name: string, b: bool)
    ensures CasesSay(front + [last], k, name, b) <==>
            CasesSay(front, k, name, b) || (CaseIs(last, k) && !Holds(front, k) && ChecksSay(ChecksIn(last), name, b))
  {
    var cases, n := front + [last], |front|;
    assert cases[n] == last && cases[..n] == front;
    assert forall i :: 0 <= i < n ==> cases[i] == front[i] && cases[..i] == front[..i];
    if CasesSay(front, k, name, b) {
      var i :| 0 <= i < n && CaseIs(front[i], k) && !Holds(front[..i], k) && ChecksSay(ChecksIn(front[i]), name, b);
      assert CaseIs(cases[i], k) && !Holds(cases[..i], k) && ChecksSay(ChecksIn(cases[i]), name, b);
    }
    if CaseIs(last, k) && !Holds(front, k) && ChecksSay(ChecksIn(last), name, b) {
      assert CaseIs(cases[n], k) && !Holds(cases[..n], k) && ChecksSay(ChecksIn(cases[n]), name, b);
    }
  }

  lemma FilingKeyMeans(req: set<Key>, observed: set<Key>, c: Case, k: Key)
    ensures FilingKey(req, observed, c) == Some(k) <==> CaseIs(c, k) && k in req && k !in observed
  {}

  lemma {:induction false} ObservedMeans(req: set<Key>, cases: seq<Case>, k: Key)
    ensures k in FileCases(req, cases).observed <==> k in req && Holds(cases, k)
    decreases |cases|
  {
    if cases != [] {
      var front, last := cases[..|cases| - 1], cases[|cases| - 1];
      assert cases == front + [last];
      ObservedMeans(req, front, k);
      HoldsGrows(front, last, k);
      FilingKeyMeans(req, FileCases(req, front).observed, last, k);
    }
  }

  lemma FiledStep(req: set<Key>, front: seq<Case>, last: Case, k: Key, name: string)
    ensures var before, after, id := FileCases(req, front), FileCases(req, front + [last]), Identity(k.0, k.1, name);
            if FilingKey(req, before.observed, last) == Some(k)
            then
              var own := CaseMap(k, ChecksIn(last));
              && (id in after.ids <==> id in before.ids || id in own)
              && (id in own ==> after.ids[id] == own[id])
              && (id !in own && id in before.ids ==> after.ids[id] == before.ids[id])
            else (id in after.ids <==> id in before.ids) && (id in before.ids ==> after.ids[id] == before.ids[id])
  {
    assert (front + [last])[..|front|] == front;
    var before, id := FileCases(req, front), Identity(k.0, k.1, name);
    var key := FilingKey(req, before.observed, last);
    if key.Some? && key != Some(k) {
      assert id !in CaseMap(key.value, ChecksIn(last));
    }
  }

  lemma {:induction false} FiledMeans(req: set<Key>, cases: seq<Case>, k: Key, name: string, b: bool)
    ensures var ids, id := FileCases(req, cases).ids, Identity(k.0, k.1, name);
            && (id in ids && ids[id] == b <==> k in req && CasesSay(cases, k, name, b))
            && (id in ids ==> k in FileCases(req, cases).observed)
    decreases |cases|
  {
    if cases != [] {
      var front, last := cases[..|cases| - 1], cases[|cases| - 1];
      assert cases == front + [last];
      FiledMeans(req, front, k, name, b);
      ObservedMeans(req, front, k);
      CasesSayGrows(front, last, k, name, b);
      FilingKeyMeans(req, FileCases(req, front).observed, last, k);
      FiledStep(req, front, last, k, name);
      CaseMapMeans(k, ChecksIn(last), name, b);
    }
  }

  // ----- Records -----

  predicate RecordSays(req: set<Key>, r: Record, id: Identity) {
    && r.Record? && r.mode == Str(id.mode) && r.transport == Str(id.transport) && r.checkId == Str(id.checkId)
    && "review/" <= id.checkId && (id.mode, id.transport) in req
  }

  lemma RecordMeans(req: set<Key>, r: Record, id: Identity)
    ensures RecordIdentity(req, r) == Some(id) <==> RecordSays(req, r, id)
  {}

  predicate InRecords(req: set<Key>, records: seq<Record>, id: Identity) {
    exists i :: 0 <= i < |records| && RecordSays(req, records[i], id)
  }

  lemma InRecordsGrows(req: set<Key>, front: seq<Record>, last: Record, id: Identity)
    ensures InRecords(req, front + [last], id) <==> InRecords(req, front, id) || RecordSays(req, last, id)
  {
    var records, n := front + [last], |front|;
    assert records[n] == last && forall i :: 0 <= i < n ==> records[i] == front[i];
    if InRecords(req, front, id) {
      var i :| 0 <= i < n && RecordSays(req, front[i], id);
      assert RecordSays(req, records[i], id);
    }
    if RecordSays(req, last, id) {
      assert RecordSays(req, records[n], id);
    }
  }

  lemma {:induction false} AddedMeans(req: set<Key>, ids: Ids, records: seq<Record>, success: bool, id: Identity)
    ensures var after := AddRecords(req, ids, records, success);
            && (id in after <==> id in ids || InRecords(req, records, id))
            && (id in ids ==> after[id] == ids[id])
            && (id in after && id !in ids ==> after[id] == success)
    decreases |records|
  {
    if records != [] {
      var front, last := records[..|records| - 1], records[|records| - 1];
      assert records == front + [last];
      AddedMeans(req, ids, front, success, id);
      InRecordsGrows(req, front, last, id);
      RecordMeans(req, last, id);
    }
  }

  // ----- What a report records -----

  function PassingIn(r: Report): seq<Record> {
    if r.checks.Some? && r.checks.value.passing.Some? then r.checks.value.passing.value else []
  }

  function FailingIn(r: Report): seq<Record> {
    if r.checks.Some? && r.checks.value.failing.Some? then r.checks.value.failing.value else []
  }

  // A run's report records through the first check of the first case; a baseline through its
  // passing records and then its failing ones.
  predicate Records(req: set<Key>, r: Report, id: Identity, b: bool) {
    if r.baselineKind == Null then
      (id.mode, id.transport) in req && r.cases.Some? && CasesSay(r.cases.value, (id.mode, id.transport), id.checkId, b)
    else if b then InRecords(req, PassingIn(r), id)
    else !InRecords(req, PassingIn(r), id) && InRecords(req, FailingIn(r), id)
  }

  lemma ReportMeans(req: set<Key>, r: Report, id: Identity, b: bool)
    ensures id in IdsOf(req, r) && IdsOf(req, r)[id] == b <==> Records(req, r, id, b)
  {
    if r.baselineKind == Null {
      FiledMeans(req, if r.cases.Some? then r.cases.value else [], (id.mode, id.transport), id.checkId, b);
    } else {
      AddedMeans(req, map[], PassingIn(r), true, id);
      AddedMeans(req, AddRecords(req, map[], PassingIn(r), true), FailingIn(r), false, id);
    }
  }

  // ----- The required cases -----

  // In every mode one review run over stdio and the catalogs over both transports; in the newest
  // also the review, cursor, discovery and event-stream runs over HTTP.
  lemma RequiredCasesAre(s: Slot)
    ensures KeyOf(s) in RequiredCases() <==> IsRequired(s)
    ensures IsRequired(s) <==>
            || s.profile == CatalogMax || s.profile == CatalogOverLimit
            || (s.profile == Review && (s.wire == OverStdio || s.mode == Modern))
            || (s.mode == Modern && s.wire == OverHttp
                && (|| s.profile == RepeatedCursor || s.profile == MismatchedDiscoveryId || s.profile == NullDiscoveryId
                    || s.profile == SseCrComments || s.profile == SseCommentFlood))
  {
    MatrixIsRequired();
    var m := Matrix();
    forall t | t in m && KeyOf(t) == KeyOf(s)
      ensures t == s
    {
      KeysAreDistinct(s, t);
    }
    assert KeyOf(s) in RequiredCases() <==> exists t :: t in m && KeyOf(t) == KeyOf(s);
    RequiredProfiles(s.profile);
  }

  lemma RequiredProfiles(p: Profile)
    ensures p in HTTP_PROFILES <==> p != Default && p != CatalogMax && p != CatalogOverLimit
  {
    assert HTTP_PROFILES[0] == Review && HTTP_PROFILES[1] == RepeatedCursor && HTTP_PROFILES[2] == MismatchedDiscoveryId;
    assert HTTP_PROFILES[3] == NullDiscoveryId && HTTP_PROFILES[4] == SseCrComments && HTTP_PROFILES[5] == SseCommentFlood;
  }

  // ----- When a report is acceptable -----

  // Python's `value == n`.
  predicate Numbers(v: Json, n: int) {
    v == Int(n) || v == Float(n as real) || (v == Bool(true) && n == 1) || (v == Bool(false) && n == 0)
  }

  lemma EqualsIntMeans(v: Json, n: int)
    ensures EqualsInt(v, n) <==> Numbers(v, n)
  {}

  predicate CheckReads(c: Check) {
    c.Check? && c.name.Str? && "review/" <= c.name.s && c.success.Bool?
  }

  predicate Succeeds(c: Check) {
    c.Check? && c.success == Bool(true)
  }

  // A required case with checks of different names, whose own verdict is theirs.
  predicate CaseReads(req: set<Key>, c: Case) {
    && c.Case? && c.mode.Str? && c.transport.Str? && (c.mode.s, c.transport.s) in req
    && c.checks.Some? && c.checks.value != []
    && (forall i :: 0 <= i < |c.checks.value| ==> CheckReads(c.checks.value[i]))
    && (forall i, j :: 0 <= i < j < |c.checks.value| ==> c.checks.value[i].name != c.checks.value[j].name)
    && c.success == Bool(forall i :: 0 <= i < |c.checks.value| ==> Succeeds(c.checks.value[i]))
  }

  lemma AllSucceedMeans(checks: seq<Check>)
    ensures AllSucceed(checks) <==> forall i :: 0 <= i < |checks| ==> Succeeds(checks[i])
  {
    if AllSucceed(checks) {
      forall i | 0 <= i < |checks|
        ensures Succeeds(checks[i])
      {
        assert checks[i] in checks;
      }
    }
  }

  lemma ChecksOkMeans(checks: seq<Check>)
    ensures ChecksOk(checks) <==>
            && (forall i :: 0 <= i < |checks| ==> CheckReads(checks[i]))
            && (forall i, j :: 0 <= i < j < |checks| ==> checks[i].name != checks[j].name)
  {
    assert forall c :: CheckOk(c) <==> CheckReads(c);
  }

  lemma CaseOkMeans(req: set<Key>, observed: set<Key>, c: Case)
    ensures CaseOk(req, observed, c) <==> CaseReads(req, c) && (c.mode.s, c.transport.s) !in observed
  {
    if c.Case? && c.checks.Some? {
      var checks := c.checks.value;
      ChecksOkMeans(checks);
      AllSucceedMeans(checks);
    }
  }

  predicate SameCase(a: Case, b: Case) {
    a.Case? && b.Case? && a.mode.Str? && a.transport.Str? && a.mode == b.mode && a.transport == b.transport
  }

  predicate CasesRead(req: set<Key>, cases: seq<Case>) {
    && (forall i :: 0 <= i < |cases| ==> CaseReads(req, cases[i]))
    && (forall i, j :: 0 <= i < j < |cases| ==> !SameCase(cases[i], cases[j]))
  }

  lemma CasesGrow(req: set<Key>, front: seq<Case>, last: Case)
    ensures CasesRead(req, front + [last]) <==>
            CasesRead(req, front) && CaseReads(req, last) && !Holds(front, (last.mode.s, last.transport.s))
  {
    var cases, n := front + [last], |front|;
    assert cases[n] == last && forall i :: 0 <= i < n ==> cases[i] == front[i];
    if CaseReads(req, last) {
      var k := (last.mode.s, last.transport.s);
      assert forall i :: 0 <= i < n ==> (SameCase(front[i], last) <==> CaseIs(front[i], k));
      if CasesRead(req, cases) {
        forall i | 0 <= i < n
          ensures CaseReads(req, front[i]) && !CaseIs(front[i], k)
        {
          assert CaseReads(req, cases[i]) && !SameCase(cases[i], cases[n]);
        }
        forall i, j | 0 <= i < j < n
          ensures !SameCase(front[i], front[j])
        {
          assert !SameCase(cases[i], cases[j]);
        }
      }
    }
  }

  lemma {:induction false} CasesMean(req: set<Key>, cases: seq<Case>)
    ensures CasesOk(req, cases) <==> CasesRead(req, cases)
    decreases |cases|
  {
    if cases != [] {
      var front, last := cases[..|cases| - 1], cases[|cases| - 1];
      assert cases == front + [last];
      CasesMean(req, front);
      CasesGrow(req, front, last);
      CaseOkMeans(req, FileCases(req, front).observed, last);
      if CaseReads(req, last) {
        ObservedMeans(req, front, (last.mode.s, last.transport.s));
      }
    }
  }

  // The totals a report gives are the numbers of what it records.
  predicate CountsSay(s: Summary, observed: set<Key>, ids: Ids) {
    && Numbers(s.passed, |set id | id in ids && ids[id]|)
    && Numbers(s.failed, |set id | id in ids && !ids[id]|)
    && Numbers(s.total, |ids|)
    && Numbers(s.casesPassed, |set k | k in observed && PassesAll(ids, k)|)
    && Numbers(s.casesTotal, |observed|)
  }

  // The case has checks, and all of them pass.
  predicate PassesAll(ids: Ids, k: Key) {
    && (exists id :: id in ids && id.mode == k.0 && id.transport == k.1)
    && (forall id :: id in ids && id.mode == k.0 && id.transport == k.1 ==> ids[id])
  }

  lemma PassesAllMeans(ids: Ids, k: Key)
    ensures CasePasses(ids, k) <==> PassesAll(ids, k)
  {
    assert forall id :: InCase(id, k) <==> id.mode == k.0 && id.transport == k.1;
  }

  lemma CountsMean(s: Summary, f: Filed)
    ensures SummaryOk(s, f) <==> CountsSay(s, f.observed, f.ids)
  {
    var ids := f.ids;
    var passing, failing := set id | id in ids && ids[id], set id | id in ids && !ids[id];
    assert Passing(ids) == passing && passing + failing == ids.Keys && passing !! failing;
    assert |ids| == |ids.Keys| == |passing| + |failing|;
    forall k
      ensures CasePasses(ids, k) <==> PassesAll(ids, k)
    {
      PassesAllMeans(ids, k);
    }
    assert PassedCases(f) == set k | k in f.observed && PassesAll(ids, k);
    EqualsIntMeans(s.passed, |passing|);
    EqualsIntMeans(s.failed, |failing|);
    EqualsIntMeans(s.total, |ids|);
    EqualsIntMeans(s.casesPassed, |PassedCases(f)|);
    EqualsIntMeans(s.casesTotal, |f.observed|);
  }

  predicate NamesAllModes(v: Json) {
    v == Arr([Str("2025-06-18"), Str("2025-11-25"), Str("2026-07-28")])
  }

  // A run's report: every mode, every required case once and nothing else, and a verdict that is
  // its cases' own.
  predicate RunReads(req: set<Key>, r: Report) {
    && NamesAllModes(r.modes)
    && r.cases.Some? && CasesRead(req, r.cases.value)
    && (forall k :: k in req ==> Holds(r.cases.value, k))
    && r.success == Bool(req != {} && forall id :: id in IdsOf(req, r) ==> IdsOf(req, r)[id])
  }

  predicate RefIs(c: CaseRef, k: Key) {
    c.CaseRef? && c.mode == Str(k.0) && c.transport == Str(k.1)
  }

  predicate RefReads(c: CaseRef) {
    c.CaseRef? && c.mode.Str? && c.transport.Str?
  }

  predicate RefsRead(refs: seq<CaseRef>) {
    && (forall i :: 0 <= i < |refs| ==> RefReads(refs[i]))
    && (forall i, j :: 0 <= i < j < |refs| ==> refs[i] != refs[j])
  }

  lemma RefsSeenMeans(refs: seq<CaseRef>, k: Key)
    ensures k in RefsSeen(refs) <==> exists i :: 0 <= i < |refs| && RefIs(refs[i], k)
  {
    if k in RefsSeen(refs) {
      var c :| c in refs && c.CaseRef? && KeyIn(c.mode, c.transport) == Some(k);
      var i :| 0 <= i < |refs| && refs[i] == c;
      assert RefIs(refs[i], k);
    }
    if i :| 0 <= i < |refs| && RefIs(refs[i], k) {
      assert refs[i] in refs && KeyIn(refs[i].mode, refs[i].transport) == Some(k);
    }
  }

  lemma RefsGrow(front: seq<CaseRef>, last: CaseRef)
    ensures RefsRead(front + [last]) <==> RefsRead(front) && RefReads(last) && last !in front
  {
    var refs, n := front + [last], |front|;
    assert refs[n] == last && forall i :: 0 <= i < n ==> refs[i] == front[i];
    if RefsRead(refs) {
      assert RefReads(refs[n]);
      forall i | 0 <= i < n
        ensures RefReads(front[i]) && front[i] != last
      {
        assert RefReads(refs[i]) && refs[i] != refs[n];
      }
      forall i, j | 0 <= i < j < n
        ensures front[i] != front[j]
      {
        assert refs[i] != refs[j];
      }
    }
  }

  lemma {:induction false} RefsMean(refs: seq<CaseRef>)
    ensures RefsOk(refs) <==> RefsRead(refs)
    decreases |refs|
  {
    if refs != [] {
      var front, last := refs[..|refs| - 1], refs[|refs| - 1];
      assert refs == front + [last];
      RefsMean(front);
      RefsGrow(front, last);
      if RefReads(last) {
        var k := (last.mode.s, last.transport.s);
        RefsSeenMeans(front, k);
        assert forall c :: RefIs(c, k) <==> c == last;
        assert last in front <==> exists i :: 0 <= i < |front| && RefIs(front[i], k);
      }
    }
  }

  ghost predicate RecordReads(req: set<Key>, r: Record) {
    exists id :: RecordSays(req, r, id)
  }

  // Every record says an identity, none twice and none that is in `seen`.
  ghost predicate RecordsRead(req: set<Key>, seen: seq<Record>, records: seq<Record>) {
    && (forall i :: 0 <= i < |records| ==> RecordReads(req, records[i]))
    && (forall i :: 0 <= i < |records| ==> records[i] !in seen && records[i] !in records[..i])
  }

  lemma RecordsGrow(req: set<Key>, seen: seq<Record>, front: seq<Record>, last: Record)
    ensures RecordsRead(req, seen, front + [last]) <==>
            RecordsRead(req, seen, front) && RecordReads(req, last) && last !in seen && last !in front
  {
    var records, n := front + [last], |front|;
    assert records[n] == last && records[..n] == front;
    assert forall i :: 0 <= i < n ==> records[i] == front[i] && records[..i] == front[..i];
    if RecordsRead(req, seen, records) {
      assert RecordReads(req, records[n]) && records[n] !in records[..n];
      forall i | 0 <= i < n
        ensures RecordReads(req, front[i]) && front[i] !in seen && front[i] !in front[..i]
      {
        assert RecordReads(req, records[i]) && records[i] !in records[..i];
      }
    }
  }

  // Records of one identity are equal.
  lemma SameRecord(req: set<Key>, records: seq<Record>, r: Record, id: Identity)
    requires RecordSays(req, r, id)
    ensures InRecords(req, records, id) <==> r in records
  {
    assert forall x :: RecordSays(req, x, id) <==> x == r;
    if r in records {
      var i :| 0 <= i < |records| && records[i] == r;
      assert RecordSays(req, records[i], id);
    }
  }

  lemma RecordReadsIff(req: set<Key>, r: Record)
    ensures RecordReads(req, r) <==> RecordIdentity(req, r).Some?
  {
    if RecordIdentity(req, r).Some? {
      RecordMeans(req, r, RecordIdentity(req, r).value);
    }
    forall id | RecordSays(req, r, id)
      ensures RecordIdentity(req, r).Some?
    {
      RecordMeans(req, r, id);
    }
  }

  // `ids` holds what the records in `seen` say.
  ghost predicate HoldsWhat(req: set<Key>, ids: Ids, seen: seq<Record>) {
    forall id :: id in ids <==> InRecords(req, seen, id)
  }

  lemma {:induction false} RecordsMean(req: set<Key>, ids: Ids, seen: seq<Record>, records: seq<Record>, success: bool)
    requires HoldsWhat(req, ids, seen)
    ensures RecordsOk(req, ids, records, success) <==> RecordsRead(req, seen, records)
    decreases |records|
  {
    if records != [] {
      var front, last := records[..|records| - 1], records[|records| - 1];
      assert records == front + [last];
      RecordsMean(req, ids, seen, front, success);
      RecordsGrow(req, seen, front, last);
      RecordReadsIff(req, last);
      if RecordIdentity(req, last).Some? {
        var id := RecordIdentity(req, last).value;
        RecordMeans(req, last, id);
        AddedMeans(req, ids, front, success, id);
        SameRecord(req, seen, last, id);
        SameRecord(req, front, last, id);
      }
    }
  }

  // A baseline: every mode, the required cases listed once each, and no identity twice.
  ghost predicate BaselineReads(req: set<Key>, r: Report) {
    && r.baselineKind == Str("mcp-review-regression-baseline-v1")
    && NamesAllModes(r.requiredModes)
    && r.requiredCases.Some? && RefsRead(r.requiredCases.value)
    && (forall k :: k in req <==> exists i :: 0 <= i < |r.requiredCases.value| && RefIs(r.requiredCases.value[i], k))
    && r.checks.Some? && r.checks.value.passing.Some? && r.checks.value.failing.Some?
    && RecordsRead(req, [], r.checks.value.passing.value)
    && RecordsRead(req, r.checks.value.passing.value, r.checks.value.failing.value)
  }

  lemma BucketsMean(req: set<Key>, b: Buckets)
    requires b.passing.Some? && b.failing.Some?
    ensures RecordsOk(req, map[], b.passing.value, true) <==> RecordsRead(req, [], b.passing.value)
    ensures RecordsOk(req, AddRecords(req, map[], b.passing.value, true), b.failing.value, false) <==>
            RecordsRead(req, b.passing.value, b.failing.value)
  {
    var one := AddRecords(req, map[], b.passing.value, true);
    forall id
      ensures id in one <==> InRecords(req, b.passing.value, id)
    {
      AddedMeans(req, map[], b.passing.value, true, id);
    }
    RecordsMean(req, map[], [], b.passing.value, true);
    RecordsMean(req, one, b.passing.value, b.failing.value, false);
  }

  lemma BaselineMeans(req: set<Key>, r: Report)
    requires r.baselineKind != Null
    ensures CompactOk(req, r) && Read(req, r).observed == req <==> BaselineReads(req, r)
  {
    if r.requiredCases.Some? {
      var refs := r.requiredCases.value;
      RefsMean(refs);
      forall k
        ensures k in RefsSeen(refs) <==> exists i :: 0 <= i < |refs| && RefIs(refs[i], k)
      {
        RefsSeenMeans(refs, k);
      }
      SameKeys(RefsSeen(refs), req, refs);
    }
    if r.checks.Some? && r.checks.value.passing.Some? && r.checks.value.failing.Some? {
      BucketsMean(req, r.checks.value);
    }
  }

  lemma SameKeys(seen: set<Key>, req: set<Key>, refs: seq<CaseRef>)
    requires forall k :: k in seen <==> exists i :: 0 <= i < |refs| && RefIs(refs[i], k)
    ensures seen == req <==> forall k :: k in req <==> exists i :: 0 <= i < |refs| && RefIs(refs[i], k)
  {}

  lemma RunCasesMean(req: set<Key>, cases: seq<Case>)
    ensures CasesOk(req, cases) && FileCases(req, cases).observed == req <==>
            CasesRead(req, cases) && forall k :: k in req ==> Holds(cases, k)
  {
    CasesMean(req, cases);
    forall k
      ensures k in FileCases(req, cases).observed <==> k in req && Holds(cases, k)
    {
      ObservedMeans(req, cases, k);
    }
    AllObserved(req, FileCases(req, cases).observed, cases);
  }

  lemma RunMeans(req: set<Key>, r: Report)
    requires r.baselineKind == Null
    ensures FullOk(req, r) && Read(req, r).observed == req <==> RunReads(req, r)
  {
    if r.cases.Some? {
      RunCasesMean(req, r.cases.value);
      NoneFailed(IdsOf(req, r));
    }
  }

  lemma AllObserved(req: set<Key>, observed: set<Key>, cases: seq<Case>)
    requires forall k :: k in observed <==> k in req && Holds(cases, k)
    ensures observed == req <==> forall k :: k in req ==> Holds(cases, k)
  {}

  lemma NoneFailed(ids: Ids)
    ensures Failed(ids) == {} <==> forall id :: id in ids ==> ids[id]
  {
    if Failed(ids) == {} {
      forall id | id in ids
        ensures ids[id]
      {
        assert id !in Failed(ids);
      }
    }
  }

  // An acceptable report, on its fields.
  ghost predicate Acceptable(req: set<Key>, r: Report) {
    && Numbers(r.schemaVersion, 1)
    && r.reviewer == Str("codex-mcp-regression-suite")
    && (if r.baselineKind != Null then BaselineReads(req, r) else RunReads(req, r))
    && r.summary.Some? && CountsSay(r.summary.value, req, IdsOf(req, r))
  }

  lemma ValidMeans(req: set<Key>, r: Report)
    ensures Valid(req, r) <==> Acceptable(req, r)
  {
    EqualsIntMeans(r.schemaVersion, 1);
    if r.baselineKind != Null {
      BaselineMeans(req, r);
    } else {
      RunMeans(req, r);
    }
    if r.summary.Some? {
      CountsMean(r.summary.value, Read(req, r));
    }
  }

  lemma ReadMeans(req: set<Key>, r: Report)
    ensures forall id, b :: id in IdsOf(req, r) && IdsOf(req, r)[id] == b <==> Records(req, r, id, b)
    ensures Valid(req, r) <==> Acceptable(req, r)
  {
    ValidMeans(req, r);
    forall id, b
      ensures id in IdsOf(req, r) && IdsOf(req, r)[id] == b <==> Records(req, r, id, b)
    {
      ReportMeans(req, r, id, b);
    }
  }

  // ----- When a candidate passes -----

  // Nothing recorded goes missing and no failure appears.
  ghost predicate KeepsUp(req: set<Key>, base: Report, cand: Report) {
    && (forall id :: Records(req, cand, id, false) ==> Records(req, base, id, false))
    && (forall id, b :: Records(req, base, id, b) ==> Records(req, cand, id, true) || Records(req, cand, id, false))
  }

  ghost predicate MayReplace(req: set<Key>, cand: Report, base: Report) {
    Acceptable(req, base) && Acceptable(req, cand) && KeepsUp(req, base, cand)
  }

  lemma RecordedSets(req: set<Key>, r: Report)
    ensures forall id :: id in Passing(IdsOf(req, r)) <==> Records(req, r, id, true)
    ensures forall id :: id in Failed(IdsOf(req, r)) <==> Records(req, r, id, false)
  {
    forall id
      ensures id in Passing(IdsOf(req, r)) <==> Records(req, r, id, true)
      ensures id in Failed(IdsOf(req, r)) <==> Records(req, r, id, false)
    {
      ReportMeans(req, r, id, true);
      ReportMeans(req, r, id, false);
    }
  }

  lemma EitherOutcome(ids: Ids, id: Identity)
    ensures id in ids <==> id in Passing(ids) || id in Failed(ids)
  {}

  lemma NoWorseSets(b: Ids, c: Ids)
    ensures NoWorse(b, c) <==>
            && (forall id :: id in Failed(c) ==> id in Failed(b))
            && (forall id :: id in Passing(b) || id in Failed(b) ==> id in Passing(c) || id in Failed(c))
  {
    if NoWorse(b, c) {
      forall id | id in b
        ensures id in Passing(c) || id in Failed(c)
      {
        EitherOutcome(c, id);
      }
    }
    forall id | id in b
      ensures id in Passing(b) || id in Failed(b)
    {
      EitherOutcome(b, id);
    }
  }

  lemma KeepsUpMeans(req: set<Key>, base: Report, cand: Report)
    ensures NoWorse(IdsOf(req, base), IdsOf(req, cand)) <==> KeepsUp(req, base, cand)
  {
    NoWorseSets(IdsOf(req, base), IdsOf(req, cand));
    RecordedSets(req, base);
    RecordedSets(req, cand);
  }

  lemma GateMeans(req: set<Key>, cand: Report, base: Report)
    ensures Passes(req, cand, base) <==> MayReplace(req, cand, base)
  {
    PassesMeans(req, cand, base);
    ValidMeans(req, base);
    ValidMeans(req, cand);
    KeepsUpMeans(req, base, cand);
  }

  // A verdict, on the two reports' fields.
  ghost predicate JudgedBy(req: set<Key>, cand: Report, base: Report, v: Verdict) {
    && (v.success <==> MayReplace(req, cand, base))
    && (forall id :: id in v.newFailures <==> Records(req, cand, id, false) && !Records(req, base, id, false))
    && (forall id :: id in v.knownFailures <==> Records(req, cand, id, false) && Records(req, base, id, false))
    && (forall id :: id in v.missingChecks <==>
                     && (Records(req, base, id, true) || Records(req, base, id, false))
                     && !Records(req, cand, id, true) && !Records(req, cand, id, false))
    && (forall id :: id in v.fixedChecks <==> Records(req, base, id, false) && Records(req, cand, id, true))
  }

  lemma ListsMean(req: set<Key>, base: Report, cand: Report, id: Identity)
    ensures var b, c := IdsOf(req, base), IdsOf(req, cand);
            && (id in NewFailures(b, c) <==> Records(req, cand, id, false) && !Records(req, base, id, false))
            && (id in KnownFailures(b, c) <==> Records(req, cand, id, false) && Records(req, base, id, false))
            && (id in MissingChecks(b, c) <==>
                && (Records(req, base, id, true) || Records(req, base, id, false))
                && !Records(req, cand, id, true) && !Records(req, cand, id, false))
            && (id in FixedChecks(b, c) <==> Records(req, base, id, false) && Records(req, cand, id, true))
  {
    RecordedSets(req, base);
    RecordedSets(req, cand);
    EitherOutcome(IdsOf(req, base), id);
    EitherOutcome(IdsOf(req, cand), id);
  }

  lemma VerdictMeans(req: set<Key>, cand: Report, base: Report)
    ensures JudgedBy(req, cand, base, Evaluate(req, cand, base))
  {
    GateMeans(req, cand, base);
    var v := Evaluate(req, cand, base);
    var b, c := IdsOf(req, base), IdsOf(req, cand);
    forall id
      ensures id in v.newFailures <==> id in NewFailures(b, c)
      ensures id in v.knownFailures <==> id in KnownFailures(b, c)
      ensures id in v.missingChecks <==> id in MissingChecks(b, c)
      ensures id in v.fixedChecks <==> id in FixedChecks(b, c)
    {}
    forall id {
      ListsMean(req, base, cand, id);
    }
  }

  // By mode, then transport, then check.
  predicate Before(a: Identity, b: Identity) {
    || StringLess(a.mode, b.mode)
    || (a.mode == b.mode
        && (StringLess(a.transport, b.transport) || (a.transport == b.transport && StringLess(a.checkId, b.checkId))))
  }

  ghost predicate SaidBefore(req: set<Key>, a: Record, b: Record) {
    exists x, y :: RecordSays(req, a, x) && RecordSays(req, b, y) && Before(x, y)
  }

  // The records say identities one after the other, in order.
  ghost predicate InOrder(req: set<Key>, records: seq<Record>) {
    forall i, j :: 0 <= i < j < |records| ==> SaidBefore(req, records[i], records[j])
  }

  lemma KeyTail(a: seq<string>, b: seq<string>)
    requires a != [] && b != []
    ensures KeyLess(a, b) <==> StringLess(a[0], b[0]) || (a[0] == b[0] && KeyLess(a[1..], b[1..]))
  {}

  lemma IdentityOrder(a: Identity, b: Identity)
    ensures KeyLess(IdKey(a), IdKey(b)) <==> Before(a, b)
  {
    KeyTail(IdKey(a), IdKey(b));
    KeyTail(IdKey(a)[1..], IdKey(b)[1..]);
    KeyTail(IdKey(a)[2..], IdKey(b)[2..]);
  }

  lemma ListedInOrder(req: set<Key>, s: set<Identity>)
    requires forall id :: id in s ==> Recordable(req, id)
    ensures InOrder(req, RecordsOf(SortedIds(s)))
  {
    var r := SortedIds(s);
    var records := RecordsOf(r);
    forall i, j | 0 <= i < j < |records|
      ensures SaidBefore(req, records[i], records[j])
    {
      assert r[i] in r && r[j] in r;
      assert RecordSays(req, records[i], r[i]) && RecordSays(req, records[j], r[j]);
      IdentityOrder(r[i], r[j]);
    }
  }

  // What a baseline of a report must say.
  ghost predicate StandsFor(req: set<Key>, c: Report, r: Report) {
    && c.schemaVersion == Int(1) && c.modes == Null && c.cases == None && c.success == Null
    && InOrder(req, PassingIn(c)) && InOrder(req, FailingIn(c))
    && c.baselineKind == Str("mcp-review-regression-baseline-v1")
    && c.summary == r.summary
    && Acceptable(req, c)
    && forall id, b :: Records(req, c, id, b) <==> Records(req, r, id, b)
  }

  lemma CompactInOrder(req: set<Key>, r: Report)
    requires Valid(req, r)
    ensures var c := Compact(req, r).value; InOrder(req, PassingIn(c)) && InOrder(req, FailingIn(c))
  {
    IdsAreRecordable(req, r);
    ListedInOrder(req, Passing(IdsOf(req, r)));
    ListedInOrder(req, Failed(IdsOf(req, r)));
  }

  lemma CompactRecords(req: set<Key>, r: Report, id: Identity, b: bool)
    requires Valid(req, r)
    ensures Records(req, Compact(req, r).value, id, b) <==> Records(req, r, id, b)
  {
    CompactReadsBack(req, r);
    ReportMeans(req, Compact(req, r).value, id, b);
    ReportMeans(req, r, id, b);
  }

  lemma BaselineExistsIff(req: set<Key>, r: Report)
    ensures Compact(req, r).Some? <==> Acceptable(req, r)
    ensures Compact(req, r).Some? ==> StandsFor(req, Compact(req, r).value, r)
  {
    ValidMeans(req, r);
    if Compact(req, r).Some? {
      var c := Compact(req, r).value;
      CompactReadsBack(req, r);
      CompactInOrder(req, r);
      ValidMeans(req, c);
      forall id, b
        ensures Records(req, c, id, b) <==> Records(req, r, id, b)
      {
        CompactRecords(req, r, id, b);
      }
    }
  }
}
