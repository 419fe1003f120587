// Reading and judging reviewer reports as the code does, with dictionaries, sets and error
// lists filled in loops.
module ReviewReader {
  import opened Prelude
  import opened Json
  import opened Ordering
  import opened ReviewReport
  import opened ReviewBaseline
  import opened ReviewMeaning

  datatype Problem =
    | WrongSchema
    | WrongReviewer
    | WrongModes
    | UnsupportedFormat
    | NoRequiredCases
    | MalformedCaseEntry
    | UnexpectedCase
    | DuplicateCase
    | NoIdentities
    | NoBucket(success: bool)
    | MalformedCheckEntry
    | DuplicateCheck
    | NoCases
    | NoChecks(key: Key)
    | InconsistentCase(key: Key)
    | MissingCases(keys: set<Key>)
    | UnexpectedCases(keys: set<Key>)
    | InconsistentTotals
    | InconsistentSuccess

  method ReadReview(req: set<Key>, r: Report) returns (f: Filed, errors: seq<Problem>)
    ensures forall id, b :: id in f.ids && f.ids[id] == b <==> Records(req, r, id, b)
    ensures errors == [] <==> Acceptable(req, r)
    ensures f == Read(req, r)
    ensures errors == [] <==> Valid(req, r)
  {
    f, errors := CollectErrors(req, r);
    ReadMeans(req, r);
  }

  method CollectErrors(req: set<Key>, r: Report) returns (f: Filed, errors: seq<Problem>)
    ensures f == Read(req, r)
    ensures errors == [] <==> Valid(req, r)
  {
    errors := [];
    if !EqualsInt(r.schemaVersion, REVIEW_SCHEMA_VERSION) {
      errors := errors + [WrongSchema];
    }
    if r.reviewer != Str(REVIEWER) {
      errors := errors + [WrongReviewer];
    }
    var body: seq<Problem>;
    if IsCompact(r) {
      f, body := ReadCompact(req, r);
    } else {
      f, body := ReadCases(req, r.cases);
      if r.modes != ALL_MODES {
        body := body + [WrongModes];
      }
      if r.success != Bool(f.observed != {} && Failed(f.ids) == {}) {
        body := body + [InconsistentSuccess];
      }
    }
    var missing, unexpected := req - f.observed, f.observed - req;
    var coverage := (if missing != {} then [MissingCases(missing)] else [])
                    + (if unexpected != {} then [UnexpectedCases(unexpected)] else []);
    assert coverage == [] <==> f.observed == req by {
      EqualByDifferences(req, f.observed);
    }
    var totals := if r.summary.None? || !SummaryOk(r.summary.value, f) then [InconsistentTotals] else [];
    errors := errors + body + coverage + totals;
  }

  lemma EqualByDifferences<T>(a: set<T>, b: set<T>)
    ensures a - b == {} && b - a == {} <==> a == b
  {
    if a - b == {} && b - a == {} {
      forall x ensures x in a <==> x in b { assert x !in a - b && x !in b - a; }
    }
  }

  // ----- The full form -----

  method ReadCases(req: set<Key>, cases: Option<seq<Case>>) returns (f: Filed, errors: seq<Problem>)
    ensures f == FileCases(req, if cases.Some? then cases.value else [])
    ensures errors == [] <==> cases.Some? && CasesOk(req, cases.value)
  {
    f, errors := Filed({}, map[]), [];
    if cases.None? {
      return f, [NoCases];
    }
    var cs := cases.value;
    for i := 0 to |cs|
      invariant f == FileCases(req, cs[..i])
      invariant errors == [] <==> CasesOk(req, cs[..i])
    {
      assert cs[..i + 1][..i] == cs[..i];
      FiledUnderObserved(req, cs[..i]);
      var more;
      f, more := ReadCase(req, f, cs[i]);
      errors := errors + more;
    }
    assert cs[..|cs|] == cs;
  }

  lemma {:induction false} FiledUnderObserved(req: set<Key>, cases: seq<Case>)
    ensures FiledUnder(FileCases(req, cases))
    decreases |cases|
  {
    if cases != [] {
      FiledUnderObserved(req, cases[..|cases| - 1]);
    }
  }

  method ReadCase(req: set<Key>, before: Filed, c: Case) returns (f: Filed, errors: seq<Problem>)
    requires FiledUnder(before)
    ensures f == match FilingKey(req, before.observed, c)
                 case Some(k) => Filed(before.observed + {k}, before.ids + CaseMap(k, ChecksIn(c)))
                 case None => before
    ensures errors == [] <==> CaseOk(req, before.observed, c)
  {
    f := before;
    if c.MalformedCase? {
      return f, [MalformedCaseEntry];
    }
    if !c.mode.Str? || !c.transport.Str? || (c.mode.s, c.transport.s) !in req {
      return f, [UnexpectedCase];
    }
    var k := (c.mode.s, c.transport.s);
    if k in before.observed {
      return f, [DuplicateCase];
    }
    var checks := ChecksIn(c);
    if checks == [] {
      assert before.ids + CaseMap(k, []) == before.ids;
      return Filed(before.observed + {k}, before.ids), [NoChecks(k)];
    }
    var ids, success;
    ids, success, errors := ReadChecks(before.ids, k, checks);
    if c.success != Bool(success) {
      errors := errors + [InconsistentCase(k)];
    }
    f := Filed(before.observed + {k}, ids);
  }

  // Recording a case's checks into the shared dictionary.
  method ReadChecks(before: Ids, k: Key, checks: seq<Check>) returns (ids: Ids, success: bool, errors: seq<Problem>)
    requires forall id :: id in before ==> !InCase(id, k)
    ensures ids == before + CaseMap(k, checks)
    ensures errors == [] <==> ChecksOk(checks)
    ensures errors == [] ==> success == AllSucceed(checks)
  {
    ids, success, errors := before, true, [];
    assert before + CaseMap(k, []) == before;
    for i := 0 to |checks|
      invariant ids == before + CaseMap(k, checks[..i])
      invariant errors == [] <==> ChecksOk(checks[..i])
      invariant errors == [] ==> success == AllSucceed(checks[..i])
    {
      ghost var front := checks[..i];
      var c := checks[i];
      assert checks[..i + 1] == front + [c];
      NextCheck(k, front, c);
      if !CheckOk(c) {
        errors := errors + [MalformedCheckEntry];
      } else {
        var id := CheckIdentity(k, c);
        UnionUpdate(before, CaseMap(k, front), k, id, c.success.b);
        if id in ids {
          errors := errors + [DuplicateCheck];
        } else {
          ids := ids[id := c.success.b];
          success := success && c.success.b;
        }
      }
    }
    assert checks[..|checks|] == checks;
  }

  lemma UnionUpdate(before: Ids, own: Ids, k: Key, id: Identity, success: bool)
    requires InCase(id, k) && forall x :: x in before ==> !InCase(x, k)
    ensures id in before + own <==> id in own
    ensures (before + own)[id := success] == before + own[id := success]
  {}

  // What one more check does to a case.
  lemma NextCheck(k: Key, front: seq<Check>, c: Check)
    ensures CaseMap(k, front + [c]) ==
            if !CheckOk(c) || CheckIdentity(k, c) in CaseMap(k, front) then CaseMap(k, front)
            else CaseMap(k, front)[CheckIdentity(k, c) := c.success.b]
    ensures ChecksOk(front + [c]) <==> ChecksOk(front) && CheckOk(c) && CheckIdentity(k, c) !in CaseMap(k, front)
    ensures CheckOk(c) ==> (AllSucceed(front + [c]) <==> AllSucceed(front) && c.success.b)
  {
    var checks := front + [c];
    assert checks[..|front|] == front && checks[|front|] == c;
    ChecksOkGrows(front, c);
    NamesGrow(front, c);
    if ChecksOk(front) && CheckOk(c) {
      NameRecorded(k, front, c);
    }
  }

  lemma {:induction false} CaseMapNames(k: Key, checks: seq<Check>, id: Identity)
    requires InCase(id, k)
    ensures id in CaseMap(k, checks) <==> exists i :: 0 <= i < |checks| && CheckOk(checks[i]) && checks[i].name == Str(id.checkId)
    decreases |checks|
  {
    if checks != [] {
      var n := |checks| - 1;
      var front := checks[..n];
      CaseMapNames(k, front, id);
      assert forall i :: 0 <= i < n ==> front[i] == checks[i];
      if id in CaseMap(k, front) {
        var i :| 0 <= i < n && CheckOk(front[i]) && front[i].name == Str(id.checkId);
        assert checks[i].name == Str(id.checkId);
      }
    }
  }

  function NamesIn(checks: seq<Check>): set<Json> {
    set c | c in checks && c.Check? :: c.name
  }

  lemma NamesGrow(front: seq<Check>, last: Check)
    ensures NamesIn(front + [last]) == NamesIn(front) + if last.Check? then {last.name} else {}
    ensures AllSucceed(front + [last]) <==> AllSucceed(front) && last.Check? && last.success == Bool(true)
  {
    var checks := front + [last];
    assert last in checks && forall c :: c in checks <==> c in front || c == last;
  }

  lemma ChecksOkGrows(front: seq<Check>, last: Check)
    ensures ChecksOk(front + [last]) <==> ChecksOk(front) && CheckOk(last) && last.name !in NamesIn(front)
  {
    var checks, n := front + [last], |front|;
    assert checks[n] == last && forall i :: 0 <= i < n ==> checks[i] == front[i];
    if ChecksOk(checks) {
      forall c | c in front && c.Check?
        ensures c.name != last.name
      {
        var i :| 0 <= i < n && front[i] == c;
        assert checks[i].name != checks[n].name;
      }
    }
    if ChecksOk(front) && CheckOk(last) && last.name !in NamesIn(front) {
      forall i | 0 <= i < n
        ensures checks[i].name != last.name
      {
        assert CheckOk(front[i]) && front[i] in front;
      }
    }
  }

  lemma NameRecorded(k: Key, front: seq<Check>, c: Check)
    requires CheckOk(c) && ChecksOk(front)
    ensures c.name in NamesIn(front) <==> CheckIdentity(k, c) in CaseMap(k, front)
  {
    var id := CheckIdentity(k, c);
    CaseMapNames(k, front, id);
    if c.name in NamesIn(front) {
      var d :| d in front && d.Check? && d.name == c.name;
      var i :| 0 <= i < |front| && front[i] == d;
      assert CheckOk(front[i]) && front[i].name == Str(id.checkId);
    }
    if id in CaseMap(k, front) {
      var i :| 0 <= i < |front| && CheckOk(front[i]) && front[i].name == Str(id.checkId);
      assert front[i] in front;
    }
  }

  // ----- The compact form -----

  method ReadRefs(refs: Option<seq<CaseRef>>) returns (observed: set<Key>, errors: seq<Problem>)
    ensures observed == if refs.Some? then RefsSeen(refs.value) else {}
    ensures errors == [] <==> refs.Some? && RefsOk(refs.value)
  {
    observed, errors := {}, [];
    if refs.None? {
      return observed, [NoRequiredCases];
    }
    var rs := refs.value;
    for i := 0 to |rs|
      invariant observed == RefsSeen(rs[..i])
      invariant errors == [] <==> RefsOk(rs[..i])
    {
      assert rs[..i + 1] == rs[..i] + [rs[i]] && rs[..i + 1][..i] == rs[..i];
      RefsSeenGrow(rs[..i], rs[i]);
      if rs[i].MalformedRef? || KeyIn(rs[i].mode, rs[i].transport).None? {
        errors := errors + [MalformedCaseEntry];
      } else {
        var k := KeyIn(rs[i].mode, rs[i].transport).value;
        if k in observed {
          errors := errors + [DuplicateCase];
        } else {
          observed := observed + {k};
        }
      }
    }
    assert rs[..|rs|] == rs;
  }

  lemma RefsSeenGrow(front: seq<CaseRef>, last: CaseRef)
    ensures RefsSeen(front + [last]) ==
            RefsSeen(front) +
            if last.CaseRef? && KeyIn(last.mode, last.transport).Some? then {KeyIn(last.mode, last.transport).value} else {}
  {
    var refs := front + [last];
    assert last in refs && forall r :: r in refs <==> r in front || r == last;
    if last.CaseRef? && KeyIn(last.mode, last.transport).Some? {
      assert KeyIn(last.mode, last.transport).value in RefsSeen(refs);
    }
  }

  method ReadRecords(req: set<Key>, before: Ids, records: Option<seq<Record>>, success: bool) returns (ids: Ids, errors: seq<Problem>)
    ensures ids == AddRecords(req, before, Bucket(records), success)
    ensures errors == [] <==> records.Some? && RecordsOk(req, before, records.value, success)
  {
    ids, errors := before, [];
    if records.None? {
      return ids, [NoBucket(success)];
    }
    var rs := records.value;
    for i := 0 to |rs|
      invariant ids == AddRecords(req, before, rs[..i], success)
      invariant errors == [] <==> RecordsOk(req, before, rs[..i], success)
    {
      var next := rs[..i + 1];
      assert next[..i] == rs[..i] && next[i] == rs[i];
      match RecordIdentity(req, rs[i]) {
        case None =>
          errors := errors + [MalformedCheckEntry];
        case Some(id) =>
          if id in ids {
            errors := errors + [DuplicateCheck];
          } else {
            ids := ids[id := success];
          }
      }
    }
    assert rs[..|rs|] == rs;
  }

  method ReadCompact(req: set<Key>, r: Report) returns (f: Filed, errors: seq<Problem>)
    requires IsCompact(r)
    ensures f == Read(req, r)
    ensures errors == [] <==> CompactOk(req, r)
  {
    errors := [];
    if r.requiredModes != ALL_MODES {
      errors := errors + [WrongModes];
    }
    if r.baselineKind != Str(BASELINE_KIND) {
      errors := errors + [UnsupportedFormat];
    }
    var observed, refs := ReadRefs(r.requiredCases);
    errors := errors + refs;
    if r.checks.None? {
      errors := errors + [NoIdentities];
    }
    var b := if r.checks.Some? then r.checks.value else Buckets(None, None);
    var ids, passing := ReadRecords(req, map[], b.passing, true);
    var failing;
    ids, failing := ReadRecords(req, ids, b.failing, false);
    errors := errors + passing + failing;
    f := Filed(observed, ids);
  }

  // ----- The gate and the baseline -----

  method SortIdentities(s: set<Identity>) returns (r: seq<Identity>)
    ensures r == SortedIds(s)
  {
    KeysAreInjective();
    r := SortSet(IdKey, s);
    ListingIsUnique(IdKey, s, r, SortedIds(s));
  }

  method SortFailures(base: Ids, cand: Ids) returns (introduced: seq<Identity>, known: seq<Identity>)
    ensures introduced == SortedIds(NewFailures(base, cand)) && known == SortedIds(KnownFailures(base, cand))
  {
    var order := SortIdentities(cand.Keys);
    introduced, known := [], [];
    for i := 0 to |order|
      invariant introduced == Keep(order[..i], NewFailures(base, cand))
      invariant known == Keep(order[..i], KnownFailures(base, cand))
    {
      KeepStep(order, i, NewFailures(base, cand));
      KeepStep(order, i, KnownFailures(base, cand));
      var id := order[i];
      assert id in cand;
      if !cand[id] {
        if id in base && !base[id] {
          known := known + [id];
        } else {
          introduced := introduced + [id];
        }
      }
    }
    assert order[..|order|] == order;
    KeysAreInjective();
    KeepIsSorted(IdKey, cand.Keys, NewFailures(base, cand));
    KeepIsSorted(IdKey, cand.Keys, KnownFailures(base, cand));
  }

  method SortRecorded(base: Ids, cand: Ids) returns (missing: seq<Identity>, fixed: seq<Identity>)
    ensures missing == SortedIds(MissingChecks(base, cand)) && fixed == SortedIds(FixedChecks(base, cand))
  {
    var order := SortIdentities(base.Keys);
    missing, fixed := [], [];
    for i := 0 to |order|
      invariant missing == Keep(order[..i], MissingChecks(base, cand))
      invariant fixed == Keep(order[..i], FixedChecks(base, cand))
    {
      KeepStep(order, i, MissingChecks(base, cand));
      KeepStep(order, i, FixedChecks(base, cand));
      var id := order[i];
      assert id in base;
      if id !in cand {
        missing := missing + [id];
      } else if !base[id] && cand[id] {
        fixed := fixed + [id];
      }
    }
    assert order[..|order|] == order;
    KeysAreInjective();
    KeepIsSorted(IdKey, base.Keys, MissingChecks(base, cand));
    KeepIsSorted(IdKey, base.Keys, FixedChecks(base, cand));
  }

  method EvaluateReviewGate(req: set<Key>, cand: Report, base: Report) returns (v: Verdict, errors: seq<Problem>)
    ensures JudgedBy(req, cand, base, v)
    ensures v == Evaluate(req, cand, base)
    ensures v.success <==> errors == [] && v.newFailures == [] && v.missingChecks == []
  {
    var b, baseErrors := ReadReview(req, base);
    var c, candErrors := ReadReview(req, cand);
    errors := baseErrors + candErrors;
    var introduced, known := SortFailures(b.ids, c.ids);
    var missing, fixed := SortRecorded(b.ids, c.ids);
    KeysAreInjective();
    EmptyListing(IdKey, NewFailures(b.ids, c.ids));
    EmptyListing(IdKey, MissingChecks(b.ids, c.ids));
    v := Verdict(errors == [] && introduced == [] && missing == [], introduced, missing, known, fixed);
    VerdictMeans(req, cand, base);
  }

  method CompactReviewBaseline(req: set<Key>, report: Report) returns (r: Option<Report>, errors: seq<Problem>)
    ensures r.Some? <==> Acceptable(req, report)
    ensures r.Some? ==> StandsFor(req, r.value, report)
    ensures r == Compact(req, report)
    ensures errors == [] <==> r.Some?
  {
    BaselineExistsIff(req, report);
    var f;
    f, errors := ReadReview(req, report);
    if errors != [] {
      return None, errors;
    }
    KeysAreInjective();
    var cases := SortSet(CaseOrder, req);
    ListingIsUnique(CaseOrder, req, cases, SortedCases(req));
    var passing := SortIdentities(Passing(f.ids));
    var failing := SortIdentities(Failed(f.ids));
    r := Some(CompactForm(report, cases, passing, failing));
  }
}
