// Compact reviewer baselines, and the gate between two reviewer reports.
module ReviewBaseline {
  import opened Prelude
  import opened Json
  import opened Ordering
  import opened ReviewReport

  // ----- Sorting -----

  function IdKey(id: Identity): seq<string> {
    [id.mode, id.transport, id.checkId]
  }

  function CaseOrder(k: Key): seq<string> {
    [k.0, k.1]
  }

  lemma KeysAreInjective()
    ensures Injective(IdKey) && Injective(CaseOrder)
  {
    forall x, y | IdKey(x) == IdKey(y)
      ensures x == y
    {
      assert IdKey(x)[0] == IdKey(y)[0] && IdKey(x)[1] == IdKey(y)[1] && IdKey(x)[2] == IdKey(y)[2];
    }
    forall x, y | CaseOrder(x) == CaseOrder(y)
      ensures x == y
    {
      assert CaseOrder(x)[0] == CaseOrder(y)[0] && CaseOrder(x)[1] == CaseOrder(y)[1];
    }
  }

  ghost function SortedIds(s: set<Identity>): (r: seq<Identity>)
    ensures Lists(IdKey, s, r)
  {
    KeysAreInjective();
    Sorted(IdKey, s)
  }

  ghost function SortedCases(s: set<Key>): (r: seq<Key>)
    ensures Lists(CaseOrder, s, r)
  {
    KeysAreInjective();
    Sorted(CaseOrder, s)
  }

  // ----- What a reader can have recorded -----

  predicate Recordable(req: set<Key>, id: Identity) {
    (id.mode, id.transport) in req && CHECK_PREFIX <= id.checkId
  }

  predicate AllRecordable(req: set<Key>, ids: Ids) {
    forall id :: id in ids ==> Recordable(req, id)
  }

  lemma {:induction false} CaseMapIsRecordable(req: set<Key>, k: Key, checks: seq<Check>)
    requires k in req
    ensures AllRecordable(req, CaseMap(k, checks))
    decreases |checks|
  {
    if checks != [] {
      CaseMapIsRecordable(req, k, checks[..|checks| - 1]);
    }
  }

  lemma {:induction false} FiledIsRecordable(req: set<Key>, cases: seq<Case>)
    ensures AllRecordable(req, FileCases(req, cases).ids)
    decreases |cases|
  {
    if cases != [] {
      var n := |cases| - 1;
      FiledIsRecordable(req, cases[..n]);
      var before := FileCases(req, cases[..n]);
      if FilingKey(req, before.observed, cases[n]).Some? {
        CaseMapIsRecordable(req, FilingKey(req, before.observed, cases[n]).value, ChecksIn(cases[n]));
      }
    }
  }

  lemma {:induction false} RecordsAreRecordable(req: set<Key>, ids: Ids, records: seq<Record>, success: bool)
    requires AllRecordable(req, ids)
    ensures AllRecordable(req, AddRecords(req, ids, records, success))
    decreases |records|
  {
    if records != [] {
      RecordsAreRecordable(req, ids, records[..|records| - 1], success);
    }
  }

  lemma IdsAreRecordable(req: set<Key>, r: Report)
    ensures AllRecordable(req, IdsOf(req, r))
  {
    if !IsCompact(r) {
      FiledIsRecordable(req, if r.cases.Some? then r.cases.value else []);
    } else {
      var b := if r.checks.Some? then r.checks.value else Buckets(None, None);
      RecordsAreRecordable(req, map[], Bucket(b.passing), true);
      RecordsAreRecordable(req, AddRecords(req, map[], Bucket(b.passing), true), Bucket(b.failing), false);
    }
  }

  // ----- Compaction -----

  function RecordOf(id: Identity): Record {
    Record(Str(id.mode), Str(id.transport), Str(id.checkId))
  }

  function RecordsOf(ids: seq<Identity>): seq<Record> {
    seq(|ids|, i requires 0 <= i < |ids| => RecordOf(ids[i]))
  }

  function RefsOf(keys: seq<Key>): seq<CaseRef> {
    seq(|keys|, i requires 0 <= i < |keys| => CaseRef(Str(keys[i].0), Str(keys[i].1)))
  }

  function CompactForm(r: Report, cases: seq<Key>, passing: seq<Identity>, failing: seq<Identity>): Report {
    Report(
      Int(REVIEW_SCHEMA_VERSION),
      Str(REVIEWER),
      Str(BASELINE_KIND),
      Null,
      ALL_MODES,
      Some(RefsOf(cases)),
      Some(Buckets(Some(RecordsOf(passing)), Some(RecordsOf(failing)))),
      None,
      r.summary,
      Null)
  }

  ghost function Compact(req: set<Key>, r: Report): Option<Report> {
    if Valid(req, r)
    then Some(CompactForm(r, SortedCases(req), SortedIds(Passing(IdsOf(req, r))), SortedIds(Failed(IdsOf(req, r)))))
    else None
  }

  function Constant(s: set<Identity>, success: bool): Ids {
    map id | id in s :: success
  }

  lemma RecordReadsBack(req: set<Key>, id: Identity)
    requires Recordable(req, id)
    ensures RecordIdentity(req, RecordOf(id)) == Some(id)
  {}

  lemma AddRecordsLast(req: set<Key>, base: Ids, front: seq<Record>, last: Record, success: bool)
    requires RecordIdentity(req, last).Some?
    ensures var id, before := RecordIdentity(req, last).value, AddRecords(req, base, front, success);
            id !in before ==>
              && AddRecords(req, base, front + [last], success) == before[id := success]
              && (RecordsOk(req, base, front, success) ==> RecordsOk(req, base, front + [last], success))
  {
    var records := front + [last];
    assert records[..|front|] == front && records[|front|] == last;
  }

  lemma ConstantGrows(base: Ids, s: set<Identity>, id: Identity, success: bool)
    requires id in s
    ensures base + Constant(s, success) == (base + Constant(s - {id}, success))[id := success]
  {}

  lemma NothingListed<T(!new)>(key: T -> seq<string>, s: set<T>)
    requires Lists(key, s, [])
    ensures s == {}
  {}

  lemma {:induction false} ListedRecordsReadBack(req: set<Key>, base: Ids, s: set<Identity>, r: seq<Identity>, success: bool)
    requires Lists(IdKey, s, r) && s !! base.Keys && forall id :: id in s ==> Recordable(req, id)
    ensures RecordsOk(req, base, RecordsOf(r), success)
    ensures AddRecords(req, base, RecordsOf(r), success) == base + Constant(s, success)
    decreases |r|
  {
    if r == [] {
      NothingListed(IdKey, s);
      assert base + Constant(s, success) == base;
    } else {
      var n := |r| - 1;
      var front, last := r[..n], r[n];
      assert last in r;
      KeyLessIsTotal();
      DropLast(IdKey, s, r);
      ListedRecordsReadBack(req, base, s - {last}, front, success);
      RecordReadsBack(req, last);
      ConstantGrows(base, s, last, success);
      AddRecordsLast(req, base, RecordsOf(front), RecordOf(last), success);
      assert RecordsOf(r) == RecordsOf(front) + [RecordOf(last)];
    }
  }

  // The references name each case of `s` once.
  predicate RefsList(s: set<Key>, keys: seq<Key>) {
    RefsOk(RefsOf(keys)) && RefsSeen(RefsOf(keys)) == s
  }

  lemma RefsLast(s: set<Key>, front: seq<Key>, k: Key)
    requires RefsList(s, front) && k !in s
    ensures RefsList(s + {k}, front + [k])
  {
    var refs, before := RefsOf(front + [k]), RefsOf(front);
    var last := CaseRef(Str(k.0), Str(k.1));
    assert refs == before + [last] && refs[..|front|] == before;
    assert KeyIn(last.mode, last.transport) == Some(k) && last in refs;
    assert RefsSeen(refs) == RefsSeen(before) + {k};
  }

  lemma {:induction false} ListedRefsReadBack(s: set<Key>, r: seq<Key>)
    requires Lists(CaseOrder, s, r)
    ensures RefsList(s, r)
    decreases |r|
  {
    if r == [] {
      NothingListed(CaseOrder, s);
    } else {
      var front, last := r[..|r| - 1], r[|r| - 1];
      assert last in r;
      KeyLessIsTotal();
      DropLast(CaseOrder, s, r);
      ListedRefsReadBack(s - {last}, front);
      RefsLast(s - {last}, front, last);
      assert r == front + [last] && s == s - {last} + {last};
    }
  }

  lemma SplitByOutcome(ids: Ids)
    ensures Constant(Passing(ids), true) + Constant(Failed(ids), false) == ids
    ensures map[] + Constant(Passing(ids), true) == Constant(Passing(ids), true)
  {}

  lemma BucketsReadBack(req: set<Key>, ids: Ids, passing: seq<Identity>, failing: seq<Identity>)
    requires AllRecordable(req, ids) && Lists(IdKey, Passing(ids), passing) && Lists(IdKey, Failed(ids), failing)
    ensures var one := AddRecords(req, map[], RecordsOf(passing), true);
            && RecordsOk(req, map[], RecordsOf(passing), true)
            && RecordsOk(req, one, RecordsOf(failing), false)
            && AddRecords(req, one, RecordsOf(failing), false) == ids
  {
    SplitByOutcome(ids);
    ListedRecordsReadBack(req, map[], Passing(ids), passing, true);
    ListedRecordsReadBack(req, Constant(Passing(ids), true), Failed(ids), failing, false);
  }

  lemma CompactRead(req: set<Key>, r: Report)
    requires Valid(req, r)
    ensures var c := Compact(req, r).value;
            IsCompact(c) && CompactOk(req, c) && Read(req, c) == Read(req, r)
  {
    var ids := IdsOf(req, r);
    IdsAreRecordable(req, r);
    ListedRefsReadBack(req, SortedCases(req));
    BucketsReadBack(req, ids, SortedIds(Passing(ids)), SortedIds(Failed(ids)));
  }

  // The compact baseline of a valid report is valid, and records the same outcomes and totals.
  lemma CompactReadsBack(req: set<Key>, r: Report)
    requires Valid(req, r)
    ensures var c := Compact(req, r).value;
            && Valid(req, c)
            && IdsOf(req, c) == IdsOf(req, r)
            && c.summary == r.summary
  {
    CompactRead(req, r);
  }

  lemma CompactionIsIdempotent(req: set<Key>, r: Report)
    requires Valid(req, r)
    ensures var c := Compact(req, r).value; Compact(req, c) == Some(c)
  {
    CompactReadsBack(req, r);
  }

  // ----- The gate -----

  function NewFailures(base: Ids, cand: Ids): set<Identity> {
    Failed(cand) - Failed(base)
  }

  function KnownFailures(base: Ids, cand: Ids): set<Identity> {
    Failed(cand) * Failed(base)
  }

  function MissingChecks(base: Ids, cand: Ids): set<Identity> {
    base.Keys - cand.Keys
  }

  function FixedChecks(base: Ids, cand: Ids): set<Identity> {
    Failed(base) * Passing(cand)
  }

  predicate Passes(req: set<Key>, cand: Report, base: Report) {
    && Valid(req, base) && Valid(req, cand)
    && NewFailures(IdsOf(req, base), IdsOf(req, cand)) == {}
    && MissingChecks(IdsOf(req, base), IdsOf(req, cand)) == {}
  }

  datatype Verdict = Verdict(
    success: bool,
    newFailures: seq<Identity>,
    missingChecks: seq<Identity>,
    knownFailures: seq<Identity>,
    fixedChecks: seq<Identity>)

  ghost function Evaluate(req: set<Key>, cand: Report, base: Report): Verdict {
    var b, c := IdsOf(req, base), IdsOf(req, cand);
    Verdict(
      Passes(req, cand, base),
      SortedIds(NewFailures(b, c)),
      SortedIds(MissingChecks(b, c)),
      SortedIds(KnownFailures(b, c)),
      SortedIds(FixedChecks(b, c)))
  }

  // Nothing recorded is lost, no failure appears and no pass turns into one.
  predicate NoWorse(base: Ids, cand: Ids) {
    base.Keys <= cand.Keys && Failed(cand) <= Failed(base) && Passing(base) <= Passing(cand)
  }

  lemma NoWorseMeans(base: Ids, cand: Ids)
    ensures NewFailures(base, cand) == {} && MissingChecks(base, cand) == {} <==> NoWorse(base, cand)
  {
    if NewFailures(base, cand) == {} && MissingChecks(base, cand) == {} {
      forall id | id in base
        ensures id in cand
      {
        assert id !in MissingChecks(base, cand);
      }
      forall id | id in Failed(cand)
        ensures id in Failed(base)
      {
        assert id !in NewFailures(base, cand);
      }
    }
  }

  lemma PassesMeans(req: set<Key>, cand: Report, base: Report)
    ensures Passes(req, cand, base) <==>
            Valid(req, base) && Valid(req, cand) && NoWorse(IdsOf(req, base), IdsOf(req, cand))
  {
    NoWorseMeans(IdsOf(req, base), IdsOf(req, cand));
  }

  // Along a chain of accepted baselines the recorded checks only grow and the failures only shrink.
  lemma {:induction false} AcceptedChainsOnlyImprove(req: set<Key>, rs: seq<Report>)
    requires rs != [] && Valid(req, rs[0])
    requires forall i :: 0 <= i < |rs| - 1 ==> Passes(req, rs[i + 1], rs[i])
    ensures Passes(req, rs[|rs| - 1], rs[0])
    ensures NoWorse(IdsOf(req, rs[0]), IdsOf(req, rs[|rs| - 1]))
    decreases |rs|
  {
    var n := |rs| - 1;
    if n > 0 {
      var front := rs[..n];
      forall i | 0 <= i < |front| - 1
        ensures Passes(req, front[i + 1], front[i])
      {
        assert Passes(req, rs[i + 1], rs[i]);
      }
      AcceptedChainsOnlyImprove(req, front);
      assert Passes(req, rs[n - 1 + 1], rs[n - 1]);
      PassesMeans(req, rs[n], rs[n - 1]);
      PassesMeans(req, rs[n - 1], rs[0]);
    }
    PassesMeans(req, rs[n], rs[0]);
  }

  // Every candidate is judged alike against a report and against its compact baseline.
  lemma CompactionPreservesVerdicts(req: set<Key>, r: Report, cand: Report)
    requires Valid(req, r)
    ensures Evaluate(req, cand, Compact(req, r).value) == Evaluate(req, cand, r)
  {
    CompactReadsBack(req, r);
  }
}
