// The reviewer report a run assembles, and when it reads back without complaint.
module ReviewGate {
  import opened Prelude
  import opened Json
  import opened ReviewReport

  // ----- Assembling a report -----

  datatype Outcome = Outcome(name: string, success: bool)

  // A case that was run, and the checks it recorded.
  datatype Ran = Ran(key: Key, outcomes: seq<Outcome>)

  function ChecksFor(outcomes: seq<Outcome>): seq<Check> {
    seq(|outcomes|, i requires 0 <= i < |outcomes| => Check(Str(outcomes[i].name), Bool(outcomes[i].success)))
  }

  predicate CaseSucceeds(outcomes: seq<Outcome>) {
    outcomes != [] && forall o :: o in outcomes ==> o.success
  }

  function CaseFor(r: Ran): Case {
    Case(Str(r.key.0), Str(r.key.1), Bool(CaseSucceeds(r.outcomes)), Some(ChecksFor(r.outcomes)))
  }

  function CasesFor(rs: seq<Ran>): seq<Case> {
    seq(|rs|, i requires 0 <= i < |rs| => CaseFor(rs[i]))
  }

  function TotalChecks(rs: seq<Ran>): nat {
    if rs == [] then 0 else TotalChecks(rs[..|rs| - 1]) + |rs[|rs| - 1].outcomes|
  }

  function CountFailed(outcomes: seq<Outcome>): nat {
    if outcomes == [] then 0
    else CountFailed(outcomes[..|outcomes| - 1]) + if outcomes[|outcomes| - 1].success then 0 else 1
  }

  function FailedChecks(rs: seq<Ran>): nat {
    if rs == [] then 0 else FailedChecks(rs[..|rs| - 1]) + CountFailed(rs[|rs| - 1].outcomes)
  }

  function SucceededCases(rs: seq<Ran>): nat {
    if rs == [] then 0
    else SucceededCases(rs[..|rs| - 1]) + if CaseSucceeds(rs[|rs| - 1].outcomes) then 1 else 0
  }

  function Assemble(rs: seq<Ran>): Report {
    Report(
      Int(REVIEW_SCHEMA_VERSION),
      Str(REVIEWER),
      Null,
      ALL_MODES,
      Null,
      None,
      None,
      Some(CasesFor(rs)),
      Some(Summary(
             Int(TotalChecks(rs) - FailedChecks(rs)),
             Int(FailedChecks(rs)),
             Int(TotalChecks(rs)),
             Int(SucceededCases(rs)),
             Int(|rs|))),
      Bool(rs != [] && forall r :: r in rs ==> CaseSucceeds(r.outcomes)))
  }

  predicate Names(outcomes: seq<Outcome>) {
    && (forall o :: o in outcomes ==> CHECK_PREFIX <= o.name)
    && forall i, j :: 0 <= i < j < |outcomes| ==> outcomes[i].name != outcomes[j].name
  }

  predicate WellNamed(outcomes: seq<Outcome>) {
    outcomes != [] && Names(outcomes)
  }

  // ----- One case -----

  lemma FreshIdCounts(before: Ids, id: Identity, success: bool)
    requires id !in before
    ensures var after := before[id := success];
            |after| == |before| + 1 && |Failed(after)| == |Failed(before)| + if success then 0 else 1
  {
    var one := map[id := success];
    assert before[id := success] == before + one;
    assert Failed(one) == if success then {} else {id};
    UnionIdCounts(before, one);
  }

  predicate NamedIn(outcomes: seq<Outcome>, name: string) {
    exists i :: 0 <= i < |outcomes| && outcomes[i].name == name
  }

  lemma CaseMapLast(k: Key, front: seq<Outcome>, last: Outcome)
    requires CHECK_PREFIX <= last.name
    ensures CaseMap(k, ChecksFor(front + [last])) ==
            var before := CaseMap(k, ChecksFor(front));
            var id := Identity(k.0, k.1, last.name);
            if id in before then before else before[id := last.success]
  {
    var checks := ChecksFor(front + [last]);
    assert checks[..|front|] == ChecksFor(front);
  }

  // Well-named outcomes are all recorded, each under its own name.
  lemma {:induction false} CaseMapCounts(k: Key, outcomes: seq<Outcome>)
    requires Names(outcomes)
    ensures var ids := CaseMap(k, ChecksFor(outcomes));
            && |ids| == |outcomes|
            && |Failed(ids)| == CountFailed(outcomes)
            && (forall id :: id in ids ==> NamedIn(outcomes, id.checkId))
    decreases |outcomes|
  {
    if outcomes == [] {
      assert Failed(map[]) == {};
    } else {
      var front, last := outcomes[..|outcomes| - 1], outcomes[|outcomes| - 1];
      assert outcomes == front + [last] && last in outcomes;
      assert !NamedIn(front, last.name);
      CaseMapCounts(k, front);
      CaseMapLast(k, front, last);
      FreshIdCounts(CaseMap(k, ChecksFor(front)), Identity(k.0, k.1, last.name), last.success);
      NamedInGrows(outcomes);
    }
  }

  lemma NamedInGrows(outcomes: seq<Outcome>)
    requires outcomes != []
    ensures NamedIn(outcomes, outcomes[|outcomes| - 1].name)
    ensures forall name :: NamedIn(outcomes[..|outcomes| - 1], name) ==> NamedIn(outcomes, name)
  {
    forall name | NamedIn(outcomes[..|outcomes| - 1], name)
      ensures NamedIn(outcomes, name)
    {
      var i :| 0 <= i < |outcomes| - 1 && outcomes[..|outcomes| - 1][i].name == name;
      assert outcomes[i].name == name;
    }
  }

  lemma CasePassesMeans(ids: Ids, k: Key)
    requires forall id :: id in ids ==> InCase(id, k)
    ensures CasePasses(ids, k) <==> ids != map[] && Failed(ids) == {}
  {
    if ids != map[] {
      var id :| id in ids;
      assert InCase(id, k);
    }
    if Failed(ids) == {} {
      forall id | id in ids ensures ids[id] { assert id !in Failed(ids); }
    }
  }

  lemma CasePassesIff(k: Key, outcomes: seq<Outcome>)
    requires Names(outcomes)
    ensures CasePasses(CaseMap(k, ChecksFor(outcomes)), k) <==> CaseSucceeds(outcomes)
  {
    var ids := CaseMap(k, ChecksFor(outcomes));
    CaseMapCounts(k, outcomes);
    NoneFailed(outcomes);
    CasePassesMeans(ids, k);
    EmptyCounts(ids);
  }

  lemma EmptyCounts(ids: Ids)
    ensures |Failed(ids)| == 0 <==> Failed(ids) == {}
    ensures |ids| == 0 <==> ids == map[]
  {}

  lemma {:induction false} NoneFailed(outcomes: seq<Outcome>)
    ensures CountFailed(outcomes) == 0 <==> forall o :: o in outcomes ==> o.success
    decreases |outcomes|
  {
    if outcomes != [] {
      var n := |outcomes| - 1;
      NoneFailed(outcomes[..n]);
      assert outcomes == outcomes[..n] + [outcomes[n]];
    }
  }

  lemma NamedChecksOk(outcomes: seq<Outcome>)
    ensures ChecksOk(ChecksFor(outcomes)) <==> Names(outcomes)
  {
    var checks := ChecksFor(outcomes);
    if ChecksOk(checks) {
      forall o | o in outcomes
        ensures CHECK_PREFIX <= o.name
      {
        var i :| 0 <= i < |outcomes| && outcomes[i] == o;
        assert CheckOk(checks[i]);
      }
      forall i, j | 0 <= i < j < |outcomes|
        ensures outcomes[i].name != outcomes[j].name
      {
        assert checks[i].name != checks[j].name;
      }
    }
    if Names(outcomes) {
      forall i | 0 <= i < |checks|
        ensures CheckOk(checks[i])
      {
        assert outcomes[i] in outcomes;
      }
    }
  }

  // ----- All cases -----

  function KeysOf(rs: seq<Ran>): set<Key> {
    set r | r in rs :: r.key
  }

  predicate DistinctKeys(rs: seq<Ran>) {
    forall i, j :: 0 <= i < j < |rs| ==> rs[i].key != rs[j].key
  }

  ghost predicate Totals(rs: seq<Ran>, f: Filed) {
    && f.observed == KeysOf(rs)
    && |f.observed| == |rs|
    && |f.ids| == TotalChecks(rs)
    && |Failed(f.ids)| == FailedChecks(rs)
    && |PassedCases(f)| == SucceededCases(rs)
    && FiledUnder(f)
  }

  // All outcomes of the run.
  function RunMap(rs: seq<Ran>): Ids {
    if rs == [] then map[]
    else RunMap(rs[..|rs| - 1]) + CaseMap(rs[|rs| - 1].key, ChecksFor(rs[|rs| - 1].outcomes))
  }

  lemma {:induction false} RunTotals(rs: seq<Ran>)
    requires DistinctKeys(rs) && forall r :: r in rs ==> Names(r.outcomes)
    ensures Totals(rs, Filed(KeysOf(rs), RunMap(rs)))
    decreases |rs|
  {
    if rs == [] {
      NothingFiled();
    } else {
      var front, last := rs[..|rs| - 1], rs[|rs| - 1];
      assert rs == front + [last];
      RunTotals(front);
      NewKey(front, last);
      TotalsGrow(front, last, Filed(KeysOf(front), RunMap(front)));
    }
  }

  // Every case is filed without complaint.
  predicate FilesAll(req: set<Key>, rs: seq<Ran>) {
    CasesOk(req, CasesFor(rs)) && FileCases(req, CasesFor(rs)) == Filed(KeysOf(rs), RunMap(rs))
  }

  predicate Fileable(req: set<Key>, rs: seq<Ran>) {
    DistinctKeys(rs) && forall r :: r in rs ==> r.key in req && WellNamed(r.outcomes)
  }

  lemma FrontIsFileable(req: set<Key>, front: seq<Ran>, last: Ran)
    requires Fileable(req, front + [last])
    ensures Fileable(req, front) && last.key in req && WellNamed(last.outcomes)
  {
    var rs := front + [last];
    assert rs[|front|] == last && last in rs;
    assert forall i :: 0 <= i < |front| ==> rs[i] == front[i];
  }

  lemma {:induction false} AssembledCasesFile(req: set<Key>, rs: seq<Ran>)
    requires Fileable(req, rs)
    ensures FilesAll(req, rs)
    decreases |rs|
  {
    if rs != [] {
      var front, last := rs[..|rs| - 1], rs[|rs| - 1];
      assert rs == front + [last];
      FrontIsFileable(req, front, last);
      AssembledCasesFile(req, front);
      FilesOneMore(req, front, last);
    }
  }

  lemma FilesOneMore(req: set<Key>, front: seq<Ran>, last: Ran)
    requires FilesAll(req, front) && DistinctKeys(front + [last]) && last.key in req && WellNamed(last.outcomes)
    ensures FilesAll(req, front + [last])
  {
    NewKey(front, last);
    CaseAccepted(req, KeysOf(front), last);
    FileOneMore(req, CasesFor(front), CaseFor(last));
    RunCounts(front, last);
    CasesForLast(front, last);
  }

  lemma CasesForLast(front: seq<Ran>, last: Ran)
    ensures CasesFor(front + [last]) == CasesFor(front) + [CaseFor(last)]
  {}

  lemma NothingFiled()
    ensures Totals([], Filed({}, map[]))
  {
    assert PassedCases(Filed({}, map[])) == {};
    assert Failed(map[]) == {};
  }

  lemma FileOneMore(req: set<Key>, front: seq<Case>, last: Case)
    ensures CasesOk(req, front + [last]) <==> CasesOk(req, front) && CaseOk(req, FileCases(req, front).observed, last)
    ensures FilingKey(req, FileCases(req, front).observed, last).Some? ==>
              var before := FileCases(req, front);
              var k := FilingKey(req, before.observed, last).value;
              FileCases(req, front + [last]) == Filed(before.observed + {k}, before.ids + CaseMap(k, ChecksIn(last)))
  {
    var cases := front + [last];
    assert cases[..|front|] == front && cases[|front|] == last;
  }

  lemma CaseAccepted(req: set<Key>, observed: set<Key>, r: Ran)
    requires r.key in req && r.key !in observed && WellNamed(r.outcomes)
    ensures FilingKey(req, observed, CaseFor(r)) == Some(r.key)
    ensures CaseOk(req, observed, CaseFor(r))
  {
    NamedChecksOk(r.outcomes);
    CaseSuccessAgrees(r.outcomes);
  }

  // `more` is what one more case adds.
  lemma TotalsGrowBy(front: seq<Ran>, last: Ran, before: Filed, more: Ids)
    requires last.key !in KeysOf(front) && Totals(front, before)
    requires (forall id :: id in more ==> InCase(id, last.key)) && (CasePasses(more, last.key) <==> CaseSucceeds(last.outcomes))
    requires |more| == |last.outcomes| && |Failed(more)| == CountFailed(last.outcomes)
    ensures Totals(front + [last], Filed(before.observed + {last.key}, before.ids + more))
  {
    UnionCounts(before, last.key, more);
    RunCounts(front, last);
  }

  lemma TotalsGrow(front: seq<Ran>, last: Ran, before: Filed)
    requires last.key !in KeysOf(front) && Names(last.outcomes) && Totals(front, before)
    ensures Totals(front + [last], Filed(before.observed + {last.key}, before.ids + CaseMap(last.key, ChecksFor(last.outcomes))))
  {
    CaseMapCounts(last.key, last.outcomes);
    CasePassesIff(last.key, last.outcomes);
    TotalsGrowBy(front, last, before, CaseMap(last.key, ChecksFor(last.outcomes)));
  }

  lemma RunCounts(front: seq<Ran>, last: Ran)
    ensures var rs := front + [last];
            && KeysOf(rs) == KeysOf(front) + {last.key}
            && RunMap(rs) == RunMap(front) + CaseMap(last.key, ChecksFor(last.outcomes))
            && TotalChecks(rs) == TotalChecks(front) + |last.outcomes|
            && FailedChecks(rs) == FailedChecks(front) + CountFailed(last.outcomes)
            && SucceededCases(rs) == SucceededCases(front) + (if CaseSucceeds(last.outcomes) then 1 else 0)
  {
    var rs := front + [last];
    assert rs[..|front|] == front && rs[|front|] == last;
  }

  lemma NewKey(front: seq<Ran>, last: Ran)
    requires DistinctKeys(front + [last])
    ensures last.key !in KeysOf(front)
  {
    var rs := front + [last];
    assert rs[|front|] == last && forall i :: 0 <= i < |front| ==> rs[i] == front[i];
  }

  lemma DisjointMapsCount<T>(a: map<T, bool>, b: map<T, bool>)
    requires a.Keys !! b.Keys
    ensures |a + b| == |a| + |b|
  {
    var c := a + b;
    assert c.Keys == a.Keys + b.Keys;
    assert |c| == |c.Keys| && |a| == |a.Keys| && |b| == |b.Keys|;
  }

  lemma DisjointSetsCount<T>(a: set<T>, b: set<T>, c: set<T>)
    requires a !! b && forall x :: x in c <==> x in a || x in b
    ensures |c| == |a| + |b|
  {
    assert c == a + b;
  }

  lemma UnionIdCounts(a: Ids, b: Ids)
    requires a.Keys !! b.Keys
    ensures |a + b| == |a| + |b|
    ensures |Failed(a + b)| == |Failed(a)| + |Failed(b)|
  {
    DisjointMapsCount(a, b);
    var c := a + b;
    forall id
      ensures id in Failed(c) <==> id in Failed(a) || id in Failed(b)
    {}
    DisjointSetsCount(Failed(a), Failed(b), Failed(c));
  }

  lemma UnionCasePasses(a: Ids, b: Ids, j: Key)
    requires forall id :: id in b ==> !InCase(id, j)
    ensures CasePasses(a + b, j) <==> CasePasses(a, j)
  {
    assert forall id :: InCase(id, j) ==> (id in a + b <==> id in a);
  }

  lemma UnionOwnCasePasses(a: Ids, b: Ids, k: Key)
    requires forall id :: id in a ==> !InCase(id, k)
    ensures CasePasses(a + b, k) <==> CasePasses(b, k)
  {
    assert forall id :: InCase(id, k) ==> (id in a + b <==> id in b);
  }

  // Adding the outcomes of a new case adds to every count.
  lemma UnionCounts(before: Filed, k: Key, more: Ids)
    requires k !in before.observed && FiledUnder(before) && forall id :: id in more ==> InCase(id, k)
    ensures var after := Filed(before.observed + {k}, before.ids + more);
            && |after.ids| == |before.ids| + |more|
            && |Failed(after.ids)| == |Failed(before.ids)| + |Failed(more)|
            && |PassedCases(after)| == |PassedCases(before)| + (if CasePasses(more, k) then 1 else 0)
            && FiledUnder(after)
  {
    UnionIdCounts(before.ids, more);
    UnionOwnCasePasses(before.ids, more, k);
    var after := Filed(before.observed + {k}, before.ids + more);
    forall j | j in before.observed
      ensures CasePasses(after.ids, j) <==> CasePasses(before.ids, j)
    {
      UnionCasePasses(before.ids, more, j);
    }
    AddPassedCase(before, after, k);
  }

  lemma AddPassedCase(before: Filed, after: Filed, k: Key)
    requires k !in before.observed && after.observed == before.observed + {k}
    requires forall j :: j in before.observed ==> (CasePasses(after.ids, j) <==> CasePasses(before.ids, j))
    ensures |PassedCases(after)| == |PassedCases(before)| + (if CasePasses(after.ids, k) then 1 else 0)
  {
    if CasePasses(after.ids, k) {
      assert PassedCases(after) == PassedCases(before) + {k};
    } else {
      assert PassedCases(after) == PassedCases(before);
    }
  }

  lemma CaseSuccessAgrees(outcomes: seq<Outcome>)
    requires outcomes != []
    ensures CaseSucceeds(outcomes) <==> AllSucceed(ChecksFor(outcomes))
  {
    var checks := ChecksFor(outcomes);
    if CaseSucceeds(outcomes) {
      forall c | c in checks
        ensures c.success == Bool(true)
      {
        var i :| 0 <= i < |checks| && checks[i] == c;
        assert outcomes[i] in outcomes;
      }
    }
    if AllSucceed(checks) {
      forall o | o in outcomes
        ensures o.success
      {
        var i :| 0 <= i < |outcomes| && outcomes[i] == o;
        assert checks[i] in checks;
      }
    }
  }

  // ----- An assembled report validates -----

  lemma {:induction false} CasesPassWhenNoneFailed(rs: seq<Ran>)
    ensures (forall r :: r in rs && r.outcomes != [] ==> CaseSucceeds(r.outcomes)) <==> FailedChecks(rs) == 0
    decreases |rs|
  {
    if rs != [] {
      var n := |rs| - 1;
      CasesPassWhenNoneFailed(rs[..n]);
      NoneFailed(rs[n].outcomes);
      assert rs == rs[..n] + [rs[n]];
    }
  }

  lemma SplitIds(ids: Ids)
    ensures |Passing(ids)| + |Failed(ids)| == |ids|
  {
    assert Passing(ids) + Failed(ids) == ids.Keys && Passing(ids) !! Failed(ids);
  }

  lemma TotalsMatchSummary(rs: seq<Ran>, f: Filed)
    requires Totals(rs, f)
    ensures SummaryOk(Assemble(rs).summary.value, f)
  {
    SplitIds(f.ids);
  }

  lemma SuccessMatches(rs: seq<Ran>, f: Filed)
    requires Totals(rs, f) && forall r :: r in rs ==> r.outcomes != []
    ensures Assemble(rs).success == Bool(f.observed != {} && Failed(f.ids) == {})
  {
    CasesPassWhenNoneFailed(rs);
    assert |Failed(f.ids)| == 0 <==> Failed(f.ids) == {};
    assert |f.observed| == 0 <==> f.observed == {};
  }

  lemma WellNamedValidates(req: set<Key>, rs: seq<Ran>)
    requires DistinctKeys(rs) && KeysOf(rs) == req && forall r :: r in rs ==> WellNamed(r.outcomes)
    ensures Valid(req, Assemble(rs)) && IdsOf(req, Assemble(rs)) == RunMap(rs)
  {
    AssembledCasesFile(req, rs);
    RunTotals(rs);
    var f := Filed(KeysOf(rs), RunMap(rs));
    assert Read(req, Assemble(rs)) == f;
    TotalsMatchSummary(rs, f);
    SuccessMatches(rs, f);
  }

  lemma AcceptedCaseIsNamed(req: set<Key>, observed: set<Key>, r: Ran)
    requires CaseOk(req, observed, CaseFor(r))
    ensures WellNamed(r.outcomes)
  {
    NamedChecksOk(r.outcomes);
  }

  lemma AcceptedFront(req: set<Key>, front: seq<Ran>, last: Ran)
    requires CasesOk(req, CasesFor(front + [last]))
    ensures CasesOk(req, CasesFor(front)) && WellNamed(last.outcomes)
  {
    CasesForLast(front, last);
    FileOneMore(req, CasesFor(front), CaseFor(last));
    AcceptedCaseIsNamed(req, FileCases(req, CasesFor(front)).observed, last);
  }

  lemma {:induction false} AcceptedCasesAreNamed(req: set<Key>, rs: seq<Ran>)
    requires CasesOk(req, CasesFor(rs))
    ensures forall r :: r in rs ==> WellNamed(r.outcomes)
    decreases |rs|
  {
    if rs != [] {
      var front, last := rs[..|rs| - 1], rs[|rs| - 1];
      assert rs == front + [last];
      AcceptedFront(req, front, last);
      AcceptedCasesAreNamed(req, front);
    }
  }

  // A run of the whole matrix.
  predicate RunsMatrix(rs: seq<Ran>) {
    |rs| == |Matrix()| && forall i :: 0 <= i < |rs| ==> rs[i].key == KeyOf(Matrix()[i])
  }

  lemma MatrixKeysDiffer(rs: seq<Ran>)
    requires RunsMatrix(rs)
    ensures DistinctKeys(rs)
  {
    MatrixIsRequired();
    var m := Matrix();
    forall i, j | 0 <= i < j < |rs|
      ensures rs[i].key != rs[j].key
    {
      if rs[i].key == rs[j].key {
        KeysAreDistinct(m[i], m[j]);
      }
    }
  }

  // `m` stands for the matrix.
  lemma KeysOfMatrix(rs: seq<Ran>, m: seq<Slot>)
    requires |rs| == |m| && forall i :: 0 <= i < |rs| ==> rs[i].key == KeyOf(m[i])
    ensures KeysOf(rs) == set s | s in m :: KeyOf(s)
  {
    forall k | k in KeysOf(rs)
      ensures k in set s | s in m :: KeyOf(s)
    {
      var i :| 0 <= i < |rs| && rs[i].key == k;
      assert m[i] in m;
    }
    forall s | s in m
      ensures KeyOf(s) in KeysOf(rs)
    {
      var i :| 0 <= i < |m| && m[i] == s;
      assert rs[i] in rs;
    }
  }

  lemma MatrixKeys(rs: seq<Ran>)
    requires RunsMatrix(rs)
    ensures DistinctKeys(rs) && KeysOf(rs) == RequiredCases()
  {
    MatrixKeysDiffer(rs);
    KeysOfMatrix(rs, Matrix());
  }

  // The report of a run of all modes validates exactly when every case recorded checks, under
  // distinct names with the `review/` prefix.
  lemma AssembledReportValidatesIff(rs: seq<Ran>)
    requires RunsMatrix(rs)
    ensures Valid(RequiredCases(), Assemble(rs)) <==> forall r :: r in rs ==> WellNamed(r.outcomes)
    ensures Valid(RequiredCases(), Assemble(rs)) ==> IdsOf(RequiredCases(), Assemble(rs)) == RunMap(rs)
  {
    MatrixKeys(rs);
    if forall r :: r in rs ==> WellNamed(r.outcomes) {
      WellNamedValidates(RequiredCases(), rs);
    }
    if Valid(RequiredCases(), Assemble(rs)) {
      AcceptedCasesAreNamed(RequiredCases(), rs);
    }
  }
}
