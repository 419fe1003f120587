// What the reviewer report of a run records, stated on what was run.
module ReviewRuns {
  import opened Prelude
  import opened Json
  import opened ReviewReport
  import opened ReviewMeaning
  import opened ReviewGate

  // ----- What an assembled report records -----

  lemma OutcomesSay(outcomes: seq<Outcome>, name: string, b: bool)
    requires Names(outcomes)
    ensures ChecksSay(ChecksFor(outcomes), name, b) <==> Outcome(name, b) in outcomes
  {
    var checks := ChecksFor(outcomes);
    if Outcome(name, b) in outcomes {
      var j :| 0 <= j < |outcomes| && outcomes[j] == Outcome(name, b);
      assert SaysCheck(checks[j], name, b);
      forall i | 0 <= i < j
        ensures !Mentions(checks[..j][i], name)
      {
        assert outcomes[i].name != outcomes[j].name;
      }
    }
  }

  lemma CaseOutcomes(k: Key, outcomes: seq<Outcome>, id: Identity, b: bool)
    requires Names(outcomes)
    ensures var ids := CaseMap(k, ChecksFor(outcomes));
            id in ids && ids[id] == b <==> k == (id.mode, id.transport) && Outcome(id.checkId, b) in outcomes
  {
    CaseMapMeans(k, ChecksFor(outcomes), id.checkId, b);
    OutcomesSay(outcomes, id.checkId, b);
    if k == (id.mode, id.transport) {
      assert id == Identity(k.0, k.1, id.checkId);
    }
  }

  predicate RanWith(rs: seq<Ran>, id: Identity, b: bool) {
    exists r :: r in rs && r.key == (id.mode, id.transport) && Outcome(id.checkId, b) in r.outcomes
  }

  // A run's report records exactly the outcomes of the cases it ran.
  lemma {:induction false} RunMapMeans(rs: seq<Ran>, id: Identity, b: bool)
    requires DistinctKeys(rs) && forall r :: r in rs ==> Names(r.outcomes)
    ensures id in RunMap(rs) && RunMap(rs)[id] == b <==> RanWith(rs, id, b)
    ensures id in RunMap(rs) ==> (id.mode, id.transport) in KeysOf(rs)
    decreases |rs|
  {
    if rs != [] {
      var front, last := rs[..|rs| - 1], rs[|rs| - 1];
      assert rs == front + [last];
      RunMapMeans(front, id, b);
      NewKey(front, last);
      RunCounts(front, last);
      CaseOutcomes(last.key, last.outcomes, id, b);
      if last.key == (id.mode, id.transport) {
        assert !RanWith(front, id, b);
      }
    }
  }

  predicate AllPassed(r: Ran) {
    r.outcomes != [] && forall i :: 0 <= i < |r.outcomes| ==> r.outcomes[i].success
  }

  lemma CaseSucceedsMeans(r: Ran)
    ensures CaseSucceeds(r.outcomes) <==> AllPassed(r)
  {
    if CaseSucceeds(r.outcomes) {
      forall i | 0 <= i < |r.outcomes|
        ensures r.outcomes[i].success
      {
        assert r.outcomes[i] in r.outcomes;
      }
    }
  }

  // Whatever was run, a case succeeds iff it made checks and all passed, and the report iff there
  // are cases and all succeed; each case carries its own name and checks.
  lemma AssembledVerdicts(rs: seq<Ran>)
    ensures Assemble(rs).success == Bool(rs != [] && forall i :: 0 <= i < |rs| ==> AllPassed(rs[i]))
    ensures Assemble(rs).cases.Some? && |Assemble(rs).cases.value| == |rs|
    ensures forall i :: 0 <= i < |rs| ==>
              && Assemble(rs).cases.value[i] ==
                 Case(Str(rs[i].key.0), Str(rs[i].key.1), Bool(AllPassed(rs[i])), Some(ChecksFor(rs[i].outcomes)))
  {
    forall i | 0 <= i < |rs|
      ensures rs[i] in rs && (CaseSucceeds(rs[i].outcomes) <==> AllPassed(rs[i]))
    {
      CaseSucceedsMeans(rs[i]);
    }
  }
}
