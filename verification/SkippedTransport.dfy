// Why compaction may lose a verdict: for every suite, a report in which one required transport was
// only ever skipped.
module SkippedTransport {
  import opened Prelude
  import opened Json
  import opened FixtureServer
  import opened ConformanceReport
  import opened RegressionGate

  datatype Slot = Slot(mode: Mode, transport: Transport)

  const SLOTS := [
    Slot(Shipping, Stdio), Slot(Shipping, OfficialHttp),
    Slot(Legacy, Stdio), Slot(Legacy, OfficialHttp),
    Slot(Modern, Stdio), Slot(Modern, OfficialHttp)]

  // Every mode has scenarios, and they have names.
  predicate HasScenarios(suite: Suite) {
    forall m :: suite.scenarios(m) != [] && forall s :: s in suite.scenarios(m) ==> s != ""
  }

  function StatusIn(slot: Slot): Status {
    if slot == Slot(Shipping, Stdio) then Skip else Pass
  }

  function IdentityIn(slot: Slot, scenario: string): Identity {
    Identity(slot.mode, slot.transport, Official, scenario, "c")
  }

  function CheckIn(slot: Slot, scenario: string): Check {
    Check(Str("official"), Str(scenario), Str("n"), Str("c"),
          Str(if StatusIn(slot) == Skip then "SKIP" else "PASS"), Bool(true))
  }

  // One check for each scenario of the catalog.
  function ChecksIn(suite: Suite, slot: Slot): seq<Check> {
    var scenarios := suite.scenarios(slot.mode);
    seq(|scenarios|, i requires 0 <= i < |scenarios| => CheckIn(slot, scenarios[i]))
  }

  function CaseIn(suite: Suite, slot: Slot): Case {
    Case(Str(Version(slot.mode)), Str(TransportName(slot.transport)), Some(ChecksIn(suite, slot)))
  }

  function CasesIn(suite: Suite, slots: seq<Slot>): seq<Case> {
    seq(|slots|, i requires 0 <= i < |slots| => CaseIn(suite, slots[i]))
  }

  function SkippedReport(suite: Suite): Report {
    Report(
      Int(REPORT_SCHEMA_VERSION), Bool(true), Bool(true),
      Some(Metadata(Str(suite.repository), Str(suite.gitRef), Bool(true),
                    Some(map[Version(Shipping) := StringArray(suite.scenarios(Shipping)),
                             Version(Legacy) := StringArray(suite.scenarios(Legacy)),
                             Version(Modern) := StringArray(suite.scenarios(Modern))]))),
      Bool(true), Null, Null, Null, None, Some(CasesIn(suite, SLOTS)))
  }

  // ----- Filing the cases -----

  function KeyIn(slot: Slot): (Mode, string) {
    (slot.mode, TransportName(slot.transport))
  }

  lemma CaseFiles(suite: Suite, slot: Slot)
    ensures CaseOk(CaseIn(suite, slot)) && CaseKey(CaseIn(suite, slot)) == Some(KeyIn(slot))
  {
    NamesReadBack(slot.mode, slot.transport, Official);
  }

  lemma KeysDiffer(a: Slot, b: Slot)
    requires KeyIn(a) == KeyIn(b)
    ensures a == b
  {
    NamesReadBack(a.mode, a.transport, Official);
    NamesReadBack(b.mode, b.transport, Official);
  }

  predicate Distinct(slots: seq<Slot>) {
    forall i, j :: 0 <= i < j < |slots| ==> slots[i] != slots[j]
  }

  // Exactly the slots are filed, each with its own case.
  ghost predicate Files(suite: Suite, slots: seq<Slot>, table: map<(Mode, string), Case>) {
    && (forall slot :: slot in slots ==> KeyIn(slot) in table && table[KeyIn(slot)] == CaseIn(suite, slot))
    && (forall k :: k in table ==> exists slot :: slot in slots && KeyIn(slot) == k)
  }

  lemma NewKey(suite: Suite, front: seq<Slot>, last: Slot, table: map<(Mode, string), Case>)
    requires Files(suite, front, table) && last !in front
    ensures KeyIn(last) !in table
  {
    if KeyIn(last) in table {
      var slot :| slot in front && KeyIn(slot) == KeyIn(last);
      KeysDiffer(slot, last);
    }
  }

  lemma FilesOneMore(suite: Suite, front: seq<Slot>, last: Slot, table: map<(Mode, string), Case>)
    requires Files(suite, front, table) && KeyIn(last) !in table
    ensures Files(suite, front + [last], table[KeyIn(last) := CaseIn(suite, last)])
  {
    var slots, next := front + [last], table[KeyIn(last) := CaseIn(suite, last)];
    forall k | k in next
      ensures exists slot :: slot in slots && KeyIn(slot) == k
    {
      if k == KeyIn(last) {
        assert last in slots;
      } else {
        var slot :| slot in front && KeyIn(slot) == k;
        assert slot in slots;
      }
    }
  }

  lemma FileOneMore(suite: Suite, front: seq<Slot>, last: Slot)
    requires CasesOk(CasesIn(suite, front)) && KeyIn(last) !in CaseTable(CasesIn(suite, front))
    ensures CasesOk(CasesIn(suite, front + [last]))
    ensures CaseTable(CasesIn(suite, front + [last])) == CaseTable(CasesIn(suite, front))[KeyIn(last) := CaseIn(suite, last)]
  {
    var cases := CasesIn(suite, front + [last]);
    assert cases[..|front|] == CasesIn(suite, front) && cases[|front|] == CaseIn(suite, last);
    CaseFiles(suite, last);
  }

  lemma {:induction false} CasesFile(suite: Suite, slots: seq<Slot>)
    requires Distinct(slots)
    ensures CasesOk(CasesIn(suite, slots)) && Files(suite, slots, CaseTable(CasesIn(suite, slots)))
    decreases |slots|
  {
    if slots != [] {
      var front, last := slots[..|slots| - 1], slots[|slots| - 1];
      assert slots == front + [last];
      CasesFile(suite, front);
      var table := CaseTable(CasesIn(suite, front));
      NewKey(suite, front, last, table);
      FileOneMore(suite, front, last);
      FilesOneMore(suite, front, last, table);
    }
  }

  // ----- Reading the report -----

  lemma EverySlotIsListed(slot: Slot)
    ensures slot in SLOTS
  {
    var pair := match slot.mode case Shipping => 0 case Legacy => 2 case Modern => 4;
    var i := if slot.transport.Stdio? then pair else pair + 1;
    assert SLOTS[i] == slot;
  }

  lemma CheckSays(slot: Slot, scenario: string)
    requires scenario != ""
    ensures EntryOf(slot.mode, slot.transport, CheckIn(slot, scenario)) == Some((IdentityIn(slot, scenario), StatusIn(slot)))
  {
    NamesReadBack(slot.mode, slot.transport, Official);
    assert "PASS"[0] == 'P' && "SKIP"[0] == 'S' && "FAIL"[0] == 'F';
  }

  lemma SlotHoldsItsChecks(suite: Suite, table: map<(Mode, string), Case>, slot: Slot)
    requires HasScenarios(suite) && Files(suite, SLOTS, table)
    ensures SlotChecks(table, slot.mode, slot.transport) == ChecksIn(suite, slot)
    ensures SlotOk(table, slot.mode, slot.transport)
  {
    EverySlotIsListed(slot);
    var scenarios := suite.scenarios(slot.mode);
    forall c | c in ChecksIn(suite, slot)
      ensures EntryOf(slot.mode, slot.transport, c).Some?
    {
      var i :| 0 <= i < |scenarios| && c == CheckIn(slot, scenarios[i]);
      assert scenarios[i] in scenarios;
      CheckSays(slot, scenarios[i]);
    }
  }

  // The identities of the slot's checks.
  predicate Belongs(suite: Suite, id: Identity) {
    var slot := Slot(id.mode, id.transport);
    id == IdentityIn(slot, id.scenario) && id.scenario in suite.scenarios(id.mode)
  }

  lemma ChecksSay(suite: Suite, slot: Slot, id: Identity, s: Status)
    requires HasScenarios(suite) && slot == Slot(id.mode, id.transport)
    ensures SaidIn(slot.mode, slot.transport, ChecksIn(suite, slot), id, s) <==> Belongs(suite, id) && s == StatusIn(slot)
  {
    var scenarios, checks := suite.scenarios(slot.mode), ChecksIn(suite, slot);
    forall i | 0 <= i < |scenarios|
      ensures EntryOf(slot.mode, slot.transport, checks[i]) == Some((IdentityIn(slot, scenarios[i]), StatusIn(slot)))
    {
      assert scenarios[i] in scenarios;
      CheckSays(slot, scenarios[i]);
    }
    if Belongs(suite, id) && s == StatusIn(slot) {
      var i :| 0 <= i < |scenarios| && scenarios[i] == id.scenario;
      assert EntryOf(slot.mode, slot.transport, checks[i]) == Some((id, s));
    }
  }

  predicate SaysOnly(suite: Suite, ids: Ids, id: Identity, s: Status) {
    s in At(ids, id) <==> Belongs(suite, id) && s == StatusIn(Slot(id.mode, id.transport))
  }

  lemma IdsHoldTheSlots(suite: Suite, table: map<(Mode, string), Case>, id: Identity, s: Status)
    requires HasScenarios(suite) && Files(suite, SLOTS, table)
    ensures SaysOnly(suite, FullIds(table), id, s)
  {
    var slot := Slot(id.mode, id.transport);
    FullIdsMeans(table, id, s);
    SlotHoldsItsChecks(suite, table, slot);
    ChecksSay(suite, slot, id, s);
  }

  ghost predicate Observes(suite: Suite, ids: Ids) {
    && (forall id :: id in ids <==> Belongs(suite, id))
    && (forall id :: id in ids ==> ids[id] == {StatusIn(Slot(id.mode, id.transport))})
  }

  lemma SlotsObserved(suite: Suite, ids: Ids)
    requires WellKept(ids) && forall id, s :: SaysOnly(suite, ids, id, s)
    ensures Observes(suite, ids)
  {
    forall id
      ensures id in ids <==> Belongs(suite, id)
      ensures id in ids ==> ids[id] == {StatusIn(Slot(id.mode, id.transport))}
    {
      var status := StatusIn(Slot(id.mode, id.transport));
      assert SaysOnly(suite, ids, id, status);
      if id in ids {
        var s :| s in ids[id];
        assert SaysOnly(suite, ids, id, s);
        forall t | t in ids[id]
          ensures t == status
        {
          assert SaysOnly(suite, ids, id, t);
        }
      }
    }
  }

  lemma TableObserves(suite: Suite, table: map<(Mode, string), Case>)
    requires HasScenarios(suite) && Files(suite, SLOTS, table)
    ensures Observes(suite, FullIds(table))
  {
    FullIdsMeans(table, IdentityIn(Slot(Shipping, Stdio), ""), Pass);
    forall id, s
      ensures SaysOnly(suite, FullIds(table), id, s)
    {
      IdsHoldTheSlots(suite, table, id, s);
    }
    SlotsObserved(suite, FullIds(table));
  }

  lemma SlotsAreOk(suite: Suite, table: map<(Mode, string), Case>)
    requires HasScenarios(suite) && Files(suite, SLOTS, table)
    ensures forall m, t :: SlotOk(table, m, t)
  {
    forall m, t
      ensures SlotOk(table, m, t)
    {
      SlotHoldsItsChecks(suite, table, Slot(m, t));
    }
  }

  lemma SlotsAreDistinct()
    ensures Distinct(SLOTS)
  {
  }

  lemma ReportObserves(suite: Suite)
    requires HasScenarios(suite)
    ensures FullOk(SkippedReport(suite)) && Observes(suite, IdsOf(SkippedReport(suite)))
  {
    SlotsAreDistinct();
    CasesFile(suite, SLOTS);
    var table := CaseTable(CasesIn(suite, SLOTS));
    SlotsAreOk(suite, table);
    TableObserves(suite, table);
  }

  lemma ObservesCovers(suite: Suite, ids: Ids)
    requires HasScenarios(suite) && Observes(suite, ids)
    ensures Covers(suite, ids) && ShippingClean(ids)
  {
    forall m, t
      ensures Reaches(ids, m, t)
    {
      var id := IdentityIn(Slot(m, t), suite.scenarios(m)[0]);
      assert Belongs(suite, id) && id in ids;
    }
    forall m
      ensures ObservedScenarios(ids, m) == Catalog(suite, m)
    {
      forall s | s in suite.scenarios(m)
        ensures s in ObservedScenarios(ids, m)
      {
        var id := IdentityIn(Slot(m, OfficialHttp), s);
        assert Belongs(suite, id) && id in ids && CountsForScenario(id, m);
      }
    }
  }

  lemma SkippedSlotIsForgotten(suite: Suite, ids: Ids)
    requires Observes(suite, ids)
    ensures !Covers(suite, WithoutSkips(ids))
  {
    assert !Reaches(WithoutSkips(ids), Shipping, Stdio);
  }

  lemma ReportHeader(suite: Suite)
    ensures HeaderOk(suite, SkippedReport(suite))
  {
    NamesReadBack(Shipping, Stdio, Official);
    NamesReadBack(Legacy, Stdio, Official);
    NamesReadBack(Modern, Stdio, Official);
    forall m
      ensures RunsCatalog(suite, SkippedReport(suite), m)
    {
    }
  }

  // Whatever the suite, the report passes against itself and fails against its own baseline.
  lemma SkippedTransportLosesItsVerdict(suite: Suite)
    requires HasScenarios(suite)
    ensures var r := SkippedReport(suite);
            && Compact(suite, r).Some?
            && Passes(suite, r, r) && !Passes(suite, r, Compact(suite, r).value)
  {
    var r := SkippedReport(suite);
    ReportHeader(suite);
    ReportObserves(suite);
    ObservesCovers(suite, IdsOf(r));
    SkippedSlotIsForgotten(suite, IdsOf(r));
    GateIsReflexive(suite, r);
    CompactReadsBack(suite, r);
  }
}
