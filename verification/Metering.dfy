/** Every meter record is projected again from its proof receipt and compared; totals are added up again. */
module Metering {
  import opened Prelude
  import opened Decimal
  import opened Text
  import opened Report
  import opened Primitives
  import opened ProofPack
  import opened Projection
  import Keys

  datatype MeterRecord = MeterRecord(
    idemKey: string,
    proofReceiptId: string,
    unitType: string,
    unitCount: string,
    weight: string)

  datatype MeterTotal = MeterTotal(unitType: string, claimed: string)

  /** totals lists the claimed totals in the dictionary's order. */
  datatype MeteringSummary = MeteringSummary(
    orgId: string,
    records: seq<MeterRecord>,
    totals: Option<seq<MeterTotal>>)

  datatype ProjectionReport = ProjectionReport(status: Status, proofRecordCount: nat, meterRecordCount: nat, steps: seq<AuditStep>)

  /** The dictionary from receipt id to record; a later record replaces an earlier one. */
  function ReceiptIndex(records: seq<ProofRecord>): map<string, ProofRecord> {
    if records == [] then map[]
    else
      var last := records[|records| - 1];
      ReceiptIndex(records[..|records| - 1])[last.payload.receiptId := last]
  }

  /** Looking a receipt id up finds the last record that carries it. */
  lemma {:induction false} ReceiptIndexFindsLast(records: seq<ProofRecord>, id: string) returns (i: nat)
    requires id in ReceiptIndex(records)
    ensures i < |records| && records[i].payload.receiptId == id && ReceiptIndex(records)[id] == records[i]
    ensures forall j :: i < j < |records| ==> records[j].payload.receiptId != id
  {
    var n := |records| - 1;
    if records[n].payload.receiptId == id {
      i := n;
    } else {
      i := ReceiptIndexFindsLast(records[..n], id);
      assert forall j :: i < j < n ==> records[..n][j].payload.receiptId != id;
    }
  }

  lemma {:induction false} ReceiptIndexFindsAll(records: seq<ProofRecord>, i: nat)
    requires i < |records|
    ensures records[i].payload.receiptId in ReceiptIndex(records)
  {
    if i < |records| - 1 {
      ReceiptIndexFindsAll(records[..|records| - 1], i);
    }
  }

  // ----------------------------------------------------------- one record

  /** What re-projecting one record gives: an exception, or steps and possibly a count for the totals. */
  datatype Turn = Raised | Done(steps: seq<AuditStep>, counted: Option<int>)

  /** A record's turn, from the facts it depends on. */
  function TurnFor(i: nat, known: bool, idem: bool, expected: Option<int>, actual: Option<int>, weighs: bool): Turn {
    if !known then Done([Fail(Entry(i, ProofReceiptId), MeterProjection, METER_RECORD_FOR_UNKNOWN_PROOF)], None)
    else if !weighs then Raised
    else
      var first := Check(idem, Entry(i, IdemKey), MeterProjection, METER_IDEM_KEY_MISMATCH);
      if expected.None? then Done([first, Fail(Entry(i, UnitCount), MeterProjection, METER_UNIT_COUNT_MISMATCH)], None)
      else if actual.None? then Raised
      else Done([first, Check(actual == expected, Entry(i, UnitCount), MeterProjection, METER_UNIT_COUNT_MISMATCH)], expected)
  }

  function Expected(index: map<string, ProofRecord>, m: MeterRecord): Option<int> {
    var w := ParseDecimal(m.weight);
    if m.proofReceiptId !in index || w.None? then None
    else ProjectUnitCount(index[m.proofReceiptId].payload.dwellMs, w.value, m.unitType)
  }

  predicate IdemHolds(env: Foreign, m: MeterRecord) {
    MeterIdemKey(env.sha, m.proofReceiptId, m.unitType) == m.idemKey
  }

  function TurnOf(env: Foreign, index: map<string, ProofRecord>, m: MeterRecord, i: nat): Turn {
    TurnFor(i, m.proofReceiptId in index, IdemHolds(env, m), Expected(index, m), ParseDecimal(m.unitCount), ParseDecimal(m.weight).Some?)
  }

  /** Text the projection needs does not parse. */
  predicate MeterRaises(index: map<string, ProofRecord>, m: MeterRecord) {
    && m.proofReceiptId in index
    && (ParseDecimal(m.weight).None? || (PolicyOf(m.unitType) != Unknown && ParseDecimal(m.unitCount).None?))
  }

  lemma TurnRaises(env: Foreign, index: map<string, ProofRecord>, m: MeterRecord, i: nat)
    ensures TurnOf(env, index, m, i).Raised? <==> MeterRaises(index, m)
  {
    hide ParseDecimal, PolicyOf, MeterIdemKey;
  }

  /** The record names a receipt of the proof pack, its key re-derives, and its unit count re-projects. */
  predicate MeterHolds(env: Foreign, index: map<string, ProofRecord>, m: MeterRecord) {
    m.proofReceiptId in index && IdemHolds(env, m) && Expected(index, m).Some? && ParseDecimal(m.unitCount) == Expected(index, m)
  }

  method VerifyMeter(env: Foreign, index: map<string, ProofRecord>, m: MeterRecord, i: nat) returns (turn: Turn)
    ensures turn == TurnOf(env, index, m, i)
  {
    hide ParseDecimal, PolicyOf, MeterIdemKey;
    if m.proofReceiptId !in index {
      return Done([Fail(Entry(i, ProofReceiptId), MeterProjection, METER_RECORD_FOR_UNKNOWN_PROOF)], None);
    }
    var proof := index[m.proofReceiptId];
    var expectedIdem := MeterIdemKey(env.sha, m.proofReceiptId, m.unitType);
    var steps := [Check(expectedIdem == m.idemKey, Entry(i, IdemKey), MeterProjection, METER_IDEM_KEY_MISMATCH)];
    var weight := ParseDecimal(m.weight);
    if weight.None? {
      return Raised;
    }
    var expectedUnitCount := ProjectUnitCount(proof.payload.dwellMs, weight.value, m.unitType);
    if expectedUnitCount.None? {
      steps := steps + [Fail(Entry(i, UnitCount), MeterProjection, METER_UNIT_COUNT_MISMATCH)];
      return Done(steps, None);
    }
    var actualScaled := ParseDecimal(m.unitCount);
    if actualScaled.None? {
      return Raised;
    }
    var matches := actualScaled.value == expectedUnitCount.value;
    steps := steps + [Check(matches, Entry(i, UnitCount), MeterProjection, METER_UNIT_COUNT_MISMATCH)];
    turn := Done(steps, expectedUnitCount);
  }

  lemma TurnForClean(i: nat, known: bool, idem: bool, expected: Option<int>, actual: Option<int>, weighs: bool)
    requires expected.Some? ==> weighs
    ensures var turn := TurnFor(i, known, idem, expected, actual, weighs);
            (turn.Done? && !AnyInvalid(turn.steps) <==> known && idem && expected.Some? && actual == expected)
            && (turn.Done? && !AnyInvalid(turn.steps) ==> turn.counted == expected)
  {
    var turn := TurnFor(i, known, idem, expected, actual, weighs);
    if turn.Done? {
      assert !known || !idem ==> turn.steps[0].status == INVALID;
      assert known && (expected.None? || actual != expected) ==> turn.steps[1].status == INVALID;
    }
  }

  lemma TurnClean(env: Foreign, index: map<string, ProofRecord>, m: MeterRecord, i: nat)
    ensures var turn := TurnOf(env, index, m, i);
            (turn.Done? && !AnyInvalid(turn.steps) <==> MeterHolds(env, index, m))
            && (MeterHolds(env, index, m) ==> turn.counted == ParseDecimal(m.unitCount))
  {
    hide ParseDecimal, ProjectUnitCount, MeterIdemKey, AnyInvalid, TurnFor;
    TurnForClean(i, m.proofReceiptId in index, IdemHolds(env, m), Expected(index, m), ParseDecimal(m.unitCount), ParseDecimal(m.weight).Some?);
  }

  // ------------------------------------------------------------ the walk

  function Turns(env: Foreign, index: map<string, ProofRecord>, records: seq<MeterRecord>): (turns: seq<Turn>)
    ensures |turns| == |records|
    ensures forall i :: 0 <= i < |turns| ==> turns[i] == TurnOf(env, index, records[i], i)
  {
    seq(|records|, i requires 0 <= i < |records| => TurnOf(env, index, records[i], i))
  }

  function StepsOf(turns: seq<Turn>): (per: seq<seq<AuditStep>>)
    ensures |per| == |turns|
    ensures forall i :: 0 <= i < |turns| ==> per[i] == if turns[i].Done? then turns[i].steps else []
  {
    seq(|turns|, i requires 0 <= i < |turns| => if turns[i].Done? then turns[i].steps else [])
  }

  /** The sum the walk has counted for one unit type over the first n records. */
  function Counted(turns: seq<Turn>, records: seq<MeterRecord>, unitType: string, n: nat): int
    requires n <= |turns| == |records|
  {
    if n == 0 then 0
    else
      var turn := turns[n - 1];
      Counted(turns, records, unitType, n - 1)
      + if records[n - 1].unitType == unitType && turn.Done? && turn.counted.Some? then turn.counted.value else 0
  }

  /** The sum of the claimed unit counts of one type. */
  function ClaimedSum(records: seq<MeterRecord>, unitType: string): int {
    if records == [] then 0
    else
      var last := records[|records| - 1];
      ClaimedSum(records[..|records| - 1], unitType)
      + if last.unitType == unitType then ParseDecimalOrZero(last.unitCount) else 0
  }

  function TotalStep(t: MeterTotal, computed: int): AuditStep {
    Check(ParseDecimal(t.claimed) == Some(computed), Keyed(t.unitType, Total), Kind.MeterTotal, METER_TOTAL_MISMATCH)
  }

  function TotalSteps(turns: seq<Turn>, records: seq<MeterRecord>, totals: seq<MeterTotal>): (steps: seq<AuditStep>)
    requires |turns| == |records|
    ensures |steps| == |totals|
    ensures forall k :: 0 <= k < |totals| ==> steps[k] == TotalStep(totals[k], Counted(turns, records, totals[k].unitType, |turns|))
  {
    seq(|totals|, k requires 0 <= k < |totals| => TotalStep(totals[k], Counted(turns, records, totals[k].unitType, |turns|)))
  }

  function OrgSteps(metering: MeteringSummary, packOrgId: Option<string>): seq<AuditStep> {
    if packOrgId.None? then []
    else [Check(metering.orgId == packOrgId.value, Whole(OrgId), MeterProjection, METER_ORG_MISMATCH)]
  }

  function TotalsOf(metering: MeteringSummary): seq<MeterTotal> {
    if metering.totals.Some? then metering.totals.value else []
  }

  function ProjectionSteps(env: Foreign, proofs: seq<ProofRecord>, metering: MeteringSummary, packOrgId: Option<string>): seq<AuditStep> {
    var turns := Turns(env, ReceiptIndex(proofs), metering.records);
    OrgSteps(metering, packOrgId) + Flatten(StepsOf(turns)) + TotalSteps(turns, metering.records, TotalsOf(metering))
  }

  /**
   When the verifier raises ValueError instead of reporting: a record with a known receipt has a weight
   that does not parse, or a projectable unit type and a unit count that does not parse; or a claimed total does not parse.
   */
  ghost predicate RaisesOn(proofs: seq<ProofRecord>, metering: MeteringSummary) {
    || (exists i :: 0 <= i < |metering.records| && MeterRaises(ReceiptIndex(proofs), metering.records[i]))
    || (exists k :: 0 <= k < |TotalsOf(metering)| && ParseDecimal(TotalsOf(metering)[k].claimed).None?)
  }

  /** What a VALID projection report means. */
  ghost predicate MeteringHolds(env: Foreign, proofs: seq<ProofRecord>, metering: MeteringSummary, packOrgId: Option<string>) {
    && (packOrgId.Some? ==> metering.orgId == packOrgId.value)
    && (forall i :: 0 <= i < |metering.records| ==> MeterHolds(env, ReceiptIndex(proofs), metering.records[i]))
    && (forall k :: 0 <= k < |TotalsOf(metering)| ==>
          ParseDecimal(TotalsOf(metering)[k].claimed) == Some(ClaimedSum(metering.records, TotalsOf(metering)[k].unitType)))
  }

  /** computed_totals.get(unit_type, 0) */
  function GetOrZero(totals: map<string, int>, unitType: string): int {
    if unitType in totals then totals[unitType] else 0
  }

  method VerifyMeteringProjection(env: Foreign, proofs: seq<ProofRecord>, metering: MeteringSummary, packOrgId: Option<string>)
    returns (r: Result<ProjectionReport, Keys.Error>)
    ensures r.Failure? <==> RaisesOn(proofs, metering)
    ensures r.Failure? ==> r.error == Keys.VALUE_ERROR
    ensures r.Success? ==> r.value.steps == ProjectionSteps(env, proofs, metering, packOrgId) && r.value.status == Verdict(r.value.steps)
    ensures r.Success? ==> r.value.proofRecordCount == |proofs| && r.value.meterRecordCount == |metering.records|
    ensures r.Success? && r.value.status == VALID <==> MeteringHolds(env, proofs, metering, packOrgId)
  {
    StepsDecideMetering(env, proofs, metering, packOrgId);
    hide MeteringHolds, AnyInvalid, Flatten, After, Turns, StepsOf, TotalSteps, ParseDecimal, TurnOf, MeterRaises;
    var index := ReceiptIndex(proofs);
    ghost var turns := Turns(env, index, metering.records);
    ghost var per := StepsOf(turns);
    var steps := [];
    if packOrgId.Some? {
      steps := steps + [Check(metering.orgId == packOrgId.value, Whole(OrgId), MeterProjection, METER_ORG_MISMATCH)];
    }
    ghost var first := steps;
    AfterEnds(first, per);
    var computedTotals: map<string, int> := map[];
    var i := 0;
    while i < |metering.records|
      invariant 0 <= i <= |metering.records|
      invariant forall j :: 0 <= j < i ==> !MeterRaises(index, metering.records[j])
      invariant steps == After(first, per, i)
      invariant forall u :: GetOrZero(computedTotals, u) == Counted(turns, metering.records, u, i)
    {
      var m := metering.records[i];
      var turn := VerifyMeter(env, index, m, i);
      TurnRaises(env, index, m, i);
      if turn.Raised? {
        return Failure(Keys.VALUE_ERROR);
      }
      AfterNext(first, per, i);
      steps := steps + turn.steps;
      if turn.counted.Some? {
        computedTotals := computedTotals[m.unitType := GetOrZero(computedTotals, m.unitType) + turn.counted.value];
      }
      i := i + 1;
    }
    var totalSteps := VerifyTotals(turns, metering.records, TotalsOf(metering), computedTotals);
    if totalSteps.None? {
      return Failure(Keys.VALUE_ERROR);
    }
    steps := steps + totalSteps.value;
    r := Success(ProjectionReport(Verdict(steps), |proofs|, |metering.records|, steps));
  }

  /** The claimed totals against the sums the walk has accumulated; None where a claim does not parse. */
  method VerifyTotals(ghost turns: seq<Turn>, ghost records: seq<MeterRecord>, totals: seq<MeterTotal>, computedTotals: map<string, int>)
    returns (steps: Option<seq<AuditStep>>)
    requires |turns| == |records|
    requires forall u :: GetOrZero(computedTotals, u) == Counted(turns, records, u, |turns|)
    ensures steps.None? <==> exists k :: 0 <= k < |totals| && ParseDecimal(totals[k].claimed).None?
    ensures steps.Some? ==> steps.value == TotalSteps(turns, records, totals)
  {
    hide TotalSteps, ParseDecimal, TotalStep, Counted;
    var checked: seq<AuditStep> := [];
    var k := 0;
    while k < |totals|
      invariant 0 <= k <= |totals|
      invariant forall j :: 0 <= j < k ==> ParseDecimal(totals[j].claimed).Some?
      invariant checked == TotalSteps(turns, records, totals)[..k]
    {
      var computed := GetOrZero(computedTotals, totals[k].unitType);
      var claimedScaled := ParseDecimal(totals[k].claimed);
      if claimedScaled.None? {
        return None;
      }
      TotalStepIs(totals[k], computed);
      checked := checked + [Check(claimedScaled.value == computed, Keyed(totals[k].unitType, Total), Kind.MeterTotal, METER_TOTAL_MISMATCH)];
      k := k + 1;
    }
    steps := Some(checked);
  }

  lemma TotalStepIs(t: MeterTotal, computed: int)
    requires ParseDecimal(t.claimed).Some?
    ensures TotalStep(t, computed)
            == Check(ParseDecimal(t.claimed).value == computed, Keyed(t.unitType, Total), Kind.MeterTotal, METER_TOTAL_MISMATCH)
  {
    hide ParseDecimal;
  }

  // ---------------------------------------------------------- what VALID means

  lemma {:induction false} CountedIsClaimed(env: Foreign, index: map<string, ProofRecord>, records: seq<MeterRecord>, u: string, n: nat)
    requires n <= |records|
    requires forall i :: 0 <= i < |records| ==> MeterHolds(env, index, records[i])
    ensures Counted(Turns(env, index, records), records, u, n) == ClaimedSum(records[..n], u)
  {
    hide ParseDecimal, MeterHolds, TurnOf;
    if n > 0 {
      CountedIsClaimed(env, index, records, u, n - 1);
      TurnClean(env, index, records[n - 1], n - 1);
      HoldsParses(env, index, records[n - 1]);
      assert records[..n][..n - 1] == records[..n - 1];
    }
  }

  lemma HoldsParses(env: Foreign, index: map<string, ProofRecord>, m: MeterRecord)
    requires MeterHolds(env, index, m)
    ensures ParseDecimal(m.unitCount).Some?
  {
    hide ParseDecimal, ProjectUnitCount;
  }

  lemma StepsDecideMetering(env: Foreign, proofs: seq<ProofRecord>, metering: MeteringSummary, packOrgId: Option<string>)
    ensures !RaisesOn(proofs, metering) && !AnyInvalid(ProjectionSteps(env, proofs, metering, packOrgId))
            <==> MeteringHolds(env, proofs, metering, packOrgId)
  {
    hide ParseDecimal, TurnOf, MeterHolds, MeterRaises;
    var index := ReceiptIndex(proofs);
    var turns := Turns(env, index, metering.records);
    var per, totals := StepsOf(turns), TotalsOf(metering);
    var org, totalSteps := OrgSteps(metering, packOrgId), TotalSteps(turns, metering.records, totals);
    AnyInvalidConcat(org, Flatten(per));
    AnyInvalidConcat(org + Flatten(per), totalSteps);
    assert AnyInvalid(org) <==> packOrgId.Some? && metering.orgId != packOrgId.value by {
      assert packOrgId.Some? ==> (AnyInvalid(org) <==> org[0].status == INVALID);
    }
    FlattenClean(per);
    forall i | 0 <= i < |metering.records|
      ensures turns[i].Done? && !AnyInvalid(per[i]) <==> MeterHolds(env, index, metering.records[i])
    {
      TurnClean(env, index, metering.records[i], i);
    }
    forall i | 0 <= i < |metering.records|
      ensures turns[i].Raised? <==> MeterRaises(index, metering.records[i])
    {
      TurnRaises(env, index, metering.records[i], i);
    }
    if forall i :: 0 <= i < |metering.records| ==> MeterHolds(env, index, metering.records[i]) {
      forall k | 0 <= k < |totals|
        ensures totalSteps[k].status == INVALID
                <==> ParseDecimal(totals[k].claimed) != Some(ClaimedSum(metering.records, totals[k].unitType))
      {
        CountedIsClaimed(env, index, metering.records, totals[k].unitType, |metering.records|);
        assert metering.records[..|metering.records|] == metering.records;
      }
    }
  }

  /**
   A VALID report: every meter record re-derives from a record of the proof pack, namely the last one with
   its receipt id, and each claimed total is the sum of the claimed unit counts of its type.
   */
  lemma MeterRecordsRederive(env: Foreign, proofs: seq<ProofRecord>, metering: MeteringSummary, packOrgId: Option<string>, i: nat)
    returns (p: nat)
    requires MeteringHolds(env, proofs, metering, packOrgId) && i < |metering.records|
    ensures var m := metering.records[i];
            && p < |proofs| && proofs[p].payload.receiptId == m.proofReceiptId
            && m.idemKey == MeterIdemKey(env.sha, m.proofReceiptId, m.unitType)
            && ParseDecimal(m.weight).Some? && ParseDecimal(m.unitCount).Some?
            && ProjectUnitCount(proofs[p].payload.dwellMs, ParseDecimal(m.weight).value, m.unitType) == ParseDecimal(m.unitCount)
  {
    hide ParseDecimal, ProjectUnitCount, MeterIdemKey;
    assert MeterHolds(env, ReceiptIndex(proofs), metering.records[i]);
    p := ReceiptIndexFindsLast(proofs, metering.records[i].proofReceiptId);
  }

  // ------------------------------------------- receipts no meter record names

  /** s has the payloads of records, except that of record i. */
  ghost predicate PayloadsWithout(records: seq<ProofRecord>, i: nat, s: seq<ProofRecord>) {
    && i < |records| && |s| == |records| - 1
    && forall k :: 0 <= k < |s| ==> s[k].payload == records[if k < i then k else k + 1].payload
  }

  lemma LastWithout(records: seq<ProofRecord>, i: nat, s: seq<ProofRecord>, id: string)
    requires PayloadsWithout(records, i, s) && records[i].payload.receiptId != id
    ensures id in ReceiptIndex(s) <==> id in ReceiptIndex(records)
    ensures id in ReceiptIndex(s) ==> ReceiptIndex(s)[id].payload == ReceiptIndex(records)[id].payload
  {
    if id in ReceiptIndex(records) {
      var p := ReceiptIndexFindsLast(records, id);
      var k := if p < i then p else p - 1;
      assert s[k].payload == records[p].payload;
      ReceiptIndexFindsAll(s, k);
    }
    if id in ReceiptIndex(s) {
      var q := ReceiptIndexFindsLast(s, id);
      var l := if q < i then q else q + 1;
      assert s[q].payload == records[l].payload;
      ReceiptIndexFindsAll(records, l);
      var p := ReceiptIndexFindsLast(records, id);
      var k := if p < i then p else p - 1;
      assert p != i && s[k].payload == records[p].payload;
      assert k == q;
    }
  }

  lemma SameReceiptSameVerdict(env: Foreign, a: map<string, ProofRecord>, b: map<string, ProofRecord>, m: MeterRecord)
    requires m.proofReceiptId in a <==> m.proofReceiptId in b
    requires m.proofReceiptId in a ==> a[m.proofReceiptId].payload == b[m.proofReceiptId].payload
    ensures MeterHolds(env, a, m) <==> MeterHolds(env, b, m)
  {
    hide ParseDecimal, ProjectUnitCount, IdemHolds;
  }

  /** A record whose receipt no meter record names may be taken out without changing the metering verdict. */
  lemma UnnamedReceiptIsIdle(env: Foreign, records: seq<ProofRecord>, i: nat, s: seq<ProofRecord>, metering: MeteringSummary, orgId: Option<string>)
    requires PayloadsWithout(records, i, s)
    requires forall k :: 0 <= k < |metering.records| ==> metering.records[k].proofReceiptId != records[i].payload.receiptId
    ensures MeteringHolds(env, s, metering, orgId) <==> MeteringHolds(env, records, metering, orgId)
  {
    hide ReceiptIndex, MeterHolds, PayloadsWithout, ClaimedSum, ParseDecimal;
    forall k | 0 <= k < |metering.records|
      ensures MeterHolds(env, ReceiptIndex(s), metering.records[k]) <==> MeterHolds(env, ReceiptIndex(records), metering.records[k])
    {
      LastWithout(records, i, s, metering.records[k].proofReceiptId);
      SameReceiptSameVerdict(env, ReceiptIndex(s), ReceiptIndex(records), metering.records[k]);
    }
  }

  // ------------------------------------------------------- where it raises

  /** For instance: a weight that is not a number, on a receipt of the proof pack. */
  lemma UnreadableWeightRaises(proofs: seq<ProofRecord>, orgId: string, p: nat, idemKey: string, unitType: string, unitCount: string)
    requires p < |proofs|
    ensures RaisesOn(proofs, MeteringSummary(orgId, [MeterRecord(idemKey, proofs[p].payload.receiptId, unitType, unitCount, "x")], None))
  {
    var m := MeterRecord(idemKey, proofs[p].payload.receiptId, unitType, unitCount, "x");
    ReceiptIndexFindsAll(proofs, p);
    assert Strip("x") == "x" && "x"[0] == 'x' && PointIndex("x") == 1;
    assert ParseDecimal("x").None?;
    hide ParseDecimal, ReceiptIndex;
    var metering := MeteringSummary(orgId, [m], None);
    assert MeterRaises(ReceiptIndex(proofs), metering.records[0]);
  }

  // --------------------------------------------------------- written out

  /** A record's turn: unknown receipt, unreadable weight, key, unit type without a policy, unreadable count, and the count itself. */
  lemma TurnWrittenOut(env: Foreign, index: map<string, ProofRecord>, m: MeterRecord, i: nat)
    ensures m.proofReceiptId !in index ==>
              TurnOf(env, index, m, i)
              == Done([AuditStep(Entry(i, ProofReceiptId), MeterProjection, INVALID, Some(METER_RECORD_FOR_UNKNOWN_PROOF))], None)
    ensures m.proofReceiptId in index && ParseDecimal(m.weight).None? ==> TurnOf(env, index, m, i) == Raised
    ensures m.proofReceiptId in index && ParseDecimal(m.weight).Some? ==>
              var key := Check(m.idemKey == env.sha(m.proofReceiptId + "|" + m.unitType), Entry(i, IdemKey), MeterProjection, METER_IDEM_KEY_MISMATCH);
              var units := ProjectUnitCount(index[m.proofReceiptId].payload.dwellMs, ParseDecimal(m.weight).value, m.unitType);
              TurnOf(env, index, m, i)
              == if units.None? then Done([key, AuditStep(Entry(i, UnitCount), MeterProjection, INVALID, Some(METER_UNIT_COUNT_MISMATCH))], None)
                 else if ParseDecimal(m.unitCount).None? then Raised
                 else Done([key, Check(ParseDecimal(m.unitCount).value == units.value, Entry(i, UnitCount), MeterProjection, METER_UNIT_COUNT_MISMATCH)],
                           units)
  {
    hide ParseDecimal, ProjectUnitCount;
  }

  /** The organisation's step, if there is one to compare, and a claimed total's. */
  lemma FrameWrittenOut(metering: MeteringSummary, orgId: string, t: MeterTotal, computed: int)
    ensures OrgSteps(metering, None) == []
    ensures OrgSteps(metering, Some(orgId)) == [Check(metering.orgId == orgId, Whole(OrgId), MeterProjection, METER_ORG_MISMATCH)]
    ensures ParseDecimal(t.claimed).Some? ==>
              TotalStep(t, computed) == Check(ParseDecimal(t.claimed).value == computed, Keyed(t.unitType, Total), Kind.MeterTotal, METER_TOTAL_MISMATCH)
  {
    hide ParseDecimal;
  }

  /** What a record adds to the total of its own unit type, whether or not its claim agrees. */
  lemma CountedWrittenOut(env: Foreign, index: map<string, ProofRecord>, records: seq<MeterRecord>, unitType: string, n: nat)
    requires n < |records| && !MeterRaises(index, records[n])
    ensures Counted(Turns(env, index, records), records, unitType, 0) == 0
    ensures var m := records[n]; var turns := Turns(env, index, records);
            Counted(turns, records, unitType, n + 1) - Counted(turns, records, unitType, n)
            == if m.unitType == unitType && m.proofReceiptId in index
                  && ProjectUnitCount(index[m.proofReceiptId].payload.dwellMs, ParseDecimal(m.weight).value, m.unitType).Some?
               then ProjectUnitCount(index[m.proofReceiptId].payload.dwellMs, ParseDecimal(m.weight).value, m.unitType).value else 0
  {
    TurnRaises(env, index, records[n], n);
    TurnWrittenOut(env, index, records[n], n);
    hide ParseDecimal, ProjectUnitCount, TurnOf, MeterRaises;
  }

  /** Under a VALID report the unit count a record claims is, by its unit type, this number of its receipt's dwell and its weight. */
  lemma VerifiedUnitsWrittenOut(env: Foreign, proofs: seq<ProofRecord>, metering: MeteringSummary, packOrgId: Option<string>, i: nat)
    returns (p: nat)
    requires MeteringHolds(env, proofs, metering, packOrgId) && i < |metering.records|
    ensures var m := metering.records[i];
            && p < |proofs| && proofs[p].payload.receiptId == m.proofReceiptId
            && ParseDecimal(m.weight).Some? && ParseDecimal(m.unitCount).Some?
            && var units, dwell, w := ParseDecimal(m.unitCount).value, proofs[p].payload.dwellMs, ParseDecimal(m.weight).value;
            && m.unitType in {"DWELL_SECONDS", "ATTENTION_SECONDS", "OCCUPANCY_WEIGHTED_EXPOSURE", "IMPRESSION_IN_PLACE", "COMPLIANT_DELIVERY_MINUTE"}
            && (m.unitType in {"DWELL_SECONDS", "ATTENTION_SECONDS", "OCCUPANCY_WEIGHTED_EXPOSURE"} ==> units == dwell * w / 1000)
            && (m.unitType == "IMPRESSION_IN_PLACE" ==> units == w)
            && (m.unitType == "COMPLIANT_DELIVERY_MINUTE" ==> units == (dwell * 1000000 / 60000) * w / 1000000)
  {
    p := MeterRecordsRederive(env, proofs, metering, packOrgId, i);
    hide ParseDecimal, ProjectUnitCount, MeteringHolds, MeterIdemKey;
    UnitsWrittenOut(proofs[p].payload.dwellMs, ParseDecimal(metering.records[i].weight).value, metering.records[i].unitType);
  }
}
