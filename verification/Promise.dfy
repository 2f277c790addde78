/** The documented end-to-end promise, held against what an auditor actually runs, and what a VALID report leaves free. */
module Promise {
  import opened Prelude
  import opened Decimal
  import opened Primitives
  import opened Keys
  import opened ProofPack
  import opened Auditor
  import opened EndToEnd
  import opened Issuing
  import opened Split
  import ProofChain
  import Metering
  import Settlement
  import SettlementFacts

  // --------------------------------------------------------------- the promise

  /** The directory a bundle is judged by: that of the keys it ships, or else the auditor's own. */
  ghost function JudgedBy(d: KeyDirectory, bundle: AuditBundle): Result<KeyDirectory, Error> {
    if bundle.verificationKeys.Some? then Loaded(Success(bundle.verificationKeys.value)) else Success(d)
  }

  lemma OutcomeIsJudged(env: Foreign, d: KeyDirectory, bundle: AuditBundle, offered: Result<seq<VerificationKey>, Error>)
    ensures OutcomeOf(env, Some(d), Call(bundle, offered)) == OutcomeUnder(env, JudgedBy(d, bundle), bundle)
  {
    hide PackReportOf, PackRaises, ProofChain.ChainSteps, RollupOverallStatus, Loaded, Metering.RaisesOn,
      Metering.ProjectionSteps, Settlement.SettlementSteps;
  }

  /**
   What README.md promises of a bundle: whatever directory d the auditor pulled and whatever settlement
   is put beside the bundle, a VALID report means that every line of the settlement derives from
   receipts whose signatures verify under d.
   */
  ghost predicate PromiseKept(env: Foreign, bundle: AuditBundle) {
    forall d, offered, s :: ReportsValid(OutcomeOf(env, Some(d), Call(WithSettlement(bundle, s), offered)))
      ==> SettlementDerives(env, d, bundle.pack.records, s)
  }

  /** The promise covers a bundle: it has metering, and either ships no keys or meters nothing. */
  predicate Covered(bundle: AuditBundle) {
    var m := MeteringInput(bundle);
    m.Some? && (bundle.verificationKeys.None? || m.value.records == [])
  }

  /** For a bundle that is VALID for some auditor, the promise is kept exactly when the bundle is covered. */
  lemma PromiseKeptExactly(env: Foreign, d0: KeyDirectory, bundle: AuditBundle, offered0: Result<seq<VerificationKey>, Error>)
    requires ReportsValid(OutcomeOf(env, Some(d0), Call(bundle, offered0)))
    ensures PromiseKept(env, bundle) <==> Covered(bundle)
  {
    hide ReportsValid, OutcomeOf, SettlementDerives;
    if Covered(bundle) {
      forall d, offered, s | ReportsValid(OutcomeOf(env, Some(d), Call(WithSettlement(bundle, s), offered)))
        ensures SettlementDerives(env, d, bundle.pack.records, s)
      {
        CoveredIsKept(env, d, bundle, offered, s);
      }
    } else {
      var d, s := NotCoveredIsBroken(env, d0, bundle, offered0);
    }
  }

  lemma CoveredIsKept(env: Foreign, d: KeyDirectory, bundle: AuditBundle, offered: Result<seq<VerificationKey>, Error>, s: Settlement.SettlementSummary)
    requires Covered(bundle) && ReportsValid(OutcomeOf(env, Some(d), Call(WithSettlement(bundle, s), offered)))
    ensures SettlementDerives(env, d, bundle.pack.records, s)
  {
    var other := WithSettlement(bundle, s);
    OutcomeIsJudged(env, d, other, offered);
    hide OutcomeOf, Outcome;
    if bundle.verificationKeys.None? {
      MeteredSettlementDerives(env, d, bundle, s);
    } else {
      var keys := JudgedBy(d, other).value;
      NothingMeteredNothingSettled(env, keys, other);
      assert LinesDerive(env, d, bundle.pack.records, MeteringInput(bundle).value, s);
    }
  }

  /** A VALID bundle that meters nothing settles nothing. */
  lemma NothingMeteredNothingSettled(env: Foreign, keys: KeyDirectory, bundle: AuditBundle)
    requires ReportsValid(Outcome(env, keys, bundle)) && MeteringInput(bundle).Some? && MeteringInput(bundle).value.records == []
    requires SettlementInput(bundle).Some?
    ensures SettlementInput(bundle).value.lines == []
  {
    OutcomeDecides(env, keys, bundle);
    hide Outcome, ReportsValid, PackHolds, ProofChain.ChainHolds, Metering.MeteringHolds, Settlement.KeyHolds, Settlement.Exact,
      Settlement.ShareSum, Settlement.TotalsHold, ParseDecimal;
    var metering, s := MeteringInput(bundle).value, SettlementInput(bundle).value;
    assert s.lines != [] ==> Settlement.LineHolds(env, Settlement.MeterIds(metering), s, 0);
  }

  lemma NotCoveredIsBroken(env: Foreign, d0: KeyDirectory, bundle: AuditBundle, offered0: Result<seq<VerificationKey>, Error>)
    returns (d: KeyDirectory, s: Settlement.SettlementSummary)
    requires ReportsValid(OutcomeOf(env, Some(d0), Call(bundle, offered0))) && !Covered(bundle)
    ensures ReportsValid(OutcomeOf(env, Some(d), Call(WithSettlement(bundle, s), offered0)))
    ensures !SettlementDerives(env, d, bundle.pack.records, s)
  {
    OutcomeIsJudged(env, d0, bundle, offered0);
    hide OutcomeOf, Outcome;
    var keys := JudgedBy(d0, bundle).value;
    hide ReportsValid;
    if MeteringInput(bundle).None? {
      d := d0;
      var line := Settlement.SettlementLine("", "", "", "", "", 0);
      s := Settlement.SettlementSummary(Settlement.V2, bundle.pack.orgId, map[], [line], None);
      SettlementIsSkipped(env, keys, bundle, s);
      NothingDerives(env, d, bundle.pack.records, s);
    } else {
      d := KeyDirectory(map[]);
      s := SettlementOfFirstMeter(env, keys, bundle);
      NoKeysNothingDerives(env, bundle.pack.records, s);
    }
    OutcomeIsJudged(env, d, WithSettlement(bundle, s), offered0);
  }

  /** Beside any VALID bundle that meters something a settlement with a line can be put. */
  lemma SettlementOfFirstMeter(env: Foreign, keys: KeyDirectory, bundle: AuditBundle) returns (s: Settlement.SettlementSummary)
    requires ReportsValid(Outcome(env, keys, bundle)) && MeteringInput(bundle).Some? && MeteringInput(bundle).value.records != []
    ensures ReportsValid(Outcome(env, keys, WithSettlement(bundle, s))) && |s.lines| == 1
  {
    var metering := MeteringInput(bundle).value;
    hide Outcome, ReportsValid, PackHolds, ProofChain.ChainHolds, Metering.MeteringHolds, Settlement.SettlementHolds;
    s := OneLineFor(env, metering);
    OutcomeDecides(env, keys, bundle);
    OutcomeDecides(env, keys, WithSettlement(bundle, s));
  }

  lemma OneLineFor(env: Foreign, metering: Metering.MeteringSummary) returns (s: Settlement.SettlementSummary)
    requires metering.records != []
    ensures Settlement.SettlementHolds(env, metering, s) && |s.lines| == 1
  {
    var meter := metering.records[0].idemKey;
    var drafts := [LineDraft(meter, "TENANT", "", FACTOR)];
    assert DraftShareSum(drafts, meter) == FACTOR by {
      assert drafts[..0] == [] && DraftShareSum([], meter) == 0;
    }
    assert Payable(metering, map[meter := 0], drafts);
    hide Payable, Unpaid, Settlement.SettlementHolds;
    s := IssuedSettlementHolds(env, Settlement.V2, metering, map[meter := 0], drafts);
  }

  /** Under an empty directory no line derives. */
  lemma NoKeysNothingDerives(env: Foreign, records: seq<ProofRecord>, s: Settlement.SettlementSummary)
    requires s.lines != []
    ensures !SettlementDerives(env, KeyDirectory(map[]), records, s)
  {
    var d := KeyDirectory(map[]);
    forall metering ensures !LinesDerive(env, d, records, metering, s) {
      forall m: nat, p: nat ensures !Derivation(env, d, records, metering, s, 0, m, p) {
        hide ParseDecimal, CanonicalHolds, AfterHashHolds, Settlement.Exact, Settlement.KeyHolds;
        assert p < |records| ==> !Authentic(env, d, records[p]);
      }
      assert !LineDerives(env, d, records, metering, s, 0);
    }
  }

  /**
   An input: any honest bundle with a settlement line, shipped with the keys that signed it. An auditor
   who lists no key at all finds it VALID, and nothing of its settlement derives under that auditor's keys.
   */
  lemma ShippedKeysBreakThePromise(env: Foreign, shipped: seq<VerificationKey>, drafts: seq<Draft>, prior: Option<string>, orgId: string,
                                   packId: string, meters: seq<MeterDraft>, types: seq<string>, version: Settlement.SchemaVersion,
                                   gross: map<string, int>, lines: seq<LineDraft>, offered: Result<seq<VerificationKey>, Error>)
    returns (bundle: AuditBundle)
    requires Loaded(Success(shipped)).Success? && IssuedInOrder(env, Loaded(Success(shipped)).value, drafts)
    requires AllProjectable(Issue(env, drafts, prior), meters) && lines != []
    requires Payable(IssuedMetering(env, Issue(env, drafts, prior), orgId, meters, types), gross, lines)
    ensures bundle.verificationKeys == Some(shipped) && bundle.metering.Some? && bundle.settlement.Some?
    ensures ReportsValid(OutcomeOf(env, Some(KeyDirectory(map[])), Call(bundle, offered)))
    ensures !SettlementDerives(env, KeyDirectory(map[]), bundle.pack.records, bundle.settlement.value)
  {
    var keys := Loaded(Success(shipped)).value;
    hide IssuedInOrder, AllProjectable, Payable, Loaded, Unpaid, IssuedMetering, ReportsValid, OutcomeOf;
    var plain := HonestBundleVerifies(env, keys, drafts, prior, orgId, packId, meters, types, version, gross, lines);
    bundle := plain.(verificationKeys := Some(shipped));
    KeysFieldIsIdle(env, keys, plain, Some(shipped));
    hide Outcome;
    OutcomeIsJudged(env, KeyDirectory(map[]), bundle, offered);
    NoKeysNothingDerives(env, bundle.pack.records, bundle.settlement.value);
  }

  lemma KeysFieldIsIdle(env: Foreign, keys: KeyDirectory, bundle: AuditBundle, shipped: Option<seq<VerificationKey>>)
    ensures Outcome(env, keys, bundle.(verificationKeys := shipped)) == Outcome(env, keys, bundle)
  {
    hide PackReportOf, PackRaises, ProofChain.ChainSteps, RollupOverallStatus, Metering.RaisesOn, Metering.ProjectionSteps,
      Settlement.SettlementSteps;
  }

  // ----------------------------------------------------- what a report leaves free

  /**
   The gross amounts are taken as given: for any gross amounts of the same meters there are line amounts
   and totals with which the report is VALID again.
   */
  lemma AnyGrossIsAccepted(env: Foreign, keys: KeyDirectory, bundle: AuditBundle, gross: map<string, int>) returns (t: Settlement.SettlementSummary)
    requires ReportsValid(Outcome(env, keys, bundle)) && MeteringInput(bundle).Some? && SettlementInput(bundle).Some?
    requires forall i :: 0 <= i < |SettlementInput(bundle).value.lines| ==> SettlementInput(bundle).value.lines[i].meterRecordIdemKey in gross
    ensures ReportsValid(Outcome(env, keys, WithSettlement(bundle, t)))
    ensures var s := SettlementInput(bundle).value;
            && t == s.(meterGross := gross, lines := t.lines, totals := t.totals) && |t.lines| == |s.lines|
            && forall i :: 0 <= i < |s.lines| ==> t.lines[i] == s.lines[i].(amountCents := t.lines[i].amountCents)
  {
    var metering, s := MeteringInput(bundle).value, SettlementInput(bundle).value;
    OutcomeDecides(env, keys, bundle);
    hide Outcome, ReportsValid, PackHolds, ProofChain.ChainHolds, Metering.MeteringHolds, Settlement.SettlementHolds;
    t := OtherGross(env, metering, s, gross);
    OutcomeDecides(env, keys, WithSettlement(bundle, t));
  }

  lemma OtherGross(env: Foreign, metering: Metering.MeteringSummary, s: Settlement.SettlementSummary, gross: map<string, int>)
    returns (t: Settlement.SettlementSummary)
    requires Settlement.SettlementHolds(env, metering, s)
    requires forall i :: 0 <= i < |s.lines| ==> s.lines[i].meterRecordIdemKey in gross
    ensures Settlement.SettlementHolds(env, metering, t)
    ensures t == s.(meterGross := gross, lines := t.lines, totals := t.totals) && |t.lines| == |s.lines|
    ensures forall i :: 0 <= i < |s.lines| ==> t.lines[i] == s.lines[i].(amountCents := t.lines[i].amountCents)
  {
    var unpaid := s.(meterGross := gross, totals := None);
    OtherGrossIsSound(env, metering, s, gross);
    hide ParseDecimal, Settlement.ExpectedAmount, Settlement.SettlementHolds, Settlement.ColumnSum, Settlement.KeyHolds, Settlement.ShareSum;
    var amounts := SplitAmounts(unpaid);
    var paid := SettlementFacts.WithAmounts(unpaid, amounts);
    SettlementFacts.ExactlyOneVectorIsAccepted(env, metering, unpaid, amounts);
    TrueTotalsHold(env, metering, paid);
    t := WithTotals(paid);
  }

  lemma OtherGrossIsSound(env: Foreign, metering: Metering.MeteringSummary, s: Settlement.SettlementSummary, gross: map<string, int>)
    requires Settlement.SettlementHolds(env, metering, s)
    requires forall i :: 0 <= i < |s.lines| ==> s.lines[i].meterRecordIdemKey in gross
    ensures SettlementFacts.SoundButForAmounts(env, metering, s.(meterGross := gross, totals := None))
  {
    hide ParseDecimal, Settlement.Exact, Settlement.LineKey, Settlement.TotalsHold;
    var t := s.(meterGross := gross, totals := None);
    forall i | 0 <= i < |s.lines|
      ensures Settlement.ShareSum(t, t.lines[i].meterRecordIdemKey) == FACTOR
      ensures Settlement.KeyHolds(env, t.schemaVersion, t.lines[i]) && ParseDecimal(t.lines[i].share).Some?
      ensures t.lines[i].meterRecordIdemKey in Settlement.MeterIds(metering)
    {
      assert Settlement.LineHolds(env, Settlement.MeterIds(metering), s, i);
      GrossIsIgnored(s, t, s.lines[i].meterRecordIdemKey);
    }
  }

  lemma GrossIsIgnored(s: Settlement.SettlementSummary, t: Settlement.SettlementSummary, meter: string)
    requires t.lines == s.lines
    ensures Settlement.ShareSum(t, meter) == Settlement.ShareSum(s, meter)
  {
    assert Settlement.GroupParties(t, meter) == Settlement.GroupParties(s, meter);
  }

  function RelabelledMetering(m: Option<Metering.MeteringSummary>, orgId: string): Option<Metering.MeteringSummary> {
    if m.None? then None else Some(m.value.(orgId := orgId))
  }

  function RelabelledSettlement(s: Option<Settlement.SettlementSummary>, orgId: string): Option<Settlement.SettlementSummary> {
    if s.None? then None else Some(s.value.(orgId := orgId))
  }

  /** The bundle with one organisation id on all its parts. */
  function Relabelled(bundle: AuditBundle, orgId: string): AuditBundle {
    bundle.(pack := bundle.pack.(orgId := orgId, metering := RelabelledMetering(bundle.pack.metering, orgId),
                                 settlement := RelabelledSettlement(bundle.pack.settlement, orgId)),
            metering := RelabelledMetering(bundle.metering, orgId), settlement := RelabelledSettlement(bundle.settlement, orgId))
  }

  /**
   That organisations agree is agreement among labels nobody signed: a VALID bundle relabelled to any one
   organisation is VALID.
   */
  lemma OrganisationIsALabel(env: Foreign, keys: KeyDirectory, bundle: AuditBundle, orgId: string)
    requires ReportsValid(Outcome(env, keys, bundle))
    ensures ReportsValid(Outcome(env, keys, Relabelled(bundle, orgId)))
  {
    var other := Relabelled(bundle, orgId);
    var m, s := MeteringInput(bundle), SettlementInput(bundle);
    assert MeteringInput(other) == RelabelledMetering(m, orgId) && SettlementInput(other) == RelabelledSettlement(s, orgId);
    assert other.pack.records == bundle.pack.records && other.priorAfterHash == bundle.priorAfterHash && other.pack.orgId == orgId;
    hide Relabelled, MeteringInput, SettlementInput, Outcome, ReportsValid, PackHolds, ProofChain.ChainHolds, Metering.MeteringHolds,
      Settlement.SettlementHolds;
    OutcomeDecides(env, keys, bundle);
    OutcomeDecides(env, keys, other);
    if m.Some? {
      MeteringLabel(env, bundle.pack.records, m.value, bundle.pack.orgId, orgId);
    }
    if m.Some? && s.Some? {
      SettlementLabel(env, m.value, s.value, orgId);
    }
  }

  lemma MeteringLabel(env: Foreign, records: seq<ProofRecord>, m: Metering.MeteringSummary, was: string, orgId: string)
    requires Metering.MeteringHolds(env, records, m, Some(was))
    ensures Metering.MeteringHolds(env, records, m.(orgId := orgId), Some(orgId))
  {
    hide Metering.MeterHolds, Metering.ClaimedSum, ParseDecimal;
    assert Metering.TotalsOf(m.(orgId := orgId)) == Metering.TotalsOf(m);
    hide Metering.TotalsOf;
  }

  lemma SettlementLabel(env: Foreign, m: Metering.MeteringSummary, s: Settlement.SettlementSummary, orgId: string)
    requires Settlement.SettlementHolds(env, m, s)
    ensures Settlement.SettlementHolds(env, m.(orgId := orgId), s.(orgId := orgId))
  {
    var t := s.(orgId := orgId);
    hide ParseDecimal, Settlement.KeyHolds, Amounts, Settlement.ColumnSum, Sum;
    forall i | 0 <= i < |s.lines|
      ensures Settlement.LineHolds(env, Settlement.MeterIds(m.(orgId := orgId)), t, i)
      ensures Settlement.ShareSum(t, t.lines[i].meterRecordIdemKey) == FACTOR
    {
      assert Settlement.LineHolds(env, Settlement.MeterIds(m), s, i);
      assert Settlement.GroupParties(t, s.lines[i].meterRecordIdemKey) == Settlement.GroupParties(s, s.lines[i].meterRecordIdemKey);
    }
  }
}
