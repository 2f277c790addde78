/** Completeness: what an honest issuer puts together is found VALID, so the theorems about VALID reports are not empty. */
module Issuing {
  import opened Prelude
  import opened Decimal
  import opened Primitives
  import opened Keys
  import opened ProofPack
  import opened ProofPayload
  import opened Projection
  import opened Split
  import opened Auditor
  import ProofChain
  import Metering
  import Settlement
  import SettlementFacts
  import SettlementOrder

  // ---------------------------------------------------------------- the records

  /** The record an issuer writes for a payload: canonical text, its digest, the link and a signature. */
  function IssuedRecord(env: Foreign, payload: ProofReceiptPayload, keyId: string, signature: string, before: Option<string>): ProofRecord {
    ProofRecord(payload, keyId, signature, CanonicalText(payload), before, env.sha(CanonicalText(payload)))
  }

  /** What goes into a record: the payload, the key that signs it, and the signature. */
  datatype Draft = Draft(payload: ProofReceiptPayload, keyId: string, signature: string)

  /** Record i of a list of drafts, which names its predecessor's digest. */
  function IssuedAt(env: Foreign, drafts: seq<Draft>, prior: Option<string>, i: nat): ProofRecord
    requires i < |drafts|
  {
    IssuedRecord(env, drafts[i].payload, drafts[i].keyId, drafts[i].signature,
                 if i == 0 then prior else Some(env.sha(CanonicalText(drafts[i - 1].payload))))
  }

  function Issue(env: Foreign, drafts: seq<Draft>, prior: Option<string>): (records: seq<ProofRecord>)
    ensures |records| == |drafts|
    ensures forall i :: 0 <= i < |drafts| ==> records[i] == IssuedAt(env, drafts, prior, i)
  {
    seq(|drafts|, i requires 0 <= i < |drafts| => IssuedAt(env, drafts, prior, i))
  }

  /** The key is listed, the payload's time lies in its window, and the signature is over the signing input. */
  ghost predicate Issuable(env: Foreign, keys: KeyDirectory, d: Draft) {
    && d.keyId in keys.index
    && ParseIsoMs(env, d.payload.issuedAt).Some? && InWindow(env, keys.index[d.keyId], ParseIsoMs(env, d.payload.issuedAt).value)
    && Signs(env, keys.index[d.keyId].publicKey, SigningInput(d.payload, d.keyId), d.signature)
  }

  predicate InTimeOrder(env: Foreign, p: ProofReceiptPayload, q: ProofReceiptPayload) {
    var a, b := ParseIsoMs(env, p.issuedAt), ParseIsoMs(env, q.issuedAt);
    a.Some? && b.Some? ==> a.value <= b.value
  }

  /** What an honest issuer sees to: usable keys and true signatures, times in order, and no nonce twice. */
  ghost predicate IssuedInOrder(env: Foreign, keys: KeyDirectory, drafts: seq<Draft>) {
    && drafts != []
    && (forall i :: 0 <= i < |drafts| ==> Issuable(env, keys, drafts[i]))
    && (forall i, j :: 0 <= i < j < |drafts| ==> InTimeOrder(env, drafts[i].payload, drafts[j].payload))
    && (forall i, j :: 0 <= i < j < |drafts| ==> drafts[i].payload.nonce != drafts[j].payload.nonce)
  }

  lemma IssuedIsAuthentic(env: Foreign, keys: KeyDirectory, d: Draft, before: Option<string>)
    requires Issuable(env, keys, d)
    ensures Authentic(env, keys, IssuedRecord(env, d.payload, d.keyId, d.signature, before))
  {
    hide ParseIsoMs, InWindow, Signs, CanonicalText, SigningInput;
  }

  lemma IssuedIsLinked(env: Foreign, drafts: seq<Draft>, prior: Option<string>, i: nat)
    requires i + 1 < |drafts|
    ensures ProofChain.Linked(IssuedAt(env, drafts, prior, i), IssuedAt(env, drafts, prior, i + 1))
  {
    hide CanonicalText;
  }

  /** Whatever an honest issuer issues passes both the record and the chain verifier. */
  lemma IssuedPackVerifies(env: Foreign, keys: KeyDirectory, drafts: seq<Draft>, prior: Option<string>)
    requires IssuedInOrder(env, keys, drafts)
    ensures PackHolds(env, keys, Issue(env, drafts, prior)) && ProofChain.ChainHolds(env, Issue(env, drafts, prior), prior)
  {
    hide ParseIsoMs, Authentic, Issuable, CanonicalText, ProofChain.Linked;
    var records := Issue(env, drafts, prior);
    assert forall i :: 0 <= i < |records| ==> records[i].payload == drafts[i].payload;
    forall i | 0 <= i < |records| ensures Authentic(env, keys, records[i]) {
      IssuedIsAuthentic(env, keys, drafts[i], records[i].beforeHash);
    }
    forall i, j | 0 <= i < j < |records| && j == i + 1
      ensures ProofChain.Linked(records[i], records[j]) && ProofChain.NotEarlier(env, records[i], records[j])
    {
      IssuedIsLinked(env, drafts, prior, i);
    }
  }

  // --------------------------------------------------------------- the metering

  /** A meter record to be projected: a receipt, a unit type and a weight in millionths. */
  datatype MeterDraft = MeterDraft(receiptId: string, unitType: string, weight: int)

  /** The receipt is in the proof pack and the unit type has a projection. */
  predicate Projectable(records: seq<ProofRecord>, d: MeterDraft) {
    d.receiptId in Metering.ReceiptIndex(records) && PolicyOf(d.unitType) != Unknown
  }

  function UnitsFor(records: seq<ProofRecord>, d: MeterDraft): int
    requires Projectable(records, d)
  {
    ProjectUnitCount(Metering.ReceiptIndex(records)[d.receiptId].payload.dwellMs, d.weight, d.unitType).value
  }

  function Metered(env: Foreign, records: seq<ProofRecord>, d: MeterDraft): Metering.MeterRecord
    requires Projectable(records, d)
  {
    Metering.MeterRecord(MeterIdemKey(env.sha, d.receiptId, d.unitType), d.receiptId, d.unitType,
                         FormatDecimal(UnitsFor(records, d)), FormatDecimal(d.weight))
  }

  predicate AllProjectable(records: seq<ProofRecord>, drafts: seq<MeterDraft>) {
    forall i :: 0 <= i < |drafts| ==> Projectable(records, drafts[i])
  }

  function MeterRecords(env: Foreign, records: seq<ProofRecord>, drafts: seq<MeterDraft>): (meters: seq<Metering.MeterRecord>)
    requires AllProjectable(records, drafts)
    ensures |meters| == |drafts| && forall i :: 0 <= i < |drafts| ==> meters[i] == Metered(env, records, drafts[i])
  {
    seq(|drafts|, i requires 0 <= i < |drafts| => Metered(env, records, drafts[i]))
  }

  /** The true total of each of the given unit types. */
  function Totals(meters: seq<Metering.MeterRecord>, types: seq<string>): (totals: seq<Metering.MeterTotal>)
    ensures |totals| == |types|
    ensures forall k :: 0 <= k < |types| ==> totals[k] == Metering.MeterTotal(types[k], FormatDecimal(Metering.ClaimedSum(meters, types[k])))
  {
    seq(|types|, k requires 0 <= k < |types| => Metering.MeterTotal(types[k], FormatDecimal(Metering.ClaimedSum(meters, types[k]))))
  }

  function IssuedMetering(env: Foreign, records: seq<ProofRecord>, orgId: string, drafts: seq<MeterDraft>, types: seq<string>): Metering.MeteringSummary
    requires AllProjectable(records, drafts)
  {
    var meters := MeterRecords(env, records, drafts);
    Metering.MeteringSummary(orgId, meters, Some(Totals(meters, types)))
  }

  lemma MeteredHolds(env: Foreign, records: seq<ProofRecord>, d: MeterDraft)
    requires Projectable(records, d)
    ensures Metering.MeterHolds(env, Metering.ReceiptIndex(records), Metered(env, records, d))
  {
    ParseUndoesFormat(d.weight);
    ParseUndoesFormat(UnitsFor(records, d));
    hide ParseDecimal, FormatDecimal, MeterIdemKey, ScaledUnits, PolicyOf;
  }

  lemma IssuedMeteringHolds(env: Foreign, records: seq<ProofRecord>, orgId: string, drafts: seq<MeterDraft>, types: seq<string>)
    requires AllProjectable(records, drafts)
    ensures Metering.MeteringHolds(env, records, IssuedMetering(env, records, orgId, drafts, types), Some(orgId))
  {
    hide ParseDecimal, FormatDecimal, Metering.MeterHolds, Metered, Metering.ClaimedSum, Projectable;
    var metering := IssuedMetering(env, records, orgId, drafts, types);
    forall i | 0 <= i < |drafts| ensures Metering.MeterHolds(env, Metering.ReceiptIndex(records), metering.records[i]) {
      MeteredHolds(env, records, drafts[i]);
    }
    forall k | 0 <= k < |types|
      ensures ParseDecimal(metering.totals.value[k].claimed) == Some(Metering.ClaimedSum(metering.records, types[k]))
    {
      ParseUndoesFormat(Metering.ClaimedSum(metering.records, types[k]));
    }
  }

  // ------------------------------------------------------------- the settlement

  /** A settlement line before its amount is known. */
  datatype LineDraft = LineDraft(meter: string, role: string, account: string, share: int)

  /** The line's key is that of the schema version. */
  function Unpaid(env: Foreign, version: Settlement.SchemaVersion, d: LineDraft): Settlement.SettlementLine {
    var line := Settlement.SettlementLine("", d.meter, d.role, FormatDecimal(d.share), d.account, 0);
    line.(idemKey := Settlement.LineKey(env, version, line))
  }

  function UnpaidLines(env: Foreign, version: Settlement.SchemaVersion, drafts: seq<LineDraft>): (lines: seq<Settlement.SettlementLine>)
    ensures |lines| == |drafts| && forall i :: 0 <= i < |drafts| ==> lines[i] == Unpaid(env, version, drafts[i])
  {
    seq(|drafts|, i requires 0 <= i < |drafts| => Unpaid(env, version, drafts[i]))
  }

  /** The shares of one meter's drafts, added up. */
  function DraftShareSum(drafts: seq<LineDraft>, meter: string): int {
    if drafts == [] then 0
    else
      var last := drafts[|drafts| - 1];
      DraftShareSum(drafts[..|drafts| - 1], meter) + if last.meter == meter then last.share else 0
  }

  /** Every line is for a metered meter with a gross, and the shares of each meter make up the whole. */
  predicate Payable(metering: Metering.MeteringSummary, gross: map<string, int>, drafts: seq<LineDraft>) {
    forall i :: 0 <= i < |drafts| ==>
      && drafts[i].meter in Settlement.MeterIds(metering) && drafts[i].meter in gross
      && DraftShareSum(drafts, drafts[i].meter) == FACTOR
  }

  function UnpaidSettlement(env: Foreign, version: Settlement.SchemaVersion, orgId: string, gross: map<string, int>, drafts: seq<LineDraft>): Settlement.SettlementSummary {
    Settlement.SettlementSummary(version, orgId, gross, UnpaidLines(env, version, drafts), None)
  }

  lemma UnpaidParty(env: Foreign, version: Settlement.SchemaVersion, d: LineDraft)
    ensures Settlement.PartyOf(Unpaid(env, version, d)) == Party(d.share, d.role) && ParseDecimal(Unpaid(env, version, d).share).Some?
  {
    ParseUndoesFormat(d.share);
    hide ParseDecimal, FormatDecimal, Settlement.LineKey;
  }

  /** The shares and roles of one meter's drafts. */
  function DraftParties(drafts: seq<LineDraft>, meter: string): seq<Party> {
    if drafts == [] then []
    else
      var last := drafts[|drafts| - 1];
      DraftParties(drafts[..|drafts| - 1], meter) + if last.meter == meter then [Party(last.share, last.role)] else []
  }

  lemma {:induction false} UnpaidParties(env: Foreign, version: Settlement.SchemaVersion, drafts: seq<LineDraft>, meter: string)
    ensures SettlementOrder.PartiesOf(UnpaidLines(env, version, drafts), meter) == DraftParties(drafts, meter)
  {
    hide Settlement.PartyOf, FormatDecimal, Settlement.LineKey;
    if drafts != [] {
      var n := |drafts| - 1;
      UnpaidParties(env, version, drafts[..n], meter);
      UnpaidParty(env, version, drafts[n]);
      assert UnpaidLines(env, version, drafts)[..n] == UnpaidLines(env, version, drafts[..n]);
    }
  }

  lemma {:induction false} DraftSharesAddUp(drafts: seq<LineDraft>, meter: string)
    ensures Sum(Shares(DraftParties(drafts, meter))) == DraftShareSum(drafts, meter)
  {
    if drafts != [] {
      var last, before := drafts[|drafts| - 1], DraftParties(drafts[..|drafts| - 1], meter);
      DraftSharesAddUp(drafts[..|drafts| - 1], meter);
      hide Sum;
      if last.meter == meter {
        OneMoreShare(before, Party(last.share, last.role));
      } else {
        assert before + [] == before;
      }
    } else {
      assert Shares([]) == [];
    }
  }

  lemma OneMoreShare(ps: seq<Party>, p: Party)
    ensures Sum(Shares(ps + [p])) == Sum(Shares(ps)) + p.share
  {
    SumAppend(Shares(ps), p.share);
    hide Sum;
    assert Shares(ps + [p]) == Shares(ps) + [p.share];
  }

  lemma UnpaidShares(env: Foreign, version: Settlement.SchemaVersion, drafts: seq<LineDraft>, meter: string)
    ensures Sum(Shares(SettlementOrder.PartiesOf(UnpaidLines(env, version, drafts), meter))) == DraftShareSum(drafts, meter)
  {
    UnpaidParties(env, version, drafts, meter);
    DraftSharesAddUp(drafts, meter);
  }

  lemma UnpaidIsSound(env: Foreign, version: Settlement.SchemaVersion, metering: Metering.MeteringSummary, gross: map<string, int>, drafts: seq<LineDraft>)
    requires Payable(metering, gross, drafts)
    ensures SettlementFacts.SoundButForAmounts(env, metering, UnpaidSettlement(env, version, metering.orgId, gross, drafts))
  {
    var s := UnpaidSettlement(env, version, metering.orgId, gross, drafts);
    hide ParseDecimal, FormatDecimal, SettlementIdemKey, SettlementIdemKeyV1, Sum, SettlementOrder.PartiesOf, Settlement.GroupParties, DraftShareSum, Settlement.MeterIds;
    forall i | 0 <= i < |s.lines|
      ensures Settlement.ShareSum(s, s.lines[i].meterRecordIdemKey) == FACTOR && ParseDecimal(s.lines[i].share).Some?
    {
      UnpaidParty(env, version, drafts[i]);
      UnpaidShares(env, version, drafts, drafts[i].meter);
      SettlementOrder.GroupIsPartiesOf(s, drafts[i].meter);
    }
  }

  /** The amounts the split gives the lines. */
  function SplitAmounts(s: Settlement.SettlementSummary): (amounts: seq<int>)
    requires forall i :: 0 <= i < |s.lines| ==> Settlement.HasGross(s, s.lines[i])
    ensures |amounts| == |s.lines| && forall i :: 0 <= i < |s.lines| ==> amounts[i] == Settlement.ExpectedAmount(s, i)
  {
    seq(|s.lines|, i requires 0 <= i < |s.lines| => Settlement.ExpectedAmount(s, i))
  }

  /** The settlement with the true totals of its lines. */
  function WithTotals(s: Settlement.SettlementSummary): Settlement.SettlementSummary {
    s.(totals := Some(Settlement.SettlementTotals(
      Settlement.ColumnSum(s.lines, Settlement.GrossColumn, |s.lines|),
      Settlement.ColumnSum(s.lines, Settlement.TenantColumn, |s.lines|),
      Settlement.ColumnSum(s.lines, Settlement.PlatformColumn, |s.lines|))))
  }

  lemma TrueTotalsHold(env: Foreign, metering: Metering.MeteringSummary, s: Settlement.SettlementSummary)
    requires Settlement.SettlementHolds(env, metering, s)
    ensures Settlement.SettlementHolds(env, metering, WithTotals(s))
  {
    var t := WithTotals(s);
    hide ParseDecimal, Settlement.ColumnSum, Amounts, Sum;
    assert Settlement.TotalsHold(t);
    forall i | 0 <= i < |s.lines|
      ensures Settlement.LineHolds(env, Settlement.MeterIds(metering), t, i)
      ensures Settlement.ShareSum(t, t.lines[i].meterRecordIdemKey) == FACTOR
    {
      TotalsAreIgnored(s, t.totals, s.lines[i].meterRecordIdemKey);
      assert Settlement.LineHolds(env, Settlement.MeterIds(metering), s, i);
    }
    hide Settlement.LineHolds, Settlement.ShareSum, Settlement.TotalsHold;
  }

  lemma TotalsAreIgnored(s: Settlement.SettlementSummary, totals: Option<Settlement.SettlementTotals>, meter: string)
    ensures Settlement.GroupParties(s.(totals := totals), meter) == Settlement.GroupParties(s, meter)
  {}

  /** Every payable list of lines has a settlement with totals that holds. */
  lemma IssuedSettlementHolds(env: Foreign, version: Settlement.SchemaVersion, metering: Metering.MeteringSummary, gross: map<string, int>, drafts: seq<LineDraft>)
    returns (s: Settlement.SettlementSummary)
    requires Payable(metering, gross, drafts)
    ensures Settlement.SettlementHolds(env, metering, s) && s.schemaVersion == version && s.totals.Some? && s.meterGross == gross
    ensures |s.lines| == |drafts| && forall i :: 0 <= i < |drafts| ==> s.lines[i] == Unpaid(env, version, drafts[i]).(amountCents := s.lines[i].amountCents)
  {
    UnpaidIsSound(env, version, metering, gross, drafts);
    var s0 := UnpaidSettlement(env, version, metering.orgId, gross, drafts);
    hide ParseDecimal, Unpaid, Settlement.ExpectedAmount, Settlement.SettlementHolds, Settlement.ColumnSum;
    var amounts := SplitAmounts(s0);
    var t := SettlementFacts.WithAmounts(s0, amounts);
    SettlementFacts.ExactlyOneVectorIsAccepted(env, metering, s0, amounts);
    TrueTotalsHold(env, metering, t);
    s := WithTotals(t);
  }

  // ------------------------------------------------------------ the whole bundle

  /**
   Honest bundles verify: for every list of records issued in order, under any usable keys, every list
   of projectable meter records with true totals, and every payable list of settlement lines, there is
   a bundle of just these that the full run finds VALID.
   */
  lemma HonestBundleVerifies(env: Foreign, keys: KeyDirectory, drafts: seq<Draft>, prior: Option<string>, orgId: string, packId: string,
                             meters: seq<MeterDraft>, types: seq<string>,
                             version: Settlement.SchemaVersion, gross: map<string, int>, lines: seq<LineDraft>)
    returns (bundle: AuditBundle)
    requires IssuedInOrder(env, keys, drafts) && AllProjectable(Issue(env, drafts, prior), meters)
    requires Payable(IssuedMetering(env, Issue(env, drafts, prior), orgId, meters, types), gross, lines)
    ensures ReportsValid(Outcome(env, keys, bundle))
    ensures bundle.priorAfterHash == prior && bundle.pack.orgId == orgId && bundle.pack.records == Issue(env, drafts, prior)
    ensures bundle.metering == Some(IssuedMetering(env, Issue(env, drafts, prior), orgId, meters, types))
    ensures bundle.settlement.Some? && bundle.settlement.value.schemaVersion == version
    ensures bundle.settlement.value.totals.Some? && bundle.settlement.value.meterGross == gross
    ensures |bundle.settlement.value.lines| == |lines|
    ensures forall i :: 0 <= i < |lines| ==>
              bundle.settlement.value.lines[i] == Unpaid(env, version, lines[i]).(amountCents := bundle.settlement.value.lines[i].amountCents)
  {
    var records := Issue(env, drafts, prior);
    var metering := IssuedMetering(env, records, orgId, meters, types);
    hide IssuedInOrder, Outcome, ReportsValid, Metering.MeteringHolds, Settlement.SettlementHolds, PackHolds, ProofChain.ChainHolds,
      Payable, Unpaid, MeterRecords, Totals, AllProjectable;
    var s := IssuedSettlementHolds(env, version, metering, gross, lines);
    bundle := AuditBundle(SignedProofPack(orgId, packId, records, None, None), Some(metering), Some(s), None, prior);
    IssuedPackVerifies(env, keys, drafts, prior);
    IssuedMeteringHolds(env, records, orgId, meters, types);
    OutcomeDecides(env, keys, bundle);
  }
}
