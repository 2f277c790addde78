/** What a VALID full report implies across its four parts, and where the parts leave a gap. */
module EndToEnd {
  import opened Prelude
  import opened Decimal
  import opened Report
  import opened Primitives
  import opened Keys
  import opened ProofPack
  import opened Projection
  import Base64Url
  import opened ProofPayload
  import opened Auditor
  import ProofChain
  import Metering
  import Settlement
  import SettlementFacts

  // ------------------------------------------------------ end-to-end re-derivation

  /**
   Line i of a settlement derives from meter record m, and that from pack record p: the line's key and
   cents re-derive, the meter record's key and unit count re-project from the receipt, and the receipt
   is authentic (canonical text, digest, key window and signature).
   */
  ghost predicate Derivation(env: Foreign, keys: KeyDirectory, records: seq<ProofRecord>, metering: Metering.MeteringSummary,
                             s: Settlement.SettlementSummary, i: nat, m: nat, p: nat)
  {
    && i < |s.lines| && m < |metering.records| && p < |records|
    && var line, meter := s.lines[i], metering.records[m];
    && line.meterRecordIdemKey == meter.idemKey
    && Settlement.KeyHolds(env, s.schemaVersion, line)
    && Settlement.Exact(s, i)
    && meter.idemKey == MeterIdemKey(env.sha, meter.proofReceiptId, meter.unitType)
    && records[p].payload.receiptId == meter.proofReceiptId
    && ParseDecimal(meter.weight).Some? && ParseDecimal(meter.unitCount).Some?
    && ProjectUnitCount(records[p].payload.dwellMs, ParseDecimal(meter.weight).value, meter.unitType) == ParseDecimal(meter.unitCount)
    && Authentic(env, keys, records[p])
  }

  /**
   The end-to-end claim: if a full report with metering and settlement is VALID, the three
   organisation ids agree, and every settlement line derives from an authentic receipt; moreover the
   lines of its meter add up to the meter's gross.
   */
  lemma EveryLineDerives(env: Foreign, keys: KeyDirectory, bundle: AuditBundle, i: nat) returns (m: nat, p: nat)
    requires ReportsValid(Outcome(env, keys, bundle))
    requires MeteringInput(bundle).Some? && SettlementInput(bundle).Some? && i < |SettlementInput(bundle).value.lines|
    ensures bundle.pack.orgId == MeteringInput(bundle).value.orgId == SettlementInput(bundle).value.orgId
    ensures Derivation(env, keys, bundle.pack.records, MeteringInput(bundle).value, SettlementInput(bundle).value, i, m, p)
    ensures var s := SettlementInput(bundle).value; var meter := s.lines[i].meterRecordIdemKey;
            meter in s.meterGross && Sum(SettlementFacts.GroupAmounts(s, meter)) == s.meterGross[meter]
  {
    OutcomeDecides(env, keys, bundle);
    hide Outcome, ReportsValid, Derivation, PackHolds, Metering.MeteringHolds, Settlement.SettlementHolds, ProofChain.ChainHolds,
      SettlementFacts.GroupAmounts;
    var metering, s := MeteringInput(bundle).value, SettlementInput(bundle).value;
    OrgsAgree(env, bundle.pack.records, metering, s, bundle.pack.orgId);
    m, p := DerivesFrom(env, keys, bundle.pack.records, metering, s, bundle.pack.orgId, i);
    SettlementFacts.MeterConserves(env, metering, s, i);
  }

  lemma OrgsAgree(env: Foreign, records: seq<ProofRecord>, metering: Metering.MeteringSummary, s: Settlement.SettlementSummary, orgId: string)
    requires Metering.MeteringHolds(env, records, metering, Some(orgId)) && Settlement.SettlementHolds(env, metering, s)
    ensures orgId == metering.orgId == s.orgId
  {}

  /** The join of three of the four verifiers' meanings at one settlement line. */
  lemma DerivesFrom(env: Foreign, keys: KeyDirectory, records: seq<ProofRecord>, metering: Metering.MeteringSummary,
                    s: Settlement.SettlementSummary, orgId: string, i: nat) returns (m: nat, p: nat)
    requires PackHolds(env, keys, records) && Metering.MeteringHolds(env, records, metering, Some(orgId))
    requires Settlement.SettlementHolds(env, metering, s) && i < |s.lines|
    ensures Derivation(env, keys, records, metering, s, i, m, p)
  {
    hide Settlement.Exact, Settlement.KeyHolds, ParseDecimal, ProjectUnitCount, MeterIdemKey, Authentic, Metering.MeteringHolds,
      Settlement.ShareSum, Settlement.TotalsHold;
    assert Settlement.LineHolds(env, Settlement.MeterIds(metering), s, i);
    m :| 0 <= m < |metering.records| && metering.records[m].idemKey == s.lines[i].meterRecordIdemKey;
    p := Metering.MeterRecordsRederive(env, records, metering, Some(orgId), m);
  }

  lemma KnownUnitTypesHaveNoPipe(unitType: string)
    requires PolicyOf(unitType) != Unknown
    ensures '|' !in unitType
  {}

  /**
   A line names one kind of delivery: whatever meter records and receipts it derives from, their receipt
   ids and unit types agree, or two key texts collide. Receipt ids may hold pipes; projectable unit types cannot.
   */
  lemma DerivationsAgree(env: Foreign, keys: KeyDirectory, records: seq<ProofRecord>, metering: Metering.MeteringSummary,
                         s: Settlement.SettlementSummary, i: nat, m1: nat, p1: nat, m2: nat, p2: nat)
    requires Derivation(env, keys, records, metering, s, i, m1, p1) && Derivation(env, keys, records, metering, s, i, m2, p2)
    ensures var a, b := metering.records[m1], metering.records[m2];
            || (records[p1].payload.receiptId == records[p2].payload.receiptId && a.unitType == b.unitType)
            || Collides(env.sha, a.proofReceiptId + "|" + a.unitType, b.proofReceiptId + "|" + b.unitType)
  {
    hide Settlement.Exact, Settlement.KeyHolds, ParseDecimal, PolicyOf, MeterIdemKey, Authentic;
    var a, b := metering.records[m1], metering.records[m2];
    KnownUnitTypesHaveNoPipe(a.unitType);
    KnownUnitTypesHaveNoPipe(b.unitType);
    MeterKeyDetermines(env.sha, a.proofReceiptId, a.unitType, b.proofReceiptId, b.unitType);
  }

  /** Some metering summary, of whatever organisation, derives every line of the settlement. */
  ghost predicate SettlementDerives(env: Foreign, keys: KeyDirectory, records: seq<ProofRecord>, s: Settlement.SettlementSummary) {
    exists metering :: LinesDerive(env, keys, records, metering, s)
  }

  ghost predicate LinesDerive(env: Foreign, keys: KeyDirectory, records: seq<ProofRecord>, metering: Metering.MeteringSummary,
                              s: Settlement.SettlementSummary)
  {
    forall i :: 0 <= i < |s.lines| ==> LineDerives(env, keys, records, metering, s, i)
  }

  ghost predicate LineDerives(env: Foreign, keys: KeyDirectory, records: seq<ProofRecord>, metering: Metering.MeteringSummary,
                              s: Settlement.SettlementSummary, i: nat)
  {
    exists m, p :: Derivation(env, keys, records, metering, s, i, m, p)
  }

  /** The bundle with a settlement put beside the proof records. */
  function WithSettlement(bundle: AuditBundle, s: Settlement.SettlementSummary): AuditBundle {
    bundle.(settlement := Some(s))
  }

  /** With metering, a settlement added to a VALID bundle derives under the directory the run was over. */
  lemma MeteredSettlementDerives(env: Foreign, keys: KeyDirectory, bundle: AuditBundle, s: Settlement.SettlementSummary)
    requires MeteringInput(bundle).Some? && ReportsValid(Outcome(env, keys, WithSettlement(bundle, s)))
    ensures SettlementDerives(env, keys, bundle.pack.records, s)
  {
    hide ReportsValid, Outcome, Derivation;
    forall i | 0 <= i < |s.lines|
      ensures LineDerives(env, keys, bundle.pack.records, MeteringInput(bundle).value, s, i)
    {
      var m, p := EveryLineDerives(env, keys, WithSettlement(bundle, s), i);
    }
    assert LinesDerive(env, keys, bundle.pack.records, MeteringInput(bundle).value, s);
  }

  /** Without metering the outcome does not depend on the settlement. */
  lemma SettlementIsSkipped(env: Foreign, keys: KeyDirectory, bundle: AuditBundle, s: Settlement.SettlementSummary)
    requires MeteringInput(bundle).None?
    ensures Outcome(env, keys, WithSettlement(bundle, s)) == Outcome(env, keys, bundle)
  {
    hide PackReportOf, ProofChain.ChainSteps, RollupOverallStatus, Verdict;
  }

  /** A line whose meter has no gross derives from nothing. */
  lemma NothingDerives(env: Foreign, keys: KeyDirectory, records: seq<ProofRecord>, s: Settlement.SettlementSummary)
    requires |s.lines| > 0 && s.meterGross == map[]
    ensures !SettlementDerives(env, keys, records, s)
  {
    hide Settlement.KeyHolds, ParseDecimal, ProjectUnitCount, MeterIdemKey, Authentic, Settlement.ExpectedAmount;
    forall metering ensures !LinesDerive(env, keys, records, metering, s) {
      assert !LineDerives(env, keys, records, metering, s, 0);
    }
  }

  /** Of all settlements that differ only in the amounts on their lines, at most one gives a VALID report. */
  lemma AmountsAreForced(env: Foreign, keys: KeyDirectory, bundle: AuditBundle, s: Settlement.SettlementSummary, amounts: seq<int>, i: nat)
    requires MeteringInput(bundle).Some? && |amounts| == |s.lines| && i < |amounts|
    requires ReportsValid(Outcome(env, keys, WithSettlement(bundle, s)))
    requires ReportsValid(Outcome(env, keys, WithSettlement(bundle, SettlementFacts.WithAmounts(s, amounts))))
    ensures amounts[i] == s.lines[i].amountCents
  {
    var t := SettlementFacts.WithAmounts(s, amounts);
    OutcomeDecides(env, keys, WithSettlement(bundle, s));
    OutcomeDecides(env, keys, WithSettlement(bundle, t));
    var meters := Settlement.MeterIds(MeteringInput(bundle).value);
    hide Outcome, ReportsValid, PackHolds, ProofChain.ChainHolds, Metering.MeteringHolds, Settlement.ExpectedAmount, Settlement.KeyHolds,
      Settlement.MeterIds, Settlement.TotalsHold, Settlement.ShareSum, ParseDecimal;
    assert Settlement.LineHolds(env, meters, s, i) && Settlement.LineHolds(env, meters, t, i);
    SettlementFacts.ExpectedIgnoresAmounts(s, amounts, i);
  }

  // ------------------------------------------------------------- global time order

  lemma TimesAreReadable(env: Foreign, keys: KeyDirectory, records: seq<ProofRecord>)
    requires PackHolds(env, keys, records)
    ensures forall k :: 0 <= k < |records| ==> ProofChain.Readable(env, records[k])
  {
    hide ParseIsoMs, CanonicalHolds, AfterHashHolds, InWindow, Signs;
    forall k | 0 <= k < |records| ensures ProofChain.Readable(env, records[k]) {
      assert Authentic(env, keys, records[k]);
    }
  }

  /**
   In a VALID full report every time of issue parses and the times are sorted over all pairs of
   records. The chain walk alone compares neighbours, and only where both parse; it is the key lookup
   that refuses times that do not parse.
   */
  lemma VerifiedBundleIsSorted(env: Foreign, keys: KeyDirectory, bundle: AuditBundle, i: nat, j: nat)
    requires ReportsValid(Outcome(env, keys, bundle)) && i < j < |bundle.pack.records|
    ensures var a, b := ProofChain.IssuedAtMs(env, bundle.pack.records[i]), ProofChain.IssuedAtMs(env, bundle.pack.records[j]);
            a.Some? && b.Some? && a.value <= b.value
  {
    OutcomeDecides(env, keys, bundle);
    hide Outcome, ReportsValid, PackHolds, ProofChain.ChainHolds;
    TimesAreReadable(env, keys, bundle.pack.records);
    ProofChain.ReadableTimesAscend(env, bundle.pack.records, bundle.priorAfterHash, i, j);
  }

  // ------------------------------------------------- what each part of the run adds

  /**
   verify_proof_pack does not look at chain links, although README.md says it does: any selection of
   the records of a VALID pack, in any order, with repeats and with any links, is VALID again.
   */
  lemma PackReportIgnoresTheChain(env: Foreign, keys: KeyDirectory, pack: SignedProofPack, idx: seq<nat>, s: seq<ProofRecord>)
    requires PackReportOf(env, keys, pack).status == VALID && s != [] && ProofChain.Selects(pack.records, idx, s)
    ensures PackReportOf(env, keys, pack.(records := s)).status == VALID
  {
    StepsDecidePack(env, keys, pack);
    StepsDecidePack(env, keys, pack.(records := s));
    hide PackReportOf;
    SelectionIsAuthentic(env, keys, pack.records, idx, s);
  }

  /** Neither the hash nor the signature of a record covers its link. */
  lemma SelectionIsAuthentic(env: Foreign, keys: KeyDirectory, records: seq<ProofRecord>, idx: seq<nat>, s: seq<ProofRecord>)
    requires PackHolds(env, keys, records) && ProofChain.Selects(records, idx, s) && s != []
    ensures PackHolds(env, keys, s)
  {
    hide InWindow, Signs, ParseIsoMs;
    forall k | 0 <= k < |s| ensures Authentic(env, keys, s[k]) {
      assert ProofChain.SameButForLink(s[k], records[idx[k]]) && Authentic(env, keys, records[idx[k]]);
    }
  }

  /** The bundle with other records behind another anchor. */
  function WithRecords(bundle: AuditBundle, s: seq<ProofRecord>, anchor: Option<string>): AuditBundle {
    bundle.(pack := bundle.pack.(records := s), priorAfterHash := anchor)
  }

  /** The bundle's metering, if there is any, holds over the given records. */
  ghost predicate StillMetered(env: Foreign, bundle: AuditBundle, s: seq<ProofRecord>) {
    MeteringInput(bundle).Some? ==> Metering.MeteringHolds(env, s, MeteringInput(bundle).value, Some(bundle.pack.orgId))
  }

  lemma OtherRecordsDecide(env: Foreign, keys: KeyDirectory, bundle: AuditBundle, s: seq<ProofRecord>, anchor: Option<string>)
    requires ReportsValid(Outcome(env, keys, bundle))
    ensures ReportsValid(Outcome(env, keys, WithRecords(bundle, s, anchor)))
            <==> PackHolds(env, keys, s) && ProofChain.ChainHolds(env, s, anchor) && StillMetered(env, bundle, s)
  {
    hide Outcome, ReportsValid, PackHolds, ProofChain.ChainHolds, Metering.MeteringHolds, Settlement.SettlementHolds;
    var other := WithRecords(bundle, s, anchor);
    assert MeteringInput(other) == MeteringInput(bundle) && SettlementInput(other) == SettlementInput(bundle);
    assert other.pack.records == s && other.priorAfterHash == anchor && other.pack.orgId == bundle.pack.orgId;
    hide WithRecords, MeteringInput, SettlementInput;
    OutcomeDecides(env, keys, bundle);
    OutcomeDecides(env, keys, other);
  }

  /**
   What the full run enforces of the records of a VALID bundle when links may be rewritten, as they can
   be without any key: a list of them gives a VALID bundle exactly when it is not empty, its links fit
   its own order and the anchor, its times do not run back, no record is taken twice, and the metering
   still holds. Which records are there is not enforced.
   */
  lemma SelectionGivesBundle(env: Foreign, keys: KeyDirectory, bundle: AuditBundle, idx: seq<nat>, s: seq<ProofRecord>, anchor: Option<string>)
    requires ReportsValid(Outcome(env, keys, bundle)) && ProofChain.Selects(bundle.pack.records, idx, s)
    ensures ReportsValid(Outcome(env, keys, WithRecords(bundle, s, anchor)))
            <==> && s != [] && ProofChain.Relinked(s, anchor)
                 && ProofChain.NeverBack(env, bundle.pack.records, idx) && ProofChain.AllDifferent(idx)
                 && StillMetered(env, bundle, s)
  {
    OutcomeDecides(env, keys, bundle);
    OtherRecordsDecide(env, keys, bundle, s, anchor);
    ProofChain.SelectionVerifies(env, bundle.pack.records, bundle.priorAfterHash, idx, s, anchor);
    hide Outcome, ReportsValid, ProofChain.ChainHolds, ProofChain.Relinked, ProofChain.NeverBack, ProofChain.AllDifferent, StillMetered, PackHolds,
      ProofChain.Selects;
    if s != [] {
      SelectionIsAuthentic(env, keys, bundle.pack.records, idx, s);
    }
  }

  /** The bundle with record i replaced. */
  function WithRecord(bundle: AuditBundle, i: nat, r: ProofRecord): AuditBundle
    requires i < |bundle.pack.records|
  {
    WithRecords(bundle, bundle.pack.records[i := r], bundle.priorAfterHash)
  }

  /**
   What holds a single record in its place: a VALID bundle with record i replaced is VALID exactly when
   the new record is authentic, has the old link, has the old after-hash if a record follows, is not out
   of order with its neighbours, uses no nonce of the others, and leaves the metering as it was.
   */
  lemma ReplacementGivesBundle(env: Foreign, keys: KeyDirectory, bundle: AuditBundle, i: nat, r: ProofRecord)
    requires ReportsValid(Outcome(env, keys, bundle)) && i < |bundle.pack.records|
    ensures ReportsValid(Outcome(env, keys, WithRecord(bundle, i, r)))
            <==> && Authentic(env, keys, r) && ProofChain.FitsAt(env, bundle.pack.records, i, r)
                 && StillMetered(env, bundle, bundle.pack.records[i := r])
  {
    var records := bundle.pack.records;
    OutcomeDecides(env, keys, bundle);
    hide Outcome, ReportsValid, ProofChain.ChainHolds, ProofChain.FitsAt, StillMetered, Authentic;
    OtherRecordsDecide(env, keys, bundle, records[i := r], bundle.priorAfterHash);
    ProofChain.ReplacementVerifies(env, records, bundle.priorAfterHash, i, r);
    ReplacementIsAuthentic(env, keys, records, i, r);
  }

  lemma ReplacementIsAuthentic(env: Foreign, keys: KeyDirectory, records: seq<ProofRecord>, i: nat, r: ProofRecord)
    requires PackHolds(env, keys, records) && i < |records|
    ensures PackHolds(env, keys, records[i := r]) <==> Authentic(env, keys, r)
  {
    hide Authentic;
    if PackHolds(env, keys, records[i := r]) {
      assert records[i := r][i] == r;
    }
  }

  /**
   README.md's promise that the chain makes tampering with a single record detectable, where it is true:
   of every record but the last, nothing but the key id and the signature can be changed alone, unless two
   canonical texts collide.
   */
  lemma TamperingIsDetected(env: Foreign, keys: KeyDirectory, bundle: AuditBundle, i: nat, r: ProofRecord)
    requires i + 1 < |bundle.pack.records|
    requires ReportsValid(Outcome(env, keys, bundle)) && ReportsValid(Outcome(env, keys, WithRecord(bundle, i, r)))
    ensures r == bundle.pack.records[i].(keyId := r.keyId, signature := r.signature)
            || Collides(env.sha, CanonicalText(r.payload), CanonicalText(bundle.pack.records[i].payload))
  {
    var was := bundle.pack.records[i];
    ReplacementGivesBundle(env, keys, bundle, i, r);
    OutcomeDecides(env, keys, bundle);
    hide Outcome, ReportsValid, ProofChain.ChainHolds, CanonicalText, StillMetered, InWindow, Signs, ParseIsoMs;
    assert Authentic(env, keys, was);
    if CanonicalText(r.payload) == CanonicalText(was.payload) {
      CanonicalTextInjective(r.payload, was.payload);
    }
  }

  /**
   The last record is held by its signature alone: no record names its after-hash, so any authentic
   record with its link, a time not before the previous one, an unused nonce and the same metering can
   stand in for it.
   */
  lemma LastRecordIsHeldBySignature(env: Foreign, keys: KeyDirectory, bundle: AuditBundle, r: ProofRecord)
    requires ReportsValid(Outcome(env, keys, bundle)) && bundle.pack.records != []
    ensures var records := bundle.pack.records; var n := |records| - 1;
            ReportsValid(Outcome(env, keys, WithRecord(bundle, n, r)))
            <==> && Authentic(env, keys, r) && r.beforeHash == records[n].beforeHash
                 && (n > 0 ==> ProofChain.NotEarlier(env, records[n - 1], r))
                 && (forall j :: 0 <= j < n ==> records[j].payload.nonce != r.payload.nonce)
                 && StillMetered(env, bundle, records[n := r])
  {
    hide Outcome, ReportsValid, Authentic, StillMetered, ProofChain.NotEarlier;
    ReplacementGivesBundle(env, keys, bundle, |bundle.pack.records| - 1, r);
  }

  /**
   The promise does not cover taking a record out, which also changes the link of the next one: any
   record of a VALID bundle can be dropped and the next one relinked, and the run stays VALID exactly as
   far as the metering does. No collision is involved, and the result is not a prefix.
   */
  lemma DropGoesUnnoticed(env: Foreign, keys: KeyDirectory, bundle: AuditBundle, i: nat)
    requires ReportsValid(Outcome(env, keys, bundle)) && i < |bundle.pack.records| && |bundle.pack.records| > 1
    ensures var s := ProofChain.Without(bundle.pack.records, bundle.priorAfterHash, i);
            && (ReportsValid(Outcome(env, keys, WithRecords(bundle, s, bundle.priorAfterHash))) <==> StillMetered(env, bundle, s))
            && (i < |bundle.pack.records| - 1 ==> !(s <= bundle.pack.records))
  {
    var records, prior := bundle.pack.records, bundle.priorAfterHash;
    var s := ProofChain.Without(records, prior, i);
    OutcomeDecides(env, keys, bundle);
    hide Outcome, ReportsValid, ProofChain.ChainHolds, StillMetered, PackHolds, ProofChain.Selects;
    TimesAreReadable(env, keys, records);
    ProofChain.DropGoesUnnoticed(env, records, prior, i);
    OtherRecordsDecide(env, keys, bundle, s, prior);
    SelectionIsAuthentic(env, keys, records, ProofChain.IndicesWithout(|records|, i), s);
  }

  /** Where no meter record names its receipt, the metering does not notice either. */
  lemma UnmeteredDropGoesUnnoticed(env: Foreign, keys: KeyDirectory, bundle: AuditBundle, i: nat)
    requires ReportsValid(Outcome(env, keys, bundle)) && i < |bundle.pack.records| && |bundle.pack.records| > 1
    requires MeteringInput(bundle).Some? ==>
               forall k :: 0 <= k < |MeteringInput(bundle).value.records| ==>
                 MeteringInput(bundle).value.records[k].proofReceiptId != bundle.pack.records[i].payload.receiptId
    ensures ReportsValid(Outcome(env, keys, WithRecords(bundle, ProofChain.Without(bundle.pack.records, bundle.priorAfterHash, i), bundle.priorAfterHash)))
  {
    hide Outcome, ReportsValid;
    DropGoesUnnoticed(env, keys, bundle, i);
    BundleIsMetered(env, keys, bundle);
    UnnamedIsStillMetered(env, bundle, i);
  }

  lemma BundleIsMetered(env: Foreign, keys: KeyDirectory, bundle: AuditBundle)
    requires ReportsValid(Outcome(env, keys, bundle))
    ensures StillMetered(env, bundle, bundle.pack.records)
  {
    OutcomeDecides(env, keys, bundle);
    hide Outcome, ReportsValid, PackHolds, ProofChain.ChainHolds, Metering.MeteringHolds, Settlement.SettlementHolds;
  }

  lemma UnnamedIsStillMetered(env: Foreign, bundle: AuditBundle, i: nat)
    requires StillMetered(env, bundle, bundle.pack.records) && i < |bundle.pack.records|
    requires MeteringInput(bundle).Some? ==>
               forall k :: 0 <= k < |MeteringInput(bundle).value.records| ==>
                 MeteringInput(bundle).value.records[k].proofReceiptId != bundle.pack.records[i].payload.receiptId
    ensures StillMetered(env, bundle, ProofChain.Without(bundle.pack.records, bundle.priorAfterHash, i))
  {
    hide Metering.MeteringHolds;
    var m, s := MeteringInput(bundle), ProofChain.Without(bundle.pack.records, bundle.priorAfterHash, i);
    if m.Some? {
      assert Metering.PayloadsWithout(bundle.pack.records, i, s);
      hide MeteringInput, ProofChain.Without;
      Metering.UnnamedReceiptIsIdle(env, bundle.pack.records, i, s, m.value, Some(bundle.pack.orgId));
    }
  }

  /**
   With the links they carry, the records of a VALID bundle give a VALID bundle from the same anchor
   exactly as a nonempty prefix over which the metering still holds, or two canonical texts collide.
   */
  lemma BundleOrderIsRigid(env: Foreign, keys: KeyDirectory, bundle: AuditBundle, s: seq<ProofRecord>)
    requires ReportsValid(Outcome(env, keys, bundle)) && ProofChain.AnchorUnseen(bundle.pack.records, bundle.priorAfterHash)
    requires ProofChain.DrawnFrom(s, bundle.pack.records)
    ensures ProofChain.PayloadCollision(env, bundle.pack.records)
            || (ReportsValid(Outcome(env, keys, WithRecords(bundle, s, bundle.priorAfterHash)))
                <==> s != [] && s <= bundle.pack.records && StillMetered(env, bundle, s))
  {
    var records, prior := bundle.pack.records, bundle.priorAfterHash;
    OutcomeDecides(env, keys, bundle);
    OtherRecordsDecide(env, keys, bundle, s, prior);
    hide Outcome, ReportsValid, ProofChain.ChainHolds, ProofChain.PayloadCollision, StillMetered, ProofChain.AnchorUnseen, PackHolds;
    HashesHold(env, keys, records);
    ProofChain.OrderIsRigid(env, records, prior, s);
    if s != [] {
      DrawnIsAuthentic(env, keys, records, s);
    }
  }

  lemma HashesHold(env: Foreign, keys: KeyDirectory, records: seq<ProofRecord>)
    requires PackHolds(env, keys, records)
    ensures ProofChain.AfterHashesHold(env, records)
  {
    hide CanonicalHolds, AfterHashHolds, InWindow, Signs, ParseIsoMs;
    forall i | 0 <= i < |records| ensures AfterHashHolds(env, records[i]) {
      assert Authentic(env, keys, records[i]);
    }
  }

  lemma DrawnIsAuthentic(env: Foreign, keys: KeyDirectory, records: seq<ProofRecord>, s: seq<ProofRecord>)
    requires PackHolds(env, keys, records) && ProofChain.DrawnFrom(s, records) && s != []
    ensures PackHolds(env, keys, s)
  {
    hide Authentic;
    forall k | 0 <= k < |s| ensures Authentic(env, keys, s[k]) {
      assert s[k] in records;
    }
  }

  // ------------------------------------------------------ spellings of a signature

  /**
   Every authentic record has another one that differs from it only in the text of its signature: a
   64-byte signature takes 86 characters, and the last of them has bits the decoder does not use.
   */
  lemma AuthenticHasTwin(env: Foreign, keys: KeyDirectory, r: ProofRecord) returns (twin: ProofRecord)
    requires Authentic(env, keys, r)
    ensures twin != r && twin == r.(signature := twin.signature) && Authentic(env, keys, twin)
  {
    SignatureHasTwin(env, keys.index[r.keyId].publicKey, SigningInput(r.payload, r.keyId), r.signature);
    hide Signs, InWindow, ParseIsoMs;
    twin := r.(signature := Base64Url.Twin(r.signature));
  }
}
