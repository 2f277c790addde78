/** Audit steps and the status a report draws from them. */
module Report {
  import opened Prelude

  datatype Status = VALID | INVALID | SKIPPED

  datatype Kind =
    | Envelope | SignatureCheck | Canonicalisation | ChainLink | MeterProjection | MeterTotal
    | SettlementLine | SettlementTotal | KeyLookup | ProvenanceSignature

  datatype Reason =
    | MALFORMED_PACK | EMPTY_PACK | UNSUPPORTED_ENVELOPE_VERSION | UNSUPPORTED_ALGORITHM
    | SIGNATURE_INVALID | SIGNATURE_MALFORMED
    | UNKNOWN_KEY_ID | KEY_OUTSIDE_VALIDITY_WINDOW | KEY_REVOKED_BEFORE_ISSUANCE
    | PAYLOAD_CANONICAL_MISMATCH | AFTER_HASH_MISMATCH | EXPORT_PAYLOAD_HASH_MISMATCH
    | GENESIS_BEFORE_HASH_NOT_NULL | CHAIN_LINK_MISMATCH | CHAIN_OUT_OF_ORDER | CHAIN_NONCE_REUSED
    | METER_RECORD_FOR_UNKNOWN_PROOF | METER_UNIT_COUNT_MISMATCH | METER_IDEM_KEY_MISMATCH
    | METER_TOTAL_MISMATCH | METER_ORG_MISMATCH
    | SETTLEMENT_LINE_FOR_UNKNOWN_METER | SETTLEMENT_SHARE_SUM_NOT_ONE | SETTLEMENT_AMOUNT_MISMATCH
    | SETTLEMENT_IDEM_KEY_MISMATCH | SETTLEMENT_TOTAL_MISMATCH | SETTLEMENT_ORG_MISMATCH
    | PROVENANCE_SIGNATURE_INVALID | PROVENANCE_SIGNATURE_MALFORMED | PROVENANCE_CANONICAL_MISMATCH
    | PROVENANCE_UNSIGNED_RECORD | PROVENANCE_ORG_MISMATCH

  /** The field names that occur in step targets. */
  datatype Field =
    | Records | OrgId | EnvelopeVersion | Algorithm | Metering | Settlement
    | BeforeHash | IssuedAt | Nonce | PayloadCanonical | PayloadCanonicalHash | AfterHash | KeyId | SignatureText
    | TenantChainPrev | TenantChainNext | TenantChainSequence
    | ProofReceiptId | IdemKey | UnitCount | Total
    | MeterRecordIdemKey | MeterGross | Share | AmountCents | GrossCents | NetToTenantCents | PlatformFeeCents

  /** What a step is about: a whole document, one of its entries, or an entry found by key. */
  datatype Target =
    | Whole(field: Field)
    | Entry(index: nat, field: Field)
    | Keyed(key: string, field: Field)

  datatype AuditStep = AuditStep(target: Target, kind: Kind, status: Status, reason: Option<Reason>)

  function Pass(target: Target, kind: Kind): AuditStep {
    AuditStep(target, kind, VALID, None)
  }

  function Fail(target: Target, kind: Kind, reason: Reason): AuditStep {
    AuditStep(target, kind, INVALID, Some(reason))
  }

  /** A check that passes or fails for one reason. */
  function Check(ok: bool, target: Target, kind: Kind, reason: Reason): AuditStep {
    if ok then Pass(target, kind) else Fail(target, kind, reason)
  }

  predicate AnyInvalid(steps: seq<AuditStep>) {
    exists i :: 0 <= i < |steps| && steps[i].status == INVALID
  }

  function Verdict(steps: seq<AuditStep>): Status {
    if AnyInvalid(steps) then INVALID else VALID
  }

  lemma AnyInvalidConcat(a: seq<AuditStep>, b: seq<AuditStep>)
    ensures AnyInvalid(a + b) <==> AnyInvalid(a) || AnyInvalid(b)
  {
    if AnyInvalid(a) {
      var i :| 0 <= i < |a| && a[i].status == INVALID;
      assert (a + b)[i] == a[i];
    }
    if AnyInvalid(b) {
      var i :| 0 <= i < |b| && b[i].status == INVALID;
      assert (a + b)[|a| + i] == b[i];
    }
  }

  lemma AnyInvalidOne(step: AuditStep)
    ensures AnyInvalid([step]) <==> step.status == INVALID
  {
    assert [step][0] == step;
  }

  /** The steps of a walk: those of its entries, one after the other. */
  function Flatten(per: seq<seq<AuditStep>>): seq<AuditStep> {
    if per == [] then [] else Flatten(per[..|per| - 1]) + per[|per| - 1]
  }

  /** Steps taken before a walk, then those of its first n entries. */
  function After(first: seq<AuditStep>, per: seq<seq<AuditStep>>, n: nat): seq<AuditStep>
    requires n <= |per|
  {
    first + Flatten(per[..n])
  }

  lemma AfterEnds(first: seq<AuditStep>, per: seq<seq<AuditStep>>)
    ensures After(first, per, 0) == first && After(first, per, |per|) == first + Flatten(per)
  {
    assert per[..|per|] == per;
  }

  lemma AfterNext(first: seq<AuditStep>, per: seq<seq<AuditStep>>, i: nat)
    requires i < |per|
    ensures After(first, per, i + 1) == After(first, per, i) + per[i]
  {
    assert per[..i + 1][..i] == per[..i];
  }

  /** A walk is clean exactly when each entry's steps are. */
  lemma {:induction false} FlattenClean(per: seq<seq<AuditStep>>)
    ensures !AnyInvalid(Flatten(per)) <==> forall i :: 0 <= i < |per| ==> !AnyInvalid(per[i])
  {
    if per != [] {
      FlattenClean(per[..|per| - 1]);
      AnyInvalidConcat(Flatten(per[..|per| - 1]), per[|per| - 1]);
    }
  }

  /** A check is one step, VALID without a reason or INVALID with one, and a report of steps is never SKIPPED. */
  lemma ChecksWrittenOut(ok: bool, target: Target, kind: Kind, reason: Reason, steps: seq<AuditStep>)
    ensures Check(ok, target, kind, reason) == AuditStep(target, kind, if ok then VALID else INVALID, if ok then None else Some(reason))
    ensures Pass(target, kind) == AuditStep(target, kind, VALID, None)
    ensures Fail(target, kind, reason) == AuditStep(target, kind, INVALID, Some(reason))
    ensures Verdict(steps) == INVALID <==> exists i :: 0 <= i < |steps| && steps[i].status == INVALID
    ensures Verdict(steps) != SKIPPED
  {}
}
