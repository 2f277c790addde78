/** Signed exports: a payload of any JSON shape, signed over its sort-keys canonical text and the key id. */
module Exports {
  import opened Prelude
  import opened Json
  import opened Collation
  import opened SortKeys
  import opened Report
  import opened Primitives
  import opened Keys

  datatype ExportVersion = ExportV1 | OtherVersion(name: string)

  datatype SignedExport = SignedExport(
    envelopeVersion: ExportVersion,
    exportedAt: string,
    keyId: string,
    algorithm: Algorithm,
    payload: JSON,
    payloadCanonical: string,
    payloadCanonicalHash: string,
    signature: string)

  datatype ExportReport = ExportReport(status: Status, steps: seq<AuditStep>)

  /** The text the signature covers. */
  function SignedText(e: SignedExport): string {
    e.payloadCanonical + "|" + e.keyId
  }

  /** Wrong lengths are not caught before the verifier here, so they come out as a rejected signature. */
  function SignatureStep(outcome: SignatureOutcome): AuditStep {
    match outcome
    case Verified => Pass(Whole(SignatureText), SignatureCheck)
    case Undecodable => Fail(Whole(SignatureText), SignatureCheck, SIGNATURE_MALFORMED)
    case _ => Fail(Whole(SignatureText), SignatureCheck, SIGNATURE_INVALID)
  }

  function StepsFor(version: bool, algorithm: bool, key: Result<VerificationKey, Reason>, canonical: bool, hash: bool, outcome: SignatureOutcome)
    : seq<AuditStep>
  {
    [Check(version, Whole(Field.EnvelopeVersion), Envelope, UNSUPPORTED_ENVELOPE_VERSION),
     Check(algorithm, Whole(Field.Algorithm), Envelope, UNSUPPORTED_ALGORITHM)]
    + match key
      case Failure(reason) => [Fail(Whole(KeyId), KeyLookup, reason)]
      case Success(_) =>
        [Pass(Whole(KeyId), KeyLookup), Check(canonical, Whole(PayloadCanonical), Canonicalisation, PAYLOAD_CANONICAL_MISMATCH)]
        + if !canonical then []
          else
            [Check(hash, Whole(PayloadCanonicalHash), Canonicalisation, EXPORT_PAYLOAD_HASH_MISMATCH)]
            + if !hash then [] else [SignatureStep(outcome)]
  }

  function KeyFor(env: Foreign, keys: KeyDirectory, e: SignedExport): Result<VerificationKey, Reason> {
    Lookup(env, keys, e.keyId, e.exportedAt)
  }

  function OutcomeFor(env: Foreign, keys: KeyDirectory, e: SignedExport): SignatureOutcome {
    var key := KeyFor(env, keys, e);
    if key.Failure? then Undecodable else CheckSignature(env, key.value.publicKey, SignedText(e), e.signature)
  }

  predicate CanonicalHolds(e: SignedExport) {
    CanonicalSortKeys(e.payload) == e.payloadCanonical
  }

  predicate HashHolds(env: Foreign, e: SignedExport) {
    env.sha(CanonicalSortKeys(e.payload)) == e.payloadCanonicalHash
  }

  function ExportSteps(env: Foreign, keys: KeyDirectory, e: SignedExport): seq<AuditStep> {
    StepsFor(e.envelopeVersion == ExportV1, e.algorithm == Ed25519, KeyFor(env, keys, e), CanonicalHolds(e), HashHolds(env, e), OutcomeFor(env, keys, e))
  }

  /** What a VALID export report means. */
  predicate ExportHolds(env: Foreign, keys: KeyDirectory, e: SignedExport) {
    && e.envelopeVersion == ExportV1 && e.algorithm == Ed25519
    && CanonicalHolds(e) && HashHolds(env, e)
    && e.keyId in keys.index && ParseIsoMs(env, e.exportedAt).Some?
    && InWindow(env, keys.index[e.keyId], ParseIsoMs(env, e.exportedAt).value)
    && Signs(env, keys.index[e.keyId].publicKey, SignedText(e), e.signature)
  }

  method VerifySignedExport(env: Foreign, keys: KeyDirectory, e: SignedExport) returns (report: ExportReport)
    ensures report.steps == ExportSteps(env, keys, e) && report.status == Verdict(report.steps)
    ensures report.status == VALID <==> ExportHolds(env, keys, e)
  {
    ExportStepsDecide(env, keys, e);
    hide AnyInvalid, ExportHolds, Lookup, CheckSignature, CanonicalSortKeys;
    var steps := [Check(e.envelopeVersion == ExportV1, Whole(Field.EnvelopeVersion), Envelope, UNSUPPORTED_ENVELOPE_VERSION)];
    steps := steps + [Check(e.algorithm == Ed25519, Whole(Field.Algorithm), Envelope, UNSUPPORTED_ALGORITHM)];
    var lookup := Lookup(env, keys, e.keyId, e.exportedAt);
    if lookup.Failure? {
      steps := steps + [Fail(Whole(KeyId), KeyLookup, lookup.error)];
      return ExportReport(Verdict(steps), steps);
    }
    steps := steps + [Pass(Whole(KeyId), KeyLookup)];
    var recomputed := CanonicalSortKeys(e.payload);
    steps := steps + [Check(recomputed == e.payloadCanonical, Whole(PayloadCanonical), Canonicalisation, PAYLOAD_CANONICAL_MISMATCH)];
    if recomputed != e.payloadCanonical {
      return ExportReport(Verdict(steps), steps);
    }
    var recomputedHash := env.sha(recomputed);
    steps := steps + [Check(recomputedHash == e.payloadCanonicalHash, Whole(PayloadCanonicalHash), Canonicalisation, EXPORT_PAYLOAD_HASH_MISMATCH)];
    if recomputedHash != e.payloadCanonicalHash {
      return ExportReport(Verdict(steps), steps);
    }
    var outcome := CheckSignature(env, lookup.value.publicKey, SignedText(e), e.signature);
    steps := steps + [SignatureStep(outcome)];
    report := ExportReport(Verdict(steps), steps);
  }

  lemma StepsForClean(version: bool, algorithm: bool, key: Result<VerificationKey, Reason>, canonical: bool, hash: bool, outcome: SignatureOutcome)
    ensures !AnyInvalid(StepsFor(version, algorithm, key, canonical, hash, outcome))
            <==> version && algorithm && key.Success? && canonical && hash && outcome == Verified
  {
    var steps := StepsFor(version, algorithm, key, canonical, hash, outcome);
    assert !version ==> steps[0].status == INVALID;
    assert !algorithm ==> steps[1].status == INVALID;
    assert key.Failure? ==> steps[2].status == INVALID;
    assert key.Success? && !canonical ==> steps[3].status == INVALID;
    assert key.Success? && canonical && !hash ==> steps[4].status == INVALID;
    assert key.Success? && canonical && hash && outcome != Verified ==> steps[5].status == INVALID;
  }

  lemma ExportStepsDecide(env: Foreign, keys: KeyDirectory, e: SignedExport)
    ensures !AnyInvalid(ExportSteps(env, keys, e)) <==> ExportHolds(env, keys, e)
  {
    hide AnyInvalid, StepsFor, CanonicalSortKeys, CheckSignature, Lookup, InWindow, ParseIsoMs;
    StepsForClean(e.envelopeVersion == ExportV1, e.algorithm == Ed25519, KeyFor(env, keys, e), CanonicalHolds(e), HashHolds(env, e), OutcomeFor(env, keys, e));
    LookupHits(env, keys, e.keyId, e.exportedAt);
  }

  /**
   Two VALID exports with the same signed bytes carry the same payload, up to the order of object
   keys, and the same key id: a signature cannot be lifted onto another payload or another key.
   */
  lemma SignedBytesDetermineExport(env: Foreign, keys: KeyDirectory, e: SignedExport, f: SignedExport)
    requires ExportHolds(env, keys, e) && ExportHolds(env, keys, f)
    requires IsDict(e.payload) && IsDict(f.payload)
    requires SignedText(e) == SignedText(f)
    ensures Meaning(e.payload) == Meaning(f.payload) && e.keyId == f.keyId
  {
    hide Meaning, IsDict, Normalise, Print, InWindow, Signs, ParseIsoMs;
    PrintedThenPipe(Normalise(CodePoint, e.payload), e.keyId, Normalise(CodePoint, f.payload), f.keyId);
    CanonicalTextDecidesMeaning(CodePoint, e.payload, f.payload);
  }

  /** Two VALID exports with the same payload hash carry the same payload, or their canonical texts collide. */
  lemma PayloadHashDeterminesPayload(env: Foreign, keys: KeyDirectory, e: SignedExport, f: SignedExport)
    requires ExportHolds(env, keys, e) && ExportHolds(env, keys, f)
    requires IsDict(e.payload) && IsDict(f.payload)
    requires e.payloadCanonicalHash == f.payloadCanonicalHash
    ensures Meaning(e.payload) == Meaning(f.payload) || Collides(env.sha, e.payloadCanonical, f.payloadCanonical)
  {
    hide Meaning, IsDict, CanonicalText, InWindow, Signs, ParseIsoMs;
    CanonicalTextDecidesMeaning(CodePoint, e.payload, f.payload);
  }

  /**
   An export canonicalised in the documented code-unit order keeps its canonical text here exactly when
   no two keys of one object of its payload cross; otherwise its report is INVALID.
   */
  lemma CodeUnitExportsHoldExactly(env: Foreign, keys: KeyDirectory, e: SignedExport)
    requires IsDict(e.payload) && e.payloadCanonical == CanonicalText(CodeUnit, e.payload)
    ensures CanonicalHolds(e) <==> !CrossingKeys(e.payload)
    ensures CrossingKeys(e.payload) ==> AnyInvalid(ExportSteps(env, keys, e))
  {
    hide IsDict, CrossingKeys, CanonicalText, AnyInvalid, ExportSteps, InWindow, Signs, ParseIsoMs;
    OrdersPrintAlikeExactly(e.payload);
    ExportStepsDecide(env, keys, e);
  }

  // --------------------------------------------------------- written out

  /** The steps of an export: version, algorithm, key, canonical text, hash, signature; each of the last four ends the run if it fails. */
  lemma ExportStepsWrittenOut(env: Foreign, keys: KeyDirectory, e: SignedExport)
    ensures var key := Lookup(env, keys, e.keyId, e.exportedAt);
            var text := CanonicalSortKeys(e.payload);
            ExportSteps(env, keys, e)
            == [Check(e.envelopeVersion == ExportV1, Whole(Field.EnvelopeVersion), Envelope, UNSUPPORTED_ENVELOPE_VERSION),
                Check(e.algorithm == Ed25519, Whole(Field.Algorithm), Envelope, UNSUPPORTED_ALGORITHM)]
               + if key.Failure? then [AuditStep(Whole(KeyId), KeyLookup, INVALID, Some(key.error))]
                 else if text != e.payloadCanonical then
                   [AuditStep(Whole(KeyId), KeyLookup, VALID, None),
                    AuditStep(Whole(PayloadCanonical), Canonicalisation, INVALID, Some(PAYLOAD_CANONICAL_MISMATCH))]
                 else if env.sha(text) != e.payloadCanonicalHash then
                   [AuditStep(Whole(KeyId), KeyLookup, VALID, None), AuditStep(Whole(PayloadCanonical), Canonicalisation, VALID, None),
                    AuditStep(Whole(PayloadCanonicalHash), Canonicalisation, INVALID, Some(EXPORT_PAYLOAD_HASH_MISMATCH))]
                 else
                   [AuditStep(Whole(KeyId), KeyLookup, VALID, None), AuditStep(Whole(PayloadCanonical), Canonicalisation, VALID, None),
                    AuditStep(Whole(PayloadCanonicalHash), Canonicalisation, VALID, None),
                    SignatureStep(CheckSignature(env, key.value.publicKey, e.payloadCanonical + "|" + e.keyId, e.signature))]
  {
    hide CanonicalSortKeys, Lookup, CheckSignature;
  }

  lemma SignatureStepWrittenOut()
    ensures SignatureStep(Verified) == AuditStep(Whole(SignatureText), SignatureCheck, VALID, None)
    ensures SignatureStep(Undecodable) == AuditStep(Whole(SignatureText), SignatureCheck, INVALID, Some(SIGNATURE_MALFORMED))
    ensures SignatureStep(Rejected) == SignatureStep(WrongLength) == AuditStep(Whole(SignatureText), SignatureCheck, INVALID, Some(SIGNATURE_INVALID))
  {}
}
