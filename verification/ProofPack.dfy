/** Signed proof records: canonical text, content hash, key window and signature of each. */
module ProofPack {
  import opened Prelude
  import opened Report
  import opened Primitives
  import opened ProofPayload
  import opened Keys

  datatype ProofRecord = ProofRecord(
    payload: ProofReceiptPayload,
    keyId: string,
    signature: string,
    payloadCanonical: string,
    beforeHash: Option<string>,
    afterHash: string)

  /** The shipped canonical text is the one the payload's fields spell. */
  predicate CanonicalHolds(r: ProofRecord) {
    CanonicalText(r.payload) == r.payloadCanonical
  }

  /** The after-hash is the digest of the payload's canonical text. */
  predicate AfterHashHolds(env: Foreign, r: ProofRecord) {
    env.sha(CanonicalText(r.payload)) == r.afterHash
  }

  function KeyFor(env: Foreign, keys: KeyDirectory, r: ProofRecord): Result<VerificationKey, Reason> {
    Lookup(env, keys, r.keyId, r.payload.issuedAt)
  }

  function OutcomeFor(env: Foreign, key: VerificationKey, r: ProofRecord): SignatureOutcome {
    CheckSignature(env, key.publicKey, SigningInput(r.payload, r.keyId), r.signature)
  }

  function SignatureStep(i: nat, outcome: SignatureOutcome): AuditStep {
    match outcome
    case Verified => Pass(Entry(i, SignatureText), SignatureCheck)
    case Rejected => Fail(Entry(i, SignatureText), SignatureCheck, SIGNATURE_INVALID)
    case _ => Fail(Entry(i, SignatureText), SignatureCheck, SIGNATURE_MALFORMED)
  }

  /** The steps of one record, from the outcomes of its four checks. */
  function StepsFor(i: nat, canonical: bool, hash: bool, key: Result<VerificationKey, Reason>, outcome: SignatureOutcome): seq<AuditStep> {
    [Check(canonical, Entry(i, PayloadCanonical), Canonicalisation, PAYLOAD_CANONICAL_MISMATCH),
     Check(hash, Entry(i, AfterHash), Canonicalisation, AFTER_HASH_MISMATCH)]
    + match key
      case Failure(reason) => [Fail(Entry(i, KeyId), KeyLookup, reason)]
      case Success(_) => [Pass(Entry(i, KeyId), KeyLookup), SignatureStep(i, outcome)]
  }

  function RecordSteps(env: Foreign, keys: KeyDirectory, r: ProofRecord, i: nat): seq<AuditStep> {
    var key := KeyFor(env, keys, r);
    StepsFor(i, CanonicalHolds(r), AfterHashHolds(env, r), key,
             if key.Success? then OutcomeFor(env, key.value, r) else Undecodable)
  }

  /**
   What a record's clean steps mean: its text is canonical, its hash is the digest of that text, and
   a listed key, in its window at the time of issue, signed that text together with the key id.
   */
  predicate Authentic(env: Foreign, keys: KeyDirectory, r: ProofRecord) {
    && CanonicalHolds(r) && AfterHashHolds(env, r)
    && r.keyId in keys.index && ParseIsoMs(env, r.payload.issuedAt).Some?
    && InWindow(env, keys.index[r.keyId], ParseIsoMs(env, r.payload.issuedAt).value)
    && Signs(env, keys.index[r.keyId].publicKey, SigningInput(r.payload, r.keyId), r.signature)
  }

  /** The hash comparison raises: the claimed hash has a digest's length and a character beyond ASCII. */
  predicate HashRaises(r: ProofRecord) {
    |r.afterHash| == 64 && !IsAscii(r.afterHash)
  }

  lemma AuthenticDoesNotRaise(env: Foreign, keys: KeyDirectory, r: ProofRecord)
    requires Authentic(env, keys, r)
    ensures !HashRaises(r)
  {
    hide CanonicalText, InWindow, Signs, ParseIsoMs;
    ComparingDigests(env.sha(CanonicalText(r.payload)), r.afterHash);
  }

  method VerifyProofRecord(env: Foreign, keys: KeyDirectory, r: ProofRecord, i: nat) returns (result: Result<seq<AuditStep>, Error>)
    ensures result == if HashRaises(r) then Failure(UNICODE_ENCODE_ERROR) else Success(RecordSteps(env, keys, r, i))
    ensures result.Success? && !AnyInvalid(result.value) <==> Authentic(env, keys, r)
  {
    RecordStepsDecide(env, keys, r, i);
    if Authentic(env, keys, r) {
      AuthenticDoesNotRaise(env, keys, r);
    }
    hide AnyInvalid, Authentic, Lookup, CheckSignature, CanonicalText, IsAscii, ConstantTimeHexEqual;
    var localCanonical := CanonicaliseProofPayload(r.payload);
    var steps := [Check(localCanonical == r.payloadCanonical, Entry(i, PayloadCanonical), Canonicalisation, PAYLOAD_CANONICAL_MISMATCH)];
    var expectedAfterHash := env.sha(localCanonical);
    ComparingDigests(expectedAfterHash, r.afterHash);
    var same := ConstantTimeHexEqual(expectedAfterHash, r.afterHash);
    if same.None? {
      return Failure(UNICODE_ENCODE_ERROR);
    }
    steps := steps + [Check(same.value, Entry(i, AfterHash), Canonicalisation, AFTER_HASH_MISMATCH)];
    var lookup := Lookup(env, keys, r.keyId, r.payload.issuedAt);
    if lookup.Failure? {
      steps := steps + [Fail(Entry(i, KeyId), KeyLookup, lookup.error)];
      assert steps == RecordSteps(env, keys, r, i);
      return Success(steps);
    }
    steps := steps + [Pass(Entry(i, KeyId), KeyLookup)];
    var signingInput := localCanonical + "|" + r.keyId;
    var outcome := CheckSignature(env, lookup.value.publicKey, signingInput, r.signature);
    steps := steps + [SignatureStep(i, outcome)];
    assert steps == RecordSteps(env, keys, r, i);
    result := Success(steps);
  }

  lemma StepsForClean(i: nat, canonical: bool, hash: bool, key: Result<VerificationKey, Reason>, outcome: SignatureOutcome)
    ensures !AnyInvalid(StepsFor(i, canonical, hash, key, outcome))
            <==> canonical && hash && key.Success? && outcome == Verified
  {
    var steps := StepsFor(i, canonical, hash, key, outcome);
    assert !canonical ==> steps[0].status == INVALID;
    assert !hash ==> steps[1].status == INVALID;
    assert key.Failure? ==> steps[2].status == INVALID;
    assert key.Success? && outcome != Verified ==> steps[3].status == INVALID;
  }

  lemma RecordStepsDecide(env: Foreign, keys: KeyDirectory, r: ProofRecord, i: nat)
    ensures !AnyInvalid(RecordSteps(env, keys, r, i)) <==> Authentic(env, keys, r)
  {
    hide AnyInvalid, StepsFor, CanonicalText, CheckSignature, Lookup, InWindow, ParseIsoMs, SigningInput;
    var key := KeyFor(env, keys, r);
    StepsForClean(i, CanonicalHolds(r), AfterHashHolds(env, r), key,
                  if key.Success? then OutcomeFor(env, key.value, r) else Undecodable);
    LookupHits(env, keys, r.keyId, r.payload.issuedAt);
  }

  // --------------------------------------------------------- written out

  /** The steps of a record: canonical text, after-hash, key, and signature if there is a key. */
  lemma RecordStepsWrittenOut(env: Foreign, keys: KeyDirectory, r: ProofRecord, i: nat)
    ensures var key := Lookup(env, keys, r.keyId, r.payload.issuedAt);
            RecordSteps(env, keys, r, i)
            == [Check(r.payloadCanonical == CanonicalText(r.payload), Entry(i, PayloadCanonical), Canonicalisation, PAYLOAD_CANONICAL_MISMATCH),
                Check(r.afterHash == env.sha(CanonicalText(r.payload)), Entry(i, AfterHash), Canonicalisation, AFTER_HASH_MISMATCH)]
               + if key.Failure? then [AuditStep(Entry(i, KeyId), KeyLookup, INVALID, Some(key.error))]
                 else [AuditStep(Entry(i, KeyId), KeyLookup, VALID, None),
                       SignatureStep(i, CheckSignature(env, key.value.publicKey, CanonicalText(r.payload) + "|" + r.keyId, r.signature))]
  {
    hide CanonicalText, Lookup, CheckSignature;
  }

  /** Text that does not decode or has the wrong length is malformed; a signature that does not verify is invalid. */
  lemma SignatureStepWrittenOut(i: nat)
    ensures SignatureStep(i, Verified) == AuditStep(Entry(i, SignatureText), SignatureCheck, VALID, None)
    ensures SignatureStep(i, Rejected) == AuditStep(Entry(i, SignatureText), SignatureCheck, INVALID, Some(SIGNATURE_INVALID))
    ensures SignatureStep(i, Undecodable) == AuditStep(Entry(i, SignatureText), SignatureCheck, INVALID, Some(SIGNATURE_MALFORMED))
    ensures SignatureStep(i, WrongLength) == AuditStep(Entry(i, SignatureText), SignatureCheck, INVALID, Some(SIGNATURE_MALFORMED))
  {}
}
