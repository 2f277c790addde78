/** Write-time signatures over rights-provenance rows, and the partition into signed and legacy rows. */
module Provenance {
  import opened Prelude
  import opened Text
  import opened Report
  import opened Primitives
  import opened Keys
  import opened Readings
  import Base64Url

  datatype ProvenanceRecord = ProvenanceRecord(
    orgId: string,
    eventType: string,
    occurredAt: string,
    rightId: Option<string>,
    basisId: Option<string>,
    offerId: Option<string>,
    beforeHash: Option<string>,
    afterHash: Option<string>,
    signatureAlgorithm: Algorithm,
    signature: string,
    signerKeyId: string,
    payloadCanonical: Option<string>)

  datatype ProvenanceReport = ProvenanceReport(
    status: Status, recordCount: nat, signedRecordCount: nat, unsignedRecordCount: nat, steps: seq<AuditStep>)

  const VERSION: string := "rightProvenance.v1"

  // ---------------------------------------------------------- signing input

  /** Absent and empty fields are written as a dash. */
  function FieldText(v: Option<string>): string {
    if v.None? || v.value == "" then "-" else v.value
  }

  /** The fields of a row that are signed, in order. */
  function SignedFields(r: ProvenanceRecord): seq<Option<string>> {
    [Some(r.orgId), Some(r.eventType), r.rightId, r.basisId, r.offerId, r.beforeHash, r.afterHash, Some(r.signerKeyId)]
  }

  function FieldTexts(fields: seq<Option<string>>): (texts: seq<string>)
    ensures |texts| == |fields|
    ensures forall i :: 0 <= i < |fields| ==> texts[i] == FieldText(fields[i])
  {
    seq(|fields|, i requires 0 <= i < |fields| => FieldText(fields[i]))
  }

  function SigningInput(r: ProvenanceRecord): string {
    Join('|', [VERSION] + FieldTexts(SignedFields(r)))
  }

  predicate PipeFree(fields: seq<Option<string>>) {
    forall i :: 0 <= i < |fields| && fields[i].Some? ==> '|' !in fields[i].value
  }

  function Texts(r: ProvenanceRecord): (texts: seq<string>)
    ensures |texts| == 8 && AllNonempty(texts)
  {
    FieldTexts(SignedFields(r))
  }

  lemma InputIsJoined(r: ProvenanceRecord)
    ensures SigningInput(r) == VERSION + ['|'] + Join('|', Texts(r))
  {
    JoinHead('|', VERSION, Texts(r));
  }

  lemma SameInput(r: ProvenanceRecord, q: ProvenanceRecord)
    ensures SigningInput(q) == SigningInput(r) <==> Join('|', Texts(q)) == Join('|', Texts(r))
  {
    InputIsJoined(r);
    InputIsJoined(q);
    hide SigningInput, Texts, Join;
    if SigningInput(q) == SigningInput(r) {
      DropCommon(VERSION + ['|'], Join('|', Texts(q)), Join('|', Texts(r)));
    }
  }

  /** The row with the given eight texts in its signed fields and everything else as it was. */
  function RowOf(r: ProvenanceRecord, u: seq<string>): ProvenanceRecord
    requires |u| == 8
  {
    r.(orgId := u[0], eventType := u[1], rightId := Some(u[2]), basisId := Some(u[3]), offerId := Some(u[4]),
       beforeHash := Some(u[5]), afterHash := Some(u[6]), signerKeyId := u[7])
  }

  lemma TextsOfRow(r: ProvenanceRecord, u: seq<string>)
    requires |u| == 8 && AllNonempty(u)
    ensures Texts(RowOf(r, u)) == u
  {
    var texts := Texts(RowOf(r, u));
    assert texts[0] == u[0] && texts[1] == u[1] && texts[2] == u[2] && texts[3] == u[3];
    assert texts[4] == u[4] && texts[5] == u[5] && texts[6] == u[6] && texts[7] == u[7];
  }

  /**
   Some other row, whatever its fields hold, shares a row's signing input exactly when one of the row's
   pipes can take over a cut: a pipe that does not open its field, in any field but the last, or one that
   does not close it, in any field but the first.
   */
  lemma SharedInputExactly(r: ProvenanceRecord)
    ensures (exists q :: SigningInput(q) == SigningInput(r) && Texts(q) != Texts(r)) <==> !SingleReading('|', Texts(r))
  {
    var t := Texts(r);
    SecondReadingExactly('|', t);
    hide SigningInput, Texts, Join, SingleReading;
    if q :| SigningInput(q) == SigningInput(r) && Texts(q) != Texts(r) {
      SameInput(r, q);
      assert Reads('|', Join('|', t), 8, Texts(q));
    }
    if !SingleReading('|', t) {
      var u :| Reads('|', Join('|', t), 8, u) && u != t;
      TextsOfRow(r, u);
      SameInput(r, RowOf(r, u));
    }
  }

  /** A row whose fields hold no pipe shares its signing input only with rows written alike, pipes or not. */
  lemma SigningInputDecides(r: ProvenanceRecord, q: ProvenanceRecord)
    requires PipeFree(SignedFields(r))
    ensures SigningInput(r) == SigningInput(q) <==> Texts(r) == Texts(q)
  {
    TextsPipeFree(SignedFields(r));
    assert SingleReading('|', Texts(r));
    SharedInputExactly(r);
    SameInput(r, q);
  }

  lemma TextsPipeFree(fields: seq<Option<string>>)
    requires PipeFree(fields)
    ensures forall i :: 0 <= i < |fields| ==> '|' !in FieldTexts(fields)[i]
  {}

  /** A field that is written as a dash: absent, empty, or a dash itself. */
  predicate Dashed(v: Option<string>) {
    v.None? || v.value == "" || v.value == "-"
  }

  /** Two rows are written alike exactly when their signed fields are pairwise equal or both written as a dash. */
  lemma WrittenAlikeExactly(r: ProvenanceRecord, q: ProvenanceRecord)
    ensures Texts(r) == Texts(q)
            <==> forall i :: 0 <= i < 8 ==> SignedFields(r)[i] == SignedFields(q)[i] || (Dashed(SignedFields(r)[i]) && Dashed(SignedFields(q)[i]))
  {
    var f, g := SignedFields(r), SignedFields(q);
    forall i | 0 <= i < 8 ensures Texts(r)[i] == Texts(q)[i] <==> f[i] == g[i] || (Dashed(f[i]) && Dashed(g[i])) {
      FieldsAlike(f[i], g[i]);
    }
    hide Texts, SignedFields;
    assert Texts(r) == Texts(q) <==> forall i :: 0 <= i < 8 ==> Texts(r)[i] == Texts(q)[i];
  }

  lemma FieldsAlike(v: Option<string>, w: Option<string>)
    ensures FieldText(v) == FieldText(w) <==> v == w || (Dashed(v) && Dashed(w))
  {}

  // -------------------------------------------------------------- one record

  function KeyFor(env: Foreign, keys: KeyDirectory, r: ProvenanceRecord): Result<VerificationKey, Reason> {
    Lookup(env, keys, r.signerKeyId, r.occurredAt)
  }

  function SignatureStep(i: nat, outcome: SignatureOutcome): AuditStep {
    match outcome
    case Verified => Pass(Entry(i, SignatureText), ProvenanceSignature)
    case Rejected => Fail(Entry(i, SignatureText), ProvenanceSignature, PROVENANCE_SIGNATURE_INVALID)
    case _ => Fail(Entry(i, SignatureText), ProvenanceSignature, PROVENANCE_SIGNATURE_MALFORMED)
  }

  /** The steps of a record, from the facts they depend on. */
  function StepsFor(i: nat, signed: bool, shipped: bool, canonical: bool, key: Result<VerificationKey, Reason>, outcome: SignatureOutcome)
    : seq<AuditStep>
  {
    if !signed then [AuditStep(Entry(i, SignatureText), ProvenanceSignature, SKIPPED, Some(PROVENANCE_UNSIGNED_RECORD))]
    else if !shipped then [Fail(Entry(i, PayloadCanonical), ProvenanceSignature, PROVENANCE_CANONICAL_MISMATCH)]
    else
      [Check(canonical, Entry(i, PayloadCanonical), ProvenanceSignature, PROVENANCE_CANONICAL_MISMATCH)]
      + match key
        case Failure(reason) => [Fail(Entry(i, KeyId), KeyLookup, reason)]
        case Success(_) => [Pass(Entry(i, KeyId), KeyLookup), SignatureStep(i, outcome)]
  }

  /** The signature is checked over the shipped text, not the reconstructed one. */
  function OutcomeFor(env: Foreign, keys: KeyDirectory, r: ProvenanceRecord): SignatureOutcome {
    var key := KeyFor(env, keys, r);
    if key.Failure? || r.payloadCanonical.None? then Undecodable
    else CheckSignature(env, key.value.publicKey, r.payloadCanonical.value, r.signature)
  }

  predicate IsSigned(r: ProvenanceRecord) {
    r.signatureAlgorithm == Ed25519
  }

  function RecordSteps(env: Foreign, keys: KeyDirectory, r: ProvenanceRecord, i: nat): seq<AuditStep> {
    StepsFor(i, IsSigned(r), r.payloadCanonical.Some?, r.payloadCanonical == Some(SigningInput(r)), KeyFor(env, keys, r), OutcomeFor(env, keys, r))
  }

  /** A listed key, in its window when the event occurred, signed the text the row's own fields spell. */
  predicate Authentic(env: Foreign, keys: KeyDirectory, r: ProvenanceRecord) {
    && r.payloadCanonical == Some(SigningInput(r))
    && r.signerKeyId in keys.index && ParseIsoMs(env, r.occurredAt).Some?
    && InWindow(env, keys.index[r.signerKeyId], ParseIsoMs(env, r.occurredAt).value)
    && Signs(env, keys.index[r.signerKeyId].publicKey, SigningInput(r), r.signature)
  }

  method VerifyProvenanceRecord(env: Foreign, keys: KeyDirectory, r: ProvenanceRecord, i: nat) returns (steps: seq<AuditStep>)
    ensures steps == RecordSteps(env, keys, r, i)
  {
    hide SigningInput, Lookup, CheckSignature;
    if r.signatureAlgorithm != Ed25519 {
      return [AuditStep(Entry(i, SignatureText), ProvenanceSignature, SKIPPED, Some(PROVENANCE_UNSIGNED_RECORD))];
    }
    var reconstructed := SigningInput(r);
    if r.payloadCanonical.None? {
      return [Fail(Entry(i, PayloadCanonical), ProvenanceSignature, PROVENANCE_CANONICAL_MISMATCH)];
    }
    steps := [Check(reconstructed == r.payloadCanonical.value, Entry(i, PayloadCanonical), ProvenanceSignature, PROVENANCE_CANONICAL_MISMATCH)];
    var lookup := Lookup(env, keys, r.signerKeyId, r.occurredAt);
    if lookup.Failure? {
      steps := steps + [Fail(Entry(i, KeyId), KeyLookup, lookup.error)];
      return;
    }
    steps := steps + [Pass(Entry(i, KeyId), KeyLookup)];
    var outcome := CheckSignature(env, lookup.value.publicKey, r.payloadCanonical.value, r.signature);
    steps := steps + [SignatureStep(i, outcome)];
  }

  predicate AnyValid(steps: seq<AuditStep>) {
    exists i :: 0 <= i < |steps| && steps[i].status == VALID
  }

  lemma StepsForKinds(i: nat, signed: bool, shipped: bool, canonical: bool, key: Result<VerificationKey, Reason>, outcome: SignatureOutcome)
    requires canonical ==> shipped
    ensures var steps := StepsFor(i, signed, shipped, canonical, key, outcome);
            && (!AnyInvalid(steps) <==> !signed || (canonical && key.Success? && outcome == Verified))
            && (!AnyInvalid(steps) && signed ==> AnyValid(steps))
            && (!signed ==> !AnyValid(steps))
  {
    var steps := StepsFor(i, signed, shipped, canonical, key, outcome);
    if signed {
      assert !canonical ==> steps[0].status == INVALID;
      assert shipped && key.Failure? ==> steps[1].status == INVALID;
      assert shipped && key.Success? && outcome != Verified ==> steps[2].status == INVALID;
      assert canonical ==> steps[0].status == VALID;
    }
  }

  lemma RecordStepsKinds(env: Foreign, keys: KeyDirectory, r: ProvenanceRecord, i: nat)
    ensures var steps := RecordSteps(env, keys, r, i);
            && (!AnyInvalid(steps) <==> IsSigned(r) ==> Authentic(env, keys, r))
            && (!AnyInvalid(steps) && IsSigned(r) ==> AnyValid(steps))
            && (!IsSigned(r) ==> !AnyValid(steps))
  {
    hide SigningInput, Lookup, CheckSignature, AnyInvalid, AnyValid, StepsFor, InWindow, ParseIsoMs;
    StepsForKinds(i, IsSigned(r), r.payloadCanonical.Some?, r.payloadCanonical == Some(SigningInput(r)), KeyFor(env, keys, r), OutcomeFor(env, keys, r));
    LookupHits(env, keys, r.signerKeyId, r.occurredAt);
  }

  /** q is another authentic row under the same key, with the same signature over the same text. */
  ghost predicate SignatureTwin(env: Foreign, keys: KeyDirectory, r: ProvenanceRecord, q: ProvenanceRecord) {
    && Authentic(env, keys, q) && q.signature == r.signature && q.signerKeyId == r.signerKeyId
    && SigningInput(q) == SigningInput(r) && Texts(q) != Texts(r)
  }

  lemma LastTextIsKey(r: ProvenanceRecord, q: ProvenanceRecord)
    requires q.signerKeyId == r.signerKeyId
    ensures Texts(q)[7] == Texts(r)[7]
    ensures SigningInput(q) == SigningInput(r) <==> Join('|', Texts(q)[..7]) == Join('|', Texts(r)[..7])
  {
    SameInput(r, q);
    var s, t := Texts(q), Texts(r);
    assert s == s[..7] + [s[7]] && t == t[..7] + [t[7]];
    JoinLast('|', s[..7], s[7]);
    JoinLast('|', t[..7], t[7]);
    assert s[7] == t[7];
    hide Texts, Join;
    SameFronts(Join('|', s[..7]), Join('|', t[..7]), t[7]);
  }

  lemma SameFronts(x: string, y: string, tail: string)
    ensures x + ['|'] + tail == y + ['|'] + tail <==> x == y
  {
    if x + ['|'] + tail == y + ['|'] + tail {
      assert |x| == |y|;
      assert x == (x + ['|'] + tail)[..|x|] && y == (y + ['|'] + tail)[..|x|];
    }
  }

  /**
   Lifted to the verifier: the signature of an authentic row also makes a differently written row under
   the same key authentic, exactly when the seven texts before the key id have a second reading.
   */
  lemma SignatureTwinExactly(env: Foreign, keys: KeyDirectory, r: ProvenanceRecord)
    requires Authentic(env, keys, r)
    ensures (exists q :: SignatureTwin(env, keys, r, q)) <==> !SingleReading('|', Texts(r)[..7])
  {
    assert AllNonempty(Texts(r)[..7]);
    SecondReadingExactly('|', Texts(r)[..7]);
    hide SignatureTwin, SingleReading, Texts, Join, Reads, Authentic;
    if q :| SignatureTwin(env, keys, r, q) {
      TwinGivesReading(env, keys, r, q);
    }
    if !SingleReading('|', Texts(r)[..7]) {
      var u :| Reads('|', Join('|', Texts(r)[..7]), 7, u) && u != Texts(r)[..7];
      ReadingGivesTwin(env, keys, r, u);
    }
  }

  lemma TwinGivesReading(env: Foreign, keys: KeyDirectory, r: ProvenanceRecord, q: ProvenanceRecord)
    requires SignatureTwin(env, keys, r, q)
    ensures Reads('|', Join('|', Texts(r)[..7]), 7, Texts(q)[..7]) && Texts(q)[..7] != Texts(r)[..7]
  {
    LastTextIsKey(r, q);
    hide SigningInput, Texts, Join, Authentic;
    assert Texts(q) == Texts(q)[..7] + [Texts(q)[7]] && Texts(r) == Texts(r)[..7] + [Texts(r)[7]];
  }

  lemma ReadingGivesTwin(env: Foreign, keys: KeyDirectory, r: ProvenanceRecord, u: seq<string>)
    requires Authentic(env, keys, r) && Reads('|', Join('|', Texts(r)[..7]), 7, u) && u != Texts(r)[..7]
    ensures SignatureTwin(env, keys, r, RowOf(r, u + [Texts(r)[7]]).(signerKeyId := r.signerKeyId))
  {
    var q := RowOf(r, u + [Texts(r)[7]]).(signerKeyId := r.signerKeyId);
    TextsKeepKey(r, u);
    LastTextIsKey(r, q);
    hide SigningInput, Texts, Join, InWindow, Signs, ParseIsoMs;
    assert Texts(q)[..7] == u;
  }

  lemma TextsKeepKey(r: ProvenanceRecord, u: seq<string>)
    requires |u| == 7 && AllNonempty(u)
    ensures Texts(RowOf(r, u + [Texts(r)[7]]).(signerKeyId := r.signerKeyId)) == u + [Texts(r)[7]]
  {
    var q := RowOf(r, u + [Texts(r)[7]]).(signerKeyId := r.signerKeyId);
    var texts := Texts(q);
    assert texts[0] == u[0] && texts[1] == u[1] && texts[2] == u[2] && texts[3] == u[3];
    assert texts[4] == u[4] && texts[5] == u[5] && texts[6] == u[6] && texts[7] == Texts(r)[7];
  }

  /** The key id is listed, its key is in its window when the event occurred, and it signed the shipped text. */
  ghost predicate KeyServes(env: Foreign, keys: KeyDirectory, r: ProvenanceRecord, keyId: string) {
    && keyId in keys.index && ParseIsoMs(env, r.occurredAt).Some?
    && InWindow(env, keys.index[keyId], ParseIsoMs(env, r.occurredAt).value)
    && Signs(env, keys.index[keyId].publicKey, SigningInput(r), r.signature)
  }

  /** q is another authentic row, of the same time, with the same signature over the same text, under whatever key. */
  ghost predicate SignatureTwinAnyKey(env: Foreign, keys: KeyDirectory, r: ProvenanceRecord, q: ProvenanceRecord) {
    && Authentic(env, keys, q) && q.signature == r.signature && q.occurredAt == r.occurredAt
    && SigningInput(q) == SigningInput(r) && Texts(q) != Texts(r)
  }

  /** A second reading of the row whose last piece is written as the id of a key that serves. */
  ghost predicate ReadingUnder(env: Foreign, keys: KeyDirectory, r: ProvenanceRecord, u: seq<string>, keyId: string) {
    && Reads('|', Join('|', Texts(r)), 8, u) && u != Texts(r)
    && FieldText(Some(keyId)) == u[7] && KeyServes(env, keys, r, keyId)
  }

  /**
   Over all keys: the signature of an authentic row makes a differently written row authentic exactly
   when the row's text has a second reading that ends in the id of some key that serves, be it the
   row's own key or another listed one.
   */
  lemma SignatureTwinAnyKeyExactly(env: Foreign, keys: KeyDirectory, r: ProvenanceRecord)
    requires Authentic(env, keys, r)
    ensures (exists q :: SignatureTwinAnyKey(env, keys, r, q)) <==> exists u, keyId :: ReadingUnder(env, keys, r, u, keyId)
  {
    hide SignatureTwinAnyKey, ReadingUnder, Authentic;
    if q :| SignatureTwinAnyKey(env, keys, r, q) {
      TwinIsReading(env, keys, r, q);
    }
    if u, keyId :| ReadingUnder(env, keys, r, u, keyId) {
      ReadingIsTwin(env, keys, r, u, keyId);
    }
  }

  lemma TwinIsReading(env: Foreign, keys: KeyDirectory, r: ProvenanceRecord, q: ProvenanceRecord)
    requires SignatureTwinAnyKey(env, keys, r, q)
    ensures ReadingUnder(env, keys, r, Texts(q), q.signerKeyId)
  {
    SameInput(r, q);
    assert Texts(q)[7] == FieldText(Some(q.signerKeyId));
    hide SigningInput, Texts, Join, InWindow, Signs, ParseIsoMs, FieldText;
  }

  lemma ReadingIsTwin(env: Foreign, keys: KeyDirectory, r: ProvenanceRecord, u: seq<string>, keyId: string)
    requires Authentic(env, keys, r) && ReadingUnder(env, keys, r, u, keyId)
    ensures SignatureTwinAnyKey(env, keys, r, RowOf(r, u).(signerKeyId := keyId))
  {
    var q := RowOf(r, u).(signerKeyId := keyId);
    TextsUnderKey(r, u, keyId);
    SameInput(r, q);
    hide SigningInput, Texts, Join, InWindow, Signs, ParseIsoMs, FieldText;
  }

  lemma TextsUnderKey(r: ProvenanceRecord, u: seq<string>, keyId: string)
    requires |u| == 8 && AllNonempty(u) && FieldText(Some(keyId)) == u[7]
    ensures Texts(RowOf(r, u).(signerKeyId := keyId)) == u
  {
    var texts := Texts(RowOf(r, u).(signerKeyId := keyId));
    assert texts[0] == u[0] && texts[1] == u[1] && texts[2] == u[2] && texts[3] == u[3];
    assert texts[4] == u[4] && texts[5] == u[5] && texts[6] == u[6] && texts[7] == u[7];
  }

  /** Rows written alike are authentic together: the three spellings of an absent field share one signature. */
  lemma AbsenceHasThreeSpellings(env: Foreign, keys: KeyDirectory, r: ProvenanceRecord, q: ProvenanceRecord)
    requires Texts(r) == Texts(q) && q.signerKeyId == r.signerKeyId
    requires q.occurredAt == r.occurredAt && q.signature == r.signature && q.payloadCanonical == r.payloadCanonical
    ensures Authentic(env, keys, q) <==> Authentic(env, keys, r)
  {
    SameInput(r, q);
    hide SigningInput, Texts, InWindow, Signs, ParseIsoMs;
  }

  /** For instance, a row without a right id and the row whose right id is a dash. */
  lemma DashStandsForNone(env: Foreign, keys: KeyDirectory, r: ProvenanceRecord)
    requires r.rightId.None?
    ensures Authentic(env, keys, r.(rightId := Some("-"))) <==> Authentic(env, keys, r)
    ensures Authentic(env, keys, r.(rightId := Some(""))) <==> Authentic(env, keys, r)
  {
    WrittenAlikeExactly(r, r.(rightId := Some("-")));
    WrittenAlikeExactly(r, r.(rightId := Some("")));
    hide Authentic, Texts;
    AbsenceHasThreeSpellings(env, keys, r, r.(rightId := Some("-")));
    AbsenceHasThreeSpellings(env, keys, r, r.(rightId := Some("")));
  }

  /** Whatever its fields hold, an authentic row is also authentic with another spelling of its signature. */
  lemma RowHasSignatureTwin(env: Foreign, keys: KeyDirectory, r: ProvenanceRecord) returns (twin: ProvenanceRecord)
    requires Authentic(env, keys, r)
    ensures twin != r && twin == r.(signature := twin.signature) && Authentic(env, keys, twin)
  {
    SignatureHasTwin(env, keys.index[r.signerKeyId].publicKey, SigningInput(r), r.signature);
    hide Signs, InWindow, ParseIsoMs, Join;
    twin := r.(signature := Base64Url.Twin(r.signature));
  }

  // ------------------------------------------------------------- the whole set

  predicate OrgHolds(r: ProvenanceRecord, expectedOrgId: Option<string>) {
    expectedOrgId.Some? ==> r.orgId == expectedOrgId.value
  }

  function OrgSteps(r: ProvenanceRecord, i: nat, expectedOrgId: Option<string>): seq<AuditStep> {
    if OrgHolds(r, expectedOrgId) then [] else [Fail(Entry(i, OrgId), ProvenanceSignature, PROVENANCE_ORG_MISMATCH)]
  }

  function EntrySteps(env: Foreign, keys: KeyDirectory, r: ProvenanceRecord, i: nat, expectedOrgId: Option<string>): seq<AuditStep> {
    OrgSteps(r, i, expectedOrgId) + RecordSteps(env, keys, r, i)
  }

  function Walk(env: Foreign, keys: KeyDirectory, records: seq<ProvenanceRecord>, expectedOrgId: Option<string>): (per: seq<seq<AuditStep>>)
    ensures |per| == |records|
    ensures forall i :: 0 <= i < |per| ==> per[i] == EntrySteps(env, keys, records[i], i, expectedOrgId)
  {
    seq(|records|, i requires 0 <= i < |records| => EntrySteps(env, keys, records[i], i, expectedOrgId))
  }

  /** How many of the first n records carry a write-time signature. */
  function SignedAmong(records: seq<ProvenanceRecord>, n: nat): (k: nat)
    requires n <= |records|
    ensures k <= n
  {
    if n == 0 then 0 else SignedAmong(records, n - 1) + if IsSigned(records[n - 1]) then 1 else 0
  }

  ghost predicate SomeSigned(records: seq<ProvenanceRecord>) {
    exists i :: 0 <= i < |records| && IsSigned(records[i])
  }

  /** Nothing in the set is refused: organisations match and every signed row is authentic. */
  ghost predicate NothingRefused(env: Foreign, keys: KeyDirectory, records: seq<ProvenanceRecord>, expectedOrgId: Option<string>) {
    forall i :: 0 <= i < |records| ==> OrgHolds(records[i], expectedOrgId) && (IsSigned(records[i]) ==> Authentic(env, keys, records[i]))
  }

  ghost predicate OrgsHold(records: seq<ProvenanceRecord>, expectedOrgId: Option<string>) {
    forall i :: 0 <= i < |records| ==> OrgHolds(records[i], expectedOrgId)
  }

  /** One turn of the walk: the organisation, then the record itself. */
  method VerifyEntry(env: Foreign, keys: KeyDirectory, r: ProvenanceRecord, i: nat, expectedOrgId: Option<string>) returns (steps: seq<AuditStep>)
    ensures steps == EntrySteps(env, keys, r, i, expectedOrgId)
  {
    hide RecordSteps;
    steps := [];
    if expectedOrgId.Some? && r.orgId != expectedOrgId.value {
      steps := steps + [Fail(Entry(i, OrgId), ProvenanceSignature, PROVENANCE_ORG_MISMATCH)];
    }
    var next := VerifyProvenanceRecord(env, keys, r, i);
    steps := steps + next;
  }

  method VerifyProvenanceChain(env: Foreign, keys: KeyDirectory, records: seq<ProvenanceRecord>, expectedOrgId: Option<string>)
    returns (report: ProvenanceReport)
    ensures records == [] ==> report.status == INVALID && report.steps == [Fail(Whole(Records), ProvenanceSignature, MALFORMED_PACK)]
    ensures records != [] ==> report.steps == Flatten(Walk(env, keys, records, expectedOrgId))
    ensures report.recordCount == |records| && report.signedRecordCount == SignedAmong(records, |records|)
    ensures report.signedRecordCount + report.unsignedRecordCount == report.recordCount
    ensures records != [] ==> (report.status == VALID <==> SomeSigned(records) && NothingRefused(env, keys, records, expectedOrgId))
    ensures records != [] ==> (report.status == SKIPPED <==> !SomeSigned(records) && OrgsHold(records, expectedOrgId))
  {
    hide StatusOf, Flatten, Walk, SomeSigned, NothingRefused, OrgsHold;
    if records == [] {
      return ProvenanceReport(INVALID, 0, 0, 0, [Fail(Whole(Records), ProvenanceSignature, MALFORMED_PACK)]);
    }
    var steps, signedCount, unsignedCount := WalkEntries(env, keys, records, expectedOrgId);
    StepsDecideProvenance(env, keys, records, expectedOrgId);
    report := ProvenanceReport(StatusOf(steps), |records|, signedCount, unsignedCount, steps);
  }

  /** The loop over the records, with its two counters. */
  method WalkEntries(env: Foreign, keys: KeyDirectory, records: seq<ProvenanceRecord>, expectedOrgId: Option<string>)
    returns (steps: seq<AuditStep>, signedCount: nat, unsignedCount: nat)
    ensures steps == Flatten(Walk(env, keys, records, expectedOrgId))
    ensures signedCount == SignedAmong(records, |records|) && signedCount + unsignedCount == |records|
  {
    hide Flatten, Report.After, Walk, EntrySteps;
    ghost var per := Walk(env, keys, records, expectedOrgId);
    steps := [];
    AfterEnds([], per);
    signedCount, unsignedCount := 0, 0;
    var i := 0;
    while i < |records|
      invariant 0 <= i <= |records|
      invariant signedCount == SignedAmong(records, i) && signedCount + unsignedCount == i
      invariant steps == Report.After([], per, i)
    {
      if records[i].signatureAlgorithm == Ed25519 {
        signedCount := signedCount + 1;
      } else {
        unsignedCount := unsignedCount + 1;
      }
      var next := VerifyEntry(env, keys, records[i], i, expectedOrgId);
      AfterNext([], per, i);
      steps := steps + next;
      i := i + 1;
    }
    assert [] + Flatten(per) == Flatten(per);
  }

  /** An invalid step decides; otherwise one valid step is needed. */
  function StatusOf(steps: seq<AuditStep>): Status {
    if AnyInvalid(steps) then INVALID else if AnyValid(steps) then VALID else SKIPPED
  }

  lemma {:induction false} FlattenValid(per: seq<seq<AuditStep>>)
    ensures AnyValid(Flatten(per)) <==> exists i :: 0 <= i < |per| && AnyValid(per[i])
  {
    if per != [] {
      var front, last := per[..|per| - 1], per[|per| - 1];
      FlattenValid(front);
      AnyValidConcat(Flatten(front), last);
      assert forall i :: 0 <= i < |front| ==> front[i] == per[i];
    }
  }

  lemma AnyValidConcat(a: seq<AuditStep>, b: seq<AuditStep>)
    ensures AnyValid(a + b) <==> AnyValid(a) || AnyValid(b)
  {
    if AnyValid(a) {
      var i :| 0 <= i < |a| && a[i].status == VALID;
      assert (a + b)[i] == a[i];
    }
    if AnyValid(b) {
      var i :| 0 <= i < |b| && b[i].status == VALID;
      assert (a + b)[|a| + i] == b[i];
    }
  }

  lemma EntryStepsKinds(env: Foreign, keys: KeyDirectory, r: ProvenanceRecord, i: nat, expectedOrgId: Option<string>)
    ensures var steps := EntrySteps(env, keys, r, i, expectedOrgId);
            && (!AnyInvalid(steps) <==> OrgHolds(r, expectedOrgId) && (IsSigned(r) ==> Authentic(env, keys, r)))
            && (!AnyInvalid(steps) && IsSigned(r) ==> AnyValid(steps))
            && (!IsSigned(r) ==> !AnyValid(steps))
  {
    var org := OrgSteps(r, i, expectedOrgId);
    assert AnyInvalid(org) <==> !OrgHolds(r, expectedOrgId) by {
      assert !OrgHolds(r, expectedOrgId) ==> org[0].status == INVALID;
    }
    assert !AnyValid(org);
    hide RecordSteps, AnyInvalid, AnyValid, Authentic;
    RecordStepsKinds(env, keys, r, i);
    AnyInvalidConcat(org, RecordSteps(env, keys, r, i));
    AnyValidConcat(org, RecordSteps(env, keys, r, i));
  }

  lemma StepsDecideProvenance(env: Foreign, keys: KeyDirectory, records: seq<ProvenanceRecord>, expectedOrgId: Option<string>)
    ensures var status := StatusOf(Flatten(Walk(env, keys, records, expectedOrgId)));
            && (status == VALID <==> SomeSigned(records) && NothingRefused(env, keys, records, expectedOrgId))
            && (status == SKIPPED <==> !SomeSigned(records) && OrgsHold(records, expectedOrgId))
  {
    hide EntrySteps, AnyInvalid, AnyValid, Authentic, Flatten;
    var per := Walk(env, keys, records, expectedOrgId);
    FlattenClean(per);
    FlattenValid(per);
    forall i | 0 <= i < |records|
      ensures !AnyInvalid(per[i]) <==> OrgHolds(records[i], expectedOrgId) && (IsSigned(records[i]) ==> Authentic(env, keys, records[i]))
      ensures !AnyInvalid(per[i]) ==> (AnyValid(per[i]) <==> IsSigned(records[i]))
    {
      EntryStepsKinds(env, keys, records[i], i, expectedOrgId);
    }
  }

  // --------------------------------------------------------- written out

  /** The signed text: a version and eight fields, each itself or a dash. */
  lemma SigningInputWrittenOut(r: ProvenanceRecord)
    ensures SigningInput(r)
            == Join('|', ["rightProvenance.v1", FieldText(Some(r.orgId)), FieldText(Some(r.eventType)), FieldText(r.rightId), FieldText(r.basisId),
                          FieldText(r.offerId), FieldText(r.beforeHash), FieldText(r.afterHash), FieldText(Some(r.signerKeyId))])
    ensures forall v: string :: FieldText(Some(v)) == if v == "" then "-" else v
    ensures FieldText(None) == "-"
  {
    var t := Texts(r);
    assert [VERSION] + t == [VERSION, t[0], t[1], t[2], t[3], t[4], t[5], t[6], t[7]];
    hide Join;
  }

  /** The steps of a row: legacy, or without shipped text, or the text, the key and the signature over the shipped text. */
  lemma RecordStepsWrittenOut(env: Foreign, keys: KeyDirectory, r: ProvenanceRecord, i: nat)
    ensures var key := Lookup(env, keys, r.signerKeyId, r.occurredAt);
            RecordSteps(env, keys, r, i)
            == if r.signatureAlgorithm != Ed25519
               then [AuditStep(Entry(i, SignatureText), ProvenanceSignature, SKIPPED, Some(PROVENANCE_UNSIGNED_RECORD))]
               else if r.payloadCanonical == None
               then [AuditStep(Entry(i, PayloadCanonical), ProvenanceSignature, INVALID, Some(PROVENANCE_CANONICAL_MISMATCH))]
               else
                 [Check(SigningInput(r) == r.payloadCanonical.value, Entry(i, PayloadCanonical), ProvenanceSignature, PROVENANCE_CANONICAL_MISMATCH)]
                 + if key.Failure? then [AuditStep(Entry(i, KeyId), KeyLookup, INVALID, Some(key.error))]
                   else [AuditStep(Entry(i, KeyId), KeyLookup, VALID, None),
                         SignatureStep(i, CheckSignature(env, key.value.publicKey, r.payloadCanonical.value, r.signature))]
  {
    hide SigningInput, Lookup, CheckSignature;
  }

  lemma SignatureStepWrittenOut(i: nat)
    ensures SignatureStep(i, Verified) == AuditStep(Entry(i, SignatureText), ProvenanceSignature, VALID, None)
    ensures SignatureStep(i, Rejected) == AuditStep(Entry(i, SignatureText), ProvenanceSignature, INVALID, Some(PROVENANCE_SIGNATURE_INVALID))
    ensures SignatureStep(i, Undecodable) == AuditStep(Entry(i, SignatureText), ProvenanceSignature, INVALID, Some(PROVENANCE_SIGNATURE_MALFORMED))
    ensures SignatureStep(i, WrongLength) == AuditStep(Entry(i, SignatureText), ProvenanceSignature, INVALID, Some(PROVENANCE_SIGNATURE_MALFORMED))
  {}

  /** A row of another organisation than expected gets one more step, before its own. */
  lemma EntryStepsWrittenOut(env: Foreign, keys: KeyDirectory, r: ProvenanceRecord, i: nat, expected: string)
    ensures EntrySteps(env, keys, r, i, None) == RecordSteps(env, keys, r, i)
    ensures EntrySteps(env, keys, r, i, Some(expected))
            == (if r.orgId == expected then [] else [AuditStep(Entry(i, OrgId), ProvenanceSignature, INVALID, Some(PROVENANCE_ORG_MISMATCH))])
               + RecordSteps(env, keys, r, i)
  {
    hide RecordSteps;
    assert [] + RecordSteps(env, keys, r, i) == RecordSteps(env, keys, r, i);
  }
}
