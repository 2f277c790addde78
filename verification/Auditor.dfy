/** The auditor object: it caches the key directory, runs the four verifiers and rolls their statuses up. */
module Auditor {
  import opened Prelude
  import opened Report
  import opened Primitives
  import opened Keys
  import opened ProofPack
  import ProofChain
  import Metering
  import Settlement

  /** The typed envelope; metering and settlement may travel inside it. */
  datatype SignedProofPack = SignedProofPack(
    orgId: string,
    packId: string,
    records: seq<ProofRecord>,
    metering: Option<Metering.MeteringSummary>,
    settlement: Option<Settlement.SettlementSummary>)

  datatype AuditBundle = AuditBundle(
    pack: SignedProofPack,
    metering: Option<Metering.MeteringSummary>,
    settlement: Option<Settlement.SettlementSummary>,
    verificationKeys: Option<seq<VerificationKey>>,
    priorAfterHash: Option<string>)

  datatype PackReport = PackReport(status: Status, packId: string, orgId: string, steps: seq<AuditStep>)

  datatype FullReport = FullReport(
    status: Status,
    pack: PackReport,
    chain: ProofChain.ChainReport,
    metering: Metering.ProjectionReport,
    settlement: Settlement.SettlementReport)

  // ------------------------------------------------------------------ rollups

  /** Over steps: INVALID wins; a list with nothing but skipped steps, or no step at all, is skipped. */
  function RollupStatus(steps: seq<AuditStep>): (status: Status)
    ensures status == VALID <==> !AnyInvalid(steps) && exists i :: 0 <= i < |steps| && steps[i].status == VALID
    ensures status == SKIPPED <==> !AnyInvalid(steps) && forall i :: 0 <= i < |steps| ==> steps[i].status != VALID
  {
    if AnyInvalid(steps) then INVALID
    else if forall i :: 0 <= i < |steps| ==> steps[i].status == SKIPPED then SKIPPED
    else VALID
  }

  /** Over sub-reports: a mix of VALID and SKIPPED is VALID. */
  function RollupOverallStatus(statuses: seq<Status>): (status: Status)
    ensures status == VALID <==> INVALID !in statuses && VALID in statuses
    ensures status == SKIPPED <==> INVALID !in statuses && VALID !in statuses
  {
    if INVALID in statuses then INVALID
    else if forall i :: 0 <= i < |statuses| ==> statuses[i] == SKIPPED then SKIPPED
    else if forall i :: 0 <= i < |statuses| ==> statuses[i] == VALID then VALID
    else VALID
  }

  // ------------------------------------------------------------------- a pack

  function RecordWalk(env: Foreign, keys: KeyDirectory, records: seq<ProofRecord>): (per: seq<seq<AuditStep>>)
    ensures |per| == |records|
    ensures forall i :: 0 <= i < |per| ==> per[i] == RecordSteps(env, keys, records[i], i)
  {
    seq(|records|, i requires 0 <= i < |records| => RecordSteps(env, keys, records[i], i))
  }

  function PackSteps(env: Foreign, keys: KeyDirectory, records: seq<ProofRecord>): seq<AuditStep> {
    [Check(records != [], Whole(Records), Envelope, EMPTY_PACK)] + Flatten(RecordWalk(env, keys, records))
  }

  /** Some record's hash comparison raises, which nothing catches. */
  ghost predicate PackRaises(records: seq<ProofRecord>) {
    exists i :: 0 <= i < |records| && HashRaises(records[i])
  }

  function PackReportOf(env: Foreign, keys: KeyDirectory, pack: SignedProofPack): PackReport {
    var steps := PackSteps(env, keys, pack.records);
    PackReport(RollupStatus(steps), pack.packId, pack.orgId, steps)
  }

  /** What a VALID pack report means: there are records, and each is authentic. */
  ghost predicate PackHolds(env: Foreign, keys: KeyDirectory, records: seq<ProofRecord>) {
    records != [] && forall i :: 0 <= i < |records| ==> Authentic(env, keys, records[i])
  }

  /** What verify_proof_pack gives under a directory. */
  ghost function PackOutcome(env: Foreign, keys: KeyDirectory, pack: SignedProofPack): Result<PackReport, Error> {
    if PackRaises(pack.records) then Failure(UNICODE_ENCODE_ERROR) else Success(PackReportOf(env, keys, pack))
  }

  lemma PackHoldsDoesNotRaise(env: Foreign, keys: KeyDirectory, records: seq<ProofRecord>)
    requires PackHolds(env, keys, records)
    ensures !PackRaises(records)
  {
    hide Authentic, HashRaises;
    forall i | 0 <= i < |records| ensures !HashRaises(records[i]) {
      AuthenticDoesNotRaise(env, keys, records[i]);
    }
  }

  lemma StepsDecidePack(env: Foreign, keys: KeyDirectory, pack: SignedProofPack)
    ensures var status := PackReportOf(env, keys, pack).status;
            status != SKIPPED && (status == VALID <==> PackHolds(env, keys, pack.records))
  {
    hide Authentic, RecordSteps, RecordWalk, Flatten;
    var records := pack.records;
    var envelope, per := Check(records != [], Whole(Records), Envelope, EMPTY_PACK), RecordWalk(env, keys, records);
    var steps := PackSteps(env, keys, records);
    assert steps[0] == envelope;
    AnyInvalidConcat([envelope], Flatten(per));
    AnyInvalidOne(envelope);
    FlattenClean(per);
    forall i | 0 <= i < |records| ensures !AnyInvalid(per[i]) <==> Authentic(env, keys, records[i]) {
      RecordStepsDecide(env, keys, records[i], i);
    }
  }

  // ----------------------------------------------------------- the whole bundle

  /** bundle.metering or bundle.pack.metering */
  function MeteringInput(bundle: AuditBundle): Option<Metering.MeteringSummary> {
    if bundle.metering.Some? then bundle.metering else bundle.pack.metering
  }

  function SettlementInput(bundle: AuditBundle): Option<Settlement.SettlementSummary> {
    if bundle.settlement.Some? then bundle.settlement else bundle.pack.settlement
  }

  function ChainReportOf(env: Foreign, bundle: AuditBundle): ProofChain.ChainReport {
    var steps := ProofChain.ChainSteps(env, bundle.pack.records, bundle.priorAfterHash);
    ProofChain.ChainReport(Verdict(steps), |bundle.pack.records|, steps)
  }

  function SkippedStep(field: Field, kind: Kind): AuditStep {
    AuditStep(Whole(field), kind, SKIPPED, None)
  }

  function ProjectionReportOf(env: Foreign, bundle: AuditBundle): Metering.ProjectionReport {
    var records, m := bundle.pack.records, MeteringInput(bundle);
    if m.None? then Metering.ProjectionReport(SKIPPED, |records|, 0, [SkippedStep(Field.Metering, MeterProjection)])
    else
      var steps := Metering.ProjectionSteps(env, records, m.value, Some(bundle.pack.orgId));
      Metering.ProjectionReport(Verdict(steps), |records|, |m.value.records|, steps)
  }

  function SettlementReportOf(env: Foreign, bundle: AuditBundle): Settlement.SettlementReport {
    var m, s := MeteringInput(bundle), SettlementInput(bundle);
    if m.None? || s.None? then
      Settlement.SettlementReport(SKIPPED, if m.Some? then |m.value.records| else 0, 0, [SkippedStep(Field.Settlement, SettlementLine)])
    else
      var steps := Settlement.SettlementSteps(env, m.value, s.value);
      Settlement.SettlementReport(Verdict(steps), |m.value.records|, |s.value.lines|, steps)
  }

  function FullReportOf(env: Foreign, keys: KeyDirectory, bundle: AuditBundle): FullReport {
    var pack, chain := PackReportOf(env, keys, bundle.pack), ChainReportOf(env, bundle);
    var metering, settlement := ProjectionReportOf(env, bundle), SettlementReportOf(env, bundle);
    FullReport(RollupOverallStatus([pack.status, chain.status, metering.status, settlement.status]), pack, chain, metering, settlement)
  }

  /** The projection's ValueError is not caught, so it comes out of verify_all. */
  ghost predicate BundleRaises(bundle: AuditBundle) {
    var m := MeteringInput(bundle);
    m.Some? && Metering.RaisesOn(bundle.pack.records, m.value)
  }

  /** What verify_all gives for a bundle under a directory. */
  ghost function Outcome(env: Foreign, keys: KeyDirectory, bundle: AuditBundle): Result<FullReport, Error> {
    if PackRaises(bundle.pack.records) then Failure(UNICODE_ENCODE_ERROR)
    else if BundleRaises(bundle) then Failure(VALUE_ERROR)
    else Success(FullReportOf(env, keys, bundle))
  }

  ghost predicate ReportsValid(outcome: Result<FullReport, Error>) {
    outcome.Success? && outcome.value.status == VALID
  }

  /** What a VALID full report means. Without metering nothing is said about the settlement. */
  ghost predicate BundleHolds(env: Foreign, keys: KeyDirectory, bundle: AuditBundle) {
    var records, m, s := bundle.pack.records, MeteringInput(bundle), SettlementInput(bundle);
    && PackHolds(env, keys, records)
    && ProofChain.ChainHolds(env, records, bundle.priorAfterHash)
    && (m.Some? ==> Metering.MeteringHolds(env, records, m.value, Some(bundle.pack.orgId)))
    && (m.Some? && s.Some? ==> Settlement.SettlementHolds(env, m.value, s.value))
  }

  lemma OutcomeDecides(env: Foreign, keys: KeyDirectory, bundle: AuditBundle)
    ensures ReportsValid(Outcome(env, keys, bundle)) <==> BundleHolds(env, keys, bundle)
    ensures FullReportOf(env, keys, bundle).status != SKIPPED
  {
    hide PackReportOf, PackRaises, AnyInvalid, PackHolds, ProofChain.ChainHolds, ProofChain.ChainSteps, Metering.MeteringHolds,
      Metering.ProjectionSteps, Metering.RaisesOn, Settlement.SettlementHolds, Settlement.SettlementSteps;
    var records, m, s := bundle.pack.records, MeteringInput(bundle), SettlementInput(bundle);
    StepsDecidePack(env, keys, bundle.pack);
    if PackHolds(env, keys, records) {
      PackHoldsDoesNotRaise(env, keys, records);
    }
    ProofChain.StepsDecideChain(env, records, bundle.priorAfterHash);
    if m.Some? {
      Metering.StepsDecideMetering(env, records, m.value, Some(bundle.pack.orgId));
    }
    if m.Some? && s.Some? {
      Settlement.StepsDecideSettlement(env, m.value, s.value);
    }
    var report := FullReportOf(env, keys, bundle);
    FourStatuses(report.pack.status, report.chain.status, report.metering.status, report.settlement.status);
  }

  lemma FourStatuses(a: Status, b: Status, c: Status, d: Status)
    ensures RollupOverallStatus([a, b, c, d]) == VALID
            <==> a != INVALID && b != INVALID && c != INVALID && d != INVALID && !(a == b == c == d == SKIPPED)
    ensures a != SKIPPED ==> RollupOverallStatus([a, b, c, d]) != SKIPPED
  {
    var all := [a, b, c, d];
    assert all[0] == a && all[1] == b && all[2] == c && all[3] == d;
  }

  // ------------------------------------------------------------- the directory

  /** Loading a list of keys: the failure that came instead of them, KEYS_MALFORMED, or their directory. */
  ghost function Loaded(keys: Result<seq<VerificationKey>, Error>): Result<KeyDirectory, Error> {
    if keys.Failure? then Failure(keys.error)
    else if Malformed(keys.value) then Failure(KEYS_MALFORMED)
    else Success(KeyDirectory(IndexOf(keys.value)))
  }

  /** verify_all under a directory that may have failed to load. */
  ghost function OutcomeUnder(env: Foreign, directory: Result<KeyDirectory, Error>, bundle: AuditBundle): Result<FullReport, Error> {
    if directory.Failure? then Failure(directory.error) else Outcome(env, directory.value, bundle)
  }

  /** The full run raises exactly where keys fail to load, a hash comparison raises, or the projection does. */
  lemma RunRaisesExactly(env: Foreign, directory: Result<KeyDirectory, Error>, bundle: AuditBundle)
    ensures OutcomeUnder(env, directory, bundle).Failure?
            <==> directory.Failure? || PackRaises(bundle.pack.records) || BundleRaises(bundle)
  {
    hide PackRaises, BundleRaises, FullReportOf;
  }

  /** For instance, an after-hash of 64 characters one of which is not ASCII, whatever else the record holds. */
  lemma NonAsciiHashRaises(env: Foreign, keys: KeyDirectory, bundle: AuditBundle, i: nat, c: char)
    requires i < |bundle.pack.records| && c as int >= 128
    ensures var r := bundle.pack.records[i].(afterHash := seq(64, _ => c));
            Outcome(env, keys, bundle.(pack := bundle.pack.(records := bundle.pack.records[i := r]))) == Failure(UNICODE_ENCODE_ERROR)
  {
    var r := bundle.pack.records[i].(afterHash := seq(64, _ => c));
    assert r.afterHash[0] == c;
    assert HashRaises(bundle.pack.records[i := r][i]);
    hide FullReportOf, BundleRaises;
  }

  // ------------------------------------------------------------------- sessions

  /** One call of verify_all, with the keys a load would be given at that moment. */
  datatype Call = Call(bundle: AuditBundle, offered: Result<seq<VerificationKey>, Error>)

  /** The directory a verification uses: the cached one, whatever is offered, or one loaded for the purpose. */
  ghost function Used(cache: Option<KeyDirectory>, offered: Result<seq<VerificationKey>, Error>): Result<KeyDirectory, Error> {
    if cache.Some? then Success(cache.value) else Loaded(offered)
  }

  /** The cache afterwards: a failed load leaves it empty. */
  ghost function Kept(cache: Option<KeyDirectory>, offered: Result<seq<VerificationKey>, Error>): Option<KeyDirectory> {
    var used := Used(cache, offered);
    if used.Success? then Some(used.value) else None
  }

  /** Keys shipped with a bundle are used for that call only. */
  ghost function OutcomeOf(env: Foreign, cache: Option<KeyDirectory>, call: Call): Result<FullReport, Error> {
    var shipped := call.bundle.verificationKeys;
    if shipped.Some? then OutcomeUnder(env, Loaded(Success(shipped.value)), call.bundle.(verificationKeys := None))
    else OutcomeUnder(env, Used(cache, call.offered), call.bundle)
  }

  ghost function CacheAfter(cache: Option<KeyDirectory>, call: Call): Option<KeyDirectory> {
    if call.bundle.verificationKeys.Some? then cache else Kept(cache, call.offered)
  }

  /** The cache before call n of a session. */
  ghost function CacheBefore(cache: Option<KeyDirectory>, calls: seq<Call>, n: nat): Option<KeyDirectory>
    requires n <= |calls|
  {
    if n == 0 then cache else CacheAfter(CacheBefore(cache, calls, n - 1), calls[n - 1])
  }

  /**
   No rotation in mid-audit: once a directory is cached it stays for the rest of the session, and every
   later call without keys of its own gives what that directory gives, whatever is offered then.
   */
  lemma {:induction false} NoRotation(env: Foreign, cache: Option<KeyDirectory>, calls: seq<Call>, i: nat, j: nat)
    requires i <= j < |calls| && CacheBefore(cache, calls, i).Some?
    ensures CacheBefore(cache, calls, j) == CacheBefore(cache, calls, i)
    ensures calls[j].bundle.verificationKeys.None? ==>
              OutcomeOf(env, CacheBefore(cache, calls, j), calls[j])
              == Outcome(env, CacheBefore(cache, calls, i).value, calls[j].bundle)
  {
    hide Loaded, Outcome;
    if i < j {
      NoRotation(env, cache, calls, i, j - 1);
    }
  }

  /** The run over the keys the bundle ships, or else over the given ones. */
  ghost function OutcomeOn(env: Foreign, keys: seq<VerificationKey>, bundle: AuditBundle): Result<FullReport, Error> {
    var shipped := bundle.verificationKeys;
    OutcomeUnder(env, Loaded(Success(if shipped.Some? then shipped.value else keys)), bundle.(verificationKeys := None))
  }

  /** Keys shipped with a bundle decide alone: neither the auditor's directory nor what is offered to it matters. */
  lemma ShippedKeysDecide(env: Foreign, bundle: AuditBundle, cache1: Option<KeyDirectory>, offered1: Result<seq<VerificationKey>, Error>,
                          cache2: Option<KeyDirectory>, offered2: Result<seq<VerificationKey>, Error>)
    requires bundle.verificationKeys.Some?
    ensures OutcomeOf(env, cache1, Call(bundle, offered1)) == OutcomeOf(env, cache2, Call(bundle, offered2))
  {
    hide Loaded, Outcome;
  }

  /**
   A session over one list of keys, as a local auditor's is, uses their directory from first to last,
   except for bundles that ship their own, so each outcome depends on the bundle alone.
   */
  lemma {:induction false} LocalSessionIsReproducible(env: Foreign, calls: seq<Call>, keys: seq<VerificationKey>, j: nat)
    requires j < |calls| && forall k :: 0 <= k < |calls| ==> calls[k].offered == Success(keys)
    ensures CacheBefore(None, calls, j).Some? ==> Loaded(Success(keys)) == Success(CacheBefore(None, calls, j).value)
    ensures OutcomeOf(env, CacheBefore(None, calls, j), calls[j]) == OutcomeOn(env, keys, calls[j].bundle)
  {
    hide Loaded, Outcome;
    if j > 0 {
      LocalSessionIsReproducible(env, calls, keys, j - 1);
    }
  }

  // ------------------------------------------------------------------ the object

  /** Every key is an Ed25519 key, filed under its own id. */
  ghost predicate WellFiled(directory: KeyDirectory) {
    forall id :: id in directory.index ==> directory.index[id].keyId == id && directory.index[id].algorithm == Ed25519
  }

  lemma LoadedIsWellFiled(keys: seq<VerificationKey>)
    requires Loaded(Success(keys)).Success?
    ensures WellFiled(Loaded(Success(keys)).value)
  {
    IndexOfIndexes(keys);
    hide IndexOf;
  }

  datatype Source = Platform | Local

  /**
   The facade. Methods that may load keys take what the platform's key endpoint would answer at that
   moment; an auditor over local keys never looks at it.
   */
  class EnfinitOSAuditor {
    const env: Foreign
    const source: Source
    const localKeys: Option<seq<VerificationKey>>
    var keyDirectory: Option<KeyDirectory>

    constructor (env: Foreign, source: Source, localKeys: Option<seq<VerificationKey>>)
      requires source == Local ==> localKeys.Some?
      ensures this.env == env && this.source == source && this.localKeys == localKeys
      ensures keyDirectory == None && Valid()
    {
      this.env, this.source, this.localKeys := env, source, localKeys;
      keyDirectory := None;
    }

    /** Construction as callers see it: local keys must be given when they are asked for. */
    static method Create(env: Foreign, source: Source, localKeys: Option<seq<VerificationKey>>) returns (r: Result<EnfinitOSAuditor, Error>)
      ensures r.Failure? <==> source == Local && localKeys == None
      ensures r.Failure? ==> r.error == INVALID_INPUT
      ensures r.Success? ==> fresh(r.value) && r.value.Valid() && r.value.keyDirectory == None
      ensures r.Success? ==> r.value.env == env && r.value.source == source && r.value.localKeys == localKeys
    {
      if source == Local && localKeys.None? {
        return Failure(INVALID_INPUT);
      }
      var auditor := new EnfinitOSAuditor(env, source, localKeys);
      r := Success(auditor);
    }

    /** A cached directory was loaded from some list of keys; for a local auditor, from its own. */
    ghost predicate Valid()
      reads this
    {
      && (source == Local ==> localKeys.Some?)
      && (keyDirectory.Some? && source == Local ==> Loaded(Success(localKeys.value)) == Success(keyDirectory.value))
      && (keyDirectory.Some? ==> exists keys :: Loaded(Success(keys)) == Success(keyDirectory.value))
    }

    /** What a load would be given now. */
    function Offered(served: Result<seq<VerificationKey>, Error>): Result<seq<VerificationKey>, Error>
      requires source == Local ==> localKeys.Some?
    {
      if source == Local then Success(localKeys.value) else served
    }

    /** Load on first use; a failed load leaves the cache empty. */
    method GetKeyDirectory(served: Result<seq<VerificationKey>, Error>) returns (r: Result<KeyDirectory, Error>)
      requires Valid()
      modifies this`keyDirectory
      ensures Valid() && r == Used(old(keyDirectory), Offered(served))
      ensures keyDirectory == Kept(old(keyDirectory), Offered(served))
      ensures r.Success? ==> WellFiled(r.value)
    {
      if keyDirectory.Some? {
        ghost var keys :| Loaded(Success(keys)) == Success(keyDirectory.value);
        LoadedIsWellFiled(keys);
        return Success(keyDirectory.value);
      }
      var keys := Offered(served);
      if keys.Failure? {
        return Failure(keys.error);
      }
      r := BuildKeyDirectory(keys.value);
      if r.Success? {
        assert Loaded(Success(keys.value)) == r;
        LoadedIsWellFiled(keys.value);
        keyDirectory := Some(r.value);
      }
    }

    method VerifyProofPack(pack: SignedProofPack, served: Result<seq<VerificationKey>, Error>) returns (r: Result<PackReport, Error>)
      requires Valid()
      modifies this`keyDirectory
      ensures Valid() && keyDirectory == Kept(old(keyDirectory), Offered(served))
      ensures var directory := Used(old(keyDirectory), Offered(served));
              r == (if directory.Failure? then Failure(directory.error) else PackOutcome(env, directory.value, pack))
    {
      hide Valid, Loaded, Indexes, Malformed, RollupStatus, PackRaises;
      var directory := GetKeyDirectory(served);
      if directory.Failure? {
        return Failure(directory.error);
      }
      var steps;
      if pack.records == [] {
        steps := [Fail(Whole(Records), Envelope, EMPTY_PACK)];
      } else {
        steps := [Pass(Whole(Records), Envelope)];
      }
      var rest := VerifyRecords(env, directory.value, pack.records);
      if rest.Failure? {
        return Failure(rest.error);
      }
      steps := steps + rest.value;
      r := Success(PackReport(RollupStatus(steps), pack.packId, pack.orgId, steps));
    }

    /** The loop over the records of a pack. */
    static method VerifyRecords(env: Foreign, keys: KeyDirectory, records: seq<ProofRecord>) returns (r: Result<seq<AuditStep>, Error>)
      ensures r == if PackRaises(records) then Failure(UNICODE_ENCODE_ERROR) else Success(Flatten(RecordWalk(env, keys, records)))
    {
      hide Flatten, After, RecordWalk, RecordSteps, Authentic, AnyInvalid, HashRaises;
      ghost var per := RecordWalk(env, keys, records);
      var steps := [];
      AfterEnds([], per);
      var i := 0;
      while i < |records|
        invariant 0 <= i <= |records|
        invariant forall j :: 0 <= j < i ==> !HashRaises(records[j])
        invariant steps == After([], per, i)
      {
        var next := VerifyProofRecord(env, keys, records[i], i);
        if next.Failure? {
          return Failure(next.error);
        }
        AfterNext([], per, i);
        steps := steps + next.value;
        i := i + 1;
      }
      assert [] + Flatten(per) == Flatten(per);
      r := Success(steps);
    }

    /**
     The full pipeline. Keys shipped with the bundle are used for this run only, through a second
     auditor, and this auditor's cache stays as it was.
     */
    method VerifyAll(bundle: AuditBundle, served: Result<seq<VerificationKey>, Error>) returns (r: Result<FullReport, Error>)
      requires Valid()
      modifies this`keyDirectory
      ensures Valid() && keyDirectory == CacheAfter(old(keyDirectory), Call(bundle, Offered(served)))
      ensures r == OutcomeOf(env, old(keyDirectory), Call(bundle, Offered(served)))
      ensures source == Local && bundle.verificationKeys.None? ==> r == OutcomeUnder(env, Loaded(Success(localKeys.value)), bundle)
      decreases bundle.verificationKeys.Some?
    {
      hide PackReportOf, PackRaises, Loaded, AnyInvalid, ProofChain.ChainHolds, ProofChain.ChainSteps, Metering.MeteringHolds,
        Metering.ProjectionSteps, Metering.RaisesOn, Settlement.SettlementHolds, Settlement.SettlementSteps, RollupOverallStatus;
      if bundle.verificationKeys.Some? {
        var tmp := new EnfinitOSAuditor(env, Local, bundle.verificationKeys);
        r := tmp.VerifyAll(bundle.(verificationKeys := None), served);
        return;
      }
      var packReport := VerifyProofPack(bundle.pack, served);
      if packReport.Failure? {
        return Failure(packReport.error);
      }
      var chainReport := ProofChain.VerifyProofChain(env, bundle.pack.records, bundle.priorAfterHash);
      var meteringInput := MeteringInput(bundle);
      var meteringReport;
      if meteringInput.Some? {
        var projected := Metering.VerifyMeteringProjection(env, bundle.pack.records, meteringInput.value, Some(bundle.pack.orgId));
        if projected.Failure? {
          return Failure(projected.error);
        }
        meteringReport := projected.value;
      } else {
        meteringReport := Metering.ProjectionReport(SKIPPED, |bundle.pack.records|, 0, [SkippedStep(Field.Metering, MeterProjection)]);
      }
      var settlementInput := SettlementInput(bundle);
      var settlementReport;
      if settlementInput.Some? && meteringInput.Some? {
        settlementReport := Settlement.VerifySettlementReconciliation(env, meteringInput.value, settlementInput.value);
      } else {
        settlementReport := Settlement.SettlementReport(SKIPPED, if meteringInput.Some? then |meteringInput.value.records| else 0, 0,
                                                        [SkippedStep(Field.Settlement, SettlementLine)]);
      }
      var status := RollupOverallStatus([packReport.value.status, chainReport.status, meteringReport.status, settlementReport.status]);
      r := Success(FullReport(status, packReport.value, chainReport, meteringReport, settlementReport));
    }
  }

  // --------------------------------------------------------- written out

  /** The bundle's own metering and settlement go before those of the envelope. */
  lemma InputsWrittenOut(bundle: AuditBundle)
    ensures bundle.metering.Some? ==> MeteringInput(bundle) == bundle.metering
    ensures bundle.metering.None? ==> MeteringInput(bundle) == bundle.pack.metering
    ensures bundle.settlement.Some? ==> SettlementInput(bundle) == bundle.settlement
    ensures bundle.settlement.None? ==> SettlementInput(bundle) == bundle.pack.settlement
  {}

  /** A pack's report: the envelope's step, then those of the records. */
  lemma PackReportWrittenOut(env: Foreign, keys: KeyDirectory, pack: SignedProofPack)
    ensures var report := PackReportOf(env, keys, pack);
            && report.packId == pack.packId && report.orgId == pack.orgId && report.status == RollupStatus(report.steps)
            && report.steps == [AuditStep(Whole(Records), Envelope, if pack.records == [] then INVALID else VALID,
                                          if pack.records == [] then Some(EMPTY_PACK) else None)]
                               + Flatten(RecordWalk(env, keys, pack.records))
  {
    hide RecordWalk, Flatten, RollupStatus;
  }

  /** The four parts of a full report, and where metering and settlement are skipped. */
  lemma FullReportWrittenOut(env: Foreign, keys: KeyDirectory, bundle: AuditBundle)
    ensures var report := FullReportOf(env, keys, bundle); var m, s := MeteringInput(bundle), SettlementInput(bundle);
            var records := bundle.pack.records;
            && report.pack == PackReportOf(env, keys, bundle.pack)
            && report.chain.steps == ProofChain.ChainSteps(env, records, bundle.priorAfterHash)
            && report.chain.status == Verdict(report.chain.steps) && report.chain.recordCount == |records|
            && report.metering.proofRecordCount == |records|
            && report.metering.meterRecordCount == report.settlement.meterRecordCount == (if m.Some? then |m.value.records| else 0)
            && report.metering.steps == (if m.Some? then Metering.ProjectionSteps(env, records, m.value, Some(bundle.pack.orgId))
                                         else [AuditStep(Whole(Field.Metering), MeterProjection, SKIPPED, None)])
            && report.metering.status == (if m.Some? then Verdict(report.metering.steps) else SKIPPED)
            && report.settlement.settlementLineCount == (if m.Some? && s.Some? then |s.value.lines| else 0)
            && report.settlement.steps == (if m.Some? && s.Some? then Settlement.SettlementSteps(env, m.value, s.value)
                                           else [AuditStep(Whole(Field.Settlement), SettlementLine, SKIPPED, None)])
            && report.settlement.status == (if m.Some? && s.Some? then Verdict(report.settlement.steps) else SKIPPED)
            && report.status == RollupOverallStatus([report.pack.status, report.chain.status, report.metering.status, report.settlement.status])
  {
    hide PackReportOf, ProofChain.ChainSteps, Metering.ProjectionSteps, Settlement.SettlementSteps, RollupOverallStatus, AnyInvalid;
  }

  /** What a full run raises: loading first, then the hash comparison, then the projection. */
  lemma ErrorsWrittenOut(env: Foreign, directory: Result<KeyDirectory, Error>, bundle: AuditBundle)
    ensures var r := OutcomeUnder(env, directory, bundle);
            && (directory.Failure? ==> r == Failure(directory.error))
            && (directory.Success? && PackRaises(bundle.pack.records) ==> r == Failure(UNICODE_ENCODE_ERROR))
            && (directory.Success? && !PackRaises(bundle.pack.records) && BundleRaises(bundle) ==> r == Failure(VALUE_ERROR))
            && (directory.Success? && !PackRaises(bundle.pack.records) && !BundleRaises(bundle) ==> r == Success(FullReportOf(env, directory.value, bundle)))
  {
    hide PackRaises, BundleRaises, FullReportOf;
  }
}
