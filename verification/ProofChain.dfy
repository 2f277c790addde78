/** The walk over a pack's records: anchor, links, time order and nonce uniqueness. */
module ProofChain {
  import opened Prelude
  import opened Report
  import opened Primitives
  import opened ProofPayload
  import opened ProofPack

  datatype ChainReport = ChainReport(status: Status, recordCount: nat, steps: seq<AuditStep>)

  function IssuedAtMs(env: Foreign, r: ProofRecord): Option<real> {
    ParseIsoMs(env, r.payload.issuedAt)
  }

  predicate Linked(a: ProofRecord, b: ProofRecord) {
    b.beforeHash == Some(a.afterHash)
  }

  /** Not earlier, where both times parse. */
  predicate NotEarlier(env: Foreign, a: ProofRecord, b: ProofRecord) {
    IssuedAtMs(env, a).Some? && IssuedAtMs(env, b).Some? ==> IssuedAtMs(env, a).value <= IssuedAtMs(env, b).value
  }

  predicate Fresh(records: seq<ProofRecord>, i: nat)
    requires i < |records|
  {
    forall j :: 0 <= j < i ==> records[j].payload.nonce != records[i].payload.nonce
  }

  // ------------------------------------------------------------ the verifier

  function AnchorStep(first: ProofRecord, prior: Option<string>): AuditStep {
    Check(first.beforeHash == prior, Entry(0, BeforeHash), ChainLink,
          if prior.None? then GENESIS_BEFORE_HASH_NOT_NULL else CHAIN_LINK_MISMATCH)
  }

  /** The steps of record i against its predecessor. */
  function LinkSteps(i: nat, before: Option<string>, linked: bool, notEarlier: bool): seq<AuditStep> {
    [Check(linked, Entry(i, BeforeHash), ChainLink,
           if before.None? then GENESIS_BEFORE_HASH_NOT_NULL else CHAIN_LINK_MISMATCH)]
    + if notEarlier then [] else [Fail(Entry(i, IssuedAt), ChainLink, CHAIN_OUT_OF_ORDER)]
  }

  /** The steps of record i + 1. */
  function LinkStepsAt(env: Foreign, records: seq<ProofRecord>, i: nat): seq<AuditStep>
    requires i + 1 < |records|
  {
    LinkSteps(i + 1, records[i + 1].beforeHash, Linked(records[i], records[i + 1]), NotEarlier(env, records[i], records[i + 1]))
  }

  function LinkWalk(env: Foreign, records: seq<ProofRecord>): (per: seq<seq<AuditStep>>)
    requires records != []
    ensures |per| == |records| - 1
    ensures forall i :: 0 <= i < |per| ==> per[i] == LinkStepsAt(env, records, i)
  {
    seq(|records| - 1, i requires 0 <= i < |records| - 1 => LinkStepsAt(env, records, i))
  }

  function NonceSteps(i: nat, unseen: bool): seq<AuditStep> {
    if unseen then [] else [Fail(Entry(i, Nonce), ChainLink, CHAIN_NONCE_REUSED)]
  }

  function NonceWalk(records: seq<ProofRecord>): (per: seq<seq<AuditStep>>)
    ensures |per| == |records|
    ensures forall i :: 0 <= i < |per| ==> per[i] == NonceSteps(i, Fresh(records, i))
  {
    seq(|records|, i requires 0 <= i < |records| => NonceSteps(i, Fresh(records, i)))
  }

  predicate AllFresh(records: seq<ProofRecord>) {
    forall i :: 0 <= i < |records| ==> Fresh(records, i)
  }

  function NonceVerdict(records: seq<ProofRecord>): seq<AuditStep> {
    if AllFresh(records) then [Pass(Whole(Nonce), ChainLink)] else []
  }

  function ChainSteps(env: Foreign, records: seq<ProofRecord>, prior: Option<string>): seq<AuditStep> {
    if records == [] then [Fail(Whole(Records), ChainLink, MALFORMED_PACK)]
    else [AnchorStep(records[0], prior)] + Flatten(LinkWalk(env, records)) + Flatten(NonceWalk(records)) + NonceVerdict(records)
  }

  ghost predicate LinksHold(env: Foreign, records: seq<ProofRecord>) {
    forall i, j :: 0 <= i < j < |records| && j == i + 1 ==> Linked(records[i], records[j]) && NotEarlier(env, records[i], records[j])
  }

  ghost predicate NoncesDistinct(records: seq<ProofRecord>) {
    forall i, j :: 0 <= i < j < |records| ==> records[i].payload.nonce != records[j].payload.nonce
  }

  /**
   What a VALID chain report means: nonempty, anchored, each record linked to the one before it and
   not earlier where both times parse, and no nonce twice.
   */
  ghost predicate ChainHolds(env: Foreign, records: seq<ProofRecord>, prior: Option<string>) {
    && records != []
    && records[0].beforeHash == prior
    && LinksHold(env, records)
    && NoncesDistinct(records)
  }

  method VerifyProofChain(env: Foreign, records: seq<ProofRecord>, priorAfterHash: Option<string>) returns (report: ChainReport)
    ensures report.steps == ChainSteps(env, records, priorAfterHash)
    ensures report.status == VALID <==> ChainHolds(env, records, priorAfterHash)
    ensures report.recordCount == |records| && report.status == Verdict(report.steps)
  {
    StepsDecideChain(env, records, priorAfterHash);
    hide ChainHolds, AnyInvalid, Flatten, After, LinkWalk, NonceWalk, ParseIsoMs;
    if records == [] {
      return ChainReport(INVALID, 0, [Fail(Whole(Records), ChainLink, MALFORMED_PACK)]);
    }
    var steps := WalkLinks(env, records, priorAfterHash);
    var nonceSteps := WalkNonces(records);
    steps := steps + nonceSteps;
    assert steps == ChainSteps(env, records, priorAfterHash);
    report := ChainReport(Verdict(steps), |records|, steps);
  }

  /** The anchor and the forward walk. */
  method WalkLinks(env: Foreign, records: seq<ProofRecord>, priorAfterHash: Option<string>) returns (steps: seq<AuditStep>)
    requires records != []
    ensures steps == [AnchorStep(records[0], priorAfterHash)] + Flatten(LinkWalk(env, records))
  {
    hide After, Flatten, LinkWalk, ParseIsoMs;
    ghost var per := LinkWalk(env, records);
    var first := records[0];
    if first.beforeHash != priorAfterHash {
      if priorAfterHash.None? {
        steps := [Fail(Entry(0, BeforeHash), ChainLink, GENESIS_BEFORE_HASH_NOT_NULL)];
      } else {
        steps := [Fail(Entry(0, BeforeHash), ChainLink, CHAIN_LINK_MISMATCH)];
      }
    } else {
      steps := [Pass(Entry(0, BeforeHash), ChainLink)];
    }
    ghost var anchor := steps;
    AfterEnds(anchor, per);
    var prevIssuedAt := ParseIsoMs(env, first.payload.issuedAt);
    var i := 1;
    while i < |records|
      invariant 1 <= i <= |records|
      invariant prevIssuedAt == IssuedAtMs(env, records[i - 1])
      invariant steps == After(anchor, per, i - 1)
    {
      var curr, prev := records[i], records[i - 1];
      ghost var before := steps;
      if curr.beforeHash.None? {
        steps := steps + [Fail(Entry(i, BeforeHash), ChainLink, GENESIS_BEFORE_HASH_NOT_NULL)];
      } else if curr.beforeHash.value != prev.afterHash {
        steps := steps + [Fail(Entry(i, BeforeHash), ChainLink, CHAIN_LINK_MISMATCH)];
      } else {
        steps := steps + [Pass(Entry(i, BeforeHash), ChainLink)];
      }
      var currIssuedAt := ParseIsoMs(env, curr.payload.issuedAt);
      if currIssuedAt.Some? && prevIssuedAt.Some? && currIssuedAt.value < prevIssuedAt.value {
        steps := steps + [Fail(Entry(i, IssuedAt), ChainLink, CHAIN_OUT_OF_ORDER)];
      }
      AfterNext(anchor, per, i - 1);
      assert steps == before + per[i - 1];
      prevIssuedAt := currIssuedAt;
      i := i + 1;
    }
  }

  /** Nonce uniqueness, with a dictionary of first occurrences. */
  method WalkNonces(records: seq<ProofRecord>) returns (steps: seq<AuditStep>)
    ensures steps == Flatten(NonceWalk(records)) + NonceVerdict(records)
  {
    hide After, Flatten, NonceWalk;
    ghost var per := NonceWalk(records);
    AfterEnds([], per);
    steps := [];
    var seenNonce: map<string, nat> := map[];
    var nonceReuse := 0;
    var i := 0;
    while i < |records|
      invariant 0 <= i <= |records|
      invariant forall n :: n in seenNonce ==> seenNonce[n] < i && records[seenNonce[n]].payload.nonce == n
      invariant forall j :: 0 <= j < i ==> records[j].payload.nonce in seenNonce
      invariant 0 <= nonceReuse
      invariant nonceReuse == 0 <==> forall j :: 0 <= j < i ==> Fresh(records, j)
      invariant steps == After([], per, i)
    {
      var nonce := records[i].payload.nonce;
      assert Fresh(records, i) <==> nonce !in seenNonce;
      AfterNext([], per, i);
      if nonce in seenNonce {
        nonceReuse := nonceReuse + 1;
        steps := steps + [Fail(Entry(i, Nonce), ChainLink, CHAIN_NONCE_REUSED)];
      } else {
        seenNonce := seenNonce[nonce := i];
      }
      i := i + 1;
    }
    assert steps == Flatten(per) by {
      assert [] + Flatten(per) == Flatten(per);
    }
    if nonceReuse == 0 {
      steps := steps + [Pass(Whole(Nonce), ChainLink)];
    }
  }

  lemma LinkStepsClean(i: nat, before: Option<string>, linked: bool, notEarlier: bool)
    ensures !AnyInvalid(LinkSteps(i, before, linked, notEarlier)) <==> linked && notEarlier
  {
    var steps := LinkSteps(i, before, linked, notEarlier);
    assert !linked ==> steps[0].status == INVALID;
    assert !notEarlier ==> steps[1].status == INVALID;
  }

  lemma NonceStepsClean(i: nat, unseen: bool)
    ensures !AnyInvalid(NonceSteps(i, unseen)) <==> unseen
  {
    assert !unseen ==> NonceSteps(i, unseen)[0].status == INVALID;
  }

  lemma StepsDecideChain(env: Foreign, records: seq<ProofRecord>, prior: Option<string>)
    ensures !AnyInvalid(ChainSteps(env, records, prior)) <==> ChainHolds(env, records, prior)
    ensures records == [] ==> !ChainHolds(env, records, prior)
  {
    if records == [] {
      assert ChainSteps(env, records, prior)[0].status == INVALID;
    } else {
      var anchor, links, nonces := [AnchorStep(records[0], prior)], LinkWalk(env, records), NonceWalk(records);
      AnyInvalidConcat(anchor, Flatten(links));
      AnyInvalidConcat(anchor + Flatten(links), Flatten(nonces));
      AnyInvalidConcat(anchor + Flatten(links) + Flatten(nonces), NonceVerdict(records));
      assert AnyInvalid(anchor) <==> anchor[0].status == INVALID;
      assert !AnyInvalid(NonceVerdict(records));
      LinksClean(env, records);
      NoncesClean(records);
    }
  }

  lemma LinksClean(env: Foreign, records: seq<ProofRecord>)
    requires records != []
    ensures !AnyInvalid(Flatten(LinkWalk(env, records)))
            <==> LinksHold(env, records)
  {
    hide NotEarlier, AnyInvalid, LinkSteps;
    var per := LinkWalk(env, records);
    FlattenClean(per);
    forall i | 0 <= i < |per|
      ensures !AnyInvalid(per[i]) <==> Linked(records[i], records[i + 1]) && NotEarlier(env, records[i], records[i + 1])
    {
      LinkStepsClean(i + 1, records[i + 1].beforeHash, Linked(records[i], records[i + 1]), NotEarlier(env, records[i], records[i + 1]));
    }
    if LinksHold(env, records) {
      forall i | 0 <= i < |per| ensures !AnyInvalid(per[i]) {
        assert Linked(records[i], records[i + 1]) && NotEarlier(env, records[i], records[i + 1]);
      }
    }
    if !AnyInvalid(Flatten(per)) {
      forall i, j | 0 <= i < j < |records| && j == i + 1 ensures Linked(records[i], records[j]) && NotEarlier(env, records[i], records[j]) {
        assert !AnyInvalid(per[i]);
      }
    }
  }

  lemma NoncesClean(records: seq<ProofRecord>)
    ensures !AnyInvalid(Flatten(NonceWalk(records)))
            <==> NoncesDistinct(records)
  {
    hide AnyInvalid, NonceSteps;
    var per := NonceWalk(records);
    FlattenClean(per);
    forall i | 0 <= i < |per| ensures !AnyInvalid(per[i]) <==> Fresh(records, i) {
      NonceStepsClean(i, Fresh(records, i));
    }
    if AllFresh(records) {
      forall i, j | 0 <= i < j < |records| ensures records[i].payload.nonce != records[j].payload.nonce {
        assert Fresh(records, j);
      }
    }
    assert !AnyInvalid(Flatten(per)) <==> AllFresh(records);
  }

  // --------------------------------------------------- packs compose across the anchor

  /** No nonce of one list occurs in the other. */
  ghost predicate NoncesDisjoint(a: seq<ProofRecord>, b: seq<ProofRecord>) {
    forall i, j :: 0 <= i < |a| && 0 <= j < |b| ==> a[i].payload.nonce != b[j].payload.nonce
  }

  lemma LinksCompose(env: Foreign, a: seq<ProofRecord>, b: seq<ProofRecord>)
    requires a != [] && b != []
    ensures LinksHold(env, a + b)
            <==> LinksHold(env, a) && LinksHold(env, b) && Linked(a[|a| - 1], b[0]) && NotEarlier(env, a[|a| - 1], b[0])
  {
    hide Linked, NotEarlier;
    var c, k := a + b, |a|;
    assert forall i :: 0 <= i < k ==> c[i] == a[i];
    assert forall i :: k <= i < |c| ==> c[i] == b[i - k];
    if LinksHold(env, c) {
      assert Linked(c[k - 1], c[k]) && NotEarlier(env, c[k - 1], c[k]);
      forall i, j | 0 <= i < j < |b| && j == i + 1 ensures Linked(b[i], b[j]) && NotEarlier(env, b[i], b[j]) {
        assert c[k + i] == b[i] && c[k + j] == b[j];
      }
    }
    if LinksHold(env, a) && LinksHold(env, b) && Linked(a[k - 1], b[0]) && NotEarlier(env, a[k - 1], b[0]) {
      forall i, j | 0 <= i < j < |c| && j == i + 1 ensures Linked(c[i], c[j]) && NotEarlier(env, c[i], c[j]) {
        assert j < k ==> Linked(a[i], a[j]) && NotEarlier(env, a[i], a[j]);
        assert k <= i ==> Linked(b[i - k], b[j - k]) && NotEarlier(env, b[i - k], b[j - k]);
      }
    }
  }

  lemma NoncesCompose(a: seq<ProofRecord>, b: seq<ProofRecord>)
    ensures NoncesDistinct(a + b) <==> NoncesDistinct(a) && NoncesDistinct(b) && NoncesDisjoint(a, b)
  {
    var c, k := a + b, |a|;
    assert forall i :: 0 <= i < k ==> c[i] == a[i];
    assert forall i :: k <= i < |c| ==> c[i] == b[i - k];
    if NoncesDistinct(c) {
      forall i, j | 0 <= i < j < |b| ensures b[i].payload.nonce != b[j].payload.nonce {
        assert c[k + i] == b[i] && c[k + j] == b[j];
      }
      forall i, j | 0 <= i < |a| && 0 <= j < |b| ensures a[i].payload.nonce != b[j].payload.nonce {
        assert c[i] == a[i] && c[k + j] == b[j];
      }
    }
    if NoncesDistinct(a) && NoncesDistinct(b) && NoncesDisjoint(a, b) {
      forall i, j | 0 <= i < j < |c| ensures c[i].payload.nonce != c[j].payload.nonce {
        if j < k {
          assert a[i].payload.nonce != a[j].payload.nonce;
        } else if k <= i {
          assert b[i - k].payload.nonce != b[j - k].payload.nonce;
        } else {
          assert a[i].payload.nonce != b[j - k].payload.nonce;
        }
      }
    }
  }

  /**
   The concatenation of two packs is VALID from an anchor exactly when the first is VALID from it,
   the second is VALID from the first's last after-hash, time does not run backwards across the
   boundary, and the packs share no nonce.
   */
  lemma PacksCompose(env: Foreign, a: seq<ProofRecord>, b: seq<ProofRecord>, prior: Option<string>)
    requires a != [] && b != []
    ensures ChainHolds(env, a + b, prior)
            <==> ChainHolds(env, a, prior) && ChainHolds(env, b, Some(a[|a| - 1].afterHash))
                 && NotEarlier(env, a[|a| - 1], b[0]) && NoncesDisjoint(a, b)
  {
    LinksCompose(env, a, b);
    NoncesCompose(a, b);
    hide LinksHold, NoncesDistinct, NoncesDisjoint, NotEarlier;
    assert (a + b)[0] == a[0];
  }

  // ------------------------------------------------------- the order is rigid

  /** Two different canonical texts of the proof pack share a digest. */
  ghost predicate PayloadCollision(env: Foreign, records: seq<ProofRecord>) {
    exists i, j :: 0 <= i < |records| && 0 <= j < |records| && TextsCollide(env, records[i], records[j])
  }

  ghost predicate TextsCollide(env: Foreign, a: ProofRecord, b: ProofRecord) {
    Collides(env.sha, CanonicalText(a.payload), CanonicalText(b.payload))
  }

  /** Different records of a VALID chain have different after-hashes, their nonces being different. */
  lemma AfterHashesDiffer(env: Foreign, records: seq<ProofRecord>, prior: Option<string>, i: nat, j: nat)
    requires ChainHolds(env, records, prior) && i < |records| && j < |records| && i != j
    requires AfterHashHolds(env, records[i]) && AfterHashHolds(env, records[j])
    ensures records[i].afterHash != records[j].afterHash || PayloadCollision(env, records)
  {
    hide CanonicalText, Linked, NotEarlier;
    assert records[i].payload.nonce != records[j].payload.nonce;
    if CanonicalText(records[i].payload) == CanonicalText(records[j].payload) {
      CanonicalTextInjective(records[i].payload, records[j].payload);
    }
    if records[i].afterHash == records[j].afterHash {
      assert TextsCollide(env, records[i], records[j]);
    }
  }

  /** In a VALID chain the first record names the anchor; any other names the one before it. */
  lemma BeforeHashOf(env: Foreign, records: seq<ProofRecord>, prior: Option<string>, i: nat)
    requires ChainHolds(env, records, prior) && i < |records|
    ensures records[i].beforeHash == if i == 0 then prior else Some(records[i - 1].afterHash)
  {
    if i > 0 {
      assert Linked(records[i - 1], records[i]);
    }
  }

  /** No record but the last has the anchor for its after-hash. */
  predicate AnchorUnseen(records: seq<ProofRecord>, prior: Option<string>) {
    prior.Some? ==> forall i :: 0 <= i < |records| - 1 ==> records[i].afterHash != prior.value
  }

  predicate DrawnFrom(s: seq<ProofRecord>, records: seq<ProofRecord>) {
    forall k :: 0 <= k < |s| ==> s[k] in records
  }

  ghost predicate AfterHashesHold(env: Foreign, records: seq<ProofRecord>) {
    forall i :: 0 <= i < |records| ==> AfterHashHolds(env, records[i])
  }

  /** Record k of a rearrangement that verifies is record k of the pack. */
  lemma {:induction false} RigidAt(env: Foreign, records: seq<ProofRecord>, prior: Option<string>, s: seq<ProofRecord>, k: nat)
    requires ChainHolds(env, records, prior) && ChainHolds(env, s, prior)
    requires AfterHashesHold(env, records) && DrawnFrom(s, records) && AnchorUnseen(records, prior)
    requires k < |s| && !PayloadCollision(env, records)
    ensures k < |records| && s[k] == records[k]
  {
    hide PayloadCollision, ChainHolds, AfterHashHolds;
    assert s[k] in records;
    var j :| 0 <= j < |records| && records[j] == s[k];
    BeforeHashOf(env, s, prior, k);
    BeforeHashOf(env, records, prior, j);
    if k > 0 {
      RigidAt(env, records, prior, s, k - 1);
      if j == 0 {
        assert k == |records|;
        RigidAt(env, records, prior, s, 0);
        FirstIsNotRepeated(env, s, prior, k);
      } else if j != k {
        AfterHashesDiffer(env, records, prior, j - 1, k - 1);
      }
    }
  }

  lemma FirstIsNotRepeated(env: Foreign, s: seq<ProofRecord>, prior: Option<string>, k: nat)
    requires ChainHolds(env, s, prior) && 0 < k < |s|
    ensures s[k] != s[0]
  {
    assert s[0].payload.nonce != s[k].payload.nonce;
  }

  /** Every nonempty prefix verifies: dropping records from the end goes unnoticed. */
  lemma PrefixesHold(env: Foreign, records: seq<ProofRecord>, prior: Option<string>, n: nat)
    requires ChainHolds(env, records, prior) && 0 < n <= |records|
    ensures ChainHolds(env, records[..n], prior)
  {
    if n < |records| {
      assert records[..n] + records[n..] == records;
      PacksCompose(env, records[..n], records[n..], prior);
    } else {
      assert records[..n] == records;
    }
  }

  /**
   A list drawn from the records of a VALID pack, with the links they carry, in any order and with any
   repeats, verifies from the same anchor exactly when it is a nonempty prefix; otherwise two canonical
   texts of the proof pack collide. The anchor must not be the after-hash of a record inside the pack.
   Nothing is said here about records whose links were rewritten: see SelectionVerifies.
   */
  lemma OrderIsRigid(env: Foreign, records: seq<ProofRecord>, prior: Option<string>, s: seq<ProofRecord>)
    requires ChainHolds(env, records, prior) && AnchorUnseen(records, prior)
    requires AfterHashesHold(env, records) && DrawnFrom(s, records)
    ensures PayloadCollision(env, records) || (ChainHolds(env, s, prior) <==> s != [] && s <= records)
  {
    hide AnchorUnseen, AfterHashesHold, DrawnFrom;
    if s != [] && s <= records {
      PrefixesHold(env, records, prior, |s|);
      assert records[..|s|] == s;
    }
    if !PayloadCollision(env, records) && ChainHolds(env, s, prior) {
      hide ChainHolds, PayloadCollision;
      assert s != [] by {
        NotEmpty(env, s, prior);
      }
      forall k | 0 <= k < |s| ensures k < |records| && s[k] == records[k] {
        RigidAt(env, records, prior, s, k);
      }
      RigidAt(env, records, prior, s, |s| - 1);
      assert s == records[..|s|];
    }
  }

  lemma NotEmpty(env: Foreign, s: seq<ProofRecord>, prior: Option<string>)
    requires ChainHolds(env, s, prior)
    ensures s != []
  {}

  /** Only the nonempty prefixes of the pack verify among the lists drawn from it. */
  ghost predicate Rigid(env: Foreign, records: seq<ProofRecord>, prior: Option<string>) {
    forall s :: DrawnFrom(s, records) ==> (ChainHolds(env, s, prior) <==> s != [] && s <= records)
  }

  /** The condition on the anchor is exact: from an after-hash inside the pack the rest of it verifies too. */
  lemma OrderIsRigidExactly(env: Foreign, records: seq<ProofRecord>, prior: Option<string>)
    requires ChainHolds(env, records, prior) && AfterHashesHold(env, records)
    ensures PayloadCollision(env, records) || (Rigid(env, records, prior) <==> AnchorUnseen(records, prior))
  {
    if AnchorUnseen(records, prior) {
      forall s | DrawnFrom(s, records)
        ensures PayloadCollision(env, records) || (ChainHolds(env, s, prior) <==> s != [] && s <= records)
      {
        OrderIsRigid(env, records, prior, s);
      }
    } else {
      var j :| 0 <= j < |records| - 1 && records[j].afterHash == prior.value;
      RestVerifies(env, records, prior, j);
    }
  }

  lemma RestVerifies(env: Foreign, records: seq<ProofRecord>, prior: Option<string>, j: nat)
    requires ChainHolds(env, records, prior) && j < |records| - 1
    ensures var rest := records[j + 1..];
            DrawnFrom(rest, records) && ChainHolds(env, rest, Some(records[j].afterHash)) && !(rest <= records)
  {
    var front, rest := records[..j + 1], records[j + 1..];
    assert front + rest == records;
    PacksCompose(env, front, rest, prior);
    assert records[0].payload.nonce != records[j + 1].payload.nonce;
    assert rest[0] == records[j + 1];
    forall k | 0 <= k < |rest| ensures rest[k] in records {
      assert rest[k] == records[j + 1 + k];
    }
  }

  // ---------------------------------------------------- links may be rewritten

  /** The two records agree in everything but the predecessor they name, which neither hash nor signature covers. */
  predicate SameButForLink(a: ProofRecord, b: ProofRecord) {
    a == b.(beforeHash := a.beforeHash)
  }

  /** Record k of s is record idx[k] of the pack, except perhaps for its link. */
  predicate Selects(records: seq<ProofRecord>, idx: seq<nat>, s: seq<ProofRecord>) {
    |s| == |idx| && forall k :: 0 <= k < |s| ==> idx[k] < |records| && SameButForLink(s[k], records[idx[k]])
  }

  predicate AllDifferent(idx: seq<nat>) {
    forall k, l :: 0 <= k < l < |idx| ==> idx[k] != idx[l]
  }

  /** From the anchor on, each record names the one before it in the list. */
  ghost predicate Relinked(s: seq<ProofRecord>, prior: Option<string>) {
    && (s != [] ==> s[0].beforeHash == prior)
    && forall k, l :: 0 <= k < l < |s| && l == k + 1 ==> Linked(s[k], s[l])
  }

  /** Taken in the order idx, no record is earlier than the one before it, where both times parse. */
  ghost predicate NeverBack(env: Foreign, records: seq<ProofRecord>, idx: seq<nat>)
    requires forall k :: 0 <= k < |idx| ==> idx[k] < |records|
  {
    forall k, l :: 0 <= k < l < |idx| && l == k + 1 ==> NotEarlier(env, records[idx[k]], records[idx[l]])
  }

  /**
   What the chain walk enforces of a list of records of a VALID pack whose links may have been
   rewritten: it verifies exactly when it is not empty, its links fit its own order, its times do not
   run back, and no record is taken twice. Records may be missing anywhere.
   */
  lemma SelectionVerifies(env: Foreign, records: seq<ProofRecord>, prior: Option<string>, idx: seq<nat>, s: seq<ProofRecord>, anchor: Option<string>)
    requires ChainHolds(env, records, prior) && Selects(records, idx, s)
    ensures ChainHolds(env, s, anchor) <==> s != [] && Relinked(s, anchor) && NeverBack(env, records, idx) && AllDifferent(idx)
  {
    hide ParseIsoMs;
    assert NoncesDistinct(s) <==> AllDifferent(idx) by {
      SelectionNonces(records, idx, s);
    }
    hide NoncesDistinct, AllDifferent;
    forall k, l | 0 <= k < l < |s| && l == k + 1
      ensures NotEarlier(env, s[k], s[l]) <==> NotEarlier(env, records[idx[k]], records[idx[l]])
    {
      assert SameButForLink(s[k], records[idx[k]]) && SameButForLink(s[l], records[idx[l]]);
    }
    hide NotEarlier, Linked;
  }

  lemma SelectionNonces(records: seq<ProofRecord>, idx: seq<nat>, s: seq<ProofRecord>)
    requires NoncesDistinct(records) && Selects(records, idx, s)
    ensures NoncesDistinct(s) <==> AllDifferent(idx)
  {
    forall k, l | 0 <= k < l < |s| ensures s[k].payload.nonce != s[l].payload.nonce <==> idx[k] != idx[l] {
      assert SameButForLink(s[k], records[idx[k]]) && SameButForLink(s[l], records[idx[l]]);
    }
  }

  // ------------------------------------------------------ one record replaced

  /** What the chain holds of record i: its link, its after-hash if another record follows, its time and its nonce. */
  ghost predicate FitsAt(env: Foreign, records: seq<ProofRecord>, i: nat, r: ProofRecord)
    requires i < |records|
  {
    && r.beforeHash == records[i].beforeHash
    && (i + 1 < |records| ==> r.afterHash == records[i].afterHash && NotEarlier(env, r, records[i + 1]))
    && (i > 0 ==> NotEarlier(env, records[i - 1], r))
    && (forall j :: 0 <= j < |records| && j != i ==> records[j].payload.nonce != r.payload.nonce)
  }

  /** A VALID chain with one record replaced verifies exactly when the new record fits in its place. */
  lemma ReplacementVerifies(env: Foreign, records: seq<ProofRecord>, prior: Option<string>, i: nat, r: ProofRecord)
    requires ChainHolds(env, records, prior) && i < |records|
    ensures ChainHolds(env, records[i := r], prior) <==> FitsAt(env, records, i, r)
  {
    hide NotEarlier;
    LinksWithReplacement(env, records, i, r);
    NoncesWithReplacement(records, i, r);
    hide LinksHold, NoncesDistinct;
  }

  lemma LinksWithReplacement(env: Foreign, records: seq<ProofRecord>, i: nat, r: ProofRecord)
    requires LinksHold(env, records) && i < |records|
    ensures LinksHold(env, records[i := r])
            <==> && (i + 1 < |records| ==> Linked(r, records[i + 1]) && NotEarlier(env, r, records[i + 1]))
                 && (i > 0 ==> Linked(records[i - 1], r) && NotEarlier(env, records[i - 1], r))
    ensures i + 1 < |records| ==> Linked(records[i], records[i + 1])
    ensures i > 0 ==> Linked(records[i - 1], records[i])
  {
    hide NotEarlier, Linked;
    var s := records[i := r];
    if LinksHold(env, s) {
      assert i + 1 < |s| ==> Linked(s[i], s[i + 1]) && NotEarlier(env, s[i], s[i + 1]);
      assert i > 0 ==> Linked(s[i - 1], s[i]) && NotEarlier(env, s[i - 1], s[i]);
    }
    assert i + 1 < |records| ==> Linked(records[i], records[i + 1]);
    assert i > 0 ==> Linked(records[i - 1], records[i]);
  }

  lemma NoncesWithReplacement(records: seq<ProofRecord>, i: nat, r: ProofRecord)
    requires NoncesDistinct(records) && i < |records|
    ensures NoncesDistinct(records[i := r]) <==> forall j :: 0 <= j < |records| && j != i ==> records[j].payload.nonce != r.payload.nonce
  {
    var s := records[i := r];
    if NoncesDistinct(s) {
      forall j | 0 <= j < |records| && j != i ensures records[j].payload.nonce != r.payload.nonce {
        assert s[j] == records[j] && s[i] == r;
        assert if j < i then s[j].payload.nonce != s[i].payload.nonce else s[i].payload.nonce != s[j].payload.nonce;
      }
    }
  }

  /** The pack without record i, the next one relinked to what now precedes it. */
  function Without(records: seq<ProofRecord>, prior: Option<string>, i: nat): (s: seq<ProofRecord>)
    requires i < |records|
    ensures |s| == |records| - 1
    ensures forall k :: 0 <= k < |s| ==>
              s[k] == if k < i then records[k]
                      else if k == i then records[k + 1].(beforeHash := if i == 0 then prior else Some(records[i - 1].afterHash))
                      else records[k + 1]
  {
    seq(|records| - 1, k requires 0 <= k < |records| - 1 =>
      if k < i then records[k]
      else if k == i then records[k + 1].(beforeHash := if i == 0 then prior else Some(records[i - 1].afterHash))
      else records[k + 1])
  }

  function IndicesWithout(n: nat, i: nat): (idx: seq<nat>)
    requires i < n
    ensures |idx| == n - 1
    ensures forall k :: 0 <= k < |idx| ==> idx[k] == if k < i then k else k + 1
  {
    seq(n - 1, k requires 0 <= k < n - 1 => if k < i then k else k + 1)
  }

  /** A VALID pack all of whose times parse stays VALID when any one record is taken out and the gap closed. */
  lemma DropGoesUnnoticed(env: Foreign, records: seq<ProofRecord>, prior: Option<string>, i: nat)
    requires ChainHolds(env, records, prior) && i < |records| && |records| > 1
    requires forall k :: 0 <= k < |records| ==> Readable(env, records[k])
    ensures ChainHolds(env, Without(records, prior, i), prior)
    ensures i < |records| - 1 ==> !(Without(records, prior, i) <= records)
    ensures Selects(records, IndicesWithout(|records|, i), Without(records, prior, i))
  {
    var s, idx := Without(records, prior, i), IndicesWithout(|records|, i);
    WithoutIsRelinked(env, records, prior, i);
    WithoutIsInOrder(env, records, prior, i);
    hide ParseIsoMs, ChainHolds, Relinked, NeverBack;
    assert forall k :: 0 <= k < |s| ==> SameButForLink(s[k], records[idx[k]]);
    SelectionVerifies(env, records, prior, idx, s, prior);
    if i < |records| - 1 {
      NextHasOtherNonce(env, records, prior, i);
      assert s[i].payload == records[i + 1].payload;
    }
  }

  lemma NextHasOtherNonce(env: Foreign, records: seq<ProofRecord>, prior: Option<string>, i: nat)
    requires ChainHolds(env, records, prior) && i + 1 < |records|
    ensures records[i].payload.nonce != records[i + 1].payload.nonce
  {
    hide LinksHold;
  }

  lemma WithoutIsRelinked(env: Foreign, records: seq<ProofRecord>, prior: Option<string>, i: nat)
    requires ChainHolds(env, records, prior) && i < |records| && |records| > 1
    ensures Relinked(Without(records, prior, i), prior)
  {
    var s := Without(records, prior, i);
    hide NoncesDistinct, NotEarlier;
    forall k, l | 0 <= k < l < |s| && l == k + 1 ensures Linked(s[k], s[l]) {
      assert k + 1 < i ==> Linked(records[k], records[k + 1]);
      assert k >= i ==> Linked(records[k + 1], records[k + 2]);
    }
  }

  lemma WithoutIsInOrder(env: Foreign, records: seq<ProofRecord>, prior: Option<string>, i: nat)
    requires ChainHolds(env, records, prior) && i < |records|
    requires forall k :: 0 <= k < |records| ==> Readable(env, records[k])
    ensures NeverBack(env, records, IndicesWithout(|records|, i))
  {
    var idx := IndicesWithout(|records|, i);
    hide ParseIsoMs, ChainHolds;
    forall k, l | 0 <= k < l < |idx| && l == k + 1 ensures NotEarlier(env, records[idx[k]], records[idx[l]]) {
      ReadableTimesAscend(env, records, prior, idx[k], idx[l]);
    }
  }

  // ------------------------------------------------------------- time order

  predicate Readable(env: Foreign, r: ProofRecord) {
    IssuedAtMs(env, r).Some?
  }

  /** Along a stretch of readable times a VALID chain never goes back. */
  lemma {:induction false} ReadableTimesAscend(env: Foreign, records: seq<ProofRecord>, prior: Option<string>, i: nat, j: nat)
    requires ChainHolds(env, records, prior) && i <= j < |records|
    requires forall k :: i <= k <= j ==> Readable(env, records[k])
    ensures Readable(env, records[i]) && Readable(env, records[j])
    ensures IssuedAtMs(env, records[i]).value <= IssuedAtMs(env, records[j]).value
    decreases j - i
  {
    hide ParseIsoMs;
    if i < j {
      ReadableTimesAscend(env, records, prior, i + 1, j);
      assert Readable(env, records[i]) && Readable(env, records[i + 1]);
      assert NotEarlier(env, records[i], records[i + 1]);
    }
  }

  /** Which of the times parse. */
  predicate HasPattern(env: Foreign, records: seq<ProofRecord>, pattern: seq<bool>) {
    |records| == |pattern| && forall k :: 0 <= k < |pattern| ==> (pattern[k] <==> Readable(env, records[k]))
  }

  /** No unreadable time stands between two readable ones. */
  predicate NoGap(pattern: seq<bool>) {
    forall i, j, k :: 0 <= i < j < k < |pattern| && pattern[i] && pattern[k] ==> pattern[j]
  }

  ghost predicate SortedWhereReadable(env: Foreign, records: seq<ProofRecord>) {
    forall i, j :: 0 <= i < j < |records| && Readable(env, records[i]) && Readable(env, records[j])
      ==> IssuedAtMs(env, records[i]).value <= IssuedAtMs(env, records[j]).value
  }

  /** Every VALID chain with this pattern of readable times is sorted over all readable pairs. */
  ghost predicate AlwaysSorts(env: Foreign, pattern: seq<bool>) {
    forall records, prior :: ChainHolds(env, records, prior) && HasPattern(env, records, pattern) ==> SortedWhereReadable(env, records)
  }

  /** The chain walk sorts exactly the patterns without a gap, provided there are two times to confuse. */
  lemma ChainSortsExactly(env: Foreign, pattern: seq<bool>, early: string, late: string)
    requires ParseIsoMs(env, early).Some? && ParseIsoMs(env, late).Some?
    requires ParseIsoMs(env, early).value < ParseIsoMs(env, late).value
    ensures AlwaysSorts(env, pattern) <==> NoGap(pattern)
  {
    hide ParseIsoMs, ChainHolds;
    if NoGap(pattern) {
      forall records, prior | ChainHolds(env, records, prior) && HasPattern(env, records, pattern)
        ensures SortedWhereReadable(env, records)
      {
        NoGapSorts(env, records, prior, pattern);
      }
    } else {
      var i, j, k :| 0 <= i < j < k < |pattern| && pattern[i] && pattern[k] && !pattern[j];
      var records := Confused(env, pattern, j, early, late);
      ConfusedVerifies(env, pattern, j, early, late);
      assert Readable(env, records[i]) && Readable(env, records[k]);
      assert IssuedAtMs(env, records[i]).value > IssuedAtMs(env, records[k]).value;
    }
  }

  lemma NoGapSorts(env: Foreign, records: seq<ProofRecord>, prior: Option<string>, pattern: seq<bool>)
    requires ChainHolds(env, records, prior) && HasPattern(env, records, pattern) && NoGap(pattern)
    ensures SortedWhereReadable(env, records)
  {
    hide ParseIsoMs, ChainHolds;
    forall i, j | 0 <= i < j < |records| && Readable(env, records[i]) && Readable(env, records[j])
      ensures IssuedAtMs(env, records[i]).value <= IssuedAtMs(env, records[j]).value
    {
      assert pattern[i] && pattern[j];
      ReadableTimesAscend(env, records, prior, i, j);
    }
  }

  /** A record of a chain with the given number, time and link; all have one after-hash. */
  function Numbered(m: nat, issuedAt: string): ProofRecord {
    ProofRecord(ProofReceiptPayload("", "", None, "", None, issuedAt, "", 0, seq(m, _ => 'n'), None), "", "", "",
                if m == 0 then None else Some(""), "")
  }

  function TimeAt(pattern: seq<bool>, j: nat, early: string, late: string, m: nat): string
    requires m < |pattern|
  {
    if !pattern[m] then "" else if m < j then late else early
  }

  /** Readable times are late before position j and early behind it. */
  function Confused(env: Foreign, pattern: seq<bool>, j: nat, early: string, late: string): (records: seq<ProofRecord>)
    ensures |records| == |pattern|
    ensures forall m :: 0 <= m < |pattern| ==> records[m] == Numbered(m, TimeAt(pattern, j, early, late, m))
  {
    seq(|pattern|, m requires 0 <= m < |pattern| => Numbered(m, TimeAt(pattern, j, early, late, m)))
  }

  lemma ConfusedVerifies(env: Foreign, pattern: seq<bool>, j: nat, early: string, late: string)
    requires ParseIsoMs(env, early).Some? && ParseIsoMs(env, late).Some?
    requires j < |pattern| && !pattern[j]
    ensures var records := Confused(env, pattern, j, early, late);
            ChainHolds(env, records, None) && HasPattern(env, records, pattern)
  {
    assert ParseIsoMs(env, "").None?;
    hide ParseIsoMs;
    var records := Confused(env, pattern, j, early, late);
    forall a, b | 0 <= a < b < |records| && b == a + 1 ensures Linked(records[a], records[b]) && NotEarlier(env, records[a], records[b]) {
      assert IssuedAtMs(env, records[j]).None?;
    }
    forall a, b | 0 <= a < b < |records| ensures records[a].payload.nonce != records[b].payload.nonce {
      assert |records[a].payload.nonce| == a && |records[b].payload.nonce| == b;
    }
  }

  // --------------------------------------------------------- written out

  /** The anchor's step, and the steps of record i + 1 against its predecessor. */
  lemma LinkStepsWrittenOut(env: Foreign, records: seq<ProofRecord>, prior: Option<string>, i: nat)
    requires i + 1 < |records|
    ensures AnchorStep(records[0], prior)
            == Check(records[0].beforeHash == prior, Entry(0, BeforeHash), ChainLink,
                     if prior == None then GENESIS_BEFORE_HASH_NOT_NULL else CHAIN_LINK_MISMATCH)
    ensures var a, b := records[i], records[i + 1]; var s, t := ParseIsoMs(env, a.payload.issuedAt), ParseIsoMs(env, b.payload.issuedAt);
            LinkStepsAt(env, records, i)
            == [Check(b.beforeHash == Some(a.afterHash), Entry(i + 1, BeforeHash), ChainLink,
                      if b.beforeHash == None then GENESIS_BEFORE_HASH_NOT_NULL else CHAIN_LINK_MISMATCH)]
               + if s.Some? && t.Some? && t.value < s.value
                 then [AuditStep(Entry(i + 1, IssuedAt), ChainLink, INVALID, Some(CHAIN_OUT_OF_ORDER))] else []
  {
    hide ParseIsoMs;
  }

  /** One step per repeated nonce, or one for the whole list when none is. */
  lemma NonceStepsWrittenOut(records: seq<ProofRecord>, i: nat)
    requires i < |records|
    ensures var seen := exists j :: 0 <= j < i && records[j].payload.nonce == records[i].payload.nonce;
            NonceSteps(i, Fresh(records, i)) == if seen then [AuditStep(Entry(i, Nonce), ChainLink, INVALID, Some(CHAIN_NONCE_REUSED))] else []
    ensures NoncesDistinct(records) ==> NonceVerdict(records) == [AuditStep(Whole(Nonce), ChainLink, VALID, None)]
    ensures !NoncesDistinct(records) ==> NonceVerdict(records) == []
  {
    if NoncesDistinct(records) {
      forall k | 0 <= k < |records| ensures Fresh(records, k) {}
    } else {
      var j, k :| 0 <= j < k < |records| && records[j].payload.nonce == records[k].payload.nonce;
      assert !Fresh(records, k);
    }
  }

  lemma ChainStepsWrittenOut(env: Foreign, records: seq<ProofRecord>, prior: Option<string>)
    ensures records == [] ==> ChainSteps(env, records, prior) == [AuditStep(Whole(Records), ChainLink, INVALID, Some(MALFORMED_PACK))]
    ensures records != [] ==>
              ChainSteps(env, records, prior)
              == [AnchorStep(records[0], prior)] + Flatten(LinkWalk(env, records)) + Flatten(NonceWalk(records)) + NonceVerdict(records)
  {
    hide Flatten, LinkWalk, NonceWalk;
  }

  /** Two records, the second linked to the first with a nonce of its own, are VALID exactly when its instant is not before the first's. */
  lemma TwoRecordsWrittenOut(env: Foreign, a: ProofRecord, b: ProofRecord)
    requires a.beforeHash == None && b.beforeHash == Some(a.afterHash) && a.payload.nonce != b.payload.nonce
    requires 'Z' !in a.payload.issuedAt && 'Z' !in b.payload.issuedAt && a.payload.issuedAt != "" && b.payload.issuedAt != ""
    requires env.isoSeconds(a.payload.issuedAt).Some? && env.isoSeconds(b.payload.issuedAt).Some?
    ensures ChainHolds(env, [a, b], None) <==> env.isoSeconds(a.payload.issuedAt).value <= env.isoSeconds(b.payload.issuedAt).value
  {
    TimesKeepOrder(env, a.payload.issuedAt, b.payload.issuedAt);
    hide ParseIsoMs;
    var s := [a, b];
    assert s[0] == a && s[1] == b;
    if ChainHolds(env, s, None) {
      assert NotEarlier(env, s[0], s[1]);
    }
  }
}
