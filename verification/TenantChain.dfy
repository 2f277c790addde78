/** The tenant-level chain: each row's link hashes the previous link, so the tip commits to all of them. */
module TenantChain {
  import opened Prelude
  import opened Text
  import opened Report
  import opened Primitives

  const VERSION: string := "tenantChain.v1"

  datatype TenantChainedRecord = TenantChainedRecord(
    rowAfterHash: string,
    tenantChainPrev: Option<string>,
    tenantChainNext: string,
    tenantChainSequence: string)

  datatype ChainReport = ChainReport(status: Status, recordCount: nat, steps: seq<AuditStep>)

  /** prev or "" */
  function OrEmpty(prev: Option<string>): string {
    if prev.Some? then prev.value else ""
  }

  function LinkText(prev: Option<string>, rowAfterHash: string, sequence: string): string {
    VERSION + "|" + (if OrEmpty(prev) == "" then "-" else prev.value) + "|" + rowAfterHash + "|" + sequence
  }

  function GenesisChainTip(orgId: string): string {
    "provenance." + VERSION + "." + orgId
  }

  // ------------------------------------------------------------ the verifier

  /** The sequence the walk remembers before record n: that of the latest record with a readable one. */
  function LastSequence(env: Foreign, records: seq<TenantChainedRecord>, n: nat): Option<int>
    requires n <= |records|
  {
    if n == 0 then None
    else
      var s := env.intOf(records[n - 1].tenantChainSequence);
      if s.Some? then s else LastSequence(env, records, n - 1)
  }

  /** The steps of record i, from the sequence it carries, the one remembered, and the two comparisons. */
  function StepsFor(i: nat, sequence: Option<int>, last: Option<int>, linked: bool, recomputes: bool): seq<AuditStep> {
    if sequence.None? then [Fail(Entry(i, TenantChainSequence), ChainLink, MALFORMED_PACK)]
    else
      (if last.Some? && sequence.value != last.value + 1
       then [Fail(Entry(i, TenantChainSequence), ChainLink, CHAIN_OUT_OF_ORDER)] else [])
      + (if i > 0 then [Check(linked, Entry(i, TenantChainPrev), ChainLink, CHAIN_LINK_MISMATCH)] else [])
      + [Check(recomputes, Entry(i, TenantChainNext), ChainLink, CHAIN_LINK_MISMATCH)]
  }

  function SequenceOf(env: Foreign, r: TenantChainedRecord): int {
    var s := env.intOf(r.tenantChainSequence);
    if s.Some? then s.value else 0
  }

  /** The text whose digest a record's link should be. */
  function LinkOf(env: Foreign, r: TenantChainedRecord): string {
    LinkText(r.tenantChainPrev, r.rowAfterHash, IntText(SequenceOf(env, r)))
  }

  predicate Linked(a: TenantChainedRecord, b: TenantChainedRecord) {
    OrEmpty(b.tenantChainPrev) == a.tenantChainNext
  }

  predicate Recomputes(env: Foreign, r: TenantChainedRecord) {
    env.sha(LinkOf(env, r)) == r.tenantChainNext
  }

  function RecordSteps(env: Foreign, records: seq<TenantChainedRecord>, i: nat): seq<AuditStep>
    requires i < |records|
  {
    StepsFor(i, env.intOf(records[i].tenantChainSequence), LastSequence(env, records, i),
             i == 0 || Linked(records[i - 1], records[i]), Recomputes(env, records[i]))
  }

  function WalkSteps(env: Foreign, records: seq<TenantChainedRecord>): (per: seq<seq<AuditStep>>)
    ensures |per| == |records|
    ensures forall i :: 0 <= i < |records| ==> per[i] == RecordSteps(env, records, i)
  {
    seq(|records|, i requires 0 <= i < |records| => RecordSteps(env, records, i))
  }

  function FirstStep(r: TenantChainedRecord, genesis: string): AuditStep {
    Check(OrEmpty(r.tenantChainPrev) == genesis, Entry(0, TenantChainPrev), ChainLink, CHAIN_LINK_MISMATCH)
  }

  function ChainSteps(env: Foreign, records: seq<TenantChainedRecord>, genesis: string): seq<AuditStep> {
    if records == [] then [Fail(Whole(Records), ChainLink, MALFORMED_PACK)]
    else [FirstStep(records[0], genesis)] + Flatten(WalkSteps(env, records))
  }

  predicate RecordHolds(env: Foreign, r: TenantChainedRecord) {
    env.intOf(r.tenantChainSequence).Some? && Recomputes(env, r)
  }

  predicate Follows(env: Foreign, a: TenantChainedRecord, b: TenantChainedRecord) {
    Linked(a, b) && SequenceOf(env, b) == SequenceOf(env, a) + 1
  }

  /** What a VALID report means: rooted at the seed, every link recomputes, neighbours are linked and consecutive. */
  ghost predicate ChainHolds(env: Foreign, records: seq<TenantChainedRecord>, genesis: string) {
    && records != []
    && OrEmpty(records[0].tenantChainPrev) == genesis
    && (forall i :: 0 <= i < |records| ==> RecordHolds(env, records[i]))
    && (forall i, j :: 0 <= i < j < |records| && j == i + 1 ==> Follows(env, records[i], records[j]))
  }

  method VerifyTenantChain(env: Foreign, records: seq<TenantChainedRecord>, expectedGenesis: string)
    returns (report: ChainReport)
    ensures report.steps == ChainSteps(env, records, expectedGenesis)
    ensures report.status == VALID <==> ChainHolds(env, records, expectedGenesis)
    ensures report.recordCount == |records| && report.status == Verdict(report.steps)
  {
    assert LastSequence(env, records, 0) == None;
    ghost var per := WalkSteps(env, records);
    StepsDecideChain(env, records, expectedGenesis);
    if records == [] {
      return ChainReport(INVALID, 0, [Fail(Whole(Records), ChainLink, MALFORMED_PACK)]);
    }
    var steps := [FirstStep(records[0], expectedGenesis)];
    ghost var first := steps;
    AfterEnds(first, per);
    var prevSequence: Option<int> := None;
    var i := 0;
    while i < |records|
      invariant 0 <= i <= |records|
      invariant prevSequence == LastSequence(env, records, i)
      invariant steps == After(first, per, i)
    {
      var next;
      next, prevSequence := VerifyLink(env, records, i, prevSequence);
      AfterNext(first, per, i);
      steps := steps + next;
      i := i + 1;
    }
    report := ChainReport(Verdict(steps), |records|, steps);
  }

  /** One turn of the walk. */
  method VerifyLink(env: Foreign, records: seq<TenantChainedRecord>, i: nat, prevSequence: Option<int>)
    returns (steps: seq<AuditStep>, seen: Option<int>)
    requires i < |records| && prevSequence == LastSequence(env, records, i)
    ensures steps == RecordSteps(env, records, i) && seen == LastSequence(env, records, i + 1)
  {
    var curr := records[i];
    var sequence := env.intOf(curr.tenantChainSequence);
    if sequence.None? {
      return [Fail(Entry(i, TenantChainSequence), ChainLink, MALFORMED_PACK)], prevSequence;
    }
    steps, seen := [], sequence;
    if prevSequence.Some? && sequence.value != prevSequence.value + 1 {
      steps := steps + [Fail(Entry(i, TenantChainSequence), ChainLink, CHAIN_OUT_OF_ORDER)];
    }
    if i > 0 {
      var linked := OrEmpty(curr.tenantChainPrev) == records[i - 1].tenantChainNext;
      steps := steps + [Check(linked, Entry(i, TenantChainPrev), ChainLink, CHAIN_LINK_MISMATCH)];
    }
    var expectedNext := env.sha(LinkText(curr.tenantChainPrev, curr.rowAfterHash, IntText(sequence.value)));
    steps := steps + [Check(expectedNext == curr.tenantChainNext, Entry(i, TenantChainNext), ChainLink, CHAIN_LINK_MISMATCH)];
  }

  /** A record's own steps pass exactly when its sequence reads, follows the remembered one, and both hashes agree. */
  lemma StepsForClean(i: nat, sequence: Option<int>, last: Option<int>, linked: bool, recomputes: bool)
    ensures !AnyInvalid(StepsFor(i, sequence, last, linked, recomputes))
            <==> sequence.Some? && recomputes && (last.Some? ==> sequence.value == last.value + 1) && (i > 0 ==> linked)
  {
    var steps := StepsFor(i, sequence, last, linked, recomputes);
    var order := if last.Some? && sequence.Some? && sequence.value != last.value + 1
                 then [Fail(Entry(i, TenantChainSequence), ChainLink, CHAIN_OUT_OF_ORDER)] else [];
    var prev := if i > 0 then [Check(linked, Entry(i, TenantChainPrev), ChainLink, CHAIN_LINK_MISMATCH)] else [];
    var next := [Check(recomputes, Entry(i, TenantChainNext), ChainLink, CHAIN_LINK_MISMATCH)];
    assert AnyInvalid(order) <==> order != [] by {
      assert order != [] ==> order[0].status == INVALID;
    }
    assert AnyInvalid(prev) <==> i > 0 && !linked by {
      assert i > 0 && !linked ==> prev[0].status == INVALID;
    }
    assert AnyInvalid(next) <==> !recomputes by {
      assert !recomputes ==> next[0].status == INVALID;
    }
    if sequence.None? {
      assert steps[0].status == INVALID;
    } else {
      AnyInvalidConcat(order, prev);
      AnyInvalidConcat(order + prev, next);
    }
  }

  lemma StepsDecideChain(env: Foreign, records: seq<TenantChainedRecord>, genesis: string)
    ensures !AnyInvalid(ChainSteps(env, records, genesis)) <==> ChainHolds(env, records, genesis)
    ensures records == [] ==> !ChainHolds(env, records, genesis)
  {
    if records == [] {
      assert ChainSteps(env, records, genesis)[0].status == INVALID;
    } else {
      var first, per := [FirstStep(records[0], genesis)], WalkSteps(env, records);
      AnyInvalidConcat(first, Flatten(per));
      assert AnyInvalid(first) <==> first[0].status == INVALID;
      FlattenClean(per);
      forall i | 0 <= i < |records| ensures !AnyInvalid(per[i]) <==> RecordClean(env, records, i) {
        StepsForClean(i, env.intOf(records[i].tenantChainSequence), LastSequence(env, records, i),
                      i == 0 || Linked(records[i - 1], records[i]), Recomputes(env, records[i]));
      }
      CleanRecordsFollow(env, records);
    }
  }

  /** What the steps of record i check. */
  predicate RecordClean(env: Foreign, records: seq<TenantChainedRecord>, i: nat)
    requires i < |records|
  {
    && RecordHolds(env, records[i])
    && (LastSequence(env, records, i).Some? ==> SequenceOf(env, records[i]) == LastSequence(env, records, i).value + 1)
    && (i > 0 ==> Linked(records[i - 1], records[i]))
  }

  lemma CleanRecordsFollow(env: Foreign, records: seq<TenantChainedRecord>)
    ensures (forall i :: 0 <= i < |records| ==> RecordClean(env, records, i))
            <==> (forall i :: 0 <= i < |records| ==> RecordHolds(env, records[i]))
                 && (forall i, j :: 0 <= i < j < |records| && j == i + 1 ==> Follows(env, records[i], records[j]))
  {
    if forall i :: 0 <= i < |records| ==> RecordHolds(env, records[i]) {
      forall i | 0 <= i < |records|
        ensures RecordClean(env, records, i) <==> i == 0 || Follows(env, records[i - 1], records[i])
      {
        if i > 0 {
          assert RecordHolds(env, records[i - 1]);
          assert LastSequence(env, records, i) == Some(SequenceOf(env, records[i - 1]));
        }
      }
      if forall i :: 0 <= i < |records| ==> RecordClean(env, records, i) {
        forall i, j | 0 <= i < j < |records| && j == i + 1 ensures Follows(env, records[i], records[j]) {
          assert RecordClean(env, records, j);
        }
      }
    } else {
      var i :| 0 <= i < |records| && !RecordHolds(env, records[i]);
      assert !RecordClean(env, records, i);
    }
  }

  // ------------------------------------------------- the tip commits to the history

  /** The two runs hashed two different link texts to one digest. */
  ghost predicate LinkCollision(env: Foreign, a: seq<TenantChainedRecord>, b: seq<TenantChainedRecord>) {
    exists i, j :: 0 <= i < |a| && 0 <= j < |b| && Clash(env, a[i], b[j])
  }

  ghost predicate Clash(env: Foreign, x: TenantChainedRecord, y: TenantChainedRecord) {
    Collides(env.sha, LinkOf(env, x), LinkOf(env, y))
  }

  /** Equal except for the spelling of the sequence number. */
  predicate SameRow(env: Foreign, x: TenantChainedRecord, y: TenantChainedRecord) {
    && x.tenantChainPrev == y.tenantChainPrev && x.rowAfterHash == y.rowAfterHash
    && x.tenantChainNext == y.tenantChainNext && SequenceOf(env, x) == SequenceOf(env, y)
  }

  /** One org id continues the other with a pipe, so a seed can be mistaken for a longer seed plus row text. */
  predicate Confusable(o1: string, o2: string) {
    o1 + "|" <= o2 || o2 + "|" <= o1
  }

  lemma IntTextHasNoPipe(n: int)
    ensures '|' !in IntText(n)
  {
    var digits := NatText(if n < 0 then -n else n);
    assert forall i :: 0 <= i < |digits| ==> IsDigit(digits[i]);
  }

  /** A link text, with its fixed front cut off. */
  function Tail(p: string, row: string, n: int): string {
    p + ("|" + (row + "|" + IntText(n)))
  }

  lemma LinkPieces(p: string, row: string, n: int)
    requires p != ""
    ensures LinkText(Some(p), row, IntText(n)) == (VERSION + "|") + Tail(p, row, n)
  {}

  /** Equal link texts with nonempty previous links have equal tails. */
  lemma EqualTails(env: Foreign, x: TenantChainedRecord, y: TenantChainedRecord)
    requires OrEmpty(x.tenantChainPrev) != "" && OrEmpty(y.tenantChainPrev) != ""
    requires LinkOf(env, x) == LinkOf(env, y)
    ensures Tail(x.tenantChainPrev.value, x.rowAfterHash, SequenceOf(env, x))
            == Tail(y.tenantChainPrev.value, y.rowAfterHash, SequenceOf(env, y))
  {
    var s, t := SequenceOf(env, x), SequenceOf(env, y);
    LinkPieces(x.tenantChainPrev.value, x.rowAfterHash, s);
    LinkPieces(y.tenantChainPrev.value, y.rowAfterHash, t);
    DropCommon(VERSION + "|", Tail(x.tenantChainPrev.value, x.rowAfterHash, s), Tail(y.tenantChainPrev.value, y.rowAfterHash, t));
  }

  lemma TailDetermines(p: string, r1: string, n1: int, r2: string, n2: int)
    requires Tail(p, r1, n1) == Tail(p, r2, n2)
    ensures r1 == r2 && n1 == n2
  {
    DropCommon(p, "|" + (r1 + "|" + IntText(n1)), "|" + (r2 + "|" + IntText(n2)));
    DropCommon("|", r1 + "|" + IntText(n1), r2 + "|" + IntText(n2));
    IntTextHasNoPipe(n1);
    IntTextHasNoPipe(n2);
    SplitLast('|', r1, IntText(n1), r2, IntText(n2));
    IntTextInjective(n1, n2);
  }

  /** Text p|u against text q|v: the shorter of p and q is followed by a pipe in the longer. */
  lemma FrontsLineUp(p: string, u: string, q: string, v: string)
    requires p != "" && q != "" && p + ("|" + u) == q + ("|" + v)
    ensures p[0] == q[0] && (|p| == |q| ==> p == q) && (p == q || p + "|" <= q || q + "|" <= p)
  {
    var t := p + ("|" + u);
    assert t[..|p| + 1] == p + "|" && t[..|q| + 1] == q + "|";
    assert t[..|p|] == p && t[..|q|] == q;
    assert t[0] == p[0] && t[0] == q[0];
  }

  /** Two records that hold and share a link: their texts clash, or their previous links line up and, if equal, the rows agree. */
  lemma SharedLink(env: Foreign, x: TenantChainedRecord, y: TenantChainedRecord)
    requires RecordHolds(env, x) && RecordHolds(env, y) && x.tenantChainNext == y.tenantChainNext
    requires OrEmpty(x.tenantChainPrev) != "" && OrEmpty(y.tenantChainPrev) != ""
    ensures var p, q := x.tenantChainPrev.value, y.tenantChainPrev.value;
            Clash(env, x, y)
            || (p[0] == q[0] && (|p| == |q| ==> p == q) && (p == q || p + "|" <= q || q + "|" <= p)
                && (p == q ==> SameRow(env, x, y)))
  {
    if LinkOf(env, x) == LinkOf(env, y) {
      var p, q := x.tenantChainPrev.value, y.tenantChainPrev.value;
      var s, t := SequenceOf(env, x), SequenceOf(env, y);
      EqualTails(env, x, y);
      FrontsLineUp(p, x.rowAfterHash + "|" + IntText(s), q, y.rowAfterHash + "|" + IntText(t));
      if p == q {
        TailDetermines(p, x.rowAfterHash, s, y.rowAfterHash, t);
      }
    }
  }

  /** The previous link of the first record is the seed; that of any other is a digest, namely its predecessor's link. */
  lemma PrevOf(env: Foreign, a: seq<TenantChainedRecord>, genesis: string, i: nat)
    requires ChainHolds(env, a, genesis) && i < |a| && genesis != ""
    ensures RecordHolds(env, a[i]) && OrEmpty(a[i].tenantChainPrev) != ""
    ensures i == 0 ==> a[i].tenantChainPrev.value == genesis
    ensures i > 0 ==> a[i].tenantChainPrev.value == a[i - 1].tenantChainNext && IsDigest(a[i].tenantChainPrev.value)
  {
    if i > 0 {
      assert Follows(env, a[i - 1], a[i]) && RecordHolds(env, a[i - 1]);
      assert IsDigest(env.sha(LinkOf(env, a[i - 1])));
    }
  }

  lemma SeedShape(o: string)
    ensures GenesisChainTip(o) != "" && GenesisChainTip(o)[0] == 'p' && !IsHexDigit('p')
  {}

  /**
   No seed is a digest. The reason is its first letter, not its length: an organisation id of 38
   characters makes the seed as long as a digest.
   */
  lemma SeedIsNoDigest(o: string)
    ensures !IsDigest(GenesisChainTip(o))
    ensures |GenesisChainTip(o)| == 64 <==> |o| == 38
  {
    SeedShape(o);
    assert |"provenance." + VERSION + "."| == 26;
  }

  /** Two chains sharing a link share the row it closes and the link before it, down to the seeds. */
  lemma SharedLinkOfChains(env: Foreign, o1: string, a: seq<TenantChainedRecord>, i: nat,
                           o2: string, b: seq<TenantChainedRecord>, j: nat)
    requires ChainHolds(env, a, GenesisChainTip(o1)) && i < |a|
    requires ChainHolds(env, b, GenesisChainTip(o2)) && j < |b|
    requires a[i].tenantChainNext == b[j].tenantChainNext && !Clash(env, a[i], b[j])
    ensures i == 0 <==> j == 0
    ensures i > 0 && j > 0 ==> SameRow(env, a[i], b[j]) && a[i - 1].tenantChainNext == b[j - 1].tenantChainNext
    ensures i == 0 && j == 0 ==> if o1 == o2 then SameRow(env, a[i], b[j]) else Confusable(o1, o2)
  {
    SeedShape(o1);
    SeedShape(o2);
    SeedsLineUp(o1, o2);
    SeedsConfusable(o1, o2);
    PrevOf(env, a, GenesisChainTip(o1), i);
    PrevOf(env, b, GenesisChainTip(o2), j);
    SharedLink(env, a[i], b[j]);
  }

  lemma {:induction false} TipCommitsFrom(env: Foreign, o1: string, a: seq<TenantChainedRecord>, i: nat,
                                          o2: string, b: seq<TenantChainedRecord>, j: nat)
    requires ChainHolds(env, a, GenesisChainTip(o1)) && i < |a|
    requires ChainHolds(env, b, GenesisChainTip(o2)) && j < |b|
    requires a[i].tenantChainNext == b[j].tenantChainNext
    ensures LinkCollision(env, a, b)
            || (if o1 == o2 then i == j && forall k :: 0 <= k <= i ==> SameRow(env, a[k], b[k]) else Confusable(o1, o2))
    decreases i
  {
    hide ChainHolds, Clash, SameRow, GenesisChainTip, Confusable;
    if !Clash(env, a[i], b[j]) {
      SharedLinkOfChains(env, o1, a, i, o2, b, j);
      if i > 0 {
        TipCommitsFrom(env, o1, a, i - 1, o2, b, j - 1);
      }
    }
  }

  lemma SeedsConfusable(o1: string, o2: string)
    ensures o1 + "|" <= o2 || o2 + "|" <= o1 ==> Confusable(o1, o2)
  {}

  lemma SeedsLineUp(o1: string, o2: string)
    ensures GenesisChainTip(o1) == GenesisChainTip(o2) ==> o1 == o2
    ensures GenesisChainTip(o1) + "|" <= GenesisChainTip(o2) ==> o1 + "|" <= o2
    ensures GenesisChainTip(o2) + "|" <= GenesisChainTip(o1) ==> o2 + "|" <= o1
  {
    FrontOfBoth("provenance." + VERSION + ".", o1, o2);
    FrontOfBoth("provenance." + VERSION + ".", o2, o1);
  }

  lemma FrontOfBoth(f: string, x: string, y: string)
    ensures f + x == f + y ==> x == y
    ensures f + x + "|" <= f + y ==> x + "|" <= y
  {
    if f + x == f + y {
      DropCommon(f, x, y);
    }
    if f + x + "|" <= f + y {
      assert (f + y)[..|f + x| + 1] == f + x + "|";
      assert (f + x + "|")[|f|..] == x + "|";
      assert (f + y)[..|f + x| + 1][|f|..] == y[..|x| + 1];
    }
  }

  /**
   Two VALID chains of one organisation that end in the same link are the same history: the same
   length and, at every index, the same previous link, row hash, link and sequence number. The only
   way out is a hash collision among the texts of the two runs.
   */
  lemma TipCommitsToHistory(env: Foreign, orgId: string, a: seq<TenantChainedRecord>, b: seq<TenantChainedRecord>)
    requires ChainHolds(env, a, GenesisChainTip(orgId)) && ChainHolds(env, b, GenesisChainTip(orgId))
    requires a[|a| - 1].tenantChainNext == b[|b| - 1].tenantChainNext
    ensures LinkCollision(env, a, b)
            || (|a| == |b| && forall k :: 0 <= k < |a| ==> SameRow(env, a[k], b[k]))
  {
    TipCommitsFrom(env, orgId, a, |a| - 1, orgId, b, |b| - 1);
  }

  /** The tip also commits to the organisation, unless one org id continues the other with a pipe. */
  lemma TipCommitsToOrganisation(env: Foreign, o1: string, a: seq<TenantChainedRecord>, o2: string, b: seq<TenantChainedRecord>)
    requires ChainHolds(env, a, GenesisChainTip(o1)) && ChainHolds(env, b, GenesisChainTip(o2))
    requires a[|a| - 1].tenantChainNext == b[|b| - 1].tenantChainNext
    ensures LinkCollision(env, a, b) || o1 == o2 || Confusable(o1, o2)
  {
    TipCommitsFrom(env, o1, a, |a| - 1, o2, b, |b| - 1);
  }

  /** That exception is exact: for org ids so related there are VALID chains with one tip and one link text. */
  lemma ConfusableOrganisationsShareATip(env: Foreign, o1: string, o2: string, one: string)
    returns (a: seq<TenantChainedRecord>, b: seq<TenantChainedRecord>)
    requires o1 + "|" <= o2 && env.intOf(one).Some?
    ensures ChainHolds(env, a, GenesisChainTip(o1)) && ChainHolds(env, b, GenesisChainTip(o2))
    ensures a[|a| - 1].tenantChainNext == b[|b| - 1].tenantChainNext && !LinkCollision(env, a, b)
  {
    var n := env.intOf(one).value;
    var p, q, x := GenesisChainTip(o1), GenesisChainTip(o2), o2[|o1| + 1..];
    SeedShape(o1);
    SeedShape(o2);
    assert o2 == o1 + ("|" + x);
    SeedContinues("provenance." + VERSION + ".", o1, x);
    TailsMeet(p, x, n);
    LinkPieces(p, x + "|", n);
    LinkPieces(q, "", n);
    a, b := [Row(env, p, x + "|", one)], [Row(env, q, "", one)];
    OneRowChain(env, p, x + "|", one);
    OneRowChain(env, q, "", one);
    assert LinkOf(env, a[0]) == LinkOf(env, b[0]);
  }

  /** The record that extends a chain from prev with the given row. */
  function Row(env: Foreign, prev: string, row: string, sequence: string): TenantChainedRecord
    requires env.intOf(sequence).Some?
  {
    TenantChainedRecord(row, Some(prev), env.sha(LinkText(Some(prev), row, IntText(env.intOf(sequence).value))), sequence)
  }

  lemma OneRowChain(env: Foreign, prev: string, row: string, sequence: string)
    requires env.intOf(sequence).Some?
    ensures ChainHolds(env, [Row(env, prev, row, sequence)], prev)
    ensures LinkOf(env, Row(env, prev, row, sequence)) == LinkText(Some(prev), row, IntText(env.intOf(sequence).value))
  {
    var r := Row(env, prev, row, sequence);
    assert RecordHolds(env, r);
  }

  lemma SeedContinues(f: string, o: string, x: string)
    ensures f + (o + ("|" + x)) == (f + o) + ("|" + x)
  {}

  lemma TailsMeet(p: string, x: string, n: int)
    ensures Tail(p, x + "|", n) == Tail(p + ("|" + x), "", n)
  {
    var t := IntText(n);
    assert p + ("|" + ((x + "|") + ("|" + t))) == (p + ("|" + x)) + ("|" + ("|" + t));
    assert "" + "|" + t == "|" + t && (x + "|") + "|" + t == (x + "|") + ("|" + t);
  }

  /** Along a VALID chain the sequence numbers count up from the first. */
  lemma {:induction false} SequenceCounts(env: Foreign, a: seq<TenantChainedRecord>, genesis: string, i: nat)
    requires ChainHolds(env, a, genesis) && i < |a|
    ensures SequenceOf(env, a[i]) == SequenceOf(env, a[0]) + i
  {
    if i > 0 {
      SequenceCounts(env, a, genesis, i - 1);
      assert Follows(env, a[i - 1], a[i]);
    }
  }

  /**
   Segments compose: two of them verify as one chain exactly when the first verifies from the seed, the
   second from the first's tip, and the second's numbering goes on where the first's stops.
   */
  lemma SegmentsCompose(env: Foreign, a: seq<TenantChainedRecord>, b: seq<TenantChainedRecord>, genesis: string)
    requires a != [] && b != []
    ensures ChainHolds(env, a + b, genesis)
            <==> ChainHolds(env, a, genesis) && ChainHolds(env, b, a[|a| - 1].tenantChainNext)
                 && SequenceOf(env, b[0]) == SequenceOf(env, a[|a| - 1]) + 1
  {
    hide RecordHolds, SequenceOf, OrEmpty;
    var c, k := a + b, |a|;
    assert forall i :: 0 <= i < k ==> c[i] == a[i];
    assert forall i :: k <= i < |c| ==> c[i] == b[i - k];
    if ChainHolds(env, c, genesis) {
      assert Follows(env, c[k - 1], c[k]);
      forall i | 0 <= i < |b| ensures RecordHolds(env, b[i]) {
        assert c[k + i] == b[i];
      }
      forall i, j | 0 <= i < j < |b| && j == i + 1 ensures Follows(env, b[i], b[j]) {
        assert c[k + i] == b[i] && c[k + j] == b[j];
      }
    }
    if ChainHolds(env, a, genesis) && ChainHolds(env, b, a[k - 1].tenantChainNext) && SequenceOf(env, b[0]) == SequenceOf(env, a[k - 1]) + 1 {
      forall i, j | 0 <= i < j < |c| && j == i + 1 ensures Follows(env, c[i], c[j]) {
        assert j < k ==> Follows(env, a[i], a[j]);
        assert k <= i ==> Follows(env, b[i - k], b[j - k]);
      }
    }
  }

  // --------------------------------------------------------- written out

  /** The text a link is the digest of, and the seed. */
  lemma TextsWrittenOut(env: Foreign, r: TenantChainedRecord, n: int, orgId: string)
    requires env.intOf(r.tenantChainSequence) == Some(n)
    ensures LinkOf(env, r) == "tenantChain.v1|"
                              + (if r.tenantChainPrev.Some? && r.tenantChainPrev.value != "" then r.tenantChainPrev.value else "-")
                              + "|" + r.rowAfterHash + "|" + IntText(n)
    ensures GenesisChainTip(orgId) == "provenance.tenantChain.v1." + orgId
  {
    hide IntText;
    assert VERSION + "|" == "tenantChain.v1|";
    assert "provenance." + VERSION + "." == "provenance.tenantChain.v1.";
  }

  /** A chain of one row holds exactly when the row names the seed, its sequence reads, and its link is the digest of this text. */
  lemma OneRowWrittenOut(env: Foreign, r: TenantChainedRecord, genesis: string)
    requires genesis != ""
    ensures ChainHolds(env, [r], genesis)
            <==> && r.tenantChainPrev == Some(genesis) && env.intOf(r.tenantChainSequence).Some?
                 && r.tenantChainNext == env.sha("tenantChain.v1|" + genesis + "|" + r.rowAfterHash + "|"
                                                 + IntText(env.intOf(r.tenantChainSequence).value))
  {
    if env.intOf(r.tenantChainSequence).Some? {
      TextsWrittenOut(env, r, env.intOf(r.tenantChainSequence).value, "");
    }
    hide LinkText, IntText;
    assert [r][0] == r;
  }

  /** A further row, in terms of the row before it. */
  lemma NextRowWrittenOut(env: Foreign, a: TenantChainedRecord, b: TenantChainedRecord)
    ensures RecordHolds(env, a) && RecordHolds(env, b) ==>
              (Follows(env, a, b)
               <==> && (if b.tenantChainPrev.Some? then b.tenantChainPrev.value else "") == a.tenantChainNext
                    && env.intOf(b.tenantChainSequence).value == env.intOf(a.tenantChainSequence).value + 1)
  {}

  /** The steps of a record: an unreadable sequence ends them; otherwise order, link to the row before, and the link itself. */
  lemma RecordStepsWrittenOut(env: Foreign, records: seq<TenantChainedRecord>, i: nat)
    requires i < |records|
    ensures var r := records[i]; var n := env.intOf(r.tenantChainSequence); var last := LastSequence(env, records, i);
            RecordSteps(env, records, i)
            == if n.None? then [AuditStep(Entry(i, TenantChainSequence), ChainLink, INVALID, Some(MALFORMED_PACK))]
               else (if last.Some? && n.value != last.value + 1
                     then [AuditStep(Entry(i, TenantChainSequence), ChainLink, INVALID, Some(CHAIN_OUT_OF_ORDER))] else [])
                    + (if i == 0 then []
                       else [Check((if r.tenantChainPrev.Some? then r.tenantChainPrev.value else "") == records[i - 1].tenantChainNext,
                                   Entry(i, TenantChainPrev), ChainLink, CHAIN_LINK_MISMATCH)])
                    + [Check(env.sha(LinkOf(env, r)) == r.tenantChainNext, Entry(i, TenantChainNext), ChainLink, CHAIN_LINK_MISMATCH)]
  {
    hide LinkText, IntText;
  }

  /** The sequence a walk remembers is that of the latest readable record. */
  lemma LastSequenceWrittenOut(env: Foreign, records: seq<TenantChainedRecord>, n: nat)
    requires n < |records|
    ensures LastSequence(env, records, 0) == None
    ensures LastSequence(env, records, n + 1)
            == if env.intOf(records[n].tenantChainSequence).Some? then env.intOf(records[n].tenantChainSequence) else LastSequence(env, records, n)
  {}

  /** The whole report: one step for an empty list, otherwise the seed's step and those of the records. */
  lemma ChainStepsWrittenOut(env: Foreign, records: seq<TenantChainedRecord>, genesis: string)
    ensures records == [] ==> ChainSteps(env, records, genesis) == [AuditStep(Whole(Records), ChainLink, INVALID, Some(MALFORMED_PACK))]
    ensures records != [] ==>
              var first := records[0].tenantChainPrev;
              ChainSteps(env, records, genesis)
              == [Check((if first.Some? then first.value else "") == genesis, Entry(0, TenantChainPrev), ChainLink, CHAIN_LINK_MISMATCH)]
                 + Flatten(WalkSteps(env, records))
  {
    hide RecordSteps;
  }
}
