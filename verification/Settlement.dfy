/** Every settlement line is derived again from the metering summary, to the exact cent. */
module Settlement {
  import opened Prelude
  import opened Decimal
  import opened Report
  import opened Primitives
  import opened Split
  import opened Metering

  datatype SchemaVersion = V1 | V2

  datatype SettlementLine = SettlementLine(
    idemKey: string,
    meterRecordIdemKey: string,
    partyRole: string,
    share: string,
    ledgerAccountCode: string,
    amountCents: int)

  datatype SettlementTotals = SettlementTotals(grossCents: int, netToTenantCents: int, platformFeeCents: int)

  datatype SettlementSummary = SettlementSummary(
    schemaVersion: SchemaVersion,
    orgId: string,
    meterGross: map<string, int>,
    lines: seq<SettlementLine>,
    totals: Option<SettlementTotals>)

  datatype SettlementReport = SettlementReport(status: Status, meterRecordCount: nat, settlementLineCount: nat, steps: seq<AuditStep>)

  // ---------------------------------------------------- lines grouped by meter

  /** Indices below n of the lines for one meter, in order. */
  function IndicesOf(lines: seq<SettlementLine>, meter: string, n: nat): (idxs: seq<nat>)
    requires n <= |lines|
    ensures forall k :: 0 <= k < |idxs| ==> idxs[k] < n && lines[idxs[k]].meterRecordIdemKey == meter
    ensures forall j, k :: 0 <= j < k < |idxs| ==> idxs[j] < idxs[k]
  {
    if n == 0 then []
    else IndicesOf(lines, meter, n - 1) + if lines[n - 1].meterRecordIdemKey == meter then [n - 1] else []
  }

  /** The meters of the first n lines, in order of first occurrence, as a dictionary lists its keys. */
  function MeterKeys(lines: seq<SettlementLine>, n: nat): seq<string>
    requires n <= |lines|
  {
    if n == 0 then []
    else
      var keys, key := MeterKeys(lines, n - 1), lines[n - 1].meterRecordIdemKey;
      if key in keys then keys else keys + [key]
  }

  /** How many earlier lines belong to line i's meter. */
  function Rank(lines: seq<SettlementLine>, i: nat): nat
    requires i < |lines|
  {
    |IndicesOf(lines, lines[i].meterRecordIdemKey, i)|
  }

  function PartyOf(line: SettlementLine): Party {
    Party(ParseDecimalOrZero(line.share), line.partyRole)
  }

  function Group(s: SettlementSummary, meter: string): seq<nat> {
    IndicesOf(s.lines, meter, |s.lines|)
  }

  function GroupParties(s: SettlementSummary, meter: string): (ps: seq<Party>)
    ensures |ps| == |Group(s, meter)|
    ensures forall k :: 0 <= k < |ps| ==> Group(s, meter)[k] < |s.lines| && ps[k] == PartyOf(s.lines[Group(s, meter)[k]])
  {
    var idxs := Group(s, meter);
    seq(|idxs|, k requires 0 <= k < |idxs| => PartyOf(s.lines[idxs[k]]))
  }

  lemma {:induction false} RankInIndices(lines: seq<SettlementLine>, i: nat, n: nat)
    requires i < n <= |lines|
    ensures var idxs := IndicesOf(lines, lines[i].meterRecordIdemKey, n);
            Rank(lines, i) < |idxs| && idxs[Rank(lines, i)] == i
  {
    if i < n - 1 {
      RankInIndices(lines, i, n - 1);
    }
  }

  lemma {:induction false} RankOfIndex(lines: seq<SettlementLine>, meter: string, n: nat, k: nat)
    requires n <= |lines| && k < |IndicesOf(lines, meter, n)|
    ensures Rank(lines, IndicesOf(lines, meter, n)[k]) == k
  {
    if k < |IndicesOf(lines, meter, n - 1)| {
      RankOfIndex(lines, meter, n - 1, k);
    }
  }

  /** Line i stands in its meter's group at its rank. */
  lemma RankInGroup(s: SettlementSummary, i: nat)
    requires i < |s.lines|
    ensures var m := s.lines[i].meterRecordIdemKey;
            Rank(s.lines, i) < |Group(s, m)| && Group(s, m)[Rank(s.lines, i)] == i
  {
    RankInIndices(s.lines, i, |s.lines|);
  }

  predicate HasGross(s: SettlementSummary, line: SettlementLine) {
    line.meterRecordIdemKey in s.meterGross
  }

  /** The cents the deterministic split gives line i. */
  function ExpectedAmount(s: SettlementSummary, i: nat): int
    requires i < |s.lines| && HasGross(s, s.lines[i])
  {
    var m := s.lines[i].meterRecordIdemKey;
    RankInGroup(s, i);
    Amounts(s.meterGross[m], GroupParties(s, m))[Rank(s.lines, i)]
  }

  function ShareSum(s: SettlementSummary, meter: string): int {
    Sum(Shares(GroupParties(s, meter)))
  }

  // -------------------------------------------------------------- one line

  /** The steps of line i, from the facts it depends on. */
  function StepsFor(i: nat, meter: string, known: bool, idem: bool, hasGross: bool, parses: bool, exact: bool): seq<AuditStep> {
    if !known then [Fail(Entry(i, MeterRecordIdemKey), Kind.SettlementLine, SETTLEMENT_LINE_FOR_UNKNOWN_METER)]
    else
      [Check(idem, Entry(i, IdemKey), Kind.SettlementLine, SETTLEMENT_IDEM_KEY_MISMATCH)]
      + if !hasGross then [Fail(Keyed(meter, MeterGross), Kind.SettlementLine, SETTLEMENT_LINE_FOR_UNKNOWN_METER)]
        else if !parses then [Fail(Entry(i, Field.Share), Kind.SettlementLine, SETTLEMENT_AMOUNT_MISMATCH)]
        else [Check(exact, Entry(i, AmountCents), Kind.SettlementLine, SETTLEMENT_AMOUNT_MISMATCH)]
  }

  /** Whether the line's amount goes into the totals; the key check does not matter here. */
  predicate CountsFor(known: bool, hasGross: bool, parses: bool, exact: bool) {
    known && hasGross && parses && exact
  }

  function MeterIds(metering: MeteringSummary): set<string> {
    set i | 0 <= i < |metering.records| :: metering.records[i].idemKey
  }

  /** The idem key of a line is selected by the schema version. */
  function LineKey(env: Foreign, version: SchemaVersion, line: SettlementLine): string {
    if version == V2 then SettlementIdemKey(env.sha, line.meterRecordIdemKey, line.partyRole, line.ledgerAccountCode)
    else SettlementIdemKeyV1(env.sha, line.meterRecordIdemKey, line.partyRole)
  }

  predicate KeyHolds(env: Foreign, version: SchemaVersion, line: SettlementLine) {
    line.idemKey == LineKey(env, version, line)
  }

  predicate Exact(s: SettlementSummary, i: nat)
    requires i < |s.lines|
  {
    HasGross(s, s.lines[i]) && s.lines[i].amountCents == ExpectedAmount(s, i)
  }

  function LineSteps(env: Foreign, meters: set<string>, s: SettlementSummary, i: nat): seq<AuditStep>
    requires i < |s.lines|
  {
    var line := s.lines[i];
    StepsFor(i, line.meterRecordIdemKey, line.meterRecordIdemKey in meters, KeyHolds(env, s.schemaVersion, line),
             HasGross(s, line), ParseDecimal(line.share).Some?, Exact(s, i))
  }

  predicate Counts(meters: set<string>, s: SettlementSummary, i: nat)
    requires i < |s.lines|
  {
    CountsFor(s.lines[i].meterRecordIdemKey in meters, HasGross(s, s.lines[i]), ParseDecimal(s.lines[i].share).Some?, Exact(s, i))
  }

  /** The line names a metered meter, its key re-derives, its meter has a gross, its share reads, and its amount is exact. */
  predicate LineHolds(env: Foreign, meters: set<string>, s: SettlementSummary, i: nat)
    requires i < |s.lines|
  {
    s.lines[i].meterRecordIdemKey in meters && KeyHolds(env, s.schemaVersion, s.lines[i])
    && ParseDecimal(s.lines[i].share).Some? && Exact(s, i)
  }

  lemma StepsForClean(i: nat, meter: string, known: bool, idem: bool, hasGross: bool, parses: bool, exact: bool)
    ensures !AnyInvalid(StepsFor(i, meter, known, idem, hasGross, parses, exact)) <==> known && idem && hasGross && parses && exact
  {
    var steps := StepsFor(i, meter, known, idem, hasGross, parses, exact);
    assert !known || !idem ==> steps[0].status == INVALID;
    assert known && !(hasGross && parses && exact) ==> steps[1].status == INVALID;
  }

  lemma LineStepsClean(env: Foreign, meters: set<string>, s: SettlementSummary, i: nat)
    requires i < |s.lines|
    ensures !AnyInvalid(LineSteps(env, meters, s, i)) <==> LineHolds(env, meters, s, i)
    ensures LineHolds(env, meters, s, i) ==> Counts(meters, s, i)
  {
    hide ParseDecimal, ExpectedAmount, LineKey, AnyInvalid, StepsFor;
    var line := s.lines[i];
    StepsForClean(i, line.meterRecordIdemKey, line.meterRecordIdemKey in meters, KeyHolds(env, s.schemaVersion, line),
                  HasGross(s, line), ParseDecimal(line.share).Some?, Exact(s, i));
  }

  // ---------------------------------------------------------------- totals

  datatype Column = GrossColumn | TenantColumn | PlatformColumn

  predicate InColumn(c: Column, role: string) {
    match c
    case GrossColumn => true
    case TenantColumn => role == "TENANT"
    case PlatformColumn => role == "PLATFORM"
  }

  /** What the walk has added to a column after n lines. */
  function Computed(meters: set<string>, s: SettlementSummary, c: Column, n: nat): int
    requires n <= |s.lines|
  {
    if n == 0 then 0
    else
      Computed(meters, s, c, n - 1)
      + if Counts(meters, s, n - 1) && InColumn(c, s.lines[n - 1].partyRole) then s.lines[n - 1].amountCents else 0
  }

  /** The sum of the amounts of all lines of a column. */
  function ColumnSum(lines: seq<SettlementLine>, c: Column, n: nat): int
    requires n <= |lines|
  {
    if n == 0 then 0
    else ColumnSum(lines, c, n - 1) + if InColumn(c, lines[n - 1].partyRole) then lines[n - 1].amountCents else 0
  }

  function TotalStep(field: Field, claimed: int, computed: int): AuditStep {
    Check(claimed == computed, Whole(field), SettlementTotal, SETTLEMENT_TOTAL_MISMATCH)
  }

  function TotalSteps(totals: Option<SettlementTotals>, gross: int, net: int, fee: int): seq<AuditStep> {
    if totals.None? then []
    else
      [TotalStep(GrossCents, totals.value.grossCents, gross),
       TotalStep(NetToTenantCents, totals.value.netToTenantCents, net),
       TotalStep(PlatformFeeCents, totals.value.platformFeeCents, fee)]
  }

  // ------------------------------------------------------------ the whole report

  function OrgStep(metering: MeteringSummary, s: SettlementSummary): AuditStep {
    Check(s.orgId == metering.orgId, Whole(OrgId), Kind.SettlementLine, SETTLEMENT_ORG_MISMATCH)
  }

  function LineWalk(env: Foreign, meters: set<string>, s: SettlementSummary): (per: seq<seq<AuditStep>>)
    ensures |per| == |s.lines|
    ensures forall i :: 0 <= i < |per| ==> per[i] == LineSteps(env, meters, s, i)
  {
    seq(|s.lines|, i requires 0 <= i < |s.lines| => LineSteps(env, meters, s, i))
  }

  function ShareStep(s: SettlementSummary, meter: string): AuditStep {
    Check(ShareSum(s, meter) == FACTOR, Keyed(meter, Field.Share), Kind.SettlementLine, SETTLEMENT_SHARE_SUM_NOT_ONE)
  }

  function ShareSteps(s: SettlementSummary): (steps: seq<AuditStep>)
    ensures |steps| == |MeterKeys(s.lines, |s.lines|)|
    ensures forall k :: 0 <= k < |steps| ==> steps[k] == ShareStep(s, MeterKeys(s.lines, |s.lines|)[k])
  {
    var keys := MeterKeys(s.lines, |s.lines|);
    seq(|keys|, k requires 0 <= k < |keys| => ShareStep(s, keys[k]))
  }

  function SettlementSteps(env: Foreign, metering: MeteringSummary, s: SettlementSummary): seq<AuditStep> {
    var meters, n := MeterIds(metering), |s.lines|;
    [OrgStep(metering, s)] + Flatten(LineWalk(env, meters, s)) + ShareSteps(s)
    + TotalSteps(s.totals, Computed(meters, s, GrossColumn, n), Computed(meters, s, TenantColumn, n), Computed(meters, s, PlatformColumn, n))
  }

  predicate TotalsHold(s: SettlementSummary) {
    s.totals.Some? ==>
      && s.totals.value.grossCents == ColumnSum(s.lines, GrossColumn, |s.lines|)
      && s.totals.value.netToTenantCents == ColumnSum(s.lines, TenantColumn, |s.lines|)
      && s.totals.value.platformFeeCents == ColumnSum(s.lines, PlatformColumn, |s.lines|)
  }

  /** What a VALID settlement report means. */
  ghost predicate SettlementHolds(env: Foreign, metering: MeteringSummary, s: SettlementSummary) {
    && s.orgId == metering.orgId
    && (forall i :: 0 <= i < |s.lines| ==> LineHolds(env, MeterIds(metering), s, i))
    && (forall i :: 0 <= i < |s.lines| ==> ShareSum(s, s.lines[i].meterRecordIdemKey) == FACTOR)
    && TotalsHold(s)
  }

  lemma {:induction false} KeysAreMeters(lines: seq<SettlementLine>, n: nat)
    requires n <= |lines|
    ensures forall i :: 0 <= i < n ==> lines[i].meterRecordIdemKey in MeterKeys(lines, n)
    ensures forall k :: k in MeterKeys(lines, n) ==> exists i :: 0 <= i < n && lines[i].meterRecordIdemKey == k
    ensures forall j, k :: 0 <= j < k < |MeterKeys(lines, n)| ==> MeterKeys(lines, n)[j] != MeterKeys(lines, n)[k]
  {
    if n > 0 {
      KeysAreMeters(lines, n - 1);
    }
  }

  lemma {:induction false} ComputedIsSum(env: Foreign, meters: set<string>, s: SettlementSummary, c: Column, n: nat)
    requires n <= |s.lines| && forall i :: 0 <= i < |s.lines| ==> LineHolds(env, meters, s, i)
    ensures Computed(meters, s, c, n) == ColumnSum(s.lines, c, n)
  {
    hide LineHolds, Counts, InColumn;
    if n > 0 {
      ComputedIsSum(env, meters, s, c, n - 1);
      LineStepsClean(env, meters, s, n - 1);
    }
  }

  lemma ShareStepsClean(s: SettlementSummary)
    ensures !AnyInvalid(ShareSteps(s)) <==> forall i :: 0 <= i < |s.lines| ==> ShareSum(s, s.lines[i].meterRecordIdemKey) == FACTOR
  {
    hide ShareSum;
    var keys, steps := MeterKeys(s.lines, |s.lines|), ShareSteps(s);
    KeysAreMeters(s.lines, |s.lines|);
    if !AnyInvalid(steps) {
      forall i | 0 <= i < |s.lines| ensures ShareSum(s, s.lines[i].meterRecordIdemKey) == FACTOR {
        assert s.lines[i].meterRecordIdemKey in keys;
        var k :| 0 <= k < |keys| && keys[k] == s.lines[i].meterRecordIdemKey;
        assert steps[k].status != INVALID;
      }
    } else {
      var k :| 0 <= k < |steps| && steps[k].status == INVALID;
      assert keys[k] in keys;
    }
  }

  lemma TotalStepsClean(totals: Option<SettlementTotals>, gross: int, net: int, fee: int)
    ensures !AnyInvalid(TotalSteps(totals, gross, net, fee))
            <==> (totals.Some? ==> totals.value.grossCents == gross && totals.value.netToTenantCents == net && totals.value.platformFeeCents == fee)
  {
    var steps := TotalSteps(totals, gross, net, fee);
    if totals.Some? {
      assert AnyInvalid(steps) <==> steps[0].status == INVALID || steps[1].status == INVALID || steps[2].status == INVALID;
    }
  }

  lemma StepsDecideSettlement(env: Foreign, metering: MeteringSummary, s: SettlementSummary)
    ensures !AnyInvalid(SettlementSteps(env, metering, s)) <==> SettlementHolds(env, metering, s)
  {
    hide AnyInvalid, Flatten, ShareSum, LineHolds, Counts, LineSteps, InColumn, TotalSteps, Computed, ColumnSum, ShareSteps;
    var meters, n := MeterIds(metering), |s.lines|;
    var org, per, shares := OrgStep(metering, s), LineWalk(env, meters, s), ShareSteps(s);
    var gross, net, fee := Computed(meters, s, GrossColumn, n), Computed(meters, s, TenantColumn, n), Computed(meters, s, PlatformColumn, n);
    var totals := TotalSteps(s.totals, gross, net, fee);
    AnyInvalidConcat([org], Flatten(per));
    AnyInvalidConcat([org] + Flatten(per), shares);
    AnyInvalidConcat([org] + Flatten(per) + shares, totals);
    AnyInvalidOne(org);
    FlattenClean(per);
    ShareStepsClean(s);
    TotalStepsClean(s.totals, gross, net, fee);
    forall i | 0 <= i < n ensures !AnyInvalid(per[i]) <==> LineHolds(env, meters, s, i) {
      LineStepsClean(env, meters, s, i);
    }
    if forall i :: 0 <= i < n ==> LineHolds(env, meters, s, i) {
      ComputedIsSum(env, meters, s, GrossColumn, n);
      ComputedIsSum(env, meters, s, TenantColumn, n);
      ComputedIsSum(env, meters, s, PlatformColumn, n);
    }
  }

  // --------------------------------------------------------------- the verifier

  /** The grouping dictionary after n lines. */
  ghost predicate GroupsSoFar(lines: seq<SettlementLine>, n: nat, keys: seq<string>, groups: map<string, seq<nat>>)
    requires n <= |lines|
  {
    && keys == MeterKeys(lines, n)
    && (forall k :: k in groups <==> k in keys)
    && (forall k :: k in groups ==> groups[k] == IndicesOf(lines, k, n))
  }

  lemma {:induction false} AbsentMeterHasNoIndices(lines: seq<SettlementLine>, meter: string, n: nat)
    requires n <= |lines| && meter !in MeterKeys(lines, n)
    ensures IndicesOf(lines, meter, n) == []
  {
    if n > 0 {
      AbsentMeterHasNoIndices(lines, meter, n - 1);
    }
  }

  lemma KeysNext(keys: seq<string>, groups: map<string, seq<nat>>, key: string, group: seq<nat>)
    requires forall k :: k in groups <==> k in keys
    ensures var more, next := if key in groups then keys else keys + [key], groups[key := group];
            forall k :: k in next <==> k in more
  {}

  lemma GroupsNext(lines: seq<SettlementLine>, n: nat, keys: seq<string>, groups: map<string, seq<nat>>)
    requires n < |lines| && GroupsSoFar(lines, n, keys, groups)
    ensures var key := lines[n].meterRecordIdemKey;
            GroupsSoFar(lines, n + 1, if key in groups then keys else keys + [key],
                        groups[key := (if key in groups then groups[key] else []) + [n]])
  {
    var key := lines[n].meterRecordIdemKey;
    var group := (if key in groups then groups[key] else []) + [n];
    var more, next := if key in groups then keys else keys + [key], groups[key := group];
    assert MeterKeys(lines, n + 1) == more;
    forall k | k in next ensures next[k] == IndicesOf(lines, k, n + 1) {
      GroupNext(lines, n, keys, groups, k);
    }
    KeysNext(keys, groups, key, group);
    hide IndicesOf, MeterKeys;
  }

  lemma GroupNext(lines: seq<SettlementLine>, n: nat, keys: seq<string>, groups: map<string, seq<nat>>, k: string)
    requires n < |lines| && GroupsSoFar(lines, n, keys, groups)
    ensures var key := lines[n].meterRecordIdemKey;
            && (k == key ==> IndicesOf(lines, k, n + 1) == (if key in groups then groups[key] else []) + [n])
            && (k != key && k in groups ==> IndicesOf(lines, k, n + 1) == groups[k])
  {
    if k !in groups {
      AbsentMeterHasNoIndices(lines, k, n);
    }
  }

  /** idx_by_meter: setdefault(key, []).append(i) for every line. */
  method GroupByMeter(lines: seq<SettlementLine>) returns (keys: seq<string>, groups: map<string, seq<nat>>)
    ensures keys == MeterKeys(lines, |lines|)
    ensures forall k :: k in groups <==> k in keys
    ensures forall k :: k in groups ==> groups[k] == IndicesOf(lines, k, |lines|)
  {
    hide IndicesOf, MeterKeys, GroupsSoFar;
    keys, groups := [], map[];
    NoGroups(lines);
    var i := 0;
    while i < |lines|
      invariant 0 <= i <= |lines| && GroupsSoFar(lines, i, keys, groups)
    {
      var key := lines[i].meterRecordIdemKey;
      GroupsNext(lines, i, keys, groups);
      if key !in groups {
        keys := keys + [key];
      }
      groups := groups[key := (if key in groups then groups[key] else []) + [i]];
      i := i + 1;
    }
    AllGroups(lines, keys, groups);
  }

  lemma NoGroups(lines: seq<SettlementLine>)
    ensures GroupsSoFar(lines, 0, [], map[])
  {}

  lemma AllGroups(lines: seq<SettlementLine>, keys: seq<string>, groups: map<string, seq<nat>>)
    requires GroupsSoFar(lines, |lines|, keys, groups)
    ensures keys == MeterKeys(lines, |lines|)
    ensures forall k :: k in groups <==> k in keys
    ensures forall k :: k in groups ==> groups[k] == IndicesOf(lines, k, |lines|)
  {}

  /** The splits of all meters that have a gross, spread back over the lines. */
  method ExpectedByIndex(s: SettlementSummary, keys: seq<string>, groups: map<string, seq<nat>>) returns (expected: map<nat, int>)
    requires keys == MeterKeys(s.lines, |s.lines|)
    requires forall k :: k in groups <==> k in keys
    requires forall k :: k in groups ==> groups[k] == Group(s, k)
    ensures forall i :: 0 <= i < |s.lines| && HasGross(s, s.lines[i]) ==> i in expected && expected[i] == ExpectedAmount(s, i)
  {
    hide ExpectedAmount, HasGross;
    expected := map[];
    var q := 0;
    while q < |keys|
      invariant 0 <= q <= |keys|
      invariant forall i :: 0 <= i < |s.lines| && s.lines[i].meterRecordIdemKey in keys[..q] && HasGross(s, s.lines[i])
                  ==> i in expected && expected[i] == ExpectedAmount(s, i)
    {
      assert keys[..q + 1] == keys[..q] + [keys[q]];
      if keys[q] in s.meterGross {
        expected := SpreadGroup(s, keys[q], groups[keys[q]], expected);
      } else {
        NoGross(s, keys[q]);
      }
      q := q + 1;
    }
    KeysAreMeters(s.lines, |s.lines|);
    assert keys[..q] == keys;
  }

  lemma NoGross(s: SettlementSummary, meter: string)
    requires meter !in s.meterGross
    ensures forall i :: 0 <= i < |s.lines| && s.lines[i].meterRecordIdemKey == meter ==> !HasGross(s, s.lines[i])
  {}

  /** The shares and roles of one meter's lines. */
  method ShareColumns(s: SettlementSummary, meter: string, idxs: seq<nat>) returns (shares: seq<int>, roles: seq<string>)
    requires idxs == Group(s, meter)
    ensures |shares| == |roles| && Parties(shares, roles) == GroupParties(s, meter)
  {
    hide ParseDecimalOrZero, IndicesOf;
    ghost var ps := GroupParties(s, meter);
    shares, roles := [], [];
    var k := 0;
    while k < |idxs|
      invariant 0 <= k <= |idxs| && |shares| == |roles| == k
      invariant forall j :: 0 <= j < k ==> Party(shares[j], roles[j]) == ps[j]
    {
      var line := s.lines[idxs[k]];
      shares, roles := shares + [ParseDecimalOrZero(line.share)], roles + [line.partyRole];
      k := k + 1;
    }
    assert Parties(shares, roles) == ps;
  }

  /** expected_by_idx[i] = split[k] for the k-th index i. */
  method Spread(idxs: seq<nat>, split: seq<int>, before: map<nat, int>) returns (expected: map<nat, int>)
    requires |split| == |idxs| && forall j, k :: 0 <= j < k < |idxs| ==> idxs[j] < idxs[k]
    ensures forall i :: i in before ==> i in expected
    ensures forall j :: 0 <= j < |idxs| ==> idxs[j] in expected && expected[idxs[j]] == split[j]
    ensures forall i :: i in before && i !in idxs ==> expected[i] == before[i]
  {
    expected := before;
    var k := 0;
    while k < |idxs|
      invariant 0 <= k <= |idxs|
      invariant forall i :: i in before ==> i in expected
      invariant forall j :: 0 <= j < k ==> idxs[j] in expected && expected[idxs[j]] == split[j]
      invariant forall i :: i in before && i !in idxs ==> expected[i] == before[i]
    {
      expected := expected[idxs[k] := split[k]];
      k := k + 1;
    }
  }

  lemma SpreadIsExpected(s: SettlementSummary, meter: string, i: nat)
    requires meter in s.meterGross && i < |s.lines| && s.lines[i].meterRecordIdemKey == meter
    ensures Rank(s.lines, i) < |Group(s, meter)| && Group(s, meter)[Rank(s.lines, i)] == i && HasGross(s, s.lines[i])
    ensures ExpectedAmount(s, i) == Amounts(s.meterGross[meter], GroupParties(s, meter))[Rank(s.lines, i)]
  {
    RankInGroup(s, i);
  }

  method SpreadGroup(s: SettlementSummary, meter: string, idxs: seq<nat>, before: map<nat, int>) returns (expected: map<nat, int>)
    requires idxs == Group(s, meter) && meter in s.meterGross
    ensures forall i :: i in before ==> i in expected
    ensures forall i :: 0 <= i < |s.lines| && s.lines[i].meterRecordIdemKey == meter
              ==> HasGross(s, s.lines[i]) && i in expected && expected[i] == ExpectedAmount(s, i)
    ensures forall i :: i in before && !(0 <= i < |s.lines| && s.lines[i].meterRecordIdemKey == meter) ==> expected[i] == before[i]
  {
    hide Amounts, GroupParties, IndicesOf, ExpectedAmount, Parties, FirstBest, OthersAreFloored, Sum;
    var shares, roles := ShareColumns(s, meter, idxs);
    var split := DeterministicSplitCents(s.meterGross[meter], shares, roles);
    expected := Spread(idxs, split, before);
    forall i | 0 <= i < |s.lines| && s.lines[i].meterRecordIdemKey == meter
      ensures HasGross(s, s.lines[i]) && i in expected && expected[i] == ExpectedAmount(s, i)
    {
      SpreadIsExpected(s, meter, i);
    }
  }

  /** One turn of the walk over the lines. */
  method VerifyLine(env: Foreign, meters: set<string>, s: SettlementSummary, i: nat, expectedByIndex: map<nat, int>)
    returns (steps: seq<AuditStep>, counts: bool)
    requires i < |s.lines|
    requires HasGross(s, s.lines[i]) ==> i in expectedByIndex && expectedByIndex[i] == ExpectedAmount(s, i)
    ensures steps == LineSteps(env, meters, s, i) && counts == Counts(meters, s, i)
  {
    hide ParseDecimal, ExpectedAmount, SettlementIdemKey, SettlementIdemKeyV1;
    counts := false;
    var line := s.lines[i];
    if line.meterRecordIdemKey !in meters {
      steps := [Fail(Entry(i, MeterRecordIdemKey), Kind.SettlementLine, SETTLEMENT_LINE_FOR_UNKNOWN_METER)];
      return;
    }
    var expectedIdem :=
      if s.schemaVersion == V2 then SettlementIdemKey(env.sha, line.meterRecordIdemKey, line.partyRole, line.ledgerAccountCode)
      else SettlementIdemKeyV1(env.sha, line.meterRecordIdemKey, line.partyRole);
    steps := [Check(line.idemKey == expectedIdem, Entry(i, IdemKey), Kind.SettlementLine, SETTLEMENT_IDEM_KEY_MISMATCH)];
    if line.meterRecordIdemKey !in s.meterGross {
      steps := steps + [Fail(Keyed(line.meterRecordIdemKey, MeterGross), Kind.SettlementLine, SETTLEMENT_LINE_FOR_UNKNOWN_METER)];
      return;
    }
    if ParseDecimal(line.share).None? {
      steps := steps + [Fail(Entry(i, Field.Share), Kind.SettlementLine, SETTLEMENT_AMOUNT_MISMATCH)];
      return;
    }
    counts := expectedByIndex[i] == line.amountCents;
    steps := steps + [Check(counts, Entry(i, AmountCents), Kind.SettlementLine, SETTLEMENT_AMOUNT_MISMATCH)];
  }

  method VerifySettlementReconciliation(env: Foreign, metering: MeteringSummary, s: SettlementSummary) returns (report: SettlementReport)
    ensures report.steps == SettlementSteps(env, metering, s)
    ensures report.status == VALID <==> SettlementHolds(env, metering, s)
    ensures report.status == Verdict(report.steps)
    ensures report.meterRecordCount == |metering.records| && report.settlementLineCount == |s.lines|
  {
    StepsDecideSettlement(env, metering, s);
    hide SettlementHolds, AnyInvalid, Flatten, After, LineWalk, LineSteps, Counts, InColumn, ShareSteps, ShareStep, ExpectedAmount, HasGross;
    var meters := MeterIds(metering);
    var steps := [OrgStep(metering, s)];
    var keys, groups := GroupByMeter(s.lines);
    var expectedByIndex := ExpectedByIndex(s, keys, groups);

    ghost var first, per := steps, LineWalk(env, meters, s);
    AfterEnds(first, per);
    var computedGross, computedNet, computedFee := 0, 0, 0;
    var i := 0;
    while i < |s.lines|
      invariant 0 <= i <= |s.lines|
      invariant steps == After(first, per, i)
      invariant computedGross == Computed(meters, s, GrossColumn, i)
      invariant computedNet == Computed(meters, s, TenantColumn, i)
      invariant computedFee == Computed(meters, s, PlatformColumn, i)
    {
      var next, counts := VerifyLine(env, meters, s, i, expectedByIndex);
      AfterNext(first, per, i);
      steps := steps + next;
      ColumnsOf(s.lines[i].partyRole);
      if counts {
        computedGross := computedGross + s.lines[i].amountCents;
        if s.lines[i].partyRole == "TENANT" {
          computedNet := computedNet + s.lines[i].amountCents;
        } else if s.lines[i].partyRole == "PLATFORM" {
          computedFee := computedFee + s.lines[i].amountCents;
        }
      }
      i := i + 1;
    }
    var shareSteps := VerifyShares(s, keys, groups);
    steps := steps + shareSteps + TotalSteps(s.totals, computedGross, computedNet, computedFee);
    report := SettlementReport(Verdict(steps), |metering.records|, |s.lines|, steps);
  }

  lemma ColumnsOf(role: string)
    ensures InColumn(GrossColumn, role)
    ensures InColumn(TenantColumn, role) <==> role == "TENANT"
    ensures InColumn(PlatformColumn, role) <==> role == "PLATFORM"
    ensures role == "TENANT" ==> role != "PLATFORM"
  {}

  /** The share sum of every meter, in the order the dictionary lists them. */
  method VerifyShares(s: SettlementSummary, keys: seq<string>, groups: map<string, seq<nat>>) returns (steps: seq<AuditStep>)
    requires keys == MeterKeys(s.lines, |s.lines|)
    requires forall k :: k in groups <==> k in keys
    requires forall k :: k in groups ==> groups[k] == Group(s, k)
    ensures steps == ShareSteps(s)
  {
    hide ShareSum, ShareSteps;
    steps := [];
    var q := 0;
    while q < |keys|
      invariant 0 <= q <= |keys|
      invariant steps == ShareSteps(s)[..q]
    {
      var sum := SumShares(s, keys[q], groups[keys[q]]);
      steps := steps + [Check(sum == FACTOR, Keyed(keys[q], Field.Share), Kind.SettlementLine, SETTLEMENT_SHARE_SUM_NOT_ONE)];
      q := q + 1;
    }
  }

  method SumShares(s: SettlementSummary, meter: string, idxs: seq<nat>) returns (sum: int)
    requires idxs == Group(s, meter)
    ensures sum == ShareSum(s, meter)
  {
    hide ParseDecimalOrZero;
    ghost var shares := Shares(GroupParties(s, meter));
    sum := 0;
    var k := 0;
    while k < |idxs|
      invariant 0 <= k <= |idxs| && sum == Sum(shares[..k])
    {
      assert shares[..k + 1][..k] == shares[..k];
      sum := sum + ParseDecimalOrZero(s.lines[idxs[k]].share);
      k := k + 1;
    }
    assert shares[..k] == shares;
  }

  // --------------------------------------------------------- written out

  /** The steps of a line: unknown meter; or its key, and then its meter's gross, its share text or its cents. */
  lemma LineStepsWrittenOut(env: Foreign, meters: set<string>, s: SettlementSummary, i: nat)
    requires i < |s.lines|
    ensures var line := s.lines[i]; var meter := line.meterRecordIdemKey;
            LineSteps(env, meters, s, i)
            == if meter !in meters
               then [AuditStep(Entry(i, MeterRecordIdemKey), Kind.SettlementLine, INVALID, Some(SETTLEMENT_LINE_FOR_UNKNOWN_METER))]
               else
                 [Check(line.idemKey == (if s.schemaVersion == V2 then env.sha(meter + "|" + line.partyRole + "|" + line.ledgerAccountCode)
                                         else env.sha(meter + "|" + line.partyRole)),
                        Entry(i, IdemKey), Kind.SettlementLine, SETTLEMENT_IDEM_KEY_MISMATCH)]
                 + if meter !in s.meterGross
                   then [AuditStep(Keyed(meter, MeterGross), Kind.SettlementLine, INVALID, Some(SETTLEMENT_LINE_FOR_UNKNOWN_METER))]
                   else if ParseDecimal(line.share).None?
                   then [AuditStep(Entry(i, Field.Share), Kind.SettlementLine, INVALID, Some(SETTLEMENT_AMOUNT_MISMATCH))]
                   else [Check(line.amountCents == ExpectedAmount(s, i), Entry(i, AmountCents), Kind.SettlementLine, SETTLEMENT_AMOUNT_MISMATCH)]
  {
    hide ParseDecimal, ExpectedAmount;
  }

  /** The cents expected are the line's place in its meter's split. */
  lemma ExpectedWrittenOut(s: SettlementSummary, i: nat)
    requires i < |s.lines| && s.lines[i].meterRecordIdemKey in s.meterGross
    ensures var m := s.lines[i].meterRecordIdemKey; var k := |IndicesOf(s.lines, m, i)|;
            && k < |GroupParties(s, m)| && Group(s, m)[k] == i
            && ExpectedAmount(s, i) == Amounts(s.meterGross[m], GroupParties(s, m))[k]
  {
    RankInGroup(s, i);
    hide Amounts;
  }

  /** A line goes into the totals when its meter is known and has a gross, its share reads, and its amount is exact; its key does not matter. */
  lemma ComputedWrittenOut(meters: set<string>, s: SettlementSummary, n: nat)
    requires n < |s.lines|
    ensures var line := s.lines[n];
            var counts := line.meterRecordIdemKey in meters && line.meterRecordIdemKey in s.meterGross && ParseDecimal(line.share).Some?
                          && line.amountCents == ExpectedAmount(s, n);
            && Computed(meters, s, GrossColumn, n + 1) - Computed(meters, s, GrossColumn, n) == (if counts then line.amountCents else 0)
            && Computed(meters, s, TenantColumn, n + 1) - Computed(meters, s, TenantColumn, n)
               == (if counts && line.partyRole == "TENANT" then line.amountCents else 0)
            && Computed(meters, s, PlatformColumn, n + 1) - Computed(meters, s, PlatformColumn, n)
               == (if counts && line.partyRole == "PLATFORM" then line.amountCents else 0)
    ensures Computed(meters, s, GrossColumn, 0) == Computed(meters, s, TenantColumn, 0) == Computed(meters, s, PlatformColumn, 0) == 0
  {
    hide ParseDecimal, ExpectedAmount;
    ColumnsOf(s.lines[n].partyRole);
    hide InColumn;
  }

  /** The organisation's step, a meter's share step and the three totals. */
  lemma FrameWrittenOut(metering: MeteringSummary, s: SettlementSummary, meter: string, t: SettlementTotals, gross: int, net: int, fee: int)
    ensures OrgStep(metering, s) == Check(s.orgId == metering.orgId, Whole(OrgId), Kind.SettlementLine, SETTLEMENT_ORG_MISMATCH)
    ensures ShareStep(s, meter)
            == Check(Sum(Shares(GroupParties(s, meter))) == 1000000, Keyed(meter, Field.Share), Kind.SettlementLine, SETTLEMENT_SHARE_SUM_NOT_ONE)
    ensures TotalSteps(None, gross, net, fee) == []
    ensures TotalSteps(Some(t), gross, net, fee)
            == [Check(t.grossCents == gross, Whole(GrossCents), SettlementTotal, SETTLEMENT_TOTAL_MISMATCH),
                Check(t.netToTenantCents == net, Whole(NetToTenantCents), SettlementTotal, SETTLEMENT_TOTAL_MISMATCH),
                Check(t.platformFeeCents == fee, Whole(PlatformFeeCents), SettlementTotal, SETTLEMENT_TOTAL_MISMATCH)]
  {
    hide Sum, Shares, GroupParties;
  }

  /** The report's steps in order, each computed column against its own claim. */
  lemma SettlementStepsWrittenOut(env: Foreign, metering: MeteringSummary, s: SettlementSummary)
    ensures var meters, n := MeterIds(metering), |s.lines|;
            SettlementSteps(env, metering, s)
            == [OrgStep(metering, s)] + Flatten(LineWalk(env, meters, s)) + ShareSteps(s)
               + TotalSteps(s.totals, Computed(meters, s, GrossColumn, n), Computed(meters, s, TenantColumn, n), Computed(meters, s, PlatformColumn, n))
    ensures forall k :: k in MeterIds(metering) <==> exists m :: m in metering.records && m.idemKey == k
  {
    hide Flatten, LineWalk, ShareSteps, TotalSteps, Computed;
  }
}
