/** What a VALID settlement implies for the money as a whole. */
module SettlementFacts {
  import opened Prelude
  import opened Decimal
  import opened Text
  import opened ProofPack
  import opened Primitives
  import opened Split
  import opened Metering
  import opened Settlement

  // --------------------------------------------------- each meter adds up

  /** The amounts of one meter's lines, in order. */
  function GroupAmounts(s: SettlementSummary, meter: string): (amounts: seq<int>)
    ensures |amounts| == |Group(s, meter)|
    ensures forall k :: 0 <= k < |amounts| ==> amounts[k] == s.lines[Group(s, meter)[k]].amountCents
  {
    seq(|Group(s, meter)|, k requires 0 <= k < |Group(s, meter)| => s.lines[Group(s, meter)[k]].amountCents)
  }

  lemma GroupIsSplit(s: SettlementSummary, meter: string)
    requires forall i :: 0 <= i < |s.lines| && s.lines[i].meterRecordIdemKey == meter ==> Exact(s, i)
    requires meter in s.meterGross
    ensures GroupAmounts(s, meter) == Amounts(s.meterGross[meter], GroupParties(s, meter))
  {
    hide Amounts, ParseDecimalOrZero;
    var idxs := Group(s, meter);
    forall k | 0 <= k < |idxs| ensures GroupAmounts(s, meter)[k] == Amounts(s.meterGross[meter], GroupParties(s, meter))[k] {
      RankOfIndex(s.lines, meter, |s.lines|, k);
      assert Exact(s, idxs[k]);
    }
  }

  /** If a settlement is VALID, the lines of each meter add up exactly to that meter's gross. */
  lemma MeterConserves(env: Foreign, metering: MeteringSummary, s: SettlementSummary, i: nat)
    requires SettlementHolds(env, metering, s) && i < |s.lines|
    ensures var m := s.lines[i].meterRecordIdemKey;
            m in s.meterGross && Sum(GroupAmounts(s, m)) == s.meterGross[m]
  {
    hide Amounts, ParseDecimal, ShareSum, TotalsHold, ExpectedAmount, KeyHolds;
    var m := s.lines[i].meterRecordIdemKey;
    forall j | 0 <= j < |s.lines| ensures Exact(s, j) {
      assert LineHolds(env, MeterIds(metering), s, j);
    }
    assert Exact(s, i);
    GroupIsSplit(s, m);
    RankInGroup(s, i);
    SplitConserves(s.meterGross[m], GroupParties(s, m));
  }

  // ------------------------------------------------ the partition into meters

  /** The sum over the first n lines that belong to a meter. */
  function GroupSum(lines: seq<SettlementLine>, meter: string, n: nat): int
    requires n <= |lines|
  {
    if n == 0 then 0
    else GroupSum(lines, meter, n - 1) + if lines[n - 1].meterRecordIdemKey == meter then lines[n - 1].amountCents else 0
  }

  function AmountsAt(lines: seq<SettlementLine>, idxs: seq<nat>): (amounts: seq<int>)
    requires forall k :: 0 <= k < |idxs| ==> idxs[k] < |lines|
    ensures |amounts| == |idxs|
    ensures forall k :: 0 <= k < |idxs| ==> amounts[k] == lines[idxs[k]].amountCents
  {
    seq(|idxs|, k requires 0 <= k < |idxs| => lines[idxs[k]].amountCents)
  }

  lemma {:induction false} GroupSumIsSum(lines: seq<SettlementLine>, meter: string, n: nat)
    requires n <= |lines|
    ensures GroupSum(lines, meter, n) == Sum(AmountsAt(lines, IndicesOf(lines, meter, n)))
  {
    if n > 0 {
      GroupSumIsSum(lines, meter, n - 1);
      hide Sum;
      var before := IndicesOf(lines, meter, n - 1);
      if lines[n - 1].meterRecordIdemKey == meter {
        assert AmountsAt(lines, before + [n - 1]) == AmountsAt(lines, before) + [lines[n - 1].amountCents];
        SumAppend(AmountsAt(lines, before), lines[n - 1].amountCents);
      } else {
        assert before + [] == before;
      }
    } else {
      assert AmountsAt(lines, []) == [];
    }
  }

  /** The group sums over a list of meters. */
  function PerMeter(lines: seq<SettlementLine>, keys: seq<string>, n: nat): (sums: seq<int>)
    requires n <= |lines|
    ensures |sums| == |keys|
    ensures forall k :: 0 <= k < |keys| ==> sums[k] == GroupSum(lines, keys[k], n)
  {
    seq(|keys|, k requires 0 <= k < |keys| => GroupSum(lines, keys[k], n))
  }

  lemma {:induction false} AbsentMeterSumsToZero(lines: seq<SettlementLine>, meter: string, n: nat)
    requires n <= |lines| && meter !in MeterKeys(lines, n)
    ensures GroupSum(lines, meter, n) == 0
  {
    if n > 0 {
      AbsentMeterSumsToZero(lines, meter, n - 1);
    }
  }

  /** Adding line by line comes to the same as adding meter by meter over the distinct meters. */
  lemma {:induction false} LinesPartitionIntoMeters(lines: seq<SettlementLine>, n: nat)
    requires n <= |lines|
    ensures ColumnSum(lines, GrossColumn, n) == Sum(PerMeter(lines, MeterKeys(lines, n), n))
  {
    if n > 0 {
      LinesPartitionIntoMeters(lines, n - 1);
      var line, keys := lines[n - 1], MeterKeys(lines, n - 1);
      if line.meterRecordIdemKey in keys {
        KnownMeterGrows(lines, keys, n);
      } else {
        NewMeterAppends(lines, keys, n);
      }
    }
  }

  lemma KnownMeterGrows(lines: seq<SettlementLine>, keys: seq<string>, n: nat)
    requires 0 < n <= |lines| && keys == MeterKeys(lines, n - 1) && lines[n - 1].meterRecordIdemKey in keys
    ensures Sum(PerMeter(lines, keys, n)) == Sum(PerMeter(lines, keys, n - 1)) + lines[n - 1].amountCents
  {
    hide Sum, MeterKeys;
    KeysAreMeters(lines, n - 1);
    var sums, line := PerMeter(lines, keys, n - 1), lines[n - 1];
    var k :| 0 <= k < |keys| && keys[k] == line.meterRecordIdemKey;
    SumUpdate(sums, k, sums[k] + line.amountCents);
    assert PerMeter(lines, keys, n) == sums[k := sums[k] + line.amountCents];
  }

  lemma NewMeterAppends(lines: seq<SettlementLine>, keys: seq<string>, n: nat)
    requires 0 < n <= |lines| && keys == MeterKeys(lines, n - 1) && lines[n - 1].meterRecordIdemKey !in keys
    ensures Sum(PerMeter(lines, keys + [lines[n - 1].meterRecordIdemKey], n)) == Sum(PerMeter(lines, keys, n - 1)) + lines[n - 1].amountCents
  {
    var sums, line := PerMeter(lines, keys, n - 1), lines[n - 1];
    AbsentMeterSumsToZero(lines, line.meterRecordIdemKey, n - 1);
    SumAppend(sums, line.amountCents);
    hide Sum, MeterKeys;
    assert PerMeter(lines, keys + [line.meterRecordIdemKey], n) == sums + [line.amountCents];
  }

  /** The gross of each distinct meter that has lines. */
  function MeterGrosses(s: SettlementSummary): (gross: seq<int>)
    ensures |gross| == |MeterKeys(s.lines, |s.lines|)|
    ensures forall k :: 0 <= k < |gross| ==>
              gross[k] == if MeterKeys(s.lines, |s.lines|)[k] in s.meterGross then s.meterGross[MeterKeys(s.lines, |s.lines|)[k]] else 0
  {
    var keys := MeterKeys(s.lines, |s.lines|);
    seq(|keys|, k requires 0 <= k < |keys| => if keys[k] in s.meterGross then s.meterGross[keys[k]] else 0)
  }

  /**
   If a settlement is VALID, all its lines together come to the sum of the gross amounts of the
   distinct meters that have lines, and a claimed grossCents is that sum, although the code adds
   line by line and never looks at the meters as a whole.
   */
  lemma TotalsConserve(env: Foreign, metering: MeteringSummary, s: SettlementSummary)
    requires SettlementHolds(env, metering, s)
    ensures ColumnSum(s.lines, GrossColumn, |s.lines|) == Sum(MeterGrosses(s))
    ensures s.totals.Some? ==> s.totals.value.grossCents == Sum(MeterGrosses(s))
  {
    hide LineHolds, ColumnSum, Sum;
    var keys, n := MeterKeys(s.lines, |s.lines|), |s.lines|;
    LinesPartitionIntoMeters(s.lines, n);
    KeysAreMeters(s.lines, n);
    forall k | 0 <= k < |keys| ensures PerMeter(s.lines, keys, n)[k] == MeterGrosses(s)[k] {
      assert keys[k] in keys;
      var i :| 0 <= i < n && s.lines[i].meterRecordIdemKey == keys[k];
      MeterConserves(env, metering, s, i);
      GroupSumIsSum(s.lines, keys[k], n);
      assert AmountsAt(s.lines, Group(s, keys[k])) == GroupAmounts(s, keys[k]);
    }
    assert PerMeter(s.lines, keys, n) == MeterGrosses(s);
  }

  // ------------------------------------------- exactly one vector of amounts

  /** The same settlement with other amounts on its lines. */
  function WithAmounts(s: SettlementSummary, amounts: seq<int>): (t: SettlementSummary)
    requires |amounts| == |s.lines|
    ensures |t.lines| == |s.lines|
    ensures forall i :: 0 <= i < |s.lines| ==> t.lines[i] == s.lines[i].(amountCents := amounts[i])
  {
    s.(lines := seq(|s.lines|, i requires 0 <= i < |s.lines| => s.lines[i].(amountCents := amounts[i])))
  }

  lemma {:induction false} SameIndices(a: seq<SettlementLine>, b: seq<SettlementLine>, meter: string, n: nat)
    requires |a| == |b| && n <= |a|
    requires forall i :: 0 <= i < |a| ==> a[i].meterRecordIdemKey == b[i].meterRecordIdemKey
    ensures IndicesOf(a, meter, n) == IndicesOf(b, meter, n)
  {
    if n > 0 {
      SameIndices(a, b, meter, n - 1);
    }
  }

  /** What line i should receive does not depend on any amount. */
  lemma ExpectedIgnoresAmounts(s: SettlementSummary, amounts: seq<int>, i: nat)
    requires |amounts| == |s.lines| && i < |s.lines|
    ensures var t := WithAmounts(s, amounts); var m := s.lines[i].meterRecordIdemKey;
            && t.lines[i].meterRecordIdemKey == m
            && GroupParties(t, m) == GroupParties(s, m)
            && (HasGross(s, s.lines[i]) <==> HasGross(t, t.lines[i]))
            && (HasGross(s, s.lines[i]) ==> ExpectedAmount(t, i) == ExpectedAmount(s, i))
  {
    hide Amounts, ParseDecimalOrZero;
    var t, m := WithAmounts(s, amounts), s.lines[i].meterRecordIdemKey;
    SameIndices(s.lines, t.lines, m, |s.lines|);
    SameIndices(s.lines, t.lines, m, i);
    assert forall k :: 0 <= k < |GroupParties(s, m)| ==> GroupParties(t, m)[k] == GroupParties(s, m)[k];
  }

  /** Everything a VALID settlement needs, apart from the amounts and the totals claimed for them. */
  ghost predicate SoundButForAmounts(env: Foreign, metering: MeteringSummary, s: SettlementSummary) {
    && s.orgId == metering.orgId
    && (forall i :: 0 <= i < |s.lines| ==>
          && s.lines[i].meterRecordIdemKey in MeterIds(metering) && KeyHolds(env, s.schemaVersion, s.lines[i])
          && HasGross(s, s.lines[i]) && ParseDecimal(s.lines[i].share).Some?)
    && (forall i :: 0 <= i < |s.lines| ==> ShareSum(s, s.lines[i].meterRecordIdemKey) == FACTOR)
  }

  /**
   For fixed meters, gross amounts, roles and shares exactly one vector of amounts is accepted: the
   deterministic split, provided any claimed totals are its totals. A one-cent change to any line is rejected.
   */
  lemma ExactlyOneVectorIsAccepted(env: Foreign, metering: MeteringSummary, s: SettlementSummary, amounts: seq<int>)
    requires SoundButForAmounts(env, metering, s) && |amounts| == |s.lines|
    ensures SettlementHolds(env, metering, WithAmounts(s, amounts))
            <==> (forall i :: 0 <= i < |amounts| ==> amounts[i] == ExpectedAmount(s, i)) && TotalsHold(WithAmounts(s, amounts))
  {
    hide ParseDecimal, ExpectedAmount, GroupParties, TotalsHold;
    var t := WithAmounts(s, amounts);
    var meters := MeterIds(metering);
    forall i | 0 <= i < |s.lines|
      ensures LineHolds(env, meters, t, i) <==> amounts[i] == ExpectedAmount(s, i)
      ensures ShareSum(t, t.lines[i].meterRecordIdemKey) == FACTOR
    {
      OneLine(env, meters, s, amounts, i);
    }
    hide LineHolds, ShareSum;
  }

  lemma OneLine(env: Foreign, meters: set<string>, s: SettlementSummary, amounts: seq<int>, i: nat)
    requires |amounts| == |s.lines| && i < |s.lines|
    requires s.lines[i].meterRecordIdemKey in meters && KeyHolds(env, s.schemaVersion, s.lines[i])
    requires HasGross(s, s.lines[i]) && ParseDecimal(s.lines[i].share).Some?
    ensures LineHolds(env, meters, WithAmounts(s, amounts), i) <==> amounts[i] == ExpectedAmount(s, i)
    ensures ShareSum(WithAmounts(s, amounts), s.lines[i].meterRecordIdemKey) == ShareSum(s, s.lines[i].meterRecordIdemKey)
    ensures WithAmounts(s, amounts).lines[i].meterRecordIdemKey == s.lines[i].meterRecordIdemKey
  {
    hide ParseDecimal, ExpectedAmount, Sum;
    ExpectedIgnoresAmounts(s, amounts, i);
    var t := WithAmounts(s, amounts);
    assert LineKey(env, t.schemaVersion, t.lines[i]) == LineKey(env, s.schemaVersion, s.lines[i]);
  }

  // ----------------------------------------------------- what a line's key names

  lemma MetersAreDigests(env: Foreign, proofs: seq<ProofRecord>, metering: MeteringSummary, orgId: Option<string>, s: SettlementSummary, i: nat)
    requires MeteringHolds(env, proofs, metering, orgId) && SettlementHolds(env, metering, s) && i < |s.lines|
    ensures '|' !in s.lines[i].meterRecordIdemKey && KeyHolds(env, s.schemaVersion, s.lines[i])
  {
    hide ParseDecimal, Exact, ShareSum, TotalsHold, KeyHolds, Expected;
    assert LineHolds(env, MeterIds(metering), s, i);
    var m :| 0 <= m < |metering.records| && metering.records[m].idemKey == s.lines[i].meterRecordIdemKey;
    assert MeterHolds(env, ReceiptIndex(proofs), metering.records[m]);
    DigestHasNoPipe(metering.records[m].idemKey);
  }

  /** The text a line's key is the digest of, by schema version. */
  function LineText(s: SettlementSummary, i: nat): string
    requires i < |s.lines|
  {
    var line := s.lines[i];
    if s.schemaVersion == V2 then KeyText(line.meterRecordIdemKey, line.partyRole, line.ledgerAccountCode)
    else line.meterRecordIdemKey + "|" + line.partyRole
  }

  /**
   Lines of a VALID settlement over a VALID metering that carry one key are lines of one meter, or their
   key texts collide. Under settlement.v1 they have one role; under settlement.v2 one join of role and
   ledger account, hence one role and one account where the first line's hold no pipe.
   */
  lemma LinesWithOneKey(env: Foreign, proofs: seq<ProofRecord>, metering: MeteringSummary, orgId: Option<string>, s: SettlementSummary, i: nat, j: nat)
    requires MeteringHolds(env, proofs, metering, orgId) && SettlementHolds(env, metering, s)
    requires i < |s.lines| && j < |s.lines| && s.lines[i].idemKey == s.lines[j].idemKey
    ensures var a, b := s.lines[i], s.lines[j];
            || Collides(env.sha, LineText(s, i), LineText(s, j))
            || (&& a.meterRecordIdemKey == b.meterRecordIdemKey
                && (s.schemaVersion == V1 ==> a.partyRole == b.partyRole)
                && (s.schemaVersion == V2 ==>
                      && a.partyRole + "|" + a.ledgerAccountCode == b.partyRole + "|" + b.ledgerAccountCode
                      && ('|' !in a.partyRole && '|' !in a.ledgerAccountCode ==>
                            a.partyRole == b.partyRole && a.ledgerAccountCode == b.ledgerAccountCode)))
  {
    hide MeteringHolds, SettlementHolds;
    MetersAreDigests(env, proofs, metering, orgId, s, i);
    MetersAreDigests(env, proofs, metering, orgId, s, j);
    var a, b := s.lines[i], s.lines[j];
    if s.schemaVersion == V2 {
      SettlementKeyNamesMeter(env.sha, a.meterRecordIdemKey, a.partyRole, a.ledgerAccountCode,
                              b.meterRecordIdemKey, b.partyRole, b.ledgerAccountCode);
      if '|' !in a.partyRole && '|' !in a.ledgerAccountCode {
        SettlementKeyDetermines(env.sha, a.meterRecordIdemKey, a.partyRole, a.ledgerAccountCode,
                                b.meterRecordIdemKey, b.partyRole, b.ledgerAccountCode);
      }
    } else if LineText(s, i) == LineText(s, j) {
      SplitFirst('|', a.meterRecordIdemKey, a.partyRole, b.meterRecordIdemKey, b.partyRole);
    }
  }

  // -------------------------------------------------- what the settlement reads

  /**
   The settlement verifier reads the metering summary's organisation and the set of its meter keys, and
   nothing else: unit counts, weights, unit types and totals never reach the money.
   */
  lemma UnitsNeverReachTheMoney(env: Foreign, m1: MeteringSummary, m2: MeteringSummary, s: SettlementSummary)
    requires m1.orgId == m2.orgId && MeterIds(m1) == MeterIds(m2)
    ensures SettlementSteps(env, m1, s) == SettlementSteps(env, m2, s)
    ensures SettlementHolds(env, m1, s) <==> SettlementHolds(env, m2, s)
  {
    hide LineWalk, ShareSteps, Settlement.TotalSteps, Computed, LineHolds, ShareSum, TotalsHold, MeterIds;
  }
}
