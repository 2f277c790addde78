/** When the verdict on a settlement depends on the order in which its lines are listed. */
module SettlementOrder {
  import opened Prelude
  import opened Decimal
  import opened Primitives
  import opened Split
  import opened Metering
  import opened Settlement
  import opened SettlementFacts

  /** The same settlement with its lines in another order. */
  ghost predicate Reordered(s: SettlementSummary, t: SettlementSummary) {
    t == s.(lines := t.lines) && multiset(t.lines) == multiset(s.lines)
  }

  /** In every meter that has lines and a gross, the winner is alone or there is no residual to place. */
  ghost predicate NoTies(s: SettlementSummary) {
    forall i :: 0 <= i < |s.lines| && HasGross(s, s.lines[i]) ==> NoTie(s, s.lines[i].meterRecordIdemKey)
  }

  ghost predicate NoTie(s: SettlementSummary, meter: string) {
    var ps := GroupParties(s, meter);
    meter in s.meterGross && ps != [] ==> WinnerIsAlone(ps) || Residual(s.meterGross[meter], ps) == 0
  }

  // ------------------------------------------ what a group holds, in any order

  /** The shares and roles of one meter's lines, in order. */
  function PartiesOf(lines: seq<SettlementLine>, meter: string): seq<Party> {
    if lines == [] then []
    else
      var last := lines[|lines| - 1];
      PartiesOf(lines[..|lines| - 1], meter) + if last.meterRecordIdemKey == meter then [PartyOf(last)] else []
  }

  lemma {:induction false} PartiesAtIndices(lines: seq<SettlementLine>, meter: string, n: nat)
    requires n <= |lines|
    ensures |PartiesOf(lines[..n], meter)| == |IndicesOf(lines, meter, n)|
    ensures forall k :: 0 <= k < |IndicesOf(lines, meter, n)| ==>
              PartiesOf(lines[..n], meter)[k] == PartyOf(lines[IndicesOf(lines, meter, n)[k]])
  {
    if n > 0 {
      PartiesAtIndices(lines, meter, n - 1);
      assert lines[..n][..n - 1] == lines[..n - 1];
      hide PartyOf;
    }
  }

  lemma GroupIsPartiesOf(s: SettlementSummary, meter: string)
    ensures GroupParties(s, meter) == PartiesOf(s.lines, meter)
  {
    PartiesAtIndices(s.lines, meter, |s.lines|);
    assert s.lines[..|s.lines|] == s.lines;
    hide PartyOf, IndicesOf, PartiesOf;
  }

  lemma {:induction false} PartiesOfConcat(a: seq<SettlementLine>, b: seq<SettlementLine>, meter: string)
    ensures PartiesOf(a + b, meter) == PartiesOf(a, meter) + PartiesOf(b, meter)
  {
    hide PartyOf;
    if b == [] {
      assert a + b == a;
    } else {
      assert (a + b)[..|a + b| - 1] == a + b[..|b| - 1];
      PartiesOfConcat(a, b[..|b| - 1], meter);
    }
  }

  lemma {:induction false} PartiesOfMultiset(a: seq<SettlementLine>, b: seq<SettlementLine>, meter: string)
    requires multiset(a) == multiset(b)
    ensures multiset(PartiesOf(a, meter)) == multiset(PartiesOf(b, meter))
  {
    if a == [] {
      assert |multiset(b)| == 0;
    } else {
      var n := |a| - 1;
      var j := WhereIs(a, b, n);
      PartiesOfMultiset(a[..n], b[..j] + b[j + 1..], meter);
      hide PartiesOf;
      OneOut(a, n, meter);
      OneOut(b, j, meter);
      assert a[..n] + a[n + 1..] == a[..n];
    }
  }

  /** Taking a line out of a list takes its share and role, if it is of the meter, out of the parties. */
  lemma OneOut(lines: seq<SettlementLine>, j: nat, meter: string)
    requires j < |lines|
    ensures multiset(PartiesOf(lines, meter)) == multiset(PartiesOf(lines[..j] + lines[j + 1..], meter)) + multiset(PartiesOf([lines[j]], meter))
  {
    hide PartiesOf;
    assert lines == lines[..j] + ([lines[j]] + lines[j + 1..]);
    PartiesOfConcat(lines[..j], [lines[j]] + lines[j + 1..], meter);
    PartiesOfConcat([lines[j]], lines[j + 1..], meter);
    PartiesOfConcat(lines[..j], lines[j + 1..], meter);
  }

  lemma SameParties(s: SettlementSummary, t: SettlementSummary, meter: string)
    requires Reordered(s, t)
    ensures multiset(GroupParties(t, meter)) == multiset(GroupParties(s, meter))
    ensures ShareSum(t, meter) == ShareSum(s, meter)
  {
    GroupIsPartiesOf(s, meter);
    GroupIsPartiesOf(t, meter);
    PartiesOfMultiset(s.lines, t.lines, meter);
    hide PartiesOf, GroupParties;
    var a, b, share := GroupParties(s, meter), GroupParties(t, meter), (p: Party) => p.share;
    MapOfMultiset(share, a, b);
    assert Shares(a) == Map(share, a) && Shares(b) == Map(share, b);
    SumOfMultiset(Shares(a), Shares(b));
  }

  // ----------------------------------------------------------------- the totals

  function InColumnOrZero(c: Column, line: SettlementLine): int {
    if InColumn(c, line.partyRole) then line.amountCents else 0
  }

  lemma {:induction false} ColumnIsSum(lines: seq<SettlementLine>, c: Column, n: nat)
    requires n <= |lines|
    ensures ColumnSum(lines, c, n) == Sum(Map((line: SettlementLine) => InColumnOrZero(c, line), lines[..n]))
  {
    hide InColumn;
    var f := (line: SettlementLine) => InColumnOrZero(c, line);
    if n > 0 {
      ColumnIsSum(lines, c, n - 1);
      assert Map(f, lines[..n])[..n - 1] == Map(f, lines[..n - 1]);
    }
  }

  lemma SameColumns(a: seq<SettlementLine>, b: seq<SettlementLine>, c: Column)
    requires multiset(a) == multiset(b)
    ensures ColumnSum(a, c, |a|) == ColumnSum(b, c, |b|)
  {
    hide ColumnSum, InColumnOrZero, Sum;
    var f := (line: SettlementLine) => InColumnOrZero(c, line);
    ColumnIsSum(a, c, |a|);
    ColumnIsSum(b, c, |b|);
    assert a[..|a|] == a && b[..|b|] == b;
    MapOfMultiset(f, a, b);
    SumOfMultiset(Map(f, a), Map(f, b));
  }

  // ------------------------------------------------------------------- one line

  /** A line keeps its expected amount wherever it is moved. */
  lemma SameExpected(s: SettlementSummary, t: SettlementSummary, i: nat, j: nat)
    requires Reordered(s, t) && i < |s.lines| && j < |t.lines| && t.lines[j] == s.lines[i]
    requires HasGross(s, s.lines[i]) && NoTie(s, s.lines[i].meterRecordIdemKey)
    ensures ExpectedAmount(t, j) == ExpectedAmount(s, i)
  {
    var m := s.lines[i].meterRecordIdemKey;
    RankInGroup(s, i);
    RankInGroup(t, j);
    SameParties(s, t, m);
    hide GroupParties, Amounts, Rank, Residual, WinnerIsAlone, PartyOf;
    EachLineKeepsItsAmount(s.meterGross[m], GroupParties(s, m), GroupParties(t, m), Rank(s.lines, i), Rank(t.lines, j));
  }

  lemma SameLine(env: Foreign, meters: set<string>, s: SettlementSummary, t: SettlementSummary, i: nat, j: nat)
    requires Reordered(s, t) && i < |s.lines| && j < |t.lines| && t.lines[j] == s.lines[i] && NoTies(s)
    ensures LineHolds(env, meters, t, j) <==> LineHolds(env, meters, s, i)
    ensures ShareSum(t, t.lines[j].meterRecordIdemKey) == ShareSum(s, s.lines[i].meterRecordIdemKey)
  {
    SameParties(s, t, s.lines[i].meterRecordIdemKey);
    hide KeyHolds, ExpectedAmount, ParseDecimal, ShareSum, NoTie;
    if HasGross(s, s.lines[i]) {
      SameExpected(s, t, i, j);
    }
  }

  lemma Partner(a: seq<SettlementLine>, b: seq<SettlementLine>, i: nat) returns (j: nat)
    requires multiset(a) == multiset(b) && i < |a|
    ensures j < |b| && b[j] == a[i]
  {
    assert a[i] in multiset(b);
    j :| 0 <= j < |b| && b[j] == a[i];
  }

  // ------------------------------------------------------------ the whole verdict

  /** Without ties the verdict on a settlement does not depend on the order of its lines. */
  lemma VerdictIgnoresOrder(env: Foreign, metering: MeteringSummary, s: SettlementSummary, t: SettlementSummary)
    requires Reordered(s, t) && NoTies(s)
    ensures SettlementHolds(env, metering, t) <==> SettlementHolds(env, metering, s)
  {
    var meters := MeterIds(metering);
    hide LineHolds, ShareSum, NoTies, MeterIds;
    SameColumns(s.lines, t.lines, GrossColumn);
    SameColumns(s.lines, t.lines, TenantColumn);
    SameColumns(s.lines, t.lines, PlatformColumn);
    assert TotalsHold(t) <==> TotalsHold(s);
    hide TotalsHold;
    if SettlementHolds(env, metering, s) {
      forall j | 0 <= j < |t.lines|
        ensures LineHolds(env, meters, t, j) && ShareSum(t, t.lines[j].meterRecordIdemKey) == FACTOR
      {
        var i := Partner(t.lines, s.lines, j);
        SameLine(env, meters, s, t, i, j);
      }
    }
    if SettlementHolds(env, metering, t) {
      forall i | 0 <= i < |s.lines|
        ensures LineHolds(env, meters, s, i) && ShareSum(s, s.lines[i].meterRecordIdemKey) == FACTOR
      {
        var j := Partner(s.lines, t.lines, i);
        SameLine(env, meters, s, t, i, j);
      }
    }
  }

  /** Two lines trade places. */
  function Swapped(lines: seq<SettlementLine>, a: nat, b: nat): seq<SettlementLine>
    requires a < |lines| && b < |lines|
  {
    lines[a := lines[b]][b := lines[a]]
  }

  /** With a tie, trading the winner for a line of the same share and role breaks a VALID settlement. */
  lemma TieBreaks(env: Foreign, metering: MeteringSummary, s: SettlementSummary, i: nat) returns (t: SettlementSummary)
    requires SettlementHolds(env, metering, s) && i < |s.lines| && !NoTie(s, s.lines[i].meterRecordIdemKey)
    ensures Reordered(s, t) && !SettlementHolds(env, metering, t)
  {
    var m := s.lines[i].meterRecordIdemKey;
    var w, k := FindTie(s, m);
    hide NoTie, GroupParties, Amounts, KeyHolds, ParseDecimal, ShareSum, TotalsHold, IndicesOf, PartyOf, Swapped, ExpectedAmount;
    var a, b := Group(s, m)[w], Group(s, m)[k];
    t := s.(lines := Swapped(s.lines, a, b));
    SwapIsReordering(s.lines, a, b);
    SwappedAmounts(s, t, m, w, k);
    assert LineHolds(env, MeterIds(metering), s, b);
    assert !LineHolds(env, MeterIds(metering), t, a);
  }

  lemma FindTie(s: SettlementSummary, m: string) returns (w: nat, k: nat)
    requires !NoTie(s, m)
    ensures m in s.meterGross && w < |Group(s, m)| && k < |Group(s, m)| && w != k
    ensures PartyOf(s.lines[Group(s, m)[w]]) == PartyOf(s.lines[Group(s, m)[k]])
    ensures Amounts(s.meterGross[m], GroupParties(s, m))[w] != Amounts(s.meterGross[m], GroupParties(s, m))[k]
  {
    var ps := GroupParties(s, m);
    w := Winner(ps);
    k :| 0 <= k < |ps| && ps[k] == ps[w] && k != w;
    AmountAt(s.meterGross[m], ps, w);
    AmountAt(s.meterGross[m], ps, k);
    hide Amounts, Residual, PartyOf;
  }

  lemma SwapIsReordering(lines: seq<SettlementLine>, a: nat, b: nat)
    requires a < |lines| && b < |lines|
    ensures |Swapped(lines, a, b)| == |lines| && multiset(Swapped(lines, a, b)) == multiset(lines)
  {}

  /** After the trade the winner's place holds the other line, and still expects the winner's amount. */
  lemma SwappedAmounts(s: SettlementSummary, t: SettlementSummary, m: string, w: nat, k: nat)
    requires m in s.meterGross && w < |Group(s, m)| && k < |Group(s, m)| && w != k
    requires PartyOf(s.lines[Group(s, m)[w]]) == PartyOf(s.lines[Group(s, m)[k]])
    requires t == s.(lines := Swapped(s.lines, Group(s, m)[w], Group(s, m)[k]))
    ensures var a, b, amounts := Group(s, m)[w], Group(s, m)[k], Amounts(s.meterGross[m], GroupParties(s, m));
            && HasGross(s, s.lines[b]) && ExpectedAmount(s, b) == amounts[k]
            && HasGross(t, t.lines[a]) && ExpectedAmount(t, a) == amounts[w]
            && t.lines[a] == s.lines[b]
  {
    var a, b := Group(s, m)[w], Group(s, m)[k];
    SwapKeepsGroup(s, t, m, a, b);
    SwapKeepsRank(s, t, m, a, b);
    RankOfIndex(s.lines, m, |s.lines|, w);
    RankOfIndex(s.lines, m, |s.lines|, k);
    hide GroupParties, Amounts, IndicesOf, PartyOf;
  }

  lemma SwapKeepsGroup(s: SettlementSummary, t: SettlementSummary, m: string, a: nat, b: nat)
    requires a < |s.lines| && b < |s.lines| && t == s.(lines := Swapped(s.lines, a, b))
    requires s.lines[a].meterRecordIdemKey == s.lines[b].meterRecordIdemKey && PartyOf(s.lines[a]) == PartyOf(s.lines[b])
    ensures GroupParties(t, m) == GroupParties(s, m)
  {
    SameIndices(s.lines, t.lines, m, |s.lines|);
    hide PartyOf, IndicesOf;
    var idxs, x, y := Group(s, m), GroupParties(s, m), GroupParties(t, m);
    forall k | 0 <= k < |idxs| ensures y[k] == x[k] {
      assert PartyOf(t.lines[idxs[k]]) == PartyOf(s.lines[idxs[k]]);
    }
    assert x == y;
  }

  lemma SwapKeepsRank(s: SettlementSummary, t: SettlementSummary, m: string, a: nat, b: nat)
    requires a < |s.lines| && b < |s.lines| && t == s.(lines := Swapped(s.lines, a, b))
    requires s.lines[a].meterRecordIdemKey == s.lines[b].meterRecordIdemKey == m
    ensures t.lines[a].meterRecordIdemKey == m && Rank(t.lines, a) == Rank(s.lines, a)
  {
    SameIndices(s.lines, t.lines, m, a);
  }

  /** A VALID settlement stays VALID under every reordering of its lines exactly when it has no ties. */
  lemma OrderIsIrrelevantExactly(env: Foreign, metering: MeteringSummary, s: SettlementSummary)
    requires SettlementHolds(env, metering, s)
    ensures (forall t :: Reordered(s, t) ==> SettlementHolds(env, metering, t)) <==> NoTies(s)
  {
    hide SettlementHolds, NoTie;
    if NoTies(s) {
      forall t | Reordered(s, t) ensures SettlementHolds(env, metering, t) {
        VerdictIgnoresOrder(env, metering, s, t);
      }
    } else {
      var i :| 0 <= i < |s.lines| && HasGross(s, s.lines[i]) && !NoTie(s, s.lines[i].meterRecordIdemKey);
      var t := TieBreaks(env, metering, s, i);
    }
  }
}
