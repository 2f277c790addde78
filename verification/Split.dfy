/** The deterministic split of a gross amount by shares: floors, and the residual on one argmax line. */
module Split {
  import opened Prelude
  import opened Text
  import opened Decimal

  /** A line's share, in millionths, and its role. */
  datatype Party = Party(share: int, role: string)

  /** The larger share, or of equal shares the smaller role, takes the residual. */
  predicate Beats(a: Party, b: Party) {
    a.share > b.share || (a.share == b.share && Less(a.role, b.role))
  }

  /** The first line no line beats, found as the scan finds it. */
  function WinnerOf(ps: seq<Party>, n: nat): (w: nat)
    requires 0 < n <= |ps|
    ensures w < n
  {
    if n == 1 then 0
    else
      var w := WinnerOf(ps, n - 1);
      if Beats(ps[n - 1], ps[w]) then n - 1 else w
  }

  function Winner(ps: seq<Party>): (w: nat)
    requires ps != []
    ensures w < |ps|
  {
    WinnerOf(ps, |ps|)
  }

  function Slice(gross: int, p: Party): int {
    gross * p.share / FACTOR
  }

  function Floors(gross: int, ps: seq<Party>): (floors: seq<int>)
    ensures |floors| == |ps|
    ensures forall i :: 0 <= i < |ps| ==> floors[i] == Slice(gross, ps[i])
  {
    seq(|ps|, i requires 0 <= i < |ps| => Slice(gross, ps[i]))
  }

  function Residual(gross: int, ps: seq<Party>): int {
    gross - Sum(Floors(gross, ps))
  }

  /** Every line its floor, the winner the residual on top. */
  function Amounts(gross: int, ps: seq<Party>): (amounts: seq<int>)
    ensures |amounts| == |ps|
  {
    if ps == [] then []
    else
      var floors, w := Floors(gross, ps), Winner(ps);
      floors[w := floors[w] + Residual(gross, ps)]
  }

  function Parties(shares: seq<int>, roles: seq<string>): (ps: seq<Party>)
    requires |shares| == |roles|
    ensures |ps| == |shares|
    ensures forall i :: 0 <= i < |ps| ==> ps[i] == Party(shares[i], roles[i])
  {
    seq(|shares|, i requires 0 <= i < |shares| => Party(shares[i], roles[i]))
  }

  /** Line w has the largest share, of those the smallest role, and no earlier line ties with it. */
  ghost predicate FirstBest(shares: seq<int>, roles: seq<string>, w: nat)
    requires |shares| == |roles|
  {
    && w < |shares|
    && (forall i :: 0 <= i < |shares| ==> shares[i] <= shares[w] && (shares[i] == shares[w] ==> !Less(roles[i], roles[w])))
    && (forall i :: 0 <= i < w ==> shares[i] < shares[w] || roles[i] != roles[w])
  }

  /** Every line but w gets the floor of its slice. */
  ghost predicate OthersAreFloored(gross: int, shares: seq<int>, split: seq<int>, w: nat)
    requires |split| == |shares|
  {
    forall i :: 0 <= i < |shares| && i != w ==> split[i] == gross * shares[i] / FACTOR
  }

  lemma AmountsAreSplit(gross: int, shares: seq<int>, roles: seq<string>)
    requires |shares| == |roles|
    ensures var split := Amounts(gross, Parties(shares, roles));
            shares != [] ==>
              && Sum(split) == gross
              && exists w :: FirstBest(shares, roles, w) && OthersAreFloored(gross, shares, split, w)
  {
    var ps := Parties(shares, roles);
    if shares != [] {
      var w := Winner(ps);
      SplitConserves(gross, ps);
      WinnerIsFirstBest(ps, |ps|);
      forall i | 0 <= i < |ps| ensures !Beats(ps[i], ps[w]) && (i < w ==> Beats(ps[w], ps[i])) {}
      forall i | 0 <= i < w ensures shares[i] < shares[w] || roles[i] != roles[w] {
        BeatsTotal(ps[w], ps[i]);
        BeatsTotal(ps[w], ps[w]);
      }
      assert FirstBest(shares, roles, w);
      forall i | 0 <= i < |ps| && i != w ensures Amounts(gross, ps)[i] == gross * shares[i] / FACTOR {
        AmountAt(gross, ps, i);
      }
      assert OthersAreFloored(gross, shares, Amounts(gross, ps), w);
    }
  }

  method DeterministicSplitCents(gross: int, shares: seq<int>, roles: seq<string>) returns (split: seq<int>)
    requires |shares| == |roles|
    ensures split == Amounts(gross, Parties(shares, roles)) && |split| == |shares|
    ensures shares != [] ==> Sum(split) == gross
    ensures shares != [] ==> exists w :: FirstBest(shares, roles, w) && OthersAreFloored(gross, shares, split, w)
  {
    AmountsAreSplit(gross, shares, roles);
    hide Beats, Slice, Sum, FirstBest, OthersAreFloored, WinnerOf;
    ghost var ps := Parties(shares, roles);
    var floors := FloorSlices(gross, shares, roles);
    var total := SumOf(floors);
    var remainder := gross - total;
    if remainder != 0 && floors != [] {
      var target := FindTarget(shares, roles);
      floors := floors[target := floors[target] + remainder];
    }
    assert ps != [] && remainder == 0 ==> floors == floors[Winner(ps) := floors[Winner(ps)] + remainder];
    split := floors;
  }

  /** The floor of every slice. */
  method FloorSlices(gross: int, shares: seq<int>, ghost roles: seq<string>) returns (floors: seq<int>)
    requires |shares| == |roles|
    ensures floors == Floors(gross, Parties(shares, roles))
  {
    hide Slice;
    ghost var ps := Parties(shares, roles);
    floors := [];
    var k := 0;
    while k < |shares|
      invariant 0 <= k <= |shares|
      invariant floors == Floors(gross, ps)[..k]
    {
      SliceIs(gross, ps[k]);
      floors := floors + [gross * shares[k] / FACTOR];
      k := k + 1;
    }
  }

  /** The scan for the line that takes the residual. */
  method FindTarget(shares: seq<int>, roles: seq<string>) returns (target: nat)
    requires |shares| == |roles| > 0
    ensures target == Winner(Parties(shares, roles))
  {
    hide Beats;
    ghost var ps := Parties(shares, roles);
    target := 0;
    var i := 1;
    while i < |shares|
      invariant 1 <= i <= |shares|
      invariant target == WinnerOf(ps, i)
    {
      BeatsIs(ps[i], ps[target]);
      if shares[i] > shares[target] || (shares[i] == shares[target] && Less(roles[i], roles[target])) {
        target := i;
      }
      i := i + 1;
    }
  }

  lemma SliceIs(gross: int, p: Party)
    ensures Slice(gross, p) == gross * p.share / FACTOR
  {}

  lemma BeatsIs(a: Party, b: Party)
    ensures Beats(a, b) <==> a.share > b.share || (a.share == b.share && Less(a.role, b.role))
  {}

  /** Python's sum. */
  method SumOf(s: seq<int>) returns (total: int)
    ensures total == Sum(s)
  {
    total := 0;
    var i := 0;
    while i < |s|
      invariant 0 <= i <= |s| && total == Sum(s[..i])
    {
      assert s[..i + 1][..i] == s[..i];
      total := total + s[i];
      i := i + 1;
    }
    assert s[..i] == s;
  }

  // ---------------------------------------------------------------- the winner

  lemma BeatsTotal(a: Party, b: Party)
    ensures !(Beats(a, b) && Beats(b, a))
    ensures !Beats(a, b) && !Beats(b, a) ==> a == b
  {
    LessTrichotomy(a.role, b.role);
  }

  /** The winner is the first line that no line beats. */
  lemma {:induction false} WinnerIsFirstBest(ps: seq<Party>, n: nat)
    requires 0 < n <= |ps|
    ensures forall i :: 0 <= i < n ==> !Beats(ps[i], ps[WinnerOf(ps, n)])
    ensures forall i :: 0 <= i < WinnerOf(ps, n) ==> Beats(ps[WinnerOf(ps, n)], ps[i])
  {
    hide Beats;
    if n == 1 {
      BeatsTotal(ps[0], ps[0]);
    } else {
      WinnerIsFirstBest(ps, n - 1);
      var w, last := WinnerOf(ps, n - 1), ps[n - 1];
      if Beats(last, ps[w]) {
        forall i | 0 <= i < n - 1 ensures Beats(last, ps[i]) && !Beats(ps[i], last) {
          BeatsAll(ps[i], ps[w], last);
        }
        BeatsTotal(last, last);
      }
    }
  }

  lemma BeatsAll(a: Party, b: Party, c: Party)
    requires !Beats(a, b) && Beats(c, b)
    ensures Beats(c, a) && !Beats(a, c)
  {
    BeatsTotal(a, b);
    BeatsTotal(c, b);
    LessTrichotomy(a.role, b.role);
    LessTrichotomy(a.role, c.role);
    if a.share == b.share == c.share && a.role != b.role {
      LessTransitive(c.role, b.role, a.role);
    }
  }

  // ------------------------------------------------------ conservation and bounds

  /** The split of a nonempty list of any shares adds up to the gross, whatever its sign. */
  lemma SplitConserves(gross: int, ps: seq<Party>)
    requires ps != []
    ensures Sum(Amounts(gross, ps)) == gross
  {
    var floors, w := Floors(gross, ps), Winner(ps);
    SumUpdate(floors, w, floors[w] + Residual(gross, ps));
  }

  function Shares(ps: seq<Party>): (s: seq<int>)
    ensures |s| == |ps|
    ensures forall i :: 0 <= i < |ps| ==> s[i] == ps[i].share
  {
    seq(|ps|, i requires 0 <= i < |ps| => ps[i].share)
  }

  /** The floors of all lines fall short of the exact slices by less than one each. */
  lemma {:induction false} FloorsFallShort(gross: int, ps: seq<Party>)
    ensures FACTOR * Sum(Floors(gross, ps)) <= gross * Sum(Shares(ps))
    ensures ps != [] ==> gross * Sum(Shares(ps)) <= FACTOR * Sum(Floors(gross, ps)) + |ps| * (FACTOR - 1)
  {
    if ps == [] {
      assert Sum(Shares(ps)) == 0;
    } else {
      var front, last := ps[..|ps| - 1], ps[|ps| - 1];
      FloorsFallShort(gross, front);
      assert Floors(gross, ps)[..|ps| - 1] == Floors(gross, front);
      assert Shares(ps)[..|ps| - 1] == Shares(front);
      Distribute(gross, Sum(Shares(front)), last.share);
      SliceBounds(gross, last);
      assert |ps| * (FACTOR - 1) == |front| * (FACTOR - 1) + (FACTOR - 1);
    }
  }

  lemma Distribute(g: int, a: int, b: int)
    ensures g * (a + b) == g * a + g * b
  {}

  lemma SliceBounds(gross: int, p: Party)
    ensures FACTOR * Slice(gross, p) <= gross * p.share <= FACTOR * Slice(gross, p) + FACTOR - 1
  {}

  /** When the shares make up the whole, the residual lies between 0 and n - 1. */
  lemma ResidualIsSmall(gross: int, ps: seq<Party>)
    requires ps != [] && Sum(Shares(ps)) == FACTOR
    ensures 0 <= Residual(gross, ps) <= |ps| - 1
  {
    FloorsFallShort(gross, ps);
    var f, n := Sum(Floors(gross, ps)), |ps|;
    assert FACTOR * f <= gross * FACTOR <= FACTOR * f + n * (FACTOR - 1);
  }

  /** Every line but the winner gets exactly its floor. */
  lemma AmountAt(gross: int, ps: seq<Party>, i: nat)
    requires i < |ps|
    ensures Amounts(gross, ps)[i] == Slice(gross, ps[i]) + if i == Winner(ps) then Residual(gross, ps) else 0
  {}

  /** For a gross that is not negative, a strictly larger share never receives less. */
  lemma LargerShareGetsNoLess(gross: nat, ps: seq<Party>, i: nat, j: nat)
    requires i < |ps| && j < |ps| && Sum(Shares(ps)) == FACTOR
    requires ps[i].share > ps[j].share
    ensures Amounts(gross, ps)[i] >= Amounts(gross, ps)[j]
  {
    ResidualIsSmall(gross, ps);
    WinnerIsFirstBest(ps, |ps|);
    AmountAt(gross, ps, i);
    AmountAt(gross, ps, j);
    assert !Beats(ps[i], ps[Winner(ps)]);
    MulMonotone(ps[j].share, ps[i].share, gross);
    SliceMonotone(gross, ps[j], ps[i]);
  }

  lemma SliceMonotone(gross: int, p: Party, q: Party)
    requires gross * p.share <= gross * q.share
    ensures Slice(gross, p) <= Slice(gross, q)
  {}

  // -------------------------------------------------------- order independence

  datatype Paid = Paid(party: Party, amount: int)

  /** Each line's share and role with the amount it receives. */
  function Payout(gross: int, ps: seq<Party>): (paid: seq<Paid>)
    ensures |paid| == |ps|
    ensures forall i :: 0 <= i < |ps| ==> paid[i] == Paid(ps[i], Amounts(gross, ps)[i])
  {
    seq(|ps|, i requires 0 <= i < |ps| => Paid(ps[i], Amounts(gross, ps)[i]))
  }

  function Base(gross: int, ps: seq<Party>): (paid: seq<Paid>)
    ensures |paid| == |ps|
    ensures forall i :: 0 <= i < |ps| ==> paid[i] == Paid(ps[i], Slice(gross, ps[i]))
  {
    seq(|ps|, i requires 0 <= i < |ps| => Paid(ps[i], Slice(gross, ps[i])))
  }

  lemma BaseOfPermutation(gross: int, a: seq<Party>, b: seq<Party>)
    requires multiset(a) == multiset(b)
    ensures multiset(Base(gross, a)) == multiset(Base(gross, b))
    ensures multiset(Floors(gross, a)) == multiset(Floors(gross, b))
  {
    hide Slice;
    var pay, slice := (p: Party) => Paid(p, Slice(gross, p)), (p: Party) => Slice(gross, p);
    MapOfMultiset(pay, a, b);
    MapOfMultiset(slice, a, b);
    assert Base(gross, a) == Map(pay, a) && Base(gross, b) == Map(pay, b);
    assert Floors(gross, a) == Map(slice, a) && Floors(gross, b) == Map(slice, b);
  }

  lemma PermutationFacts(gross: int, a: seq<Party>, b: seq<Party>)
    requires multiset(a) == multiset(b) && a != []
    ensures b != [] && Residual(gross, a) == Residual(gross, b) && a[Winner(a)] == b[Winner(b)]
    ensures multiset(Base(gross, a)) == multiset(Base(gross, b))
  {
    BaseOfPermutation(gross, a, b);
    SumOfMultiset(Floors(gross, a), Floors(gross, b));
    assert a[0] in multiset(b);
    WinnerIsFirstBest(a, |a|);
    WinnerIsFirstBest(b, |b|);
    var x, y := a[Winner(a)], b[Winner(b)];
    assert x in multiset(b) && y in multiset(a);
    var i :| 0 <= i < |b| && b[i] == x;
    var j :| 0 <= j < |a| && a[j] == y;
    BeatsTotal(x, y);
  }

  lemma PayoutIsBase(gross: int, ps: seq<Party>)
    requires ps != []
    ensures var w := Winner(ps);
            Payout(gross, ps) == Base(gross, ps)[w := Paid(ps[w], Slice(gross, ps[w]) + Residual(gross, ps))]
  {
    forall i | 0 <= i < |ps| ensures Amounts(gross, ps)[i] == Slice(gross, ps[i]) + if i == Winner(ps) then Residual(gross, ps) else 0 {
      AmountAt(gross, ps, i);
    }
  }

  /** Reordering the lines pays the same amounts to the same shares and roles. */
  lemma SplitIgnoresOrder(gross: int, a: seq<Party>, b: seq<Party>)
    requires multiset(a) == multiset(b)
    ensures multiset(Payout(gross, a)) == multiset(Payout(gross, b))
  {
    if a == [] {
      assert |multiset(b)| == 0;
      assert Payout(gross, a) == Payout(gross, b) == [];
    } else {
      PermutationFacts(gross, a, b);
      PayoutIsBase(gross, a);
      PayoutIsBase(gross, b);
    }
  }

  /** No other line has the winner's share and role. */
  ghost predicate WinnerIsAlone(ps: seq<Party>)
    requires ps != []
  {
    forall k :: 0 <= k < |ps| && ps[k] == ps[Winner(ps)] ==> k == Winner(ps)
  }

  /** If the winner is alone, or there is no residual to place, each line keeps its own amount under any reordering. */
  lemma EachLineKeepsItsAmount(gross: int, a: seq<Party>, b: seq<Party>, i: nat, j: nat)
    requires multiset(a) == multiset(b) && i < |a| && j < |b| && a[i] == b[j]
    requires WinnerIsAlone(a) || Residual(gross, a) == 0
    ensures Amounts(gross, a)[i] == Amounts(gross, b)[j]
  {
    PermutationFacts(gross, a, b);
    AmountAt(gross, a, i);
    AmountAt(gross, b, j);
    var w := a[Winner(a)];
    if Residual(gross, a) != 0 && a[i] == w && j != Winner(b) {
      TwiceInMultiset(b, j, Winner(b));
      OnceInMultiset(a, Winner(a));
    }
  }

  /** That condition is exact: otherwise two lines of one share and role are paid differently, by their place alone. */
  lemma EqualLinesArePaidAlike(gross: int, ps: seq<Party>)
    requires ps != []
    ensures (forall i, j :: 0 <= i < |ps| && 0 <= j < |ps| && ps[i] == ps[j] ==> Amounts(gross, ps)[i] == Amounts(gross, ps)[j])
            <==> WinnerIsAlone(ps) || Residual(gross, ps) == 0
  {
    hide Amounts;
    forall i | 0 <= i < |ps|
      ensures Amounts(gross, ps)[i] == Slice(gross, ps[i]) + if i == Winner(ps) then Residual(gross, ps) else 0
    {
      AmountAt(gross, ps, i);
    }
    if !WinnerIsAlone(ps) && Residual(gross, ps) != 0 {
      var k :| 0 <= k < |ps| && ps[k] == ps[Winner(ps)] && k != Winner(ps);
      assert Amounts(gross, ps)[k] != Amounts(gross, ps)[Winner(ps)];
    }
  }

  lemma TwiceInMultiset(s: seq<Party>, i: nat, j: nat)
    requires i < |s| && j < |s| && i != j && s[i] == s[j]
    ensures multiset(s)[s[i]] >= 2
  {
    var lo, hi := if i < j then i else j, if i < j then j else i;
    assert s == s[..lo] + [s[lo]] + s[lo + 1..hi] + [s[hi]] + s[hi + 1..];
  }

  lemma OnceInMultiset(s: seq<Party>, i: nat)
    requires i < |s| && forall k :: 0 <= k < |s| && s[k] == s[i] ==> k == i
    ensures multiset(s)[s[i]] == 1
  {
    assert s == s[..i] + [s[i]] + s[i + 1..];
    assert s[i] !in s[..i] && s[i] !in s[i + 1..];
    assert multiset(s) == multiset(s[..i]) + multiset([s[i]]) + multiset(s[i + 1..]);
  }
}
