/**
 Six-place decimal strings. The metering and the settlement audit each carry their own copy of
 this parser and printer; both use six places, so one definition serves both.
 */
module Decimal {
  import opened Prelude
  import opened Text

  const PLACES: nat := 6
  const FACTOR: nat := 1000000

  function Zeros(n: nat): (s: string)
    ensures |s| == n && AllDigits(s)
  {
    seq(n, i => '0')
  }

  /** Where the first point stands, or the length when there is none. */
  function PointIndex(s: string): (i: nat)
    ensures i <= |s|
  {
    if s == "" || s[0] == '.' then 0 else 1 + PointIndex(s[1..])
  }

  /** Sign, integer part and fraction part, as strip and split at the first point leave them. */
  datatype Parts = Parts(negative: bool, whole: string, fraction: string)

  function Dissect(s: string): Parts {
    var t := Strip(s);
    var negative := t != "" && t[0] == '-';
    var u := if t != "" && (t[0] == '-' || t[0] == '+') then t[1..] else t;
    var i := PointIndex(u);
    Parts(negative, u[..i], if i < |u| then u[i + 1..] else "")
  }

  function Signed(negative: bool, n: int): int {
    if negative then -n else n
  }

  /** None where the source raises ValueError. */
  function ParseDecimal(s: string): Option<int> {
    var p := Dissect(s);
    if p.whole == "" || !AllDigits(p.whole) || !AllDigits(p.fraction) then None
    else
      var padded := (p.fraction + Zeros(PLACES))[..PLACES];
      Some(Signed(p.negative, ValueOf(p.whole + padded)))
  }

  /** The parser that answers 0 for malformed text. */
  function ParseDecimalOrZero(s: string): int {
    var p := ParseDecimal(s);
    if p.Some? then p.value else 0
  }

  function ZeroFill(s: string, width: nat): string {
    if |s| < width then Zeros(width - |s|) + s else s
  }

  function Abs(n: int): nat {
    if n < 0 then -n else n
  }

  function Unsigned(a: string, f: string): string {
    a + ['.'] + f
  }

  /** A sign, an integer part, a point and a fraction part. */
  function Spelled(negative: bool, a: string, f: string): string {
    if negative then ['-'] + Unsigned(a, f) else Unsigned(a, f)
  }

  function FormatDecimal(n: int): string {
    var s := ZeroFill(NatText(Abs(n)), PLACES + 1);
    Spelled(n < 0, s[..|s| - PLACES], s[|s| - PLACES..])
  }

  /**
   The strings the printer emits: an optional minus, digits without a leading zero, a point,
   six digits, and no minus in front of zero.
   */
  predicate IsCanonicalDecimal(s: string) {
    var body := if s != "" && s[0] == '-' then s[1..] else s;
    var k := |body| - 7;
    && k > 0 && body[k] == '.'
    && NoLeadingZero(body[..k]) && AllDigits(body[k + 1..])
    && (s[0] == '-' ==> ValueOf(body[..k] + body[k + 1..]) > 0)
  }

  // ------------------------------------------------------------------ lemmas

  lemma {:induction false} PointIndexAfterDigits(a: string, f: string)
    requires AllDigits(a)
    ensures PointIndex(Unsigned(a, f)) == |a|
  {
    if a != "" {
      assert Unsigned(a, f)[1..] == Unsigned(a[1..], f);
      PointIndexAfterDigits(a[1..], f);
    }
  }

  lemma UnsignedPieces(a: string, f: string)
    requires a != "" && f != ""
    ensures var u := Unsigned(a, f);
            && |u| == |a| + 1 + |f| && u[..|a|] == a && u[|a|] == '.' && u[|a| + 1..] == f
            && u[0] == a[0] && u[|u| - 1] == f[|f| - 1]
  {}

  lemma Behind(c: char, u: string)
    requires u != ""
    ensures var s := [c] + u; |s| == |u| + 1 && s[0] == c && s[1..] == u && s[|s| - 1] == u[|u| - 1]
  {}

  lemma DissectBody(negative: bool, u: string)
    requires u != "" && !IsSpace(u[0]) && !IsSpace(u[|u| - 1]) && u[0] != '-' && u[0] != '+'
    ensures var i := PointIndex(u);
            Dissect(if negative then ['-'] + u else u) == Parts(negative, u[..i], if i < |u| then u[i + 1..] else "")
  {
    var s := if negative then ['-'] + u else u;
    Behind('-', u);
    StripNothing(s);
    hide Strip, PointIndex, IsSpace;
  }

  /** A sign, digits, a point and digits dissect into those pieces. */
  lemma DissectSpelled(negative: bool, a: string, f: string)
    requires a != "" && AllDigits(a) && f != "" && AllDigits(f)
    ensures Dissect(Spelled(negative, a, f)) == Parts(negative, a, f)
  {
    UnsignedPieces(a, f);
    var u := Unsigned(a, f);
    assert IsDigit(a[0]) && IsDigit(f[|f| - 1]);
    PointIndexAfterDigits(a, f);
    hide Dissect, PointIndex, Unsigned;
    DissectBody(negative, u);
  }

  lemma StripNothing(s: string)
    requires s != "" && !IsSpace(s[0]) && !IsSpace(s[|s| - 1])
    ensures Strip(s) == s
  {}

  lemma {:induction false} ZerosDenoteZero(n: nat)
    ensures ValueOf(Zeros(n)) == 0
  {
    if n > 0 {
      assert Zeros(n)[..n - 1] == Zeros(n - 1);
      ZerosDenoteZero(n - 1);
    }
  }

  lemma {:induction false} ZeroFillDenotes(s: string, width: nat)
    requires AllDigits(s)
    ensures AllDigits(ZeroFill(s, width)) && ValueOf(ZeroFill(s, width)) == ValueOf(s)
  {
    if |s| < width {
      ValueOfConcat(Zeros(width - |s|), s);
      ZerosDenoteZero(width - |s|);
    }
  }

  /** Filling up to its own length recovers any digit string from its value. */
  lemma {:induction false} ZeroFillRecovers(s: string)
    requires s != "" && AllDigits(s)
    ensures ZeroFill(NatText(ValueOf(s)), |s|) == s
  {
    if NoLeadingZero(s) {
      SpellingIsUnique(s);
    } else {
      var rest := s[1..];
      LeadingZero(s);
      ZeroFillRecovers(rest);
      OneMoreZero(NatText(ValueOf(s)), |rest|);
    }
  }

  lemma LeadingZero(s: string)
    requires s != "" && AllDigits(s) && !NoLeadingZero(s)
    ensures s == "0" + s[1..] && s[1..] != "" && ValueOf(s) == ValueOf(s[1..])
  {
    ValueOfConcat("0", s[1..]);
    ZerosDenoteZero(1);
    assert Zeros(1) == "0";
  }

  lemma OneMoreZero(t: string, width: nat)
    requires |ZeroFill(t, width)| == width
    ensures ZeroFill(t, width + 1) == "0" + ZeroFill(t, width)
  {
    assert |t| <= width;
    assert Zeros(width + 1 - |t|) == "0" + Zeros(width - |t|);
  }

  /** The printer's text, cut at its point. */
  lemma FormatPieces(n: int) returns (a: string, f: string)
    ensures a != "" && AllDigits(a) && |f| == PLACES && AllDigits(f)
    ensures FormatDecimal(n) == Spelled(n < 0, a, f)
    ensures a + f == ZeroFill(NatText(Abs(n)), PLACES + 1) && ValueOf(a + f) == Abs(n)
  {
    var s := ZeroFill(NatText(Abs(n)), PLACES + 1);
    NatTextDenotes(Abs(n));
    ZeroFillDenotes(NatText(Abs(n)), PLACES + 1);
    var k := |s| - PLACES;
    assert 0 < k <= |s|;
    a, f := s[..k], s[k..];
    assert s == a + f by {
      hide *;
    }
  }

  /** parse(format(n)) == n for every integer. */
  lemma ParseUndoesFormat(n: int)
    ensures ParseDecimal(FormatDecimal(n)) == Some(n)
  {
    var a, f := FormatPieces(n);
    ParseSpelled(n < 0, a, f);
  }

  /** What makes text canonical, once it is cut into its pieces. */
  predicate CanonicalPieces(negative: bool, a: string, f: string) {
    NoLeadingZero(a) && |f| == PLACES && AllDigits(f) && (negative ==> ValueOf(a + f) > 0)
  }

  lemma CutSpelled(negative: bool, a: string, f: string)
    requires a != "" && IsDigit(a[0]) && |f| == PLACES
    ensures var s := Spelled(negative, a, f); var body := if s != "" && s[0] == '-' then s[1..] else s;
            s != "" && (s[0] == '-' <==> negative) && |body| == |a| + 7 && body[..|a|] == a && body[|a|] == '.' && body[|a| + 1..] == f
  {
    UnsignedPieces(a, f);
    Behind('-', Unsigned(a, f));
    hide Unsigned;
  }

  lemma CanonicalWhenSpelled(negative: bool, a: string, f: string)
    requires CanonicalPieces(negative, a, f)
    ensures IsCanonicalDecimal(Spelled(negative, a, f))
  {
    CutSpelled(negative, a, f);
    hide Spelled, ValueOf;
  }

  lemma CanonicalIsSpelled(s: string) returns (negative: bool, a: string, f: string)
    requires IsCanonicalDecimal(s)
    ensures CanonicalPieces(negative, a, f) && s == Spelled(negative, a, f)
  {
    negative := s[0] == '-';
    var body := if negative then s[1..] else s;
    var k := |body| - 7;
    a, f := body[..k], body[k + 1..];
    Uncut(body, k);
    hide IsCanonicalDecimal, ValueOf;
    assert negative ==> s == ['-'] + s[1..];
  }

  lemma Uncut(body: string, k: nat)
    requires k < |body| && body[k] == '.'
    ensures body == Unsigned(body[..k], body[k + 1..])
  {}

  lemma FormatIsCanonical(n: int)
    ensures IsCanonicalDecimal(FormatDecimal(n))
  {
    var a, f := FormatPieces(n);
    NatTextDenotes(Abs(n));
    if |a| > 1 {
      assert a[0] == (a + f)[0] == NatText(Abs(n))[0];
    }
    CanonicalWhenSpelled(n < 0, a, f);
  }

  lemma ParseSpelled(negative: bool, a: string, f: string)
    requires a != "" && AllDigits(a) && |f| == PLACES && AllDigits(f)
    ensures ParseDecimal(Spelled(negative, a, f)) == Some(Signed(negative, ValueOf(a + f)))
  {
    DissectSpelled(negative, a, f);
    hide Dissect, Spelled, ValueOf;
    assert (f + Zeros(PLACES))[..PLACES] == f;
  }

  lemma FormatSigned(negative: bool, a: string, f: string)
    requires CanonicalPieces(negative, a, f)
    ensures FormatDecimal(Signed(negative, ValueOf(a + f))) == Spelled(negative, a, f)
  {
    FillRecoversPieces(a, f);
    hide Spelled, ZeroFill, ValueOf, NatText;
    assert Abs(Signed(negative, ValueOf(a + f))) == ValueOf(a + f);
    assert Signed(negative, ValueOf(a + f)) < 0 <==> negative;
  }

  lemma FormatUndoesParse(s: string)
    requires IsCanonicalDecimal(s)
    ensures ParseDecimal(s).Some? && FormatDecimal(ParseDecimal(s).value) == s
  {
    var negative, a, f := CanonicalIsSpelled(s);
    ParseSpelled(negative, a, f);
    FormatSigned(negative, a, f);
  }

  lemma FillRecoversPieces(a: string, f: string)
    requires NoLeadingZero(a) && AllDigits(f) && |f| == PLACES
    ensures AllDigits(a + f)
    ensures var s := ZeroFill(NatText(ValueOf(a + f)), PLACES + 1);
            |s| > PLACES && s[..|s| - PLACES] == a && s[|s| - PLACES..] == f
  {
    if |a| == 1 {
      ZeroFillRecovers(a + f);
    } else {
      assert (a + f)[0] == a[0];
      SpellingIsUnique(a + f);
    }
  }

  /** The canonical strings are exactly those a parse followed by a print leaves alone. */
  lemma RoundTripExactlyOnCanonical(s: string)
    ensures IsCanonicalDecimal(s) <==> ParseDecimal(s).Some? && FormatDecimal(ParseDecimal(s).value) == s
  {
    if IsCanonicalDecimal(s) {
      FormatUndoesParse(s);
    } else if ParseDecimal(s).Some? {
      FormatIsCanonical(ParseDecimal(s).value);
    }
  }

  lemma MulMonotone(x: int, y: int, d: int)
    requires x <= y && 0 <= d
    ensures x * d <= y * d
  {
    assert 0 <= (y - x) * d == y * d - x * d;
  }

  lemma QuotientIs(n: int, d: int, q: int)
    requires d > 0 && q * d <= n < q * d + d
    ensures n / d == q
  {
    var r := n / d;
    assert r * d <= n < r * d + d;
    if r < q {
      MulMonotone(r + 1, q, d);
    } else if q < r {
      MulMonotone(q + 1, r, d);
    }
  }

  lemma {:induction false} Pow10Add(i: nat, j: nat)
    ensures Pow10(i + j) == Pow10(i) * Pow10(j)
  {
    if i > 0 {
      Pow10Add(i - 1, j);
      assert Pow10(i + j) == 10 * (Pow10(i - 1) * Pow10(j));
    }
  }

  lemma Pow10OfPlaces()
    ensures Pow10(PLACES) == FACTOR
  {
    assert Pow10(1) == 10 && Pow10(2) == 100 && Pow10(3) == 1000;
    Pow10Add(3, 3);
  }

  /**
   Text a.f denotes ValueOf(a + f) / 10^|f|. However long the fraction, the parser returns the
   sign times the floor of the absolute value times 10^6.
   */
  lemma ParseTruncates(s: string)
    requires ParseDecimal(s).Some?
    ensures var p := Dissect(s);
            AllDigits(p.whole + p.fraction) &&
            ParseDecimal(s).value == Signed(p.negative, ValueOf(p.whole + p.fraction) * FACTOR / Pow10(|p.fraction|))
  {
    PaddedTruncates(Dissect(s).whole, Dissect(s).fraction);
  }

  lemma PaddedTruncates(a: string, f: string)
    requires AllDigits(a) && AllDigits(f)
    ensures AllDigits(a + f) && AllDigits(a + (f + Zeros(PLACES))[..PLACES])
    ensures ValueOf(a + (f + Zeros(PLACES))[..PLACES]) == ValueOf(a + f) * FACTOR / Pow10(|f|)
  {
    Pow10OfPlaces();
    var padded := (f + Zeros(PLACES))[..PLACES];
    var v, w := ValueOf(a + f), ValueOf(a + padded);
    if |f| >= PLACES {
      var tail := f[PLACES..];
      assert padded == f[..PLACES] && a + f == (a + padded) + tail;
      ValueOfConcat(a + padded, tail);
      Pow10Add(PLACES, |tail|);
      TruncateLong(v, w, ValueOf(tail), Pow10(|tail|));
    } else {
      var zeros := Zeros(PLACES - |f|);
      assert padded == f + zeros && a + padded == (a + f) + zeros;
      ValueOfConcat(a + f, zeros);
      ZerosDenoteZero(|zeros|);
      Pow10Add(|f|, |zeros|);
      TruncateShort(v, w, Pow10(|f|), Pow10(|zeros|));
    }
  }

  lemma TruncateLong(v: nat, w: nat, rest: nat, d: nat)
    requires v == w * d + rest && rest < d
    ensures v * FACTOR / (FACTOR * d) == w
  {
    assert w * (FACTOR * d) == FACTOR * (w * d);
    QuotientIs(v * FACTOR, FACTOR * d, w);
  }

  lemma TruncateShort(v: nat, w: nat, p: nat, q: nat)
    requires p > 0 && w == v * q && p * q == FACTOR
    ensures v * FACTOR / p == w
  {
    assert v * (p * q) == (v * q) * p;
    QuotientIs(v * FACTOR, p, w);
  }

  /** Six places, so a scaled unit is a millionth. */
  lemma PlacesWrittenOut()
    ensures PLACES == 6 && FACTOR == 1000000
  {}
}
