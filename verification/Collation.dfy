/** The two orders on keys that are in play: Python's, by code point, and the documented one, by UTF-16 code unit. */
module Collation {
  import opened Text

  datatype Order = CodePoint | CodeUnit

  // ---------------------------------------------------------- UTF-16 code units

  /** One unit below 0x10000, a surrogate pair from there on. */
  function UnitsOf(c: char): (u: seq<int>)
    ensures 1 <= |u| <= 2
  {
    var n := c as int;
    if n < 0x10000 then [n] else [0xD800 + (n - 0x10000) / 0x400, 0xDC00 + (n - 0x10000) % 0x400]
  }

  function Units(s: string): seq<int> {
    if s == "" then [] else UnitsOf(s[0]) + Units(s[1..])
  }

  predicate UnitsLess(a: seq<int>, b: seq<int>) {
    if b == [] then false
    else if a == [] then true
    else a[0] < b[0] || (a[0] == b[0] && UnitsLess(a[1..], b[1..]))
  }

  predicate Before(o: Order, a: string, b: string) {
    match o
    case CodePoint => Less(a, b)
    case CodeUnit => UnitsLess(Units(a), Units(b))
  }

  // ----------------------------------------------------- where the orders part

  predicate Astral(c: char) {
    c as int >= 0x10000
  }

  /** Above the surrogates, but still one unit. */
  predicate HighPlane(c: char) {
    0xE000 <= c as int < 0x10000
  }

  predicate CrossChars(x: char, y: char) {
    (Astral(x) && HighPlane(y)) || (HighPlane(x) && Astral(y))
  }

  /** At their first difference one key has a character beyond 0xFFFF and the other one from 0xE000 to 0xFFFF. */
  predicate Crosses(a: string, b: string) {
    exists i :: 0 <= i < |a| && i < |b| && a[..i] == b[..i] && CrossChars(a[i], b[i])
  }

  lemma CrossesStep(a: string, b: string)
    requires a != "" && b != ""
    ensures a[0] == b[0] ==> (Crosses(a, b) <==> Crosses(a[1..], b[1..]))
    ensures a[0] != b[0] ==> (Crosses(a, b) <==> CrossChars(a[0], b[0]))
  {
    if i :| 0 <= i < |a| && i < |b| && a[..i] == b[..i] && CrossChars(a[i], b[i]) {
      if i > 0 {
        assert a[..i][0] == b[..i][0];
        assert a[1..][..i - 1] == a[..i][1..] && b[1..][..i - 1] == b[..i][1..];
        assert a[1..][i - 1] == a[i] && b[1..][i - 1] == b[i];
      }
    }
    if CrossChars(a[0], b[0]) {
      assert a[..0] == b[..0];
    }
    if a[0] == b[0] && Crosses(a[1..], b[1..]) {
      var i :| 0 <= i < |a[1..]| && i < |b[1..]| && a[1..][..i] == b[1..][..i] && CrossChars(a[1..][i], b[1..][i]);
      assert a[..i + 1] == [a[0]] + a[1..][..i] && b[..i + 1] == [b[0]] + b[1..][..i];
      assert a[i + 1] == a[1..][i] && b[i + 1] == b[1..][i];
    }
  }

  /** A common front does not matter. */
  lemma {:induction false} CommonUnits(p: seq<int>, x: seq<int>, y: seq<int>)
    ensures UnitsLess(p + x, p + y) <==> UnitsLess(x, y)
  {
    if p == [] {
      assert p + x == x && p + y == y;
    } else {
      assert (p + x)[1..] == p[1..] + x && (p + y)[1..] == p[1..] + y;
      CommonUnits(p[1..], x, y);
    }
  }

  lemma DifferentHeads(c: char, d: char, x: seq<int>, y: seq<int>)
    requires c != d
    ensures UnitsLess(UnitsOf(c) + x, UnitsOf(d) + y) <==> (if CrossChars(c, d) then d < c else c < d)
  {
    var u, v := UnitsOf(c) + x, UnitsOf(d) + y;
    assert u[0] == UnitsOf(c)[0] && v[0] == UnitsOf(d)[0];
    if Astral(c) && Astral(d) && u[0] == v[0] {
      assert u[1..][0] == UnitsOf(c)[1] && v[1..][0] == UnitsOf(d)[1];
    }
  }

  /** The two orders rank a pair of different keys alike exactly when the pair does not cross. */
  lemma {:induction false} OrdersAgreeExactly(a: string, b: string)
    requires a != b
    ensures (Before(CodeUnit, a, b) <==> Before(CodePoint, a, b)) <==> !Crosses(a, b)
  {
    if a != "" && b != "" {
      CrossesStep(a, b);
      if a[0] == b[0] {
        assert a == [a[0]] + a[1..] && b == [b[0]] + b[1..];
        CommonUnits(UnitsOf(a[0]), Units(a[1..]), Units(b[1..]));
        OrdersAgreeExactly(a[1..], b[1..]);
      } else {
        DifferentHeads(a[0], b[0], Units(a[1..]), Units(b[1..]));
      }
    }
  }

  /** The shortest such pair: one character from 0xE000 to 0xFFFF against one beyond. */
  lemma OrdersDisagree(x: char, y: char)
    requires HighPlane(x) && Astral(y)
    ensures Before(CodePoint, [x], [y]) && Before(CodeUnit, [y], [x]) && !Before(CodeUnit, [x], [y])
  {
    assert x < y;
    assert Units([x]) == UnitsOf(x) + [] && Units([y]) == UnitsOf(y) + [];
    DifferentHeads(x, y, [], []);
    DifferentHeads(y, x, [], []);
  }

  // ------------------------------------------------- both are strict total orders

  lemma CrossesIsSymmetric(a: string, b: string)
    ensures Crosses(a, b) <==> Crosses(b, a)
  {}

  lemma {:induction false} NotBeforeItself(u: seq<int>)
    ensures !UnitsLess(u, u)
  {
    if u != [] {
      NotBeforeItself(u[1..]);
    }
  }

  lemma Trichotomy(o: Order, a: string, b: string)
    ensures a == b <==> !Before(o, a, b) && !Before(o, b, a)
    ensures !(Before(o, a, b) && Before(o, b, a))
  {
    LessTrichotomy(a, b);
    if a == b {
      NotBeforeItself(Units(a));
    } else {
      OrdersAgreeExactly(a, b);
      OrdersAgreeExactly(b, a);
      CrossesIsSymmetric(a, b);
    }
  }

  lemma {:induction false} UnitsTransitive(a: seq<int>, b: seq<int>, c: seq<int>)
    requires UnitsLess(a, b) && UnitsLess(b, c)
    ensures UnitsLess(a, c)
  {
    if a != [] && a[0] == b[0] == c[0] {
      UnitsTransitive(a[1..], b[1..], c[1..]);
    }
  }

  lemma Transitivity(o: Order, a: string, b: string, c: string)
    requires Before(o, a, b) && Before(o, b, c)
    ensures Before(o, a, c)
  {
    match o
    case CodePoint => LessTransitive(a, b, c);
    case CodeUnit => UnitsTransitive(Units(a), Units(b), Units(c));
  }
}
