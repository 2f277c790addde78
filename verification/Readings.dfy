/** When joined text can be cut back into its pieces in one way only. */
module Readings {
  import opened Text

  predicate AllNonempty(t: seq<string>) {
    forall i :: 0 <= i < |t| ==> t[i] != ""
  }

  /** The text, cut at separators into n pieces, none of them empty. */
  predicate Reads(sep: char, text: string, n: nat, u: seq<string>) {
    |u| == n && AllNonempty(u) && Join(sep, u) == text
  }

  /**
   The separator at position p of piece i can take over from a neighbouring cut: from the next one
   unless it opens the piece, from the one before unless it closes it.
   */
  predicate CanCut(sep: char, t: seq<string>, i: nat, p: nat) {
    && i < |t| && p < |t[i]| && t[i][p] == sep
    && ((i + 1 < |t| && p > 0) || (i > 0 && p + 1 < |t[i]|))
  }

  predicate SingleReading(sep: char, t: seq<string>) {
    forall i: nat, p: nat | i < |t| && p < |t[i]| :: !CanCut(sep, t, i, p)
  }

  // ------------------------------------------------------------- joining

  lemma JoinHead(sep: char, head: string, tail: seq<string>)
    requires tail != []
    ensures Join(sep, [head] + tail) == head + [sep] + Join(sep, tail)
  {
    assert ([head] + tail)[1..] == tail;
  }

  lemma {:induction false} JoinLast(sep: char, front: seq<string>, last: string)
    requires front != []
    ensures Join(sep, front + [last]) == Join(sep, front) + [sep] + last
  {
    assert (front + [last])[1..] == front[1..] + [last];
    if |front| > 1 {
      JoinLast(sep, front[1..], last);
    }
  }

  /** What follows the second piece. */
  function After(sep: char, t: seq<string>): string
    requires |t| >= 2
  {
    if |t| == 2 then "" else [sep] + Join(sep, t[2..])
  }

  lemma JoinTwo(sep: char, t: seq<string>)
    requires |t| >= 2
    ensures Join(sep, t) == (t[0] + [sep] + t[1]) + After(sep, t)
  {
    var rest := After(sep, t);
    assert Join(sep, t[1..]) == t[1] + rest by {
      JoinFirst(sep, t[1..]);
      assert t[1..][1..] == t[2..];
    }
    hide After, Join;
    JoinFirst(sep, t);
    Associate(t[0] + [sep], t[1], rest);
  }

  lemma JoinFirst(sep: char, t: seq<string>)
    requires t != []
    ensures Join(sep, t) == if |t| == 1 then t[0] + "" else t[0] + [sep] + Join(sep, t[1..])
    ensures |t| > 1 ==> Join(sep, t) == t[0] + ([sep] + Join(sep, t[1..]))
  {}

  lemma Associate(a: string, b: string, c: string)
    ensures a + (b + c) == (a + b) + c
  {}

  /** Two neighbouring pieces may be cut differently without changing the joined text. */
  lemma {:induction false} Rejoin(sep: char, t: seq<string>, i: nat, a: string, b: string)
    requires i + 1 < |t| && t[i] + [sep] + t[i + 1] == a + [sep] + b
    ensures Join(sep, t[i := a][i + 1 := b]) == Join(sep, t)
  {
    var u := t[i := a][i + 1 := b];
    if i == 0 {
      JoinTwo(sep, t);
      JoinTwo(sep, u);
      assert u[2..] == t[2..];
    } else {
      Rejoin(sep, t[1..], i - 1, a, b);
      assert u[1..] == t[1..][i - 1 := a][i := b];
    }
  }

  // -------------------------------------------------------- a second reading

  /** If what is left of t reaches further back than what is left of u, a separator stands inside a piece of t. */
  lemma {:induction false} LateCut(sep: char, t: seq<string>, u: seq<string>, x: string) returns (i: nat, p: nat)
    requires |t| == |u| > 0 && AllNonempty(t) && AllNonempty(u)
    requires Join(sep, t) == x + [sep] + Join(sep, u)
    ensures i < |t| && p + 1 < |t[i]| && t[i][p] == sep
  {
    if |t| == 1 {
      i, p := 0, |x|;
    } else {
      var head := x + [sep] + u[0];
      assert Join(sep, t) == head + [sep] + Join(sep, u[1..]);
      if |t[0]| >= |head| {
        i, p := 0, |x|;
        assert Join(sep, t)[|x|] == sep;
      } else {
        var y := CutOff(sep, t[0], Join(sep, t[1..]), head, Join(sep, u[1..]));
        i, p := LateCut(sep, t[1..], u[1..], y);
        i := i + 1;
      }
    }
  }

  /** Of two fronts before a separator the longer continues the shorter with one. */
  lemma CutOff(sep: char, a: string, v: string, b: string, w: string) returns (y: string)
    requires a + [sep] + v == b + [sep] + w && |a| < |b|
    ensures b == a + [sep] + y && v == y + [sep] + w && b[|a|] == sep
  {
    y := b[|a| + 1..];
    var s := a + [sep] + v;
    assert s[..|b|] == b && s[|a|] == sep && s[..|a|] == a;
    assert v == s[|a| + 1..] && w == s[|b| + 1..];
    assert s[|a| + 1..|b|] == y && s[|b|] == sep;
  }

  lemma {:induction false} SecondReadingCuts(sep: char, t: seq<string>, u: seq<string>) returns (i: nat, p: nat)
    requires |t| == |u| && AllNonempty(t) && AllNonempty(u)
    requires Join(sep, t) == Join(sep, u) && t != u
    ensures CanCut(sep, t, i, p)
  {
    if |t| > 1 {
      var v, w := Join(sep, t[1..]), Join(sep, u[1..]);
      assert t == [t[0]] + t[1..] && u == [u[0]] + u[1..];
      if t[0] == u[0] {
        DropCommon(t[0] + [sep], v, w);
        i, p := SecondReadingCuts(sep, t[1..], u[1..]);
        i := i + 1;
      } else if |u[0]| < |t[0]| {
        var y := CutOff(sep, u[0], w, t[0], v);
        i, p := 0, |u[0]|;
      } else {
        assert |t[0]| < |u[0]| by {
          assert (t[0] + [sep] + v)[..|t[0]|] == t[0] && (u[0] + [sep] + w)[..|u[0]|] == u[0];
        }
        var y := CutOff(sep, t[0], v, u[0], w);
        i, p := LateCut(sep, t[1..], u[1..], y);
        i := i + 1;
      }
    }
  }

  lemma CutGivesReading(sep: char, t: seq<string>, i: nat, p: nat) returns (u: seq<string>)
    requires AllNonempty(t) && CanCut(sep, t, i, p)
    ensures Reads(sep, Join(sep, t), |t|, u) && u != t
  {
    var c := t[i];
    assert c == c[..p] + [sep] + c[p + 1..];
    if i + 1 < |t| && p > 0 {
      var a, b := c[..p], c[p + 1..] + [sep] + t[i + 1];
      assert c + [sep] + t[i + 1] == a + [sep] + b;
      Rejoin(sep, t, i, a, b);
      u := t[i := a][i + 1 := b];
      assert u[i] != t[i];
    } else {
      var a, b := t[i - 1] + [sep] + c[..p], c[p + 1..];
      assert t[i - 1] + [sep] + c == a + [sep] + b;
      Rejoin(sep, t, i - 1, a, b);
      u := t[i - 1 := a][i := b];
      assert u[i] != t[i];
    }
  }

  /** The joined text has a second reading exactly when some separator inside a piece can take over a cut. */
  lemma SecondReadingExactly(sep: char, t: seq<string>)
    requires AllNonempty(t)
    ensures (exists u :: Reads(sep, Join(sep, t), |t|, u) && u != t) <==> !SingleReading(sep, t)
  {
    if u :| Reads(sep, Join(sep, t), |t|, u) && u != t {
      var i, p := SecondReadingCuts(sep, t, u);
    }
    if !SingleReading(sep, t) {
      var i: nat, p: nat :| i < |t| && p < |t[i]| && CanCut(sep, t, i, p);
      var u := CutGivesReading(sep, t, i, p);
    }
  }
}
