/**
 canonical_sort_keys: objects are written with their keys in order, arrays keep their order. Its text
 is shown to decide equality of values in which objects are unordered. All of this holds in either key
 order; which of them is used shows in the text exactly where two keys of one object cross.
 */
module SortKeys {
  import opened Text
  import opened Collation
  import opened Json

  predicate DistinctKeys(ms: seq<Member>) {
    forall i, j :: 0 <= i < |ms| && 0 <= j < |ms| && ms[i].key == ms[j].key ==> i == j
  }

  /** Every object in the value has distinct keys, as every Python dict does. */
  predicate IsDict(v: JSON)
    decreases v
  {
    match v
    case Arr(items) => forall i :: 0 <= i < |items| ==> IsDict(items[i])
    case Obj(ms) => DistinctKeys(ms) && forall i :: 0 <= i < |ms| ==> IsDict(ms[i].value)
    case _ => true
  }

  function Insert(o: Order, m: Member, ms: seq<Member>): seq<Member> {
    if ms == [] then [m]
    else if Before(o, ms[0].key, m.key) then [ms[0]] + Insert(o, m, ms[1..])
    else [m] + ms
  }

  function Sort(o: Order, ms: seq<Member>): seq<Member> {
    if ms == [] then [] else Insert(o, ms[0], Sort(o, ms[1..]))
  }

  function NormaliseMembers(o: Order, ms: seq<Member>): (r: seq<Member>)
    ensures |r| == |ms|
    ensures forall i :: 0 <= i < |ms| ==> r[i] == Member(ms[i].key, Normalise(o, ms[i].value))
    decreases ms
  {
    seq(|ms|, i requires 0 <= i < |ms| => Member(ms[i].key, Normalise(o, ms[i].value)))
  }

  /** Sorts the keys of every object; normalising a value never changes a key. */
  function Normalise(o: Order, v: JSON): JSON
    decreases v
  {
    match v
    case Arr(items) => Arr(seq(|items|, i requires 0 <= i < |items| => Normalise(o, items[i])))
    case Obj(ms) => Obj(Sort(o, NormaliseMembers(o, ms)))
    case _ => v
  }

  function CanonicalText(o: Order, v: JSON): string {
    Print(Normalise(o, v))
  }

  /** Python sorts keys by code point. */
  function CanonicalSortKeys(v: JSON): string {
    CanonicalText(CodePoint, v)
  }

  // ------------------------------------------------- what a value means

  /** JSON values as data: arrays are ordered, objects are maps. */
  datatype Value =
    | Atom(v: JSON)
    | Array(items: seq<Value>)
    | Object(members: map<string, Value>)

  function KeySet(ms: seq<Member>): set<string> {
    set i | 0 <= i < |ms| :: ms[i].key
  }

  function IndexOf(ms: seq<Member>, k: string): (i: nat)
    requires k in KeySet(ms)
    ensures i < |ms| && ms[i].key == k
  {
    if ms[0].key == k then 0 else
      assert k in KeySet(ms[1..]) by {
        var i :| 0 <= i < |ms| && ms[i].key == k;
        assert ms[1..][i - 1].key == k;
      }
      1 + IndexOf(ms[1..], k)
  }

  function Meaning(v: JSON): Value
    decreases v
  {
    match v
    case Arr(items) => Array(seq(|items|, i requires 0 <= i < |items| => Meaning(items[i])))
    case Obj(ms) => Object(map k | k in KeySet(ms) :: Meaning(ms[IndexOf(ms, k)].value))
    case _ => Atom(v)
  }

  // ------------------------------------------------------------- sorting

  ghost predicate StrictlySorted(o: Order, ms: seq<Member>) {
    forall i, j :: 0 <= i < j < |ms| ==> Before(o, ms[i].key, ms[j].key)
  }

  lemma {:induction false} InsertKeepsMembers(o: Order, m: Member, ms: seq<Member>)
    ensures multiset(Insert(o, m, ms)) == multiset(ms) + multiset{m}
  {
    hide Before;
    if ms != [] {
      var head, rest := ms[0], ms[1..];
      assert ms == [head] + rest;
      if Before(o, head.key, m.key) {
        InsertKeepsMembers(o, m, rest);
        assert Insert(o, m, ms) == [head] + Insert(o, m, rest);
        hide Insert;
        assert multiset([head] + Insert(o, m, rest)) == multiset{head} + multiset(Insert(o, m, rest));
      } else {
        assert Insert(o, m, ms) == [m] + ms;
      }
    }
  }

  lemma SortedBehind(o: Order, x: Member, r: seq<Member>)
    requires StrictlySorted(o, r) && forall j :: 0 <= j < |r| ==> Before(o, x.key, r[j].key)
    ensures StrictlySorted(o, [x] + r)
  {
    hide Before;
  }

  lemma {:induction false} InsertSorts(o: Order, m: Member, ms: seq<Member>)
    requires StrictlySorted(o, ms)
    requires forall i :: 0 <= i < |ms| ==> ms[i].key != m.key
    ensures StrictlySorted(o, Insert(o, m, ms))
  {
    hide Before;
    if ms != [] {
      var rest := ms[1..];
      if Before(o, ms[0].key, m.key) {
        InsertSorts(o, m, rest);
        InsertKeepsMembers(o, m, rest);
        var r := Insert(o, m, rest);
        hide Insert;
        forall j | 0 <= j < |r| ensures Before(o, ms[0].key, r[j].key) {
          assert r[j] in multiset(r);
          assert r[j] == m || r[j] in rest;
        }
        SortedBehind(o, ms[0], r);
      } else {
        Trichotomy(o, ms[0].key, m.key);
        forall j | 0 <= j < |ms| ensures Before(o, m.key, ms[j].key) {
          if j > 0 {
            Transitivity(o, m.key, ms[0].key, ms[j].key);
          }
        }
        SortedBehind(o, m, ms);
      }
    }
  }

  lemma {:induction false} SortSorts(o: Order, ms: seq<Member>)
    requires DistinctKeys(ms)
    ensures StrictlySorted(o, Sort(o, ms)) && multiset(Sort(o, ms)) == multiset(ms)
  {
    if ms != [] {
      var rest := ms[1..];
      assert ms == [ms[0]] + rest;
      SortSorts(o, rest);
      forall i | 0 <= i < |Sort(o, rest)| ensures Sort(o, rest)[i].key != ms[0].key {
        assert Sort(o, rest)[i] in multiset(rest);
        var j :| 0 <= j < |rest| && rest[j] == Sort(o, rest)[i];
        assert ms[j + 1] == rest[j];
      }
      InsertSorts(o, ms[0], Sort(o, rest));
      InsertKeepsMembers(o, ms[0], Sort(o, rest));
    }
  }

  lemma SortKeepsMembers(o: Order, ms: seq<Member>)
    requires DistinctKeys(ms)
    ensures StrictlySorted(o, Sort(o, ms)) && DistinctKeys(Sort(o, ms))
    ensures forall m :: m in Sort(o, ms) <==> m in ms
  {
    SortSorts(o, ms);
    forall m ensures m in Sort(o, ms) <==> m in ms {
      assert m in multiset(Sort(o, ms)) <==> m in multiset(ms);
    }
    forall i, j | 0 <= i < |Sort(o, ms)| && 0 <= j < |Sort(o, ms)| && Sort(o, ms)[i].key == Sort(o, ms)[j].key ensures i == j {
      Trichotomy(o, Sort(o, ms)[i].key, Sort(o, ms)[j].key);
    }
  }

  lemma HasMember(y: seq<Member>)
    ensures y != [] ==> exists m :: m in y
  {
    if y != [] {
      assert y[0] in y;
    }
  }

  /** Strictly sorted lists with the same members are the same list. */
  lemma {:induction false} SortedListsAgree(o: Order, x: seq<Member>, y: seq<Member>)
    requires StrictlySorted(o, x) && StrictlySorted(o, y)
    requires forall m :: m in x <==> m in y
    ensures x == y
  {
    if x == [] {
      HasMember(y);
    } else {
      assert x[0] in x && x[0] in y;
      var j :| 0 <= j < |y| && y[j] == x[0];
      assert y[0] in y && y[0] in x;
      var i :| 0 <= i < |x| && x[i] == y[0];
      Trichotomy(o, x[0].key, y[0].key);
      assert x[0] == y[0];
      forall m ensures m in x[1..] <==> m in y[1..] {
        Trichotomy(o, x[0].key, m.key);
        assert m in x[1..] <==> m in x && m != x[0] by { InTail(o, x, m); }
        assert m in y[1..] <==> m in y && m != y[0] by { InTail(o, y, m); }
      }
      SortedListsAgree(o, x[1..], y[1..]);
      assert x == [x[0]] + x[1..] && y == [y[0]] + y[1..];
    }
  }

  lemma InTail(o: Order, x: seq<Member>, m: Member)
    requires StrictlySorted(o, x) && x != []
    ensures m in x[1..] <==> m in x && m != x[0]
  {
    Trichotomy(o, x[0].key, m.key);
    if m in x[1..] {
      var k :| 0 <= k < |x[1..]| && x[1..][k] == m;
      assert Before(o, x[0].key, x[k + 1].key);
    }
    assert x == [x[0]] + x[1..];
  }

  // -------------------------------------------------------- main results

  lemma NormalisedDistinct(o: Order, ms: seq<Member>)
    requires DistinctKeys(ms)
    ensures DistinctKeys(NormaliseMembers(o, ms)) && KeySet(NormaliseMembers(o, ms)) == KeySet(ms)
  {
    var r := NormaliseMembers(o, ms);
    forall i, j | 0 <= i < |r| && 0 <= j < |r| && r[i].key == r[j].key ensures i == j {
      assert ms[i].key == ms[j].key;
    }
    forall k ensures k in KeySet(r) <==> k in KeySet(ms) {
      if i :| 0 <= i < |ms| && ms[i].key == k {
        assert r[i].key == k;
      }
    }
  }

  /** Where a key stands in the sorted object, its normalised value stands beside it. */
  lemma SortedEntry(o: Order, ms: seq<Member>, k: string)
    requires DistinctKeys(ms)
    ensures k in KeySet(Sort(o, NormaliseMembers(o, ms))) <==> k in KeySet(ms)
    ensures k in KeySet(ms) ==>
              var s := Sort(o, NormaliseMembers(o, ms));
              s[IndexOf(s, k)] == Member(k, Normalise(o, ms[IndexOf(ms, k)].value))
  {
    var r := NormaliseMembers(o, ms);
    var s := Sort(o, r);
    NormalisedDistinct(o, ms);
    SortKeepsMembers(o, r);
    if k in KeySet(s) {
      var i := IndexOf(s, k);
      assert s[i] in r;
      var j :| 0 <= j < |r| && r[j] == s[i];
      assert k in KeySet(r);
    }
    if k in KeySet(ms) {
      var i := IndexOf(ms, k);
      assert r[i] in s;
      var j :| 0 <= j < |s| && s[j] == r[i];
      assert k in KeySet(s);
    }
  }

  lemma {:induction false} NormaliseKeepsMeaning(o: Order, v: JSON)
    requires IsDict(v)
    ensures Meaning(Normalise(o, v)) == Meaning(v) && IsDict(Normalise(o, v))
    decreases v
  {
    match v {
      case Arr(items) =>
        forall i | 0 <= i < |items|
          ensures Meaning(Normalise(o, items[i])) == Meaning(items[i]) && IsDict(Normalise(o, items[i]))
        {
          NormaliseKeepsMeaning(o, items[i]);
        }
        assert Meaning(Normalise(o, v)).items == Meaning(v).items;
      case Obj(ms) =>
        var s := Sort(o, NormaliseMembers(o, ms));
        forall i | 0 <= i < |ms|
          ensures Meaning(Normalise(o, ms[i].value)) == Meaning(ms[i].value) && IsDict(Normalise(o, ms[i].value))
        {
          NormaliseKeepsMeaning(o, ms[i].value);
        }
        forall k ensures k in KeySet(s) <==> k in KeySet(ms)
                 ensures k in KeySet(ms) ==> Meaning(s[IndexOf(s, k)].value) == Meaning(ms[IndexOf(ms, k)].value)
        {
          SortedEntry(o, ms, k);
        }
        assert Meaning(Normalise(o, v)).members == Meaning(v).members;
        NormalisedDistinct(o, ms);
        SortKeepsMembers(o, NormaliseMembers(o, ms));
        forall i | 0 <= i < |s| ensures IsDict(s[i].value) {
          assert s[i] in NormaliseMembers(o, ms);
        }
      case _ =>
    }
  }

  lemma {:induction false} MeaningFixesNormalForm(o: Order, v: JSON, w: JSON)
    requires IsDict(v) && IsDict(w) && Meaning(v) == Meaning(w)
    ensures Normalise(o, v) == Normalise(o, w)
    decreases v
  {
    match v {
      case Arr(items) =>
        forall i | 0 <= i < |items| ensures Normalise(o, items[i]) == Normalise(o, w.items[i]) {
          assert Meaning(v).items[i] == Meaning(w).items[i];
          MeaningFixesNormalForm(o, items[i], w.items[i]);
        }
        assert |w.items| == |Meaning(w).items| == |items|;
        assert Normalise(o, v).items == Normalise(o, w).items;
      case Obj(ms) =>
        var s, t := Sort(o, NormaliseMembers(o, ms)), Sort(o, NormaliseMembers(o, w.members));
        assert Meaning(v).members.Keys == KeySet(ms) && Meaning(w).members.Keys == KeySet(w.members);
        forall k | k in KeySet(ms)
          ensures Normalise(o, ms[IndexOf(ms, k)].value) == Normalise(o, w.members[IndexOf(w.members, k)].value)
        {
          assert Meaning(v).members[k] == Meaning(w).members[k];
          MeaningFixesNormalForm(o, ms[IndexOf(ms, k)].value, w.members[IndexOf(w.members, k)].value);
        }
        SameSortedMembers(o, ms, w.members);
      case _ =>
    }
  }

  lemma SameSortedMembers(o: Order, a: seq<Member>, b: seq<Member>)
    requires DistinctKeys(a) && DistinctKeys(b) && KeySet(a) == KeySet(b)
    requires forall k :: k in KeySet(a) ==> Normalise(o, a[IndexOf(a, k)].value) == Normalise(o, b[IndexOf(b, k)].value)
    ensures Sort(o, NormaliseMembers(o, a)) == Sort(o, NormaliseMembers(o, b))
  {
    var s, t := Sort(o, NormaliseMembers(o, a)), Sort(o, NormaliseMembers(o, b));
    NormalisedDistinct(o, a);
    NormalisedDistinct(o, b);
    SortKeepsMembers(o, NormaliseMembers(o, a));
    SortKeepsMembers(o, NormaliseMembers(o, b));
    forall m ensures m in s <==> m in t {
      MemberOf(o, a, m);
      MemberOf(o, b, m);
    }
    SortedListsAgree(o, s, t);
  }

  lemma MemberOf(o: Order, ms: seq<Member>, m: Member)
    requires DistinctKeys(ms)
    ensures m in Sort(o, NormaliseMembers(o, ms))
            <==> m.key in KeySet(ms) && m.value == Normalise(o, ms[IndexOf(ms, m.key)].value)
  {
    NormalisedDistinct(o, ms);
    SortKeepsMembers(o, NormaliseMembers(o, ms));
    var r := NormaliseMembers(o, ms);
    if m in r {
      var i :| 0 <= i < |r| && r[i] == m;
      assert ms[i].key == m.key;
    }
    if m.key in KeySet(ms) && m.value == Normalise(o, ms[IndexOf(ms, m.key)].value) {
      assert r[IndexOf(ms, m.key)] == m;
    }
  }

  /** Two values print alike exactly when they mean the same. */
  lemma CanonicalTextDecidesMeaning(o: Order, v: JSON, w: JSON)
    requires IsDict(v) && IsDict(w)
    ensures CanonicalText(o, v) == CanonicalText(o, w) <==> Meaning(v) == Meaning(w)
  {
    if CanonicalText(o, v) == CanonicalText(o, w) {
      PrintInjective(Normalise(o, v), Normalise(o, w));
      NormaliseKeepsMeaning(o, v);
      NormaliseKeepsMeaning(o, w);
    }
    if Meaning(v) == Meaning(w) {
      MeaningFixesNormalForm(o, v, w);
    }
  }

  lemma NormaliseIdempotent(o: Order, v: JSON)
    requires IsDict(v)
    ensures Normalise(o, Normalise(o, v)) == Normalise(o, v)
  {
    NormaliseKeepsMeaning(o, v);
    MeaningFixesNormalForm(o, Normalise(o, v), v);
  }

  // --------------------------------------------------- which order was used

  /** Two keys of one object cross, at any depth. */
  predicate CrossingKeys(v: JSON)
    decreases v
  {
    match v
    case Arr(items) => exists i :: 0 <= i < |items| && CrossingKeys(items[i])
    case Obj(ms) =>
      || (exists i, j :: 0 <= i < |ms| && 0 <= j < |ms| && Crosses(ms[i].key, ms[j].key))
      || (exists i :: 0 <= i < |ms| && CrossingKeys(ms[i].value))
    case _ => false
  }

  ghost predicate NoKeysCross(ms: seq<Member>) {
    forall i, j :: 0 <= i < |ms| && 0 <= j < |ms| ==> !Crosses(ms[i].key, ms[j].key)
  }

  /** A list sorted in one order is sorted in the other if no keys cross. */
  lemma SortedEitherWay(ms: seq<Member>)
    requires StrictlySorted(CodeUnit, ms) && NoKeysCross(ms)
    ensures StrictlySorted(CodePoint, ms)
  {
    hide Before, Crosses;
    forall i, j | 0 <= i < j < |ms| ensures Before(CodePoint, ms[i].key, ms[j].key) {
      Trichotomy(CodeUnit, ms[i].key, ms[j].key);
      OrdersAgreeExactly(ms[i].key, ms[j].key);
    }
  }

  /** A list sorted in both orders holds no keys that cross. */
  lemma SortedBothWays(ms: seq<Member>)
    requires StrictlySorted(CodeUnit, ms) && StrictlySorted(CodePoint, ms)
    ensures NoKeysCross(ms)
  {
    forall i, j | 0 <= i < |ms| && 0 <= j < |ms| ensures !Crosses(ms[i].key, ms[j].key) {
      hide Before;
      if ms[i].key != ms[j].key {
        OrdersAgreeExactly(ms[i].key, ms[j].key);
        hide Crosses;
        if i < j {
          assert Before(CodeUnit, ms[i].key, ms[j].key) && Before(CodePoint, ms[i].key, ms[j].key);
        } else {
          assert Before(CodeUnit, ms[j].key, ms[i].key) && Before(CodePoint, ms[j].key, ms[i].key);
          Trichotomy(CodeUnit, ms[i].key, ms[j].key);
          Trichotomy(CodePoint, ms[i].key, ms[j].key);
        }
      } else {
        NothingCrossesItself(ms[i].key);
      }
    }
  }

  lemma NothingCrossesItself(a: string)
    ensures !Crosses(a, a)
  {}

  lemma SameMembersSameCrossing(x: seq<Member>, y: seq<Member>)
    requires forall m :: m in x ==> m in y
    ensures NoKeysCross(y) ==> NoKeysCross(x)
  {
    hide Crosses;
    if NoKeysCross(y) {
      forall i, j | 0 <= i < |x| && 0 <= j < |x| ensures !Crosses(x[i].key, x[j].key) {
        assert x[i] in y && x[j] in y;
      }
    }
  }

  /** Sorting one list of members in the two orders gives one result exactly when no keys cross. */
  lemma SortsAgreeExactly(ms: seq<Member>)
    requires DistinctKeys(ms)
    ensures Sort(CodeUnit, ms) == Sort(CodePoint, ms) <==> NoKeysCross(ms)
  {
    var s, t := Sort(CodeUnit, ms), Sort(CodePoint, ms);
    SortKeepsMembers(CodeUnit, ms);
    SortKeepsMembers(CodePoint, ms);
    SameMembersSameCrossing(s, ms);
    SameMembersSameCrossing(ms, s);
    hide StrictlySorted, NoKeysCross, DistinctKeys, Sort;
    if s == t {
      SortedBothWays(s);
    }
    if NoKeysCross(ms) {
      SortedEitherWay(s);
      SortedListsAgree(CodePoint, s, t);
    }
  }

  lemma {:induction false} SameNormalFormExactly(v: JSON)
    requires IsDict(v)
    ensures Normalise(CodeUnit, v) == Normalise(CodePoint, v) <==> !CrossingKeys(v)
    decreases v
  {
    match v {
      case Arr(items) =>
        forall i | 0 <= i < |items|
          ensures Normalise(CodeUnit, items[i]) == Normalise(CodePoint, items[i]) <==> !CrossingKeys(items[i])
        {
          SameNormalFormExactly(items[i]);
        }
        var s, t := Normalise(CodeUnit, v).items, Normalise(CodePoint, v).items;
        if s == t {
          forall i | 0 <= i < |items| ensures !CrossingKeys(items[i]) {
            assert s[i] == t[i];
          }
        }
      case Obj(ms) =>
        forall i | 0 <= i < |ms|
          ensures Normalise(CodeUnit, ms[i].value) == Normalise(CodePoint, ms[i].value) <==> !CrossingKeys(ms[i].value)
        {
          SameNormalFormExactly(ms[i].value);
        }
        SameObjectExactly(ms);
      case _ =>
    }
  }

  lemma SameKeysSameCrossing(x: seq<Member>, y: seq<Member>)
    requires |x| == |y| && forall i :: 0 <= i < |x| ==> x[i].key == y[i].key
    ensures NoKeysCross(x) <==> NoKeysCross(y)
  {
    hide Crosses;
    forall i, j | 0 <= i < |x| && 0 <= j < |x| ensures Crosses(x[i].key, x[j].key) <==> Crosses(y[i].key, y[j].key) {}
  }

  lemma CrossingObject(ms: seq<Member>)
    ensures CrossingKeys(Obj(ms)) <==> !NoKeysCross(ms) || exists i :: 0 <= i < |ms| && CrossingKeys(ms[i].value)
  {
    hide Crosses;
  }

  lemma SameKeySamePlace(ms: seq<Member>, i: nat, j: nat)
    requires DistinctKeys(ms) && i < |ms| && j < |ms| && ms[i].key == ms[j].key
    ensures i == j
  {}

  lemma SameObjectExactly(ms: seq<Member>)
    requires DistinctKeys(ms)
    requires forall i :: 0 <= i < |ms| ==>
               (Normalise(CodeUnit, ms[i].value) == Normalise(CodePoint, ms[i].value) <==> !CrossingKeys(ms[i].value))
    ensures Normalise(CodeUnit, Obj(ms)) == Normalise(CodePoint, Obj(ms)) <==> !CrossingKeys(Obj(ms))
  {
    var a, b := NormaliseMembers(CodeUnit, ms), NormaliseMembers(CodePoint, ms);
    NormalisedDistinct(CodeUnit, ms);
    NormalisedDistinct(CodePoint, ms);
    SortKeepsMembers(CodeUnit, a);
    SortKeepsMembers(CodePoint, b);
    SortsAgreeExactly(a);
    SameKeysSameCrossing(a, ms);
    CrossingObject(ms);
    hide Sort, NoKeysCross, CrossingKeys, DistinctKeys;
    if Sort(CodeUnit, a) == Sort(CodePoint, b) {
      forall i | 0 <= i < |ms| ensures a[i] == b[i] {
        assert a[i] in Sort(CodeUnit, a) && a[i] in b;
        var j :| 0 <= j < |ms| && b[j] == a[i];
        SameKeySamePlace(b, i, j);
      }
      assert a == b;
    }
    if forall i :: 0 <= i < |ms| ==> !CrossingKeys(ms[i].value) {
      assert a == b;
    }
  }

  /** The texts of the two orders are one exactly when no two keys of one object cross. */
  lemma OrdersPrintAlikeExactly(v: JSON)
    requires IsDict(v)
    ensures CanonicalText(CodeUnit, v) == CanonicalText(CodePoint, v) <==> !CrossingKeys(v)
  {
    SameNormalFormExactly(v);
    hide Normalise;
    if CanonicalText(CodeUnit, v) == CanonicalText(CodePoint, v) {
      PrintInjective(Normalise(CodeUnit, v), Normalise(CodePoint, v));
    }
  }

  // --------------------------------------------------------- written out

  /** An object is written with the same members, their values normalised, in ascending order of their keys by code point. */
  lemma CanonicalObjectWrittenOut(ms: seq<Member>, sorted: seq<Member>)
    requires DistinctKeys(ms)
    requires forall i, j :: 0 <= i < j < |sorted| ==> Less(sorted[i].key, sorted[j].key)
    requires forall m :: m in sorted <==> exists i :: 0 <= i < |ms| && m == Member(ms[i].key, Normalise(CodePoint, ms[i].value))
    ensures CanonicalSortKeys(Obj(ms)) == Print(Obj(sorted))
  {
    var r := NormaliseMembers(CodePoint, ms);
    NormalisedDistinct(CodePoint, ms);
    SortKeepsMembers(CodePoint, r);
    assert StrictlySorted(CodePoint, sorted);
    hide StrictlySorted, Sort, DistinctKeys, Print;
    forall m ensures m in Sort(CodePoint, r) <==> m in sorted {
      assert m in r <==> exists i :: 0 <= i < |ms| && m == Member(ms[i].key, Normalise(CodePoint, ms[i].value));
    }
    SortedListsAgree(CodePoint, Sort(CodePoint, r), sorted);
  }

  /** Arrays keep their order; anything else is printed as it is. */
  lemma CanonicalValueWrittenOut(items: seq<JSON>, v: JSON)
    ensures CanonicalSortKeys(Arr(items)) == Print(Arr(seq(|items|, i requires 0 <= i < |items| => Normalise(CodePoint, items[i]))))
    ensures !v.Arr? && !v.Obj? ==> CanonicalSortKeys(v) == Print(v) && Normalise(CodePoint, v) == v
  {
    hide Print;
  }
}
