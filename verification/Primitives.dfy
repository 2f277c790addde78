/**
 The foreign code the auditor calls, as arbitrary functions: SHA-256, the Ed25519 verification
 equation, ISO timestamp parsing, and int of a string (None where it raises ValueError). Nothing is assumed of them except that a digest is 64
 lower-case hex digits; in particular the hash is not assumed injective.
 */
module Primitives {
  import opened Prelude
  import opened Text

  predicate IsHexDigit(c: char) {
    IsDigit(c) || 'a' <= c <= 'f'
  }

  predicate IsDigest(s: string) {
    |s| == 64 && forall i :: 0 <= i < |s| ==> IsHexDigit(s[i])
  }

  function ZeroDigest(): (s: string)
    ensures IsDigest(s)
  {
    seq(64, i => '0')
  }

  /** sha256_hex, over the UTF-8 bytes of its argument. */
  type HashFn = h: string -> string | GivesDigests(h) witness s => ZeroDigest()

  ghost predicate GivesDigests(h: string -> string) {
    forall s {:trigger h(s)} :: IsDigest(h(s))
  }

  datatype Foreign = Foreign(
    sha: HashFn,
    curve: (seq<byte>, string, seq<byte>) -> bool,
    isoSeconds: string -> Option<real>,
    intOf: string -> Option<int>)

  /** Two different texts with one digest. */
  ghost predicate Collides(sha: HashFn, x: string, y: string) {
    x != y && sha(x) == sha(y)
  }

  predicate IsAscii(s: string) {
    forall i :: 0 <= i < |s| ==> s[i] as int < 128
  }

  /** hmac.compare_digest over ASCII bytes; None where encoding raises UnicodeEncodeError. */
  function ConstantTimeHexEqual(a: string, b: string): Option<bool> {
    if |a| != |b| then Some(false)
    else if !IsAscii(a) || !IsAscii(b) then None
    else Some(a == b)
  }

  /** Against a digest the comparison is equality, except that it raises on other text of 64 characters that is not ASCII. */
  lemma ComparingDigests(a: string, b: string)
    requires IsDigest(a)
    ensures ConstantTimeHexEqual(a, b) == if |b| == 64 && !IsAscii(b) then None else Some(a == b)
    ensures a == b ==> IsAscii(b)
  {
    forall i | 0 <= i < |a| ensures a[i] as int < 128 {
      assert IsHexDigit(a[i]);
    }
  }

  /** The default verifier: wrong lengths are refused before the curve is consulted. */
  predicate VerifyEd25519(env: Foreign, publicKey: seq<byte>, message: string, signature: seq<byte>) {
    |publicKey| == 32 && |signature| == 64 && env.curve(publicKey, message, signature)
  }

  /** iso.replace("Z", "+00:00") */
  function ReplaceZulu(s: string): string {
    if s == "" then "" else (if s[0] == 'Z' then "+00:00" else [s[0]]) + ReplaceZulu(s[1..])
  }

  /** Milliseconds since the epoch; None for empty or unparseable text. */
  function ParseIsoMs(env: Foreign, iso: string): Option<real> {
    if iso == "" then None
    else
      var t := env.isoSeconds(ReplaceZulu(iso));
      if t.None? then None else Some(t.value * 1000.0)
  }

  // ------------------------------------------------- content-hash keys

  function MeterIdemKey(sha: HashFn, proofReceiptId: string, unitType: string): string {
    sha(proofReceiptId + "|" + unitType)
  }

  function SettlementIdemKey(sha: HashFn, meterIdemKey: string, partyRole: string, ledgerAccountCode: string): string {
    sha(meterIdemKey + "|" + partyRole + "|" + ledgerAccountCode)
  }

  function SettlementIdemKeyV1(sha: HashFn, meterIdemKey: string, partyRole: string): string {
    sha(meterIdemKey + "|" + partyRole)
  }

  /** A meter key names one receipt and one unit type, even when receipt ids hold pipes. */
  lemma MeterKeyDetermines(sha: HashFn, r1: string, u1: string, r2: string, u2: string)
    requires '|' !in u1 && '|' !in u2
    requires MeterIdemKey(sha, r1, u1) == MeterIdemKey(sha, r2, u2)
    ensures (r1 == r2 && u1 == u2) || Collides(sha, r1 + "|" + u1, r2 + "|" + u2)
  {
    if r1 + "|" + u1 == r2 + "|" + u2 {
      SplitLast('|', r1, u1, r2, u2);
    }
  }

  /** The text a settlement.v2 key is the digest of. */
  function KeyText(meter: string, role: string, account: string): string {
    meter + "|" + role + "|" + account
  }

  /** Cutting at a pipe: text that holds one can be cut there, and the rest of the join moves behind the cut. */
  lemma CutAtPipe(a: string) returns (x: string, y: string)
    requires '|' in a
    ensures a == x + "|" + y
  {
    var i :| 0 <= i < |a| && a[i] == '|';
    x, y := a[..i], a[i + 1..];
  }

  lemma Regroup(a: string, b: string, c: string)
    ensures (a + "|" + b) + "|" + c == a + "|" + (b + "|" + c)
  {}

  /** A pair joined by a pipe shares its text with another pair exactly when one of its halves holds a pipe. */
  lemma PairSharedExactly(p: string, c: string)
    ensures (exists q, d :: q + "|" + d == p + "|" + c && (q != p || d != c)) <==> '|' in p || '|' in c
  {
    if '|' in p {
      var x, y := CutAtPipe(p);
      Regroup(x, y, c);
      assert x + "|" + (y + "|" + c) == p + "|" + c && x != p;
    } else if '|' in c {
      var x, y := CutAtPipe(c);
      Regroup(p, x, y);
      assert (p + "|" + x) + "|" + y == p + "|" + c && y != c;
    } else {
      forall q, d | q + "|" + d == p + "|" + c ensures q == p && d == c {
        OnePipe(p, c, q, d);
      }
    }
  }

  lemma OnePipe(p: string, c: string, q: string, d: string)
    requires '|' !in p && '|' !in c && q + "|" + d == p + "|" + c
    ensures q == p && d == c
  {
    var t := p + "|" + c;
    assert t[|q|] == '|';
    assert forall k :: 0 <= k < |t| && k != |p| ==> t[k] == if k < |p| then p[k] else c[k - |p| - 1];
    assert |q| == |p|;
    assert q == t[..|p|] && p == t[..|p|] && d == t[|p| + 1..] && c == t[|p| + 1..];
  }

  /** Settlement.v2 keys of pipe-free meters name the meter, and role and account as far as their join does. */
  lemma SettlementKeyNamesMeter(sha: HashFn, m1: string, p1: string, c1: string, m2: string, p2: string, c2: string)
    requires '|' !in m1 && '|' !in m2
    requires SettlementIdemKey(sha, m1, p1, c1) == SettlementIdemKey(sha, m2, p2, c2)
    ensures (m1 == m2 && p1 + "|" + c1 == p2 + "|" + c2) || Collides(sha, KeyText(m1, p1, c1), KeyText(m2, p2, c2))
  {
    if KeyText(m1, p1, c1) == KeyText(m2, p2, c2) {
      Regroup(m1, p1, c1);
      Regroup(m2, p2, c2);
      SplitFirst('|', m1, p1 + "|" + c1, m2, p2 + "|" + c2);
    }
  }

  /**
   A settlement.v2 key of pipe-free meter and role names meter, role and ledger account, where the account
   holds no pipe either, whatever the other line's role and account hold, or the other role holds none.
   */
  lemma SettlementKeyDetermines(sha: HashFn, m1: string, p1: string, c1: string, m2: string, p2: string, c2: string)
    requires '|' !in m1 && '|' !in m2 && '|' !in p1 && ('|' !in c1 || '|' !in p2)
    requires SettlementIdemKey(sha, m1, p1, c1) == SettlementIdemKey(sha, m2, p2, c2)
    ensures (m1 == m2 && p1 == p2 && c1 == c2) || Collides(sha, KeyText(m1, p1, c1), KeyText(m2, p2, c2))
  {
    SettlementKeyNamesMeter(sha, m1, p1, c1, m2, p2, c2);
    if p1 + "|" + c1 == p2 + "|" + c2 {
      if '|' !in c1 {
        OnePipe(p1, c1, p2, c2);
      } else {
        SplitFirst('|', p1, c1, p2, c2);
      }
    }
  }

  /** For a given meter, another role and account share the key text exactly when the role or the account holds a pipe. */
  lemma SettlementKeySharedExactly(m: string, p: string, c: string)
    ensures (exists q, d :: KeyText(m, q, d) == KeyText(m, p, c) && (q != p || d != c)) <==> '|' in p || '|' in c
  {
    PairSharedExactly(p, c);
    forall q, d ensures KeyText(m, q, d) == KeyText(m, p, c) <==> q + "|" + d == p + "|" + c {
      Regroup(m, q, d);
      Regroup(m, p, c);
      if KeyText(m, q, d) == KeyText(m, p, c) {
        DropCommon(m + "|", q + "|" + d, p + "|" + c);
      }
    }
  }

  lemma DigestHasNoPipe(s: string)
    requires IsDigest(s)
    ensures '|' !in s
  {
    assert forall i :: 0 <= i < |s| ==> IsHexDigit(s[i]);
  }

  // --------------------------------------------------------- written out

  lemma {:induction false} NoZuluToReplace(s: string)
    requires 'Z' !in s
    ensures ReplaceZulu(s) == s
  {
    if s != "" {
      NoZuluToReplace(s[1..]);
      assert s == [s[0]] + s[1..];
    }
  }

  lemma {:induction false} ReplaceConcat(s: string, t: string)
    ensures ReplaceZulu(s + t) == ReplaceZulu(s) + ReplaceZulu(t)
  {
    if s == "" {
      assert s + t == t;
    } else {
      assert (s + t)[1..] == s[1..] + t;
      ReplaceConcat(s[1..], t);
    }
  }

  /** Text without a Z is parsed as it is: a thousand milliseconds to the second, and None for empty text. */
  lemma TimesWrittenOut(env: Foreign, a: string)
    requires 'Z' !in a
    ensures ParseIsoMs(env, "").None?
    ensures a != "" ==> (ParseIsoMs(env, a).Some? <==> env.isoSeconds(a).Some?)
    ensures a != "" && env.isoSeconds(a).Some? ==> ParseIsoMs(env, a).value == env.isoSeconds(a).value * 1000.0
  {
    NoZuluToReplace(a);
  }

  /** A trailing Z stands for the offset +00:00. */
  lemma ZuluWrittenOut(env: Foreign, t: string)
    requires 'Z' !in t
    ensures ParseIsoMs(env, t + "Z") == ParseIsoMs(env, t + "+00:00")
  {
    ReplaceConcat(t, "Z");
    NoZuluToReplace(t);
    var offset := "+00:00";
    assert ReplaceZulu("Z") == offset by {
      assert "Z"[1..] == "" && offset + "" == offset;
    }
    assert 'Z' !in offset;
    hide ReplaceZulu;
    assert forall k :: 0 <= k < |t + offset| ==> (t + offset)[k] in t || (t + offset)[k] in offset;
    NoZuluToReplace(t + offset);
  }

  /** Times keep the order of the parsed instants, in whatever spelling. */
  lemma TimesKeepOrder(env: Foreign, a: string, b: string)
    requires 'Z' !in a && 'Z' !in b && a != "" && b != "" && env.isoSeconds(a).Some? && env.isoSeconds(b).Some?
    ensures ParseIsoMs(env, a).Some? && ParseIsoMs(env, b).Some?
    ensures ParseIsoMs(env, a).value <= ParseIsoMs(env, b).value <==> env.isoSeconds(a).value <= env.isoSeconds(b).value
  {
    TimesWrittenOut(env, a);
    TimesWrittenOut(env, b);
  }

  /** The texts the content-hash keys are digests of. */
  lemma KeysWrittenOut(sha: HashFn, receipt: string, unitType: string, meter: string, role: string, account: string)
    ensures MeterIdemKey(sha, receipt, unitType) == sha(receipt + "|" + unitType)
    ensures SettlementIdemKey(sha, meter, role, account) == sha(meter + "|" + role + "|" + account)
    ensures SettlementIdemKeyV1(sha, meter, role) == sha(meter + "|" + role)
  {}

  /** The curve sees key, message and signature in this order, and only 32 and 64 bytes of them. */
  lemma CurveWrittenOut(env: Foreign, publicKey: seq<byte>, message: string, signature: seq<byte>)
    ensures VerifyEd25519(env, publicKey, message, signature)
            <==> |publicKey| == 32 && |signature| == 64 && env.curve(publicKey, message, signature)
  {}

  /** A digest is any text of 64 characters from these sixteen, and nothing more is known of it. */
  lemma DigestsWrittenOut(s: string, c: char)
    ensures IsHexDigit(c) <==> c in "0123456789abcdef"
    ensures IsDigest(s) <==> |s| == 64 && forall i :: 0 <= i < |s| ==> IsHexDigit(s[i])
  {
    var digits := "0123456789abcdef";
    if '0' <= c <= '9' {
      assert digits[c as int - '0' as int] == c;
    }
    if 'a' <= c <= 'f' {
      assert digits[c as int - 'a' as int + 10] == c;
    }
  }
}
