/** Unpadded base64url, section 5 of RFC 4648, with the strict decoder the signature checks use. */
module Base64Url {
  import opened Prelude
  import opened Text

  type sextet = n: nat | n < 64

  // ------------------------------------------------- bytes and six-bit groups

  function Hi(x: byte): sextet { x as int / 4 }
  function Mid(x: byte, y: byte): sextet { x as int % 4 * 16 + y as int / 16 }
  function Low(y: byte, z: byte): sextet { y as int % 16 * 4 + z as int / 64 }
  function Last(z: byte): sextet { z as int % 64 }

  function First(a: sextet, b: sextet): byte { (a * 4 + b / 16) as byte }
  function Second(b: sextet, c: sextet): byte { (b % 16 * 16 + c / 4) as byte }
  function Third(c: sextet, d: sextet): byte { (c % 4 * 64 + d) as byte }

  /** Three bytes to four groups of six bits; a short tail is filled up with zero bits. */
  function Pack(b: seq<byte>): seq<sextet> {
    match |b|
    case 0 => []
    case 1 => [Hi(b[0]), Mid(b[0], 0)]
    case 2 => [Hi(b[0]), Mid(b[0], b[1]), Low(b[1], 0)]
    case _ => [Hi(b[0]), Mid(b[0], b[1]), Low(b[1], b[2]), Last(b[2])] + Pack(b[3..])
  }

  /** Four groups to three bytes; the bits of a short tail beyond the last whole byte are dropped. */
  function Unpack(d: seq<sextet>): seq<byte> {
    match |d|
    case 0 => []
    case 1 => []
    case 2 => [First(d[0], d[1])]
    case 3 => [First(d[0], d[1]), Second(d[1], d[2])]
    case _ => [First(d[0], d[1]), Second(d[1], d[2]), Third(d[2], d[3])] + Unpack(d[4..])
  }

  // --------------------------------------------------------------- alphabet

  predicate InAlphabet(c: char) {
    'A' <= c <= 'Z' || 'a' <= c <= 'z' || '0' <= c <= '9' || c == '-' || c == '_'
  }

  predicate AlphabetText(s: string) {
    forall i :: 0 <= i < |s| ==> InAlphabet(s[i])
  }

  function SextetChar(d: sextet): (c: char)
    ensures InAlphabet(c) && SextetValue(c) == d
  {
    if d < 26 then ('A' as int + d) as char
    else if d < 52 then ('a' as int + d - 26) as char
    else if d < 62 then ('0' as int + d - 52) as char
    else if d == 62 then '-' else '_'
  }

  function SextetValue(c: char): sextet
    requires InAlphabet(c)
  {
    if 'A' <= c <= 'Z' then c as int - 'A' as int
    else if 'a' <= c <= 'z' then c as int - 'a' as int + 26
    else if '0' <= c <= '9' then c as int - '0' as int + 52
    else if c == '-' then 62 else 63
  }

  lemma SextetCharOfValue(c: char)
    requires InAlphabet(c)
    ensures SextetChar(SextetValue(c)) == c
  {}

  function Spell(d: seq<sextet>): (s: string)
    ensures |s| == |d| && AlphabetText(s)
  {
    seq(|d|, i requires 0 <= i < |d| => SextetChar(d[i]))
  }

  function Values(s: string): (d: seq<sextet>)
    requires AlphabetText(s)
    ensures |d| == |s|
  {
    seq(|s|, i requires 0 <= i < |s| => SextetValue(s[i]))
  }

  // ---------------------------------------------- the library's padded coding

  function Padding(s: string): string {
    seq((4 - |s| % 4) % 4, i => '=')
  }

  /** urlsafe_b64encode */
  function PaddedEncode(b: seq<byte>): string {
    Spell(Pack(b)) + Padding(Spell(Pack(b)))
  }

  /** rstrip(b"=") */
  function StripPadding(s: string): string {
    if s != "" && s[|s| - 1] == '=' then StripPadding(s[..|s| - 1]) else s
  }

  /** urlsafe_b64decode, on alphabet characters followed by padding */
  function PaddedDecode(s: string): seq<byte>
    requires AlphabetText(StripPadding(s))
  {
    Unpack(Values(StripPadding(s)))
  }

  // ---------------------------------------------------- the auditor's functions

  function Encode(b: seq<byte>): string {
    StripPadding(PaddedEncode(b))
  }

  /** None where the source raises ValueError. */
  function DecodeStrict(s: string): Option<seq<byte>> {
    if exists i :: 0 <= i < |s| && IsSpace(s[i]) then None
    else if '=' in s then None
    else if !AlphabetText(s) then None
    else if |s| % 4 == 1 then None
    else
      StripPaddingStops(s, (4 - |s| % 4) % 4);
      Some(PaddedDecode(s + Padding(s)))
  }

  // ------------------------------------------------------------------ lemmas

  lemma {:induction false} StripPaddingStops(s: string, k: nat)
    requires s == "" || s[|s| - 1] != '='
    ensures StripPadding(s + seq(k, i => '=')) == s
  {
    var t := s + seq(k, i => '=');
    if k == 0 {
      assert t == s;
    } else {
      assert t[..|t| - 1] == s + seq(k - 1, i => '=');
      StripPaddingStops(s, k - 1);
    }
  }

  lemma EncodeIsSpelledPack(b: seq<byte>)
    ensures Encode(b) == Spell(Pack(b))
  {
    var s := Spell(Pack(b));
    assert s != "" ==> InAlphabet(s[|s| - 1]);
    StripPaddingStops(s, (4 - |s| % 4) % 4);
  }

  lemma {:induction false} PackLength(b: seq<byte>)
    ensures |Pack(b)| == (4 * |b| + 2) / 3 && |Pack(b)| % 4 != 1
  {
    if |b| >= 3 {
      PackLength(b[3..]);
    }
  }

  lemma {:induction false} UnpackLength(d: seq<sextet>)
    ensures |Unpack(d)| == 3 * |d| / 4
  {
    if |d| >= 4 {
      UnpackLength(d[4..]);
    }
  }

  /**
   The strict decoder accepts exactly the alphabet texts whose length is not 1 modulo 4, and
   yields floor(3 * length / 4) bytes.
   */
  lemma DecodeAccepts(s: string)
    ensures DecodeStrict(s).Some? <==> AlphabetText(s) && |s| % 4 != 1
    ensures DecodeStrict(s).Some? ==> DecodeStrict(s).value == Unpack(Values(s))
    ensures DecodeStrict(s).Some? ==> |DecodeStrict(s).value| == 3 * |s| / 4
  {
    if AlphabetText(s) && |s| % 4 != 1 {
      assert forall i :: 0 <= i < |s| ==> InAlphabet(s[i]) && !IsSpace(s[i]) && s[i] != '=';
      StripPaddingStops(s, (4 - |s| % 4) % 4);
      UnpackLength(Values(s));
    }
  }

  // One step of packing and unpacking at a time.

  lemma PackShort(x: byte, y: byte)
    ensures Pack([x]) == [Hi(x), Mid(x, 0)] && Pack([x, y]) == [Hi(x), Mid(x, y), Low(y, 0)]
  {}

  lemma UnpackShort(a: sextet, b: sextet, c: sextet)
    ensures Unpack([a, b]) == [First(a, b)] && Unpack([a, b, c]) == [First(a, b), Second(b, c)]
  {}

  lemma PackedBytes(x: byte, y: byte, z: byte)
    ensures First(Hi(x), Mid(x, y)) == x && Second(Mid(x, y), Low(y, z)) == y && Third(Low(y, z), Last(z)) == z
  {
    assert Mid(x, y) / 16 == x as int % 4 && Mid(x, y) % 16 == y as int / 16;
    assert Low(y, z) / 4 == y as int % 16 && Low(y, z) % 4 == z as int / 64;
  }

  lemma UnpackFour(a: sextet, b: sextet, c: sextet, d: sextet, rest: seq<sextet>)
    ensures Unpack([a, b, c, d] + rest) == [First(a, b), Second(b, c), Third(c, d)] + Unpack(rest)
  {
    assert ([a, b, c, d] + rest)[4..] == rest;
  }

  lemma PackThree(x: byte, y: byte, z: byte, rest: seq<byte>)
    ensures Pack([x, y, z] + rest) == [Hi(x), Mid(x, y), Low(y, z), Last(z)] + Pack(rest)
  {
    assert ([x, y, z] + rest)[3..] == rest;
  }

  lemma UnpackUndoesPackShort(x: byte, y: byte)
    ensures Unpack(Pack([x])) == [x] && Unpack(Pack([x, y])) == [x, y]
  {
    PackShort(x, y);
    UnpackShort(Hi(x), Mid(x, 0), 0);
    UnpackShort(Hi(x), Mid(x, y), Low(y, 0));
    PackedBytes(x, 0, 0);
    PackedBytes(x, y, 0);
  }

  lemma {:induction false} UnpackUndoesPack(b: seq<byte>)
    ensures Unpack(Pack(b)) == b
  {
    if |b| == 1 {
      assert b == [b[0]];
      UnpackUndoesPackShort(b[0], 0);
    } else if |b| == 2 {
      assert b == [b[0], b[1]];
      UnpackUndoesPackShort(b[0], b[1]);
    } else if |b| >= 3 {
      var rest := b[3..];
      UnpackUndoesPack(rest);
      assert b == [b[0], b[1], b[2]] + rest;
      PackThree(b[0], b[1], b[2], rest);
      UnpackThreePacked(b[0], b[1], b[2], Pack(rest));
    }
  }

  lemma UnpackThreePacked(x: byte, y: byte, z: byte, rest: seq<sextet>)
    ensures Unpack([Hi(x), Mid(x, y), Low(y, z), Last(z)] + rest) == [x, y, z] + Unpack(rest)
  {
    UnpackFour(Hi(x), Mid(x, y), Low(y, z), Last(z), rest);
    PackedBytes(x, y, z);
  }

  /** Strict decoding undoes encoding on every byte string. */
  lemma DecodeUndoesEncode(b: seq<byte>)
    ensures DecodeStrict(Encode(b)) == Some(b)
  {
    EncodeIsSpelledPack(b);
    PackLength(b);
    var s := Spell(Pack(b));
    DecodeAccepts(s);
    assert Values(s) == Pack(b);
    UnpackUndoesPack(b);
  }

  /** The bits of the last group that belong to no byte are zero (section 3.5 of RFC 4648). */
  predicate TrailingBitsZero(d: seq<sextet>) {
    && (|d| % 4 == 2 ==> d[|d| - 1] % 16 == 0)
    && (|d| % 4 == 3 ==> d[|d| - 1] % 4 == 0)
  }

  lemma UnpackedGroups(a: sextet, b: sextet, c: sextet, d: sextet)
    ensures Hi(First(a, b)) == a && Mid(First(a, b), Second(b, c)) == b
    ensures Low(Second(b, c), Third(c, d)) == c && Last(Third(c, d)) == d
    ensures Mid(First(a, b), 0) == b - b % 16
    ensures Low(Second(b, c), 0) == c - c % 4
  {
    assert First(a, b) as int / 4 == a && First(a, b) as int % 4 == b / 16;
    assert Second(b, c) as int / 16 == b % 16 && Second(b, c) as int % 16 == c / 4;
    assert Third(c, d) as int / 64 == c % 4 && Third(c, d) as int % 64 == d;
  }

  lemma PackUndoesUnpackShort(a: sextet, b: sextet, c: sextet)
    ensures Pack(Unpack([a, b])) == [a, b] <==> b % 16 == 0
    ensures Pack(Unpack([a, b, c])) == [a, b, c] <==> c % 4 == 0
  {
    UnpackShort(a, b, c);
    PackShort(First(a, b), Second(b, c));
    UnpackedGroups(a, b, c, 0);
    assert [a, b - b % 16] == [a, b] <==> b % 16 == 0;
    assert [a, b, c - c % 4] == [a, b, c] <==> c % 4 == 0;
  }

  lemma PackFourUnpacked(a: sextet, b: sextet, c: sextet, d: sextet, rest: seq<byte>)
    ensures Pack([First(a, b), Second(b, c), Third(c, d)] + rest) == [a, b, c, d] + Pack(rest)
  {
    PackThree(First(a, b), Second(b, c), Third(c, d), rest);
    UnpackedGroups(a, b, c, d);
  }

  lemma PackUndoesUnpackStep(a: sextet, b: sextet, c: sextet, d: sextet, rest: seq<sextet>)
    ensures Pack(Unpack([a, b, c, d] + rest)) == [a, b, c, d] + Pack(Unpack(rest))
    ensures Pack(Unpack([a, b, c, d] + rest)) == [a, b, c, d] + rest <==> Pack(Unpack(rest)) == rest
  {
    UnpackFour(a, b, c, d, rest);
    PackFourUnpacked(a, b, c, d, Unpack(rest));
    SameHead([a, b, c, d], Pack(Unpack(rest)), rest);
  }

  lemma PackUndoesUnpackPair(d: seq<sextet>)
    requires |d| == 2
    ensures Pack(Unpack(d)) == d <==> TrailingBitsZero(d)
  {
    PackUndoesUnpackShort(d[0], d[1], 0);
    assert d == [d[0], d[1]];
  }

  lemma PackUndoesUnpackTriple(d: seq<sextet>)
    requires |d| == 3
    ensures Pack(Unpack(d)) == d <==> TrailingBitsZero(d)
  {
    PackUndoesUnpackShort(d[0], d[1], d[2]);
    assert d == [d[0], d[1], d[2]];
  }

  lemma FourAndRest(d: seq<sextet>)
    requires |d| >= 4
    ensures d == [d[0], d[1], d[2], d[3]] + d[4..]
  {}

  lemma {:induction false} PackUndoesUnpackExactly(d: seq<sextet>)
    requires |d| % 4 != 1
    ensures Pack(Unpack(d)) == d <==> TrailingBitsZero(d)
  {
    if |d| >= 4 {
      PackUndoesUnpackExactly(d[4..]);
      FourAndRest(d);
      PackUndoesUnpackStep(d[0], d[1], d[2], d[3], d[4..]);
      SameTail([d[0], d[1], d[2], d[3]], d[4..]);
    } else if |d| == 3 {
      PackUndoesUnpackTriple(d);
    } else if |d| == 2 {
      PackUndoesUnpackPair(d);
    }
  }

  lemma SameHead(head: seq<sextet>, s: seq<sextet>, t: seq<sextet>)
    ensures head + s == head + t <==> s == t
  {
    assert (head + s)[|head|..] == s && (head + t)[|head|..] == t;
  }

  lemma SameTail(head: seq<sextet>, rest: seq<sextet>)
    requires |head| == 4 && |rest| % 4 != 1
    ensures TrailingBitsZero(head + rest) <==> TrailingBitsZero(rest)
  {}

  /** Encoding undoes strict decoding exactly when the unused trailing bits are zero. */
  lemma EncodeUndoesDecodeExactly(s: string)
    requires DecodeStrict(s).Some?
    ensures AlphabetText(s)
    ensures Encode(DecodeStrict(s).value) == s <==> TrailingBitsZero(Values(s))
  {
    DecodeAccepts(s);
    var d := Values(s);
    PackUndoesUnpackExactly(d);
    EncodeIsSpelledPack(Unpack(d));
    forall i | 0 <= i < |s| ensures Spell(d)[i] == s[i] {
      SextetCharOfValue(s[i]);
    }
    assert Spell(d) == s;
    assert Values(Spell(Pack(Unpack(d)))) == Pack(Unpack(d));
  }

  /** The other value of the lowest bit of a group. */
  function Flip(d: sextet): sextet {
    if d % 2 == 0 then d + 1 else d - 1
  }

  /** The text with the lowest bit of its last group flipped; a short tail does not use that bit. */
  function Twin(s: string): (t: string)
    requires s != "" && AlphabetText(s)
    ensures |t| == |s| && t != s
  {
    var last := SextetChar(Flip(SextetValue(s[|s| - 1])));
    assert SextetValue(last) != SextetValue(s[|s| - 1]);
    assert s[|s| - 1 := last][|s| - 1] == last;
    s[|s| - 1 := last]
  }

  /** The decoder does not look at the lowest bit of a short tail. */
  lemma {:induction false} UnusedBitIgnored(d: seq<sextet>, x: sextet)
    requires |d| % 4 >= 2 && x == Flip(d[|d| - 1])
    ensures Unpack(d[|d| - 1 := x]) == Unpack(d)
  {
    var e := d[|d| - 1 := x];
    if |d| >= 4 {
      UnusedBitIgnored(d[4..], x);
      assert e[4..] == d[4..][|d| - 5 := x];
    } else if |d| == 2 {
      assert d[1] / 16 == x / 16;
    } else {
      assert d[2] / 4 == x / 4;
    }
  }

  lemma TwinDecodesAlike(s: string)
    requires DecodeStrict(s).Some? && |s| % 4 != 0
    ensures s != "" && AlphabetText(s) && DecodeStrict(Twin(s)) == DecodeStrict(s)
  {
    DecodeAccepts(s);
    var t, d := Twin(s), Values(s);
    assert AlphabetText(t);
    DecodeAccepts(t);
    UnusedBitIgnored(d, Flip(d[|d| - 1]));
    assert Values(t) == d[|d| - 1 := Flip(d[|d| - 1])];
  }

  /** Among texts whose unused bits are zero, a byte string has exactly one spelling. */
  lemma OneSpellingWithZeroBits(s: string, t: string)
    requires DecodeStrict(s).Some? && DecodeStrict(s) == DecodeStrict(t)
    ensures AlphabetText(s) && AlphabetText(t)
    ensures TrailingBitsZero(Values(s)) && TrailingBitsZero(Values(t)) ==> s == t
  {
    EncodeUndoesDecodeExactly(s);
    EncodeUndoesDecodeExactly(t);
  }

  lemma WholeGroupsFit(m: nat, n: nat)
    requires m % 4 == 0 && n % 4 != 1 && 3 * n / 4 == 3 * m / 4
    ensures m == n
  {}

  lemma WholeGroupsUnique(s: string, t: string)
    requires DecodeStrict(s).Some? && DecodeStrict(t) == DecodeStrict(s) && |s| % 4 == 0
    ensures t == s
  {
    hide DecodeStrict, Unpack;
    DecodeAccepts(s);
    DecodeAccepts(t);
    WholeGroupsFit(|s|, |t|);
    OneSpellingWithZeroBits(s, t);
  }

  lemma SignatureLength(s: string)
    requires DecodeStrict(s).Some? && |DecodeStrict(s).value| == 64
    ensures |s| == 86
  {
    DecodeAccepts(s);
    hide DecodeStrict;
  }

  /**
   An accepted text is the only spelling of its bytes exactly when it consists of whole groups of
   four characters. A 64-byte signature never does: it takes 86 characters.
   */
  lemma SpellingIsUniqueExactly(s: string)
    requires DecodeStrict(s).Some?
    ensures (forall t :: DecodeStrict(t) == DecodeStrict(s) ==> t == s) <==> |s| % 4 == 0
    ensures |DecodeStrict(s).value| == 64 ==> |s| == 86
  {
    hide DecodeStrict, Unpack, Values;
    DecodeAccepts(s);
    if |s| % 4 != 0 {
      TwinDecodesAlike(s);
    } else {
      forall t | DecodeStrict(t) == DecodeStrict(s) ensures t == s {
        WholeGroupsUnique(s, t);
      }
    }
  }

  // --------------------------------------------------------- written out

  /** The alphabet, in order of value (section 5 of RFC 4648). */
  lemma AlphabetWrittenOut(d: sextet)
    ensures d < 26 ==> SextetChar(d) == "ABCDEFGHIJKLMNOPQRSTUVWXYZ"[d]
    ensures 26 <= d < 52 ==> SextetChar(d) == "abcdefghijklmnopqrstuvwxyz"[d - 26]
    ensures 52 <= d < 62 ==> SextetChar(d) == "0123456789"[d - 52]
    ensures d == 62 ==> SextetChar(d) == '-'
    ensures d == 63 ==> SextetChar(d) == '_'
  {}

  /** The number that groups denote, the first being the most significant. */
  function Number(d: seq<sextet>): nat {
    if d == [] then 0 else 64 * Number(d[..|d| - 1]) + d[|d| - 1]
  }

  lemma NumberOfGroups(a: sextet, b: sextet, c: sextet, d: sextet)
    ensures Number([a, b]) == 64 * a as nat + b
    ensures Number([a, b, c]) == 4096 * a as nat + 64 * b as nat + c
    ensures Number([a, b, c, d]) == 262144 * a as nat + 4096 * b as nat + 64 * c as nat + d
  {
    assert [a, b, c, d][..3] == [a, b, c] && [a, b, c][..2] == [a, b] && [a, b][..1] == [a] && [a][..0] == [];
    assert Number([a]) == a;
  }

  lemma GroupBits(x: byte, y: byte, z: byte)
    ensures 262144 * Hi(x) as nat + 4096 * Mid(x, y) as nat + 64 * Low(y, z) as nat + Last(z) == 65536 * (x as int) + 256 * (y as int) + z as int
    ensures 4096 * Hi(x) as nat + 64 * Mid(x, y) as nat + Low(y, 0) == 4 * (256 * (x as int) + y as int)
    ensures 64 * Hi(x) as nat + Mid(x, 0) == 16 * (x as int)
  {
    var a, b, c := x as int, y as int, z as int;
    assert a == 4 * (a / 4) + a % 4 && b == 16 * (b / 16) + b % 16 && c == 64 * (c / 64) + c % 64;
  }

  /** Three bytes and their four groups are one number of 24 bits; short tails are filled up with zero bits. */
  lemma GroupsWrittenOut(x: byte, y: byte, z: byte)
    ensures |Pack([x, y, z])| == 4 && Number(Pack([x, y, z])) == 65536 * (x as int) + 256 * (y as int) + z as int
    ensures |Pack([x, y])| == 3 && Number(Pack([x, y])) == 4 * (256 * (x as int) + y as int)
    ensures |Pack([x])| == 2 && Number(Pack([x])) == 16 * (x as int)
  {
    hide Number, Pack, Hi, Mid, Low, Last;
    PackOf(x, y, z);
    GroupBits(x, y, z);
    NumberOfGroups(Hi(x), Mid(x, y), Low(y, z), Last(z));
    NumberOfGroups(Hi(x), Mid(x, y), Low(y, 0), 0);
    NumberOfGroups(Hi(x), Mid(x, 0), 0, 0);
  }

  lemma PackOf(x: byte, y: byte, z: byte)
    ensures Pack([x, y, z]) == [Hi(x), Mid(x, y), Low(y, z), Last(z)]
    ensures Pack([x, y]) == [Hi(x), Mid(x, y), Low(y, 0)] && Pack([x]) == [Hi(x), Mid(x, 0)]
  {
    hide Hi, Mid, Low, Last;
    PackThree(x, y, z, []);
    assert [x, y, z] + [] == [x, y, z];
    assert Pack([]) == [];
    PackShort(x, y);
  }

  /** Encoding spells the groups without padding. */
  lemma EncodingWrittenOut(b: seq<byte>)
    ensures |Encode(b)| == |Pack(b)| && forall i :: 0 <= i < |Pack(b)| ==> Encode(b)[i] == SextetChar(Pack(b)[i])
  {
    EncodeIsSpelledPack(b);
  }
}
