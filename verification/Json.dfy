/**
 Compact JSON as json.dumps(separators=(",", ":"), ensure_ascii=False) writes it, a reader for
 that text after sections 6 and 7 of RFC 8259, and the proof that the reader undoes the writer.
 */
module Json {
  import opened Prelude
  import opened Text

  /** An object keeps its members in insertion order, as a Python dict does. */
  datatype JSON =
    | Null
    | Bool(b: bool)
    | Num(n: int)
    | Str(s: string)
    | Arr(items: seq<JSON>)
    | Obj(members: seq<Member>)

  datatype Member = Member(key: string, value: JSON)

  // ------------------------------------------------------------------ writer

  predicate IsHex(c: char) {
    IsDigit(c) || 'a' <= c <= 'f' || 'A' <= c <= 'F'
  }

  function HexValue(c: char): (d: nat)
    requires IsHex(c)
    ensures d < 16
  {
    if IsDigit(c) then DigitValue(c)
    else if 'a' <= c <= 'f' then c as int - 'a' as int + 10
    else c as int - 'A' as int + 10
  }

  function HexChar(d: nat): char
    requires d < 16
  {
    if d < 10 then DigitChar(d) else ('a' as int + d - 10) as char
  }

  function EscapeChar(c: char): string {
    if c == '\"' then "\\\""
    else if c == '\\' then "\\\\"
    else if c == '\n' then "\\n"
    else if c == '\r' then "\\r"
    else if c == '\t' then "\\t"
    else if c as int == 0x08 then "\\b"
    else if c as int == 0x0C then "\\f"
    else if c as int < 0x20 then "\\u00" + [HexChar(c as int / 16), HexChar(c as int % 16)]
    else [c]
  }

  function Escape(s: string): string {
    if s == "" then "" else EscapeChar(s[0]) + Escape(s[1..])
  }

  function Quote(s: string): string {
    "\"" + Escape(s) + "\""
  }

  function Print(v: JSON): string
    decreases v, 1
  {
    match v
    case Null => "null"
    case Bool(b) => if b then "true" else "false"
    case Num(n) => IntText(n)
    case Str(s) => Quote(s)
    case Arr(items) => "[" + PrintItems(items) + "]"
    case Obj(members) => "{" + PrintMembers(members) + "}"
  }

  function PrintItems(vs: seq<JSON>): string
    decreases vs, 0
  {
    if vs == [] then ""
    else if |vs| == 1 then Print(vs[0])
    else Print(vs[0]) + "," + PrintItems(vs[1..])
  }

  function PrintMember(m: Member): string
    decreases m, 2
  {
    Quote(m.key) + ":" + Print(m.value)
  }

  function PrintMembers(ms: seq<Member>): string
    decreases ms, 0
  {
    if ms == [] then ""
    else if |ms| == 1 then PrintMember(ms[0])
    else PrintMember(ms[0]) + "," + PrintMembers(ms[1..])
  }

  // ------------------------------------------------------------------ reader

  datatype Read<+T> = Read(value: T, rest: string)

  /** One possibly escaped character of a string body. */
  function ReadChar(t: string): (r: Option<Read<char>>)
    ensures r.Some? ==> |r.value.rest| < |t|
  {
    if t == "" || t[0] == '\"' || t[0] as int < 0x20 then None
    else if t[0] != '\\' then Some(Read(t[0], t[1..]))
    else if |t| < 2 then None
    else match t[1]
      case '\"' => Some(Read('\"', t[2..]))
      case '\\' => Some(Read('\\', t[2..]))
      case '/' => Some(Read('/', t[2..]))
      case 'n' => Some(Read('\n', t[2..]))
      case 'r' => Some(Read('\r', t[2..]))
      case 't' => Some(Read('\t', t[2..]))
      case 'b' => Some(Read(0x08 as char, t[2..]))
      case 'f' => Some(Read(0x0C as char, t[2..]))
      case 'u' => ReadHex(t)
      case _ => None
  }

  /** A \uXXXX escape that is not half of a surrogate pair. */
  function ReadHex(t: string): (r: Option<Read<char>>)
    ensures r.Some? ==> |r.value.rest| < |t|
  {
    if |t| < 6 || !IsHex(t[2]) || !IsHex(t[3]) || !IsHex(t[4]) || !IsHex(t[5]) then None
    else
      var n := ((HexValue(t[2]) * 16 + HexValue(t[3])) * 16 + HexValue(t[4])) * 16 + HexValue(t[5]);
      if 0xD800 <= n < 0xE000 then None else Some(Read(n as char, t[6..]))
  }

  /** The rest of a string after its opening quotation mark. */
  function ReadString(t: string): (r: Option<Read<string>>)
    ensures r.Some? ==> |r.value.rest| < |t|
    decreases |t|
  {
    if t == "" then None
    else if t[0] == '\"' then Some(Read("", t[1..]))
    else match ReadChar(t)
      case None => None
      case Some(c) =>
        match ReadString(c.rest)
        case None => None
        case Some(s) => Some(Read([c.value] + s.value, s.rest))
  }

  function DigitRun(t: string): (k: nat)
    ensures k <= |t| && AllDigits(t[..k])
  {
    if t == "" || !IsDigit(t[0]) then 0 else
      var k := DigitRun(t[1..]);
      assert t[..k + 1] == [t[0]] + t[1..][..k];
      1 + k
  }

  function ReadNumber(t: string): (r: Option<Read<int>>)
    ensures r.Some? ==> |r.value.rest| < |t|
  {
    var negative := t != "" && t[0] == '-';
    var u := if negative then t[1..] else t;
    var k := DigitRun(u);
    if !NoLeadingZero(u[..k]) then None
    else
      var n: int := ValueOf(u[..k]);
      Some(Read(if negative then -n else n, u[k..]))
  }

  function ReadValue(t: string): (r: Option<Read<JSON>>)
    ensures r.Some? ==> |r.value.rest| < |t|
    decreases |t|, 0
  {
    if t == "" then None
    else match t[0]
      case 'n' => ReadWord("null", Null, t)
      case 't' => ReadWord("true", Bool(true), t)
      case 'f' => ReadWord("false", Bool(false), t)
      case '\"' => (
        match ReadString(t[1..])
        case None => None
        case Some(s) => Some(Read(Str(s.value), s.rest)))
      case '[' => (
        if |t| > 1 && t[1] == ']' then Some(Read(Arr([]), t[2..]))
        else match ReadItems(t[1..])
          case None => None
          case Some(vs) => Some(Read(Arr(vs.value), vs.rest)))
      case '{' => (
        if |t| > 1 && t[1] == '}' then Some(Read(Obj([]), t[2..]))
        else match ReadMembers(t[1..])
          case None => None
          case Some(ms) => Some(Read(Obj(ms.value), ms.rest)))
      case _ => (
        match ReadNumber(t)
        case None => None
        case Some(n) => Some(Read(Num(n.value), n.rest)))
  }

  function ReadWord(word: string, v: JSON, t: string): (r: Option<Read<JSON>>)
    requires word != ""
    ensures r.Some? ==> |r.value.rest| < |t|
  {
    if word <= t then Some(Read(v, t[|word|..])) else None
  }

  /** Items up to and including the closing bracket. */
  function ReadItems(t: string): (r: Option<Read<seq<JSON>>>)
    ensures r.Some? ==> |r.value.rest| < |t|
    decreases |t|, 1
  {
    match ReadValue(t)
    case None => None
    case Some(v) =>
      if v.rest == "" then None
      else if v.rest[0] == ']' then Some(Read([v.value], v.rest[1..]))
      else if v.rest[0] != ',' then None
      else
        match ReadItems(v.rest[1..])
        case None => None
        case Some(vs) => Some(Read([v.value] + vs.value, vs.rest))
  }

  function ReadMember(t: string): (r: Option<Read<Member>>)
    ensures r.Some? ==> |r.value.rest| < |t|
    decreases |t|, 1
  {
    if t == "" || t[0] != '\"' then None
    else match ReadString(t[1..])
      case None => None
      case Some(k) =>
        if k.rest == "" || k.rest[0] != ':' then None
        else match ReadValue(k.rest[1..])
          case None => None
          case Some(v) => Some(Read(Member(k.value, v.value), v.rest))
  }

  /** Members up to and including the closing brace. */
  function ReadMembers(t: string): (r: Option<Read<seq<Member>>>)
    ensures r.Some? ==> |r.value.rest| < |t|
    decreases |t|, 2
  {
    match ReadMember(t)
    case None => None
    case Some(m) =>
      if m.rest == "" then None
      else if m.rest[0] == '}' then Some(Read([m.value], m.rest[1..]))
      else if m.rest[0] != ',' then None
      else
        match ReadMembers(m.rest[1..])
        case None => None
        case Some(ms) => Some(Read([m.value] + ms.value, ms.rest))
  }

  // ------------------------------------------------- the reader undoes the writer

  lemma ReadEscapedChar(c: char, rest: string)
    ensures EscapeChar(c) != "" && EscapeChar(c)[0] != '\"'
    ensures ReadChar(EscapeChar(c) + rest) == Some(Read(c, rest))
  {
    var e := EscapeChar(c);
    var t := e + rest;
    assert t[|e|..] == rest;
    if |e| == 6 {
      assert ReadChar(t) == ReadHex(t);
    }
  }

  lemma {:induction false} ReadQuoted(s: string, rest: string)
    ensures ReadString(Escape(s) + "\"" + rest) == Some(Read(s, rest))
  {
    var t := Escape(s) + "\"" + rest;
    if s == "" {
      assert t == "\"" + rest;
    } else {
      var tail := Escape(s[1..]) + "\"" + rest;
      assert t == EscapeChar(s[0]) + tail;
      ReadEscapedChar(s[0], tail);
      ReadQuoted(s[1..], rest);
      assert [s[0]] + s[1..] == s;
    }
  }

  /** A number ends where the digits end, so what follows it must not begin with one. */
  predicate Delimited(rest: string) {
    rest == "" || !IsDigit(rest[0])
  }

  lemma {:induction false} DigitRunStops(s: string, rest: string)
    requires AllDigits(s) && Delimited(rest)
    ensures DigitRun(s + rest) == |s|
  {
    if s == "" {
      assert s + rest == rest;
    } else {
      assert (s + rest)[1..] == s[1..] + rest;
      DigitRunStops(s[1..], rest);
    }
  }

  lemma ReadDigitText(digits: string, rest: string)
    requires NoLeadingZero(digits) && Delimited(rest)
    ensures ReadNumber(digits + rest) == Some(Read(ValueOf(digits), rest))
    ensures ReadNumber("-" + (digits + rest)) == Some(Read(0 - ValueOf(digits), rest))
  {
    var u := digits + rest;
    DigitRunStops(digits, rest);
    assert u[..|digits|] == digits && u[|digits|..] == rest && u[0] == digits[0];
    assert ("-" + u)[1..] == u;
  }

  lemma ReadIntText(n: int, rest: string)
    requires Delimited(rest)
    ensures ReadNumber(IntText(n) + rest) == Some(Read(n, rest))
  {
    hide ReadNumber;
    var digits := NatText(if n < 0 then -n else n);
    NatTextDenotes(if n < 0 then -n else n);
    ReadDigitText(digits, rest);
    assert "-" + digits + rest == "-" + (digits + rest);
  }

  /** No printed value begins with a closing bracket, a brace or a comma. */
  lemma FirstCharacter(v: JSON)
    ensures Print(v) != "" && Print(v)[0] != ']' && Print(v)[0] != '}' && Print(v)[0] != ','
  {
    if v.Num? {
      NatTextDenotes(if v.n < 0 then -v.n else v.n);
    }
  }

  // What the reader does with each shape of text, one step of it at a time.

  lemma ReadLiteral(rest: string)
    ensures ReadValue("null" + rest) == Some(Read(Null, rest))
    ensures ReadValue("true" + rest) == Some(Read(Bool(true), rest))
    ensures ReadValue("false" + rest) == Some(Read(Bool(false), rest))
    ensures ReadValue("[]" + rest) == Some(Read(Arr([]), rest))
    ensures ReadValue("{}" + rest) == Some(Read(Obj([]), rest))
  {
    assert ("null" + rest)[4..] == rest && ("true" + rest)[4..] == rest && ("false" + rest)[5..] == rest;
    assert ("[]" + rest)[2..] == rest && ("{}" + rest)[2..] == rest;
  }

  lemma ReadDigits(t: string, n: int, rest: string)
    requires t != "" && (t[0] == '-' || IsDigit(t[0])) && ReadNumber(t) == Some(Read(n, rest))
    ensures ReadValue(t) == Some(Read(Num(n), rest))
  {
    var c := t[0];
    assert c != 'n' && c != 't' && c != 'f' && c != '\"' && c != '[' && c != '{';
  }

  lemma ReadOpenQuote(t: string, s: string, rest: string)
    requires ReadString(t) == Some(Read(s, rest))
    ensures ReadValue("\"" + t) == Some(Read(Str(s), rest))
  {
    assert ("\"" + t)[0] == '\"' && ("\"" + t)[1..] == t;
  }

  lemma ReadOpenBracket(t: string, vs: seq<JSON>, rest: string)
    requires t != "" && t[0] != ']' && ReadItems(t) == Some(Read(vs, rest))
    ensures ReadValue("[" + t) == Some(Read(Arr(vs), rest))
  {
    assert ("[" + t)[0] == '[' && ("[" + t)[1] == t[0] && ("[" + t)[1..] == t;
  }

  lemma ReadOpenBrace(t: string, ms: seq<Member>, rest: string)
    requires t != "" && t[0] != '}' && ReadMembers(t) == Some(Read(ms, rest))
    ensures ReadValue("{" + t) == Some(Read(Obj(ms), rest))
  {
    assert ("{" + t)[0] == '{' && ("{" + t)[1] == t[0] && ("{" + t)[1..] == t;
  }

  lemma ReadLastItem(t: string, v: JSON, rest: string)
    requires ReadValue(t) == Some(Read(v, "]" + rest))
    ensures ReadItems(t) == Some(Read([v], rest))
  {
    assert ("]" + rest)[1..] == rest;
  }

  lemma ReadNextItem(t: string, v: JSON, u: string, vs: seq<JSON>, rest: string)
    requires ReadValue(t) == Some(Read(v, "," + u)) && ReadItems(u) == Some(Read(vs, rest))
    ensures ReadItems(t) == Some(Read([v] + vs, rest))
  {
    assert ("," + u)[1..] == u;
  }

  lemma ReadKeyAndValue(t: string, k: string, u: string, v: JSON, rest: string)
    requires ReadString(t) == Some(Read(k, ":" + u)) && ReadValue(u) == Some(Read(v, rest))
    ensures ReadMember("\"" + t) == Some(Read(Member(k, v), rest))
  {
    assert (":" + u)[1..] == u && ("\"" + t)[1..] == t;
  }

  lemma ReadLastMember(t: string, m: Member, rest: string)
    requires ReadMember(t) == Some(Read(m, "}" + rest))
    ensures ReadMembers(t) == Some(Read([m], rest))
  {
    assert ("}" + rest)[1..] == rest;
  }

  lemma ReadNextMember(t: string, m: Member, u: string, ms: seq<Member>, rest: string)
    requires ReadMember(t) == Some(Read(m, "," + u)) && ReadMembers(u) == Some(Read(ms, rest))
    ensures ReadMembers(t) == Some(Read([m] + ms, rest))
  {
    assert ("," + u)[1..] == u;
  }

  /** Moving the brackets of a concatenation, so that the induction below need not look inside strings. */
  lemma Shift(a: string, b: string, c: string, d: string)
    ensures a + b + c + d == a + (b + (c + d))
    ensures a + b + c == a + (b + c)
  {}

  // The induction over values.

  lemma {:induction false} ReadPrinted(v: JSON, rest: string)
    requires Delimited(rest)
    ensures ReadValue(Print(v) + rest) == Some(Read(v, rest))
    decreases v, 1
  {
    match v {
      case Num(n) => ReadPrintedNumber(n, rest);
      case Str(s) => ReadPrintedString(s, rest);
      case Arr(items) =>
        if items == [] {
          ReadLiteral(rest);
          assert Print(v) == "[]";
        } else {
          ReadPrintedItems(items, rest);
          FirstCharacter(items[0]);
          ReadPrintedArray(PrintItems(items), items, rest);
        }
      case Obj(members) =>
        if members == [] {
          ReadLiteral(rest);
          assert Print(v) == "{}";
        } else {
          ReadPrintedMembers(members, rest);
          ReadPrintedObject(PrintMembers(members), members, rest);
        }
      case _ => ReadLiteral(rest);
    }
  }

  lemma ReadPrintedNumber(n: int, rest: string)
    requires Delimited(rest)
    ensures ReadValue(IntText(n) + rest) == Some(Read(Num(n), rest))
  {
    ReadIntText(n, rest);
    NatTextDenotes(if n < 0 then -n else n);
    ReadDigits(IntText(n) + rest, n, rest);
  }

  lemma ReadPrintedString(s: string, rest: string)
    ensures ReadValue(Quote(s) + rest) == Some(Read(Str(s), rest))
  {
    ReadQuoted(s, rest);
    ReadOpenQuote(Escape(s) + "\"" + rest, s, rest);
    assert Quote(s) + rest == "\"" + (Escape(s) + "\"" + rest);
  }

  lemma ReadPrintedArray(body: string, vs: seq<JSON>, rest: string)
    requires body != "" && body[0] != ']' && ReadItems(body + ("]" + rest)) == Some(Read(vs, rest))
    ensures ReadValue("[" + body + "]" + rest) == Some(Read(Arr(vs), rest))
  {
    ReadOpenBracket(body + ("]" + rest), vs, rest);
    Shift("[", body, "]", rest);
  }

  lemma ReadPrintedObject(body: string, ms: seq<Member>, rest: string)
    requires body != "" && body[0] != '}' && ReadMembers(body + ("}" + rest)) == Some(Read(ms, rest))
    ensures ReadValue("{" + body + "}" + rest) == Some(Read(Obj(ms), rest))
  {
    ReadOpenBrace(body + ("}" + rest), ms, rest);
    Shift("{", body, "}", rest);
  }

  lemma ReadPrintedNext(p: string, v: JSON, q: string, vs: seq<JSON>, rest: string)
    requires ReadValue(p + ("," + (q + ("]" + rest)))) == Some(Read(v, "," + (q + ("]" + rest))))
    requires ReadItems(q + ("]" + rest)) == Some(Read(vs, rest))
    ensures ReadItems(p + "," + q + ("]" + rest)) == Some(Read([v] + vs, rest))
  {
    var u := q + ("]" + rest);
    ReadNextItem(p + ("," + u), v, u, vs, rest);
    Shift(p, ",", q, "]" + rest);
  }

  lemma ReadPrintedNextMember(p: string, m: Member, q: string, ms: seq<Member>, rest: string)
    requires ReadMember(p + ("," + (q + ("}" + rest)))) == Some(Read(m, "," + (q + ("}" + rest))))
    requires ReadMembers(q + ("}" + rest)) == Some(Read(ms, rest))
    ensures ReadMembers(p + "," + q + ("}" + rest)) == Some(Read([m] + ms, rest))
  {
    var u := q + ("}" + rest);
    ReadNextMember(p + ("," + u), m, u, ms, rest);
    Shift(p, ",", q, "}" + rest);
  }

  lemma {:induction false} ReadPrintedItems(vs: seq<JSON>, rest: string)
    requires vs != []
    ensures ReadItems(PrintItems(vs) + ("]" + rest)) == Some(Read(vs, rest))
    decreases vs, 0
  {
    hide ReadValue, ReadItems, Print;
    if |vs| == 1 {
      ReadPrinted(vs[0], "]" + rest);
      ReadLastItem(Print(vs[0]) + ("]" + rest), vs[0], rest);
      assert vs == [vs[0]];
    } else {
      var u := PrintItems(vs[1..]) + ("]" + rest);
      ReadPrinted(vs[0], "," + u);
      ReadPrintedItems(vs[1..], rest);
      ReadPrintedNext(Print(vs[0]), vs[0], PrintItems(vs[1..]), vs[1..], rest);
      assert vs == [vs[0]] + vs[1..];
    }
  }

  lemma {:induction false} ReadPrintedMember(m: Member, rest: string)
    requires Delimited(rest)
    ensures ReadMember(PrintMember(m) + rest) == Some(Read(m, rest))
    decreases m, 2
  {
    ReadPrinted(m.value, rest);
    ReadPrintedKey(m.key, Print(m.value), m.value, rest);
  }

  lemma ReadPrintedKey(k: string, body: string, v: JSON, rest: string)
    requires ReadValue(body + rest) == Some(Read(v, rest))
    ensures ReadMember(Quote(k) + ":" + body + rest) == Some(Read(Member(k, v), rest))
  {
    hide ReadMember, ReadValue, ReadString, Escape;
    var u := body + rest;
    ReadQuoted(k, ":" + u);
    ReadKeyAndValue(Escape(k) + "\"" + (":" + u), k, u, v, rest);
    ShiftKey("\"", Escape(k), ":", body, rest);
  }

  lemma ShiftKey(q: string, e: string, c: string, b: string, r: string)
    ensures (q + e + q) + c + b + r == q + (e + q + (c + (b + r)))
  {}

  lemma {:induction false} ReadPrintedMembers(ms: seq<Member>, rest: string)
    requires ms != []
    ensures ReadMembers(PrintMembers(ms) + ("}" + rest)) == Some(Read(ms, rest))
    decreases ms, 0
  {
    hide ReadMember, ReadMembers, PrintMember;
    if |ms| == 1 {
      ReadPrintedMember(ms[0], "}" + rest);
      ReadLastMember(PrintMember(ms[0]) + ("}" + rest), ms[0], rest);
      assert ms == [ms[0]];
    } else {
      var u := PrintMembers(ms[1..]) + ("}" + rest);
      ReadPrintedMember(ms[0], "," + u);
      ReadPrintedMembers(ms[1..], rest);
      ReadPrintedNextMember(PrintMember(ms[0]), ms[0], PrintMembers(ms[1..]), ms[1..], rest);
      assert ms == [ms[0]] + ms[1..];
    }
  }

  /**
   Printed JSON followed by a pipe ends at that pipe: the text before the key id can be told from
   the key id whatever characters either holds.
   */
  lemma PrintedThenPipe(v: JSON, x: string, w: JSON, y: string)
    requires Print(v) + "|" + x == Print(w) + "|" + y
    ensures v == w && x == y
  {
    assert Print(v) + "|" + x == Print(v) + ("|" + x);
    assert Print(w) + "|" + y == Print(w) + ("|" + y);
    ReadPrinted(v, "|" + x);
    ReadPrinted(w, "|" + y);
    assert ("|" + x)[1..] == x && ("|" + y)[1..] == y;
  }

  lemma PrintInjective(v: JSON, w: JSON)
    requires Print(v) == Print(w)
    ensures v == w
  {
    assert Print(v) + "" == Print(v) && Print(w) + "" == Print(w);
    ReadPrinted(v, "");
    ReadPrinted(w, "");
  }

  // --------------------------------------------------- the bytes, written out

  /** Neither a quotation mark, nor a backslash, nor a control character. */
  predicate Plain(s: string) {
    forall i :: 0 <= i < |s| ==> s[i] != '\"' && s[i] != '\\' && s[i] as int >= 0x20
  }

  lemma {:induction false} PlainEscape(s: string)
    requires Plain(s)
    ensures Escape(s) == s
  {
    if s != "" {
      PlainEscape(s[1..]);
      assert s == [s[0]] + s[1..];
    }
  }

  /** Plain text is printed as it is between quotation marks; a slash or a character beyond ASCII is plain. */
  lemma PlainTextIsQuoted(s: string)
    requires Plain(s)
    ensures Print(Str(s)) == "\"" + s + "\""
  {
    PlainEscape(s);
  }

  lemma OneCharacter(c: char)
    ensures Print(Str([c])) == "\"" + EscapeChar(c) + "\""
  {
    assert [c][1..] == "";
    assert Escape([c]) == EscapeChar(c) + "";
  }

  /** The other characters have one spelling each: seven short escapes, and two lower-case hex digits for the rest. */
  lemma EscapesWrittenOut(c: char)
    ensures c == '\"' ==> Print(Str([c])) == "\"\\\"\""
    ensures c == '\\' ==> Print(Str([c])) == "\"\\\\\""
    ensures c == '\n' ==> Print(Str([c])) == "\"\\n\""
    ensures c == '\r' ==> Print(Str([c])) == "\"\\r\""
    ensures c == '\t' ==> Print(Str([c])) == "\"\\t\""
    ensures c as int == 0x08 ==> Print(Str([c])) == "\"\\b\""
    ensures c as int == 0x0C ==> Print(Str([c])) == "\"\\f\""
    ensures c as int < 0x20 && c as int !in {0x08, 0x09, 0x0A, 0x0C, 0x0D} ==>
              Print(Str([c])) == "\"\\u00" + ["0123456789abcdef"[c as int / 16]] + ["0123456789abcdef"[c as int % 16]] + "\""
  {
    OneCharacter(c);
    if c as int < 0x20 {
      HexDigitsWrittenOut(c as int / 16);
      HexDigitsWrittenOut(c as int % 16);
    }
  }

  lemma HexDigitsWrittenOut(d: nat)
    requires d < 16
    ensures HexChar(d) == "0123456789abcdef"[d]
  {}

  /** Printing a concatenation concatenates the bodies. */
  lemma {:induction false} EscapeConcat(s: string, t: string)
    ensures Escape(s + t) == Escape(s) + Escape(t)
  {
    if s == "" {
      assert s + t == t;
    } else {
      assert (s + t)[1..] == s[1..] + t;
      EscapeConcat(s[1..], t);
    }
  }

  lemma StringsConcatenate(s: string, t: string) returns (x: string, y: string)
    ensures Print(Str(s)) == "\"" + x + "\"" && Print(Str(t)) == "\"" + y + "\""
    ensures Print(Str(s + t)) == "\"" + (x + y) + "\""
  {
    x, y := Escape(s), Escape(t);
    EscapeConcat(s, t);
    hide Escape;
  }

  /** The texts of the parts of an array or of an object. */
  function ItemTexts(vs: seq<JSON>): (parts: seq<string>)
    ensures |parts| == |vs| && forall i :: 0 <= i < |vs| ==> parts[i] == Print(vs[i])
  {
    seq(|vs|, i requires 0 <= i < |vs| => Print(vs[i]))
  }

  function EntryTexts(ms: seq<Member>): (parts: seq<string>)
    ensures |parts| == |ms| && forall i :: 0 <= i < |ms| ==> parts[i] == Print(Str(ms[i].key)) + ":" + Print(ms[i].value)
  {
    seq(|ms|, i requires 0 <= i < |ms| => Print(Str(ms[i].key)) + ":" + Print(ms[i].value))
  }

  /** No space anywhere: literals, numbers, and parts joined by commas within brackets or braces. */
  lemma PrintWrittenOut(n: int, vs: seq<JSON>, ms: seq<Member>)
    ensures Print(Null) == "null" && Print(Bool(true)) == "true" && Print(Bool(false)) == "false" && Print(Num(n)) == IntText(n)
    ensures Print(Arr(vs)) == "[" + Join(',', ItemTexts(vs)) + "]"
    ensures Print(Obj(ms)) == "{" + Join(',', EntryTexts(ms)) + "}"
  {
    ItemsJoin(vs);
    MembersJoin(ms);
  }

  lemma {:induction false} ItemsJoin(vs: seq<JSON>)
    ensures PrintItems(vs) == Join(',', ItemTexts(vs))
  {
    hide Print;
    if |vs| > 1 {
      ItemsJoin(vs[1..]);
      assert ItemTexts(vs)[1..] == ItemTexts(vs[1..]);
    }
  }

  lemma {:induction false} MembersJoin(ms: seq<Member>)
    ensures PrintMembers(ms) == Join(',', EntryTexts(ms))
  {
    if |ms| > 0 {
      assert Quote(ms[0].key) == Print(Str(ms[0].key));
    }
    hide Print, Quote;
    if |ms| > 1 {
      MembersJoin(ms[1..]);
      assert EntryTexts(ms)[1..] == EntryTexts(ms[1..]);
    }
  }
}
