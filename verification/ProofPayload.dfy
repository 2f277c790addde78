/** The field-ordered canonical form of a proof receipt, which is hashed and signed. */
module ProofPayload {
  import opened Prelude
  import opened Text
  import opened Json

  datatype ProofReceiptPayload = ProofReceiptPayload(
    version: string,
    receiptId: string,
    correlationId: Option<string>,
    spatialAnchorId: string,
    spatialPlacementId: Option<string>,
    issuedAt: string,
    renderedAt: string,
    dwellMs: int,
    nonce: string,
    witnessRef: Option<string>)

  const FIELD_COUNT: nat := 10

  /** PROOF_PAYLOAD_FIELDS, by position. */
  function WireField(i: nat): string
    requires i < FIELD_COUNT
  {
    match i
    case 0 => "version"
    case 1 => "receiptId"
    case 2 => "correlationId"
    case 3 => "spatialAnchorId"
    case 4 => "spatialPlacementId"
    case 5 => "issuedAt"
    case 6 => "renderedAt"
    case 7 => "dwellMs"
    case 8 => "nonce"
    case _ => "witness"
  }

  function Nullable(s: Option<string>): JSON {
    if s.Some? then Str(s.value) else Null
  }

  function FieldValue(p: ProofReceiptPayload, i: nat): JSON
    requires i < FIELD_COUNT
  {
    match i
    case 0 => Str(p.version)
    case 1 => Str(p.receiptId)
    case 2 => Nullable(p.correlationId)
    case 3 => Str(p.spatialAnchorId)
    case 4 => Nullable(p.spatialPlacementId)
    case 5 => Str(p.issuedAt)
    case 6 => Str(p.renderedAt)
    case 7 => Num(p.dwellMs)
    case 8 => Str(p.nonce)
    case _ => Nullable(p.witnessRef)
  }

  /** The first n fields, as the members of a JSON object in declared order. */
  function Fields(p: ProofReceiptPayload, n: nat): (ms: seq<Member>)
    requires n <= FIELD_COUNT
    ensures |ms| == n
    ensures forall i :: 0 <= i < n ==> ms[i] == Member(WireField(i), FieldValue(p, i))
  {
    seq(n, i requires 0 <= i < n => Member(WireField(i), FieldValue(p, i)))
  }

  /** The payload's canonical text: the compact JSON object of its ten fields. */
  function CanonicalText(p: ProofReceiptPayload): string {
    Print(Obj(Fields(p, FIELD_COUNT)))
  }

  function SigningInput(p: ProofReceiptPayload, keyId: string): string {
    CanonicalText(p) + "|" + keyId
  }

  function MemberTexts(ms: seq<Member>): (parts: seq<string>)
    ensures |parts| == |ms|
  {
    seq(|ms|, i requires 0 <= i < |ms| => PrintMember(ms[i]))
  }

  lemma {:induction false} PrintMembersJoins(ms: seq<Member>)
    ensures PrintMembers(ms) == Join(',', MemberTexts(ms))
  {
    hide PrintMember;
    var parts := MemberTexts(ms);
    if |ms| > 1 {
      PrintMembersJoins(ms[1..]);
      assert parts[1..] == MemberTexts(ms[1..]);
      assert parts[0] == PrintMember(ms[0]);
    }
  }

  lemma FieldsNext(p: ProofReceiptPayload, i: nat)
    requires i < FIELD_COUNT
    ensures MemberTexts(Fields(p, i + 1)) == MemberTexts(Fields(p, i)) + [Quote(WireField(i)) + ":" + Print(FieldValue(p, i))]
  {
    hide WireField, FieldValue, Quote, Print;
    assert Fields(p, i + 1)[..i] == Fields(p, i);
  }

  method CanonicaliseProofPayload(p: ProofReceiptPayload) returns (text: string)
    ensures text == CanonicalText(p)
  {
    hide WireField, FieldValue, Quote, MemberTexts, Join;
    var parts: seq<string> := [];
    assert MemberTexts(Fields(p, 0)) == [];
    var i := 0;
    while i < FIELD_COUNT
      invariant 0 <= i <= FIELD_COUNT
      invariant parts == MemberTexts(Fields(p, i))
    {
      var encodedValue := Print(FieldValue(p, i));
      var encodedKey := Quote(WireField(i));
      FieldsNext(p, i);
      parts := parts + [encodedKey + ":" + encodedValue];
      i := i + 1;
    }
    PrintMembersJoins(Fields(p, FIELD_COUNT));
    text := "{" + Join(',', parts) + "}";
  }

  // --------------------------------------------------------- reading it back

  function TextOf(v: JSON): Option<string> {
    if v.Str? then Some(v.s) else None
  }

  predicate IsNullable(v: JSON) {
    v.Null? || v.Str?
  }

  /** The payload a JSON object holds: ten members in declared order, of the declared types. */
  function PayloadOf(v: JSON): Option<ProofReceiptPayload> {
    if !v.Obj? || |v.members| != FIELD_COUNT || (exists i :: 0 <= i < FIELD_COUNT && v.members[i].key != WireField(i)) then None
    else
      var m := v.members;
      if !m[0].value.Str? || !m[1].value.Str? || !IsNullable(m[2].value) || !m[3].value.Str? || !IsNullable(m[4].value)
         || !m[5].value.Str? || !m[6].value.Str? || !m[7].value.Num? || !m[8].value.Str? || !IsNullable(m[9].value) then None
      else Some(ProofReceiptPayload(
                  m[0].value.s, m[1].value.s, TextOf(m[2].value), m[3].value.s, TextOf(m[4].value),
                  m[5].value.s, m[6].value.s, m[7].value.n, m[8].value.s, TextOf(m[9].value)))
  }

  /** Reads a canonical payload off the front of a text. */
  function ReadPayload(t: string): Option<Read<ProofReceiptPayload>> {
    match ReadValue(t)
    case None => None
    case Some(v) =>
      match PayloadOf(v.value)
      case None => None
      case Some(p) => Some(Read(p, v.rest))
  }

  lemma FieldsHoldPayload(p: ProofReceiptPayload)
    ensures PayloadOf(Obj(Fields(p, FIELD_COUNT))) == Some(p)
  {
    hide WireField;
  }

  /**
   All ten fields are recovered from the canonical text, whatever text follows it: strings through
   their escapes, null, and signed integers.
   */
  lemma CanonicalTextIsReadable(p: ProofReceiptPayload, rest: string)
    ensures ReadPayload(CanonicalText(p) + rest) == Some(Read(p, rest))
  {
    hide PayloadOf, ReadValue, ReadMembers, WireField, FieldValue;
    var ms := Fields(p, FIELD_COUNT);
    ReadPrintedMembers(ms, rest);
    MembersOpenWithQuote(ms);
    ReadPrintedObject(PrintMembers(ms), ms, rest);
    FieldsHoldPayload(p);
  }

  lemma MembersOpenWithQuote(ms: seq<Member>)
    requires ms != []
    ensures PrintMembers(ms) != "" && PrintMembers(ms)[0] == '\"'
  {}

  lemma CanonicalTextInjective(p: ProofReceiptPayload, q: ProofReceiptPayload)
    requires CanonicalText(p) == CanonicalText(q)
    ensures p == q
  {
    hide CanonicalText, ReadPayload;
    CanonicalTextIsReadable(p, "");
    CanonicalTextIsReadable(q, "");
  }

  /** The signing input determines the payload and the key id, even when the key id holds pipes. */
  lemma SigningInputDetermines(p: ProofReceiptPayload, k: string, q: ProofReceiptPayload, l: string)
    requires SigningInput(p, k) == SigningInput(q, l)
    ensures p == q && k == l
  {
    hide CanonicalText, ReadPayload;
    CanonicalTextIsReadable(p, "|" + k);
    CanonicalTextIsReadable(q, "|" + l);
    assert CanonicalText(p) + ("|" + k) == SigningInput(p, k);
    assert CanonicalText(q) + ("|" + l) == SigningInput(q, l);
    assert ("|" + k)[1..] == k && ("|" + l)[1..] == l;
  }

  // --------------------------------------------------------- written out

  /** The ten members of the canonical object, in order. */
  lemma CanonicalTextWrittenOut(p: ProofReceiptPayload)
    ensures CanonicalText(p) == Print(Obj([
              Member("version", Str(p.version)),
              Member("receiptId", Str(p.receiptId)),
              Member("correlationId", if p.correlationId.Some? then Str(p.correlationId.value) else Null),
              Member("spatialAnchorId", Str(p.spatialAnchorId)),
              Member("spatialPlacementId", if p.spatialPlacementId.Some? then Str(p.spatialPlacementId.value) else Null),
              Member("issuedAt", Str(p.issuedAt)),
              Member("renderedAt", Str(p.renderedAt)),
              Member("dwellMs", Num(p.dwellMs)),
              Member("nonce", Str(p.nonce)),
              Member("witness", if p.witnessRef.Some? then Str(p.witnessRef.value) else Null)]))
  {
    var fields := Fields(p, FIELD_COUNT);
    hide Print;
    assert fields == [fields[0], fields[1], fields[2], fields[3], fields[4], fields[5], fields[6], fields[7], fields[8], fields[9]];
  }

  /** The signature covers the canonical text, a pipe and the key id. */
  lemma SigningInputWrittenOut(p: ProofReceiptPayload, keyId: string)
    ensures SigningInput(p, keyId) == CanonicalText(p) + "|" + keyId
  {}
}
