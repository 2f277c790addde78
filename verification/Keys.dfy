/** The verification key directory and its validity windows. */
module Keys {
  import opened Prelude
  import opened Report
  import opened Primitives
  import Base64Url

  datatype Algorithm = Ed25519 | OtherAlgorithm(name: string)

  datatype VerificationKey = VerificationKey(
    keyId: string,
    algorithm: Algorithm,
    publicKey: string,
    notBefore: string,
    notAfter: Option<string>,
    revokedAt: Option<string>)

  /** An immutable index over a snapshot of keys. */
  datatype KeyDirectory = KeyDirectory(index: map<string, VerificationKey>)

  /** What the library raises instead of returning. */
  datatype Error = INVALID_INPUT | KEYS_MALFORMED | KEYS_UNAVAILABLE | VALUE_ERROR | UNICODE_ENCODE_ERROR

  // ------------------------------------------------------------- loading

  /** Some key of the list has an unsupported algorithm or repeats an earlier key's id. */
  ghost predicate Malformed(keys: seq<VerificationKey>) {
    || (exists i :: 0 <= i < |keys| && keys[i].algorithm != Ed25519)
    || (exists i, j :: 0 <= i < j < |keys| && keys[i].keyId == keys[j].keyId)
  }

  /** The directory holds exactly the listed keys, each under its id. */
  ghost predicate Indexes(directory: KeyDirectory, keys: seq<VerificationKey>) {
    && (forall i :: 0 <= i < |keys| ==> keys[i].keyId in directory.index && directory.index[keys[i].keyId] == keys[i])
    && (forall id :: id in directory.index ==> exists i :: 0 <= i < |keys| && keys[i].keyId == id)
  }

  /** The dictionary the constructor fills, one key after the other. */
  function IndexOf(keys: seq<VerificationKey>): map<string, VerificationKey> {
    if keys == [] then map[] else IndexOf(keys[..|keys| - 1])[keys[|keys| - 1].keyId := keys[|keys| - 1]]
  }

  /** A list of keys admits one directory, whichever way it is put together. */
  lemma DirectoryIsDetermined(d: KeyDirectory, e: KeyDirectory, keys: seq<VerificationKey>)
    requires Indexes(d, keys) && Indexes(e, keys)
    ensures d == e
  {
    forall id | id in d.index || id in e.index ensures id in d.index && id in e.index && d.index[id] == e.index[id] {
      var i :| 0 <= i < |keys| && keys[i].keyId == id;
    }
    assert d.index == e.index;
  }

  method BuildKeyDirectory(keys: seq<VerificationKey>) returns (r: Result<KeyDirectory, Error>)
    ensures r.Failure? <==> Malformed(keys)
    ensures r.Failure? ==> r.error == KEYS_MALFORMED
    ensures r.Success? ==> Indexes(r.value, keys) && r.value == KeyDirectory(IndexOf(keys))
  {
    var i := 0;
    while i < |keys|
      invariant 0 <= i <= |keys|
      invariant forall j :: 0 <= j < i ==> keys[j].algorithm == Ed25519
    {
      if keys[i].algorithm != Ed25519 {
        return Failure(KEYS_MALFORMED);
      }
      i := i + 1;
    }
    var index: map<string, VerificationKey> := map[];
    i := 0;
    while i < |keys|
      invariant 0 <= i <= |keys|
      invariant index == IndexOf(keys[..i])
      invariant forall j, k :: 0 <= j < k < i ==> keys[j].keyId != keys[k].keyId
    {
      IndexOfHolds(keys[..i], keys[i].keyId);
      if keys[i].keyId in index {
        return Failure(KEYS_MALFORMED);
      }
      assert keys[..i + 1][..i] == keys[..i];
      index := index[keys[i].keyId := keys[i]];
      i := i + 1;
    }
    assert keys[..i] == keys;
    IndexOfIndexes(keys);
    r := Success(KeyDirectory(index));
  }

  lemma {:induction false} IndexOfHolds(keys: seq<VerificationKey>, id: string)
    ensures id in IndexOf(keys) <==> exists j :: 0 <= j < |keys| && keys[j].keyId == id
  {
    if keys != [] {
      var front := keys[..|keys| - 1];
      IndexOfHolds(front, id);
      assert forall j :: 0 <= j < |front| ==> front[j] == keys[j];
    }
  }

  /** With distinct ids the dictionary holds exactly the listed keys. */
  lemma {:induction false} IndexOfIndexes(keys: seq<VerificationKey>)
    requires forall i, j :: 0 <= i < j < |keys| ==> keys[i].keyId != keys[j].keyId
    ensures Indexes(KeyDirectory(IndexOf(keys)), keys)
  {
    if keys != [] {
      var n := |keys| - 1;
      IndexOfIndexes(keys[..n]);
      IndexesNext(IndexOf(keys[..n]), keys, n);
      assert keys[..n + 1] == keys;
    }
  }

  lemma IndexesNext(index: map<string, VerificationKey>, keys: seq<VerificationKey>, i: nat)
    requires i < |keys| && Indexes(KeyDirectory(index), keys[..i])
    requires forall j :: 0 <= j < i ==> keys[j].keyId != keys[i].keyId
    ensures Indexes(KeyDirectory(index[keys[i].keyId := keys[i]]), keys[..i + 1])
  {
    var next := KeyDirectory(index[keys[i].keyId := keys[i]]);
    var more := keys[..i + 1];
    assert forall j :: 0 <= j < i ==> keys[..i][j] == keys[j] == more[j];
    forall id | id in next.index ensures exists j :: 0 <= j < |more| && more[j].keyId == id {
      if id == keys[i].keyId {
        assert more[i].keyId == id;
      } else {
        var j :| 0 <= j < i && keys[..i][j].keyId == id;
        assert more[j].keyId == id;
      }
    }
  }

  // -------------------------------------------------------------- lookup

  function Lookup(env: Foreign, directory: KeyDirectory, keyId: string, issuedAtIso: string): Result<VerificationKey, Reason> {
    if keyId !in directory.index then Failure(UNKNOWN_KEY_ID)
    else
      var key := directory.index[keyId];
      var issuedAt := ParseIsoMs(env, issuedAtIso);
      var notBefore := ParseIsoMs(env, key.notBefore);
      if issuedAt.None? then Failure(KEY_OUTSIDE_VALIDITY_WINDOW)
      else if notBefore.Some? && issuedAt.value < notBefore.value then Failure(KEY_OUTSIDE_VALIDITY_WINDOW)
      else if PastBound(env, key.notAfter, issuedAt.value) then Failure(KEY_OUTSIDE_VALIDITY_WINDOW)
      else if PastBound(env, key.revokedAt, issuedAt.value) then Failure(KEY_REVOKED_BEFORE_ISSUANCE)
      else Success(key)
  }

  /** The bound is given, parses, and lies before the instant. */
  predicate PastBound(env: Foreign, bound: Option<string>, t: real) {
    bound.Some? && ParseIsoMs(env, bound.value).Some? && ParseIsoMs(env, bound.value).value < t
  }

  /** The instants at which a key may sign. A bound that does not parse does not bind. */
  predicate InWindow(env: Foreign, key: VerificationKey, t: real) {
    && (ParseIsoMs(env, key.notBefore).Some? ==> ParseIsoMs(env, key.notBefore).value <= t)
    && !PastBound(env, key.notAfter, t) && !PastBound(env, key.revokedAt, t)
  }

  /** A key is found exactly when its id is listed and the instant parses and lies in its window. */
  lemma LookupHits(env: Foreign, directory: KeyDirectory, keyId: string, iso: string)
    ensures var r := Lookup(env, directory, keyId, iso);
            r.Success? <==> keyId in directory.index && ParseIsoMs(env, iso).Some?
                            && InWindow(env, directory.index[keyId], ParseIsoMs(env, iso).value)
    ensures var r := Lookup(env, directory, keyId, iso); r.Success? ==> r.value == directory.index[keyId]
  {}

  /** A key valid at two instants is valid at every instant between them: windows have no holes. */
  lemma WindowIsConvex(env: Foreign, directory: KeyDirectory, keyId: string, early: string, between: string, late: string)
    requires Lookup(env, directory, keyId, early).Success? && Lookup(env, directory, keyId, late).Success?
    requires ParseIsoMs(env, between).Some?
    requires ParseIsoMs(env, early).value <= ParseIsoMs(env, between).value <= ParseIsoMs(env, late).value
    ensures Lookup(env, directory, keyId, between).Success?
  {
    hide ParseIsoMs;
    LookupHits(env, directory, keyId, early);
    LookupHits(env, directory, keyId, late);
    LookupHits(env, directory, keyId, between);
  }

  // ----------------------------------------------------------- signatures

  datatype SignatureOutcome = Verified | Rejected | Undecodable | WrongLength

  /** Strict decoding of signature and public key, the length check, and the curve. */
  function CheckSignature(env: Foreign, publicKey: string, message: string, signature: string): SignatureOutcome {
    var sig := Base64Url.DecodeStrict(signature);
    var pub := Base64Url.DecodeStrict(publicKey);
    if sig.None? || pub.None? then Undecodable
    else if |sig.value| != 64 || |pub.value| != 32 then WrongLength
    else if VerifyEd25519(env, pub.value, message, sig.value) then Verified else Rejected
  }

  /** The signature text decodes to 64 bytes that verify for the message under the key text's 32 bytes. */
  predicate Signs(env: Foreign, publicKey: string, message: string, signature: string) {
    CheckSignature(env, publicKey, message, signature) == Verified
  }

  /**
   A signature that verifies has another spelling that verifies: 64 bytes take 86 characters, and the
   last of them has bits the strict decoder does not use.
   */
  lemma SignatureHasTwin(env: Foreign, publicKey: string, message: string, signature: string)
    requires Signs(env, publicKey, message, signature)
    ensures signature != "" && Base64Url.AlphabetText(signature)
    ensures Signs(env, publicKey, message, Base64Url.Twin(signature))
  {
    hide Base64Url.DecodeStrict, Base64Url.Twin;
    Base64Url.SignatureLength(signature);
    Base64Url.TwinDecodesAlike(signature);
  }

  /** The directory with one key changed. */
  function WithKey(directory: KeyDirectory, keyId: string, key: VerificationKey): KeyDirectory {
    KeyDirectory(directory.index[keyId := key])
  }

  /** The instant is not behind the bound; a bound that does not parse is no bound. */
  predicate NotBehind(env: Foreign, iso: string, bound: string) {
    ParseIsoMs(env, iso).Some? && ParseIsoMs(env, bound).Some? ==> ParseIsoMs(env, iso).value <= ParseIsoMs(env, bound).value
  }

  /**
   Giving a key a revocation time cuts its window off behind that time and changes nothing before it;
   but a revocation time that does not parse changes no lookup at all, so the key stays usable. The same
   holds of an expiry time.
   */
  lemma RevocationCutsOff(env: Foreign, directory: KeyDirectory, keyId: string, iso: string, bound: string)
    requires keyId in directory.index
    ensures var key := directory.index[keyId];
            && (key.revokedAt.None? ==>
                  (Lookup(env, WithKey(directory, keyId, key.(revokedAt := Some(bound))), keyId, iso).Success?
                   <==> Lookup(env, directory, keyId, iso).Success? && NotBehind(env, iso, bound)))
            && (key.notAfter.None? ==>
                  (Lookup(env, WithKey(directory, keyId, key.(notAfter := Some(bound))), keyId, iso).Success?
                   <==> Lookup(env, directory, keyId, iso).Success? && NotBehind(env, iso, bound)))
  {
    hide ParseIsoMs;
    var key := directory.index[keyId];
    LookupHits(env, directory, keyId, iso);
    LookupHits(env, WithKey(directory, keyId, key.(revokedAt := Some(bound))), keyId, iso);
    LookupHits(env, WithKey(directory, keyId, key.(notAfter := Some(bound))), keyId, iso);
  }

  /** A start time that does not parse admits every instant that any start time admits. */
  lemma UnreadableStartAdmitsAll(env: Foreign, directory: KeyDirectory, keyId: string, iso: string, bad: string)
    requires keyId in directory.index && ParseIsoMs(env, bad).None?
    ensures var key := directory.index[keyId]; var unbounded := WithKey(directory, keyId, key.(notBefore := bad));
            Lookup(env, directory, keyId, iso).Success?
            <==> Lookup(env, unbounded, keyId, iso).Success? && NotBehind(env, key.notBefore, iso)
  {
    hide ParseIsoMs;
    LookupHits(env, directory, keyId, iso);
    LookupHits(env, WithKey(directory, keyId, directory.index[keyId].(notBefore := bad)), keyId, iso);
  }

  // --------------------------------------------------------- written out

  /** Why a key is refused, in the order of the checks. */
  lemma ReasonsWrittenOut(env: Foreign, directory: KeyDirectory, keyId: string, iso: string)
    ensures var r := Lookup(env, directory, keyId, iso); var t := ParseIsoMs(env, iso);
            && (keyId !in directory.index ==> r == Failure(UNKNOWN_KEY_ID))
            && (keyId in directory.index && t.None? ==> r == Failure(KEY_OUTSIDE_VALIDITY_WINDOW))
            && (keyId in directory.index && t.Some? ==>
                  var key := directory.index[keyId];
                  var early := ParseIsoMs(env, key.notBefore).Some? && t.value < ParseIsoMs(env, key.notBefore).value;
                  var late := key.notAfter.Some? && ParseIsoMs(env, key.notAfter.value).Some? && t.value > ParseIsoMs(env, key.notAfter.value).value;
                  var revoked := key.revokedAt.Some? && ParseIsoMs(env, key.revokedAt.value).Some? && t.value > ParseIsoMs(env, key.revokedAt.value).value;
                  && (early || late ==> r == Failure(KEY_OUTSIDE_VALIDITY_WINDOW))
                  && (!early && !late && revoked ==> r == Failure(KEY_REVOKED_BEFORE_ISSUANCE))
                  && (!early && !late && !revoked ==> r == Success(key)))
  {
    hide ParseIsoMs;
  }

  /** What checking a signature comes to, from the two decoded texts. */
  lemma OutcomesWrittenOut(env: Foreign, publicKey: string, message: string, signature: string)
    ensures var sig, pub := Base64Url.DecodeStrict(signature), Base64Url.DecodeStrict(publicKey);
            CheckSignature(env, publicKey, message, signature)
            == if sig.None? || pub.None? then Undecodable
               else if |sig.value| != 64 || |pub.value| != 32 then WrongLength
               else if env.curve(pub.value, message, sig.value) then Verified else Rejected
  {
    hide Base64Url.DecodeStrict;
  }
}
