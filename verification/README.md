# An offline auditor of signed proof packs, modelled and proved

The EnfinitOS auditor decides from data alone whether a pack of signed proof records, a metering
projection and a settlement split are consistent with each other. Its verifiers are deterministic passes
over lists and dictionaries that look at one record, or at two neighbours, at a time. This project models
those passes and proves what their VALID verdicts mean for the data as a whole.

`dafny verify dfyconfig.toml` checks the project.

## How it is built

- Every verifier is a method with the loops of the original. Its postcondition fixes the exact list of
  audit steps (target, kind, status, reason, in order) and says that the status is VALID exactly when a
  declarative predicate holds: `ChainHolds`, `Authentic`, `MeteringHolds`, `SettlementHolds`,
  `NothingRefused`, `ExportHolds`, `BundleHolds`. The theorems are about those predicates.
- Concrete texts, tables and reasons are stated with their constants written out (`...WrittenOut`), so that the
  functions the theorems speak of are tied to the bytes and names of the wire format.
- `EnfinitOSAuditor` is a class, because it caches the key directory in a field.
- SHA-256, the Ed25519 equation, timestamp parsing and `int` of a string are arbitrary functions, gathered
  in `Primitives.Foreign`. Of the hash only the shape of its results is known (64 lower-case hex digits); it is
  not assumed injective. A result that rests on the hash says "or these two different texts, hashed in these
  very runs, have one digest" and exhibits the two texts.
- Python's `//` by a positive divisor is Dafny's `/`. Integers are unbounded in both. Strings are ordered by
  code point, as Python orders them.

| file | component |
|---|---|
| `Prelude.dfy`, `Text.dfy`, `Report.dfy`, `Primitives.dfy` | stock types, text, audit steps, foreign code and hash keys |
| `Json.dfy`, `ProofPayload.dfy`, `Collation.dfy`, `SortKeys.dfy`, `Readings.dfy`, `Base64Url.dfy` | the two canonical encoders with a JSON reader, key orders, pipe-joined text, base64url |
| `Decimal.dfy`, `Projection.dfy`, `Split.dfy` | six-place decimals, the projection policy, the split |
| `Keys.dfy`, `ProofPack.dfy`, `ProofChain.dfy`, `TenantChain.dfy`, `Provenance.dfy`, `Exports.dfy` | keys, records, chains, provenance rows, exports |
| `Metering.dfy`, `Settlement.dfy`, `SettlementFacts.dfy`, `SettlementOrder.dfy` | the two reconciliations and what they imply for the money |
| `Auditor.dfy`, `EndToEnd.dfy`, `Issuing.dfy`, `Promise.dfy` | the facade, the theorems across its four parts, honest bundles, and the documented promise |

## Where the code and its documentation part

The model follows the code.

- README.md:273-277 says a VALID full report means every settlement line re-derives from a receipt that verifies under a
  key the auditor pulled from the platform. Without a metering summary the settlement is skipped, and a bundle may ship
  the keys it is judged by. `Promise.PromiseKeptExactly` proves that, over all auditors' directories and all settlements
  put beside it, the promise is kept exactly for bundles that have metering and either ship no keys or meter nothing;
  `Promise.ShippedKeysBreakThePromise` is an input.
- README.md:82-86 says the chain makes tampering with a single record detectable. That is so for one changed record that
  another follows: nothing in it but key id and signature can change unless two texts collide
  (`EndToEnd.TamperingIsDetected`). The last record is held by its signature alone
  (`EndToEnd.LastRecordIsHeldBySignature`), and taking a record out while relinking the next, whose link neither its hash
  nor its signature covers, is not noticed (`EndToEnd.DropGoesUnnoticed`). The exact conditions are
  `EndToEnd.ReplacementGivesBundle` for one record replaced and `EndToEnd.SelectionGivesBundle` for a selection relinked.
- README.md:92-95 calls settlement a pure projection of metering with a gross price per unit. The settlement verifier reads
  only the set of meter keys (`SettlementFacts.UnitsNeverReachTheMoney`), and any gross is accepted
  (`Promise.AnyGrossIsAccepted`). Likewise the organisation ids it compares are labels nobody signed
  (`Promise.OrganisationIsALabel`).
- README.md:259-264 says `verify_proof_pack` walks chain links. It does not look at them:
  `EndToEnd.PackReportIgnoresTheChain`.
- The chain walk compares the times of neighbours where both parse. On its own that sorts the readable times exactly when
  no unreadable one stands between two of them (`ProofChain.ChainSortsExactly`); in a full run the key lookup refuses
  unreadable times (`EndToEnd.VerifiedBundleIsSorted`).
- `genesis_chain_tip` says the seed cannot be a digest because of its length. An organisation id of 38
  characters gives it that length; the first letter is what tells them apart (`TenantChain.SeedIsNoDigest`).
- `base64url_decode_strict` refuses padding so that a signature has one spelling. A text is the only spelling of its bytes
  exactly when its length is a multiple of four (`Base64Url.SpellingIsUniqueExactly`). A 64-byte signature takes 86
  characters, so every authentic record has a twin that differs only in its signature text (`EndToEnd.AuthenticHasTwin`).
- `canonical_sort_keys` speaks of code-unit order; Python sorts by code point. The orders part on one character from
  0xE000 to 0xFFFF against one beyond (`Collation.OrdersDisagree`), two keys are ranked alike exactly when they do not
  part so at their first difference (`Collation.OrdersAgreeExactly`), and the canonical texts are one exactly when no two
  keys of one object do (`SortKeys.OrdersPrintAlikeExactly`). An export canonicalised as documented is refused here
  otherwise (`Exports.CodeUnitExportsHoldExactly`).
- Verifiers are meant to report steps, but two exceptions get out. The metering verifier raises `ValueError`, exactly on
  `Metering.RaisesOn` (`Metering.UnreadableWeightRaises` is an input). The hash comparison raises `UnicodeEncodeError` on
  an after-hash of 64 characters that are not all ASCII (`ProofPack.HashRaises`, `Auditor.NonAsciiHashRaises`). `verify_all`
  raises exactly where one of them does or the keys fail to load (`Auditor.RunRaisesExactly`), as far as the foreign
  code returns.
- A revocation, expiry or start time that does not parse is no bound, so an unreadably revoked key stays usable
  (`Keys.RevocationCutsOff`, `Keys.UnreadableStartAdmitsAll`).
- The split is said to be deterministic. It is, but two lines with the winning share and role are told apart by
  their position when there is a residual (`Split.EqualLinesArePaidAlike`); a VALID settlement survives every reordering
  of its lines exactly when no meter has such a tie (`SettlementOrder.OrderIsIrrelevantExactly`).
- The fields of tenant-chain links, settlement.v2 keys and provenance rows are joined by pipes without escaping. For tenant
  chains the cost is `TenantChain.ConfusableOrganisationsShareATip`. A settlement.v2 key leaves role and account open
  exactly when one of them holds a pipe (`Primitives.SettlementKeySharedExactly`). For provenance rows
  `Provenance.SharedInputExactly` says which rows have a second reading, from the places of their pipes, and
  `Provenance.SignatureTwinAnyKeyExactly` when one signature then makes two rows authentic. An absent field, an empty one
  and a dash are one spelling there (`Provenance.WrittenAlikeExactly`).

## Model

| member | source | states |
|---|---|---|
| TenantChain.VerifyTenantChain | src/enfinitos_auditor/tenant_chain.py:80-282 | the exact steps; VALID if and only if the chain is rooted at the seed, every link recomputes, and neighbours are linked and consecutively numbered |
| TenantChain.TextsWrittenOut | src/enfinitos_auditor/tenant_chain.py:38-73 | with every constant written out: the text a link is the digest of, with a dash for an absent or empty predecessor, and the seed |
| TenantChain.OneRowWrittenOut | src/enfinitos_auditor/tenant_chain.py:126-272 | a chain of one row holds exactly when it names the seed, its sequence reads, and its link is the digest of tenantChain.v1, seed, row hash and number joined by pipes |
| TenantChain.RecordStepsWrittenOut | src/enfinitos_auditor/tenant_chain.py:158-272 | the steps of a record, with targets and reasons |
| TenantChain.StepsDecideChain | src/enfinitos_auditor/tenant_chain.py:158-275 | no step is INVALID exactly when the declarative chain predicate holds, although the walk skips unreadable sequence numbers and remembers an older one |
| TenantChain.TipCommitsToHistory | src/enfinitos_auditor/tenant_chain.py:55-73 | two VALID chains of one organisation with the same tip have the same length and the same rows at every index, or two of their link texts collide; no field need be free of pipes |
| TenantChain.TipCommitsToOrganisation | src/enfinitos_auditor/tenant_chain.py:68-73 | chains of two organisations with one tip exhibit a collision, unless one id continues the other with a pipe |
| TenantChain.ConfusableOrganisationsShareATip | src/enfinitos_auditor/tenant_chain.py:64-73 | for ids so related there are VALID chains with one tip and no collision, so the exception is exact |
| TenantChain.SeedIsNoDigest | src/enfinitos_auditor/tenant_chain.py:68-73 | a seed is never a digest, though it has a digest's length when the organisation id has 38 characters |
| TenantChain.SegmentsCompose | src/enfinitos_auditor/tenant_chain.py:126-272 | two segments verify as one chain exactly when the second verifies from the first's tip and its numbering goes on |
| TenantChain.SequenceCounts | src/enfinitos_auditor/tenant_chain.py:86-89 | along a VALID chain record i carries the first number plus i |
| ProofPayload.CanonicaliseProofPayload | src/enfinitos_auditor/canonical_json.py:82-108 | the loop over the field list prints the object of the ten fields in declared order |
| ProofPayload.CanonicalTextWrittenOut | src/enfinitos_auditor/canonical_json.py:37-66 | the canonical text is that of the object with these ten names, in this order, each with its own field |
| ProofPayload.SigningInputWrittenOut | src/enfinitos_auditor/canonical_json.py:119 | the signature covers canonical text, pipe and key id |
| ProofPayload.CanonicalTextIsReadable | src/enfinitos_auditor/canonical_json.py:37-49 | a reader recovers all ten fields from the canonical text and stops at its end, whatever follows |
| ProofPayload.CanonicalTextInjective | src/enfinitos_auditor/canonical_json.py:82-108 | equal canonical texts come from equal payloads |
| ProofPayload.SigningInputDetermines | src/enfinitos_auditor/canonical_json.py:111-119 | the signed text determines payload and key id, even when the key id holds pipes |
| Json.ReadPrinted | src/enfinitos_auditor/canonical_json.py:132-134 | reading undoes printing for all nested values (sections 6 and 7 of RFC 8259), and the text ends where the value ends |
| Json.PrintedThenPipe | src/enfinitos_auditor/canonical_json.py:111-134 | a printed value followed by a pipe and any text determines both |
| Json.PlainTextIsQuoted | src/enfinitos_auditor/canonical_json.py:105-106 | text without quotation mark, backslash or control character is printed as it is between quotation marks |
| Json.EscapesWrittenOut | src/enfinitos_auditor/canonical_json.py:105-106 | every other character has one spelling: seven short escapes, otherwise a four-digit escape in lower-case hex |
| Json.StringsConcatenate | src/enfinitos_auditor/canonical_json.py:105-106 | the body of a concatenation is the concatenation of the bodies |
| Json.PrintWrittenOut | src/enfinitos_auditor/canonical_json.py:132-134 | literals, numbers, and parts joined by commas within brackets or braces, without a space |
| SortKeys.CanonicalTextDecidesMeaning | src/enfinitos_auditor/canonical_json.py:122-144 | two values print alike exactly when they are equal with objects unordered and arrays ordered |
| SortKeys.NormaliseKeepsMeaning | src/enfinitos_auditor/canonical_json.py:137-144 | sorting keys changes no meaning, at any depth |
| SortKeys.MeaningFixesNormalForm | src/enfinitos_auditor/canonical_json.py:137-144 | values of one meaning have one normal form |
| SortKeys.NormaliseIdempotent | src/enfinitos_auditor/canonical_json.py:137-144 | normalising twice is normalising once |
| SortKeys.CanonicalObjectWrittenOut | src/enfinitos_auditor/canonical_json.py:137-141 | an object is printed with the same members, their values normalised, in ascending order of keys by code point |
| Collation.OrdersAgreeExactly | src/enfinitos_auditor/canonical_json.py:127 | code-unit and code-point order rank two different keys alike exactly when their first difference is not one character beyond 0xFFFF against one from 0xE000 to 0xFFFF |
| Collation.OrdersDisagree | src/enfinitos_auditor/canonical_json.py:127 | the shortest keys the two orders rank differently |
| SortKeys.OrdersPrintAlikeExactly | src/enfinitos_auditor/canonical_json.py:122-144 | the canonical texts in the two orders are one exactly when no two keys of one object cross, at any depth |
| Base64Url.DecodeAccepts | src/enfinitos_auditor/canonical_json.py:174-211 | strict decoding succeeds exactly on alphabet text whose length is not 1 modulo 4, and yields floor(3 * length / 4) bytes |
| Base64Url.DecodeUndoesEncode | src/enfinitos_auditor/canonical_json.py:152-160 | strict decoding undoes encoding on all byte strings (section 5 of RFC 4648) |
| Base64Url.EncodeUndoesDecodeExactly | src/enfinitos_auditor/canonical_json.py:174-211 | encoding undoes strict decoding exactly when the unused trailing bits are zero (section 3.5 of RFC 4648) |
| Base64Url.SpellingIsUniqueExactly | src/enfinitos_auditor/canonical_json.py:180-182 | an accepted text is the only spelling of its bytes exactly when its length is a multiple of four; 64 bytes take 86 characters |
| Base64Url.AlphabetWrittenOut | src/enfinitos_auditor/canonical_json.py:152-160 | the alphabet in order of value |
| Base64Url.GroupsWrittenOut | src/enfinitos_auditor/canonical_json.py:152-160 | three bytes and their four groups are one number of 24 bits; short tails are filled up with zero bits |
| Keys.BuildKeyDirectory | src/enfinitos_auditor/keys.py:92-102 | fails exactly on an unsupported algorithm or a repeated id; otherwise holds exactly the listed keys |
| Keys.DirectoryIsDetermined | src/enfinitos_auditor/keys.py:92-102 | a list of keys admits one directory |
| Keys.LookupHits | src/enfinitos_auditor/keys.py:104-122 | a key is found exactly when its id is listed, the time parses, and it lies in the key's window |
| Keys.ReasonsWrittenOut | src/enfinitos_auditor/keys.py:104-122 | which reason a refused key gets, in the order of the checks |
| Keys.OutcomesWrittenOut | src/enfinitos_auditor/proof_pack.py:411-470 | what checking a signature comes to, from the decoded texts and the curve |
| Keys.WindowIsConvex | src/enfinitos_auditor/keys.py:104-122 | a key usable at two times is usable at every time between them |
| Keys.RevocationCutsOff | src/enfinitos_auditor/keys.py:114-121 | a revocation or expiry time cuts a key's window off behind it and changes nothing before it; one that does not parse changes no lookup |
| Keys.UnreadableStartAdmitsAll | src/enfinitos_auditor/keys.py:111-113 | a start time that does not parse admits every instant any start time admits |
| Keys.SignatureHasTwin | src/enfinitos_auditor/canonical_json.py:180-182 | a signature that verifies verifies in another spelling too |
| Primitives.MeterKeyDetermines | src/enfinitos_auditor/hashing.py:38-44 | one meter key names one receipt and unit type, or two key texts collide |
| Primitives.KeysWrittenOut | src/enfinitos_auditor/hashing.py:38-70 | the texts the content-hash keys are digests of |
| Primitives.TimesWrittenOut | src/enfinitos_auditor/keys.py:131-146 | text without a Z is parsed as it is, a thousand milliseconds to the second; empty text does not parse |
| Primitives.ZuluWrittenOut | src/enfinitos_auditor/keys.py:140 | a trailing Z stands for the offset +00:00 |
| Primitives.TimesKeepOrder | src/enfinitos_auditor/proof_chain.py:253-260 | times compare as the parsed instants do |
| Primitives.SettlementKeyDetermines | src/enfinitos_auditor/hashing.py:47-57 | for pipe-free meters and a pipe-free role, one settlement.v2 key names one meter, role and ledger account if the account or the other role is free of pipes too, or two key texts collide |
| Primitives.SettlementKeySharedExactly | src/enfinitos_auditor/hashing.py:57 | for a given meter, another role and account share the key text exactly when the role or the account holds a pipe |
| ProofPack.VerifyProofRecord | src/enfinitos_auditor/proof_pack.py:310-480 | raises exactly on an after-hash of 64 characters that are not all ASCII, before the key lookup; otherwise the exact steps, with the early return on a key miss; none is INVALID if and only if the record is authentic |
| ProofPack.RecordStepsDecide | src/enfinitos_auditor/proof_pack.py:310-480 | clean steps mean canonical text, its digest, a listed key in its window at the time of issue, and a signature over text and key id |
| ProofPack.RecordStepsWrittenOut | src/enfinitos_auditor/proof_pack.py:310-480 | the steps of a record, with targets and reasons |
| ProofPack.SignatureStepWrittenOut | src/enfinitos_auditor/proof_pack.py:411-480 | undecodable or ill-sized text is malformed, a signature that does not verify is invalid |
| Primitives.ComparingDigests | src/enfinitos_auditor/hashing.py:85-90 | against a digest the constant-time comparison is equality, except that it raises on other text of 64 characters that is not ASCII |
| ProofChain.VerifyProofChain | src/enfinitos_auditor/proof_chain.py:39-250 | the exact steps; VALID if and only if nonempty, anchored, linked, not earlier where both times parse, and no nonce twice |
| ProofChain.TwoRecordsWrittenOut | src/enfinitos_auditor/proof_chain.py:142-204 | two linked records with different nonces are VALID exactly when the second instant is not before the first |
| ProofChain.LinkStepsWrittenOut | src/enfinitos_auditor/proof_chain.py:78-204 | the anchor's step and those of a record against its predecessor, with targets and reasons |
| ProofChain.NonceStepsWrittenOut | src/enfinitos_auditor/proof_chain.py:206-241 | one step per repeated nonce, or one for the list when none is |
| ProofChain.WalkLinks | src/enfinitos_auditor/proof_chain.py:78-204 | the anchor and the forward walk, which remembers the last time even where it does not parse |
| ProofChain.WalkNonces | src/enfinitos_auditor/proof_chain.py:206-241 | the dictionary of first occurrences reports exactly the records whose nonce occurred before |
| ProofChain.PacksCompose | src/enfinitos_auditor/proof_chain.py:39-56 | A then B is VALID exactly when A is, B is from A's last after-hash, time does not run back at the boundary where both times parse, and no nonce is shared |
| ProofChain.AfterHashesDiffer | src/enfinitos_auditor/proof_chain.py:206-241 | distinct nonces give distinct after-hashes, or two canonical texts collide |
| ProofChain.OrderIsRigid | src/enfinitos_auditor/proof_chain.py:78-241 | a list drawn from a VALID pack with the links it carries verifies from the same anchor exactly when it is a nonempty prefix, or two canonical texts collide; the anchor must not be an after-hash inside the pack |
| ProofChain.OrderIsRigidExactly | src/enfinitos_auditor/types.py:361-370 | that condition on the anchor is exact |
| ProofChain.SelectionVerifies | src/enfinitos_auditor/proof_chain.py:78-241 | with links rewritten, a list of records of a VALID pack verifies exactly when it is not empty, its links fit its own order, its times do not run back, and no record is taken twice |
| ProofChain.ReplacementVerifies | src/enfinitos_auditor/proof_chain.py:78-241 | a VALID chain with one record replaced verifies exactly when the new one keeps the link, the after-hash if another follows, the time order with its neighbours, and an unused nonce |
| ProofChain.DropGoesUnnoticed | src/enfinitos_auditor/proof_chain.py:146-183 | any one record of a VALID pack with readable times can be taken out and the next one relinked, and the result is not a prefix |
| ProofChain.ReadableTimesAscend | src/enfinitos_auditor/proof_chain.py:142-204 | along a stretch of readable times a VALID chain never goes back |
| ProofChain.ChainSortsExactly | src/enfinitos_auditor/proof_chain.py:182-204 | every VALID chain with a given pattern of readable times is sorted over all readable pairs exactly when no unreadable time stands between two readable ones |
| ProofChain.PrefixesHold | src/enfinitos_auditor/proof_chain.py:78-241 | every nonempty prefix verifies: records dropped from the end go unnoticed |
| Decimal.ParseUndoesFormat | src/enfinitos_auditor/metering_audit.py:262-289 | parsing undoes formatting for every integer |
| Decimal.FormatUndoesParse | src/enfinitos_auditor/metering_audit.py:262-289 | formatting undoes parsing on canonical six-place text |
| Decimal.RoundTripExactlyOnCanonical | src/enfinitos_auditor/settlement_audit.py:377-398 | text survives the round trip exactly when it is canonical: plain sign, no superfluous zero, six places, no negative zero |
| Decimal.FormatIsCanonical | src/enfinitos_auditor/settlement_audit.py:394-398 | formatted text is canonical |
| Decimal.ParseTruncates | src/enfinitos_auditor/metering_audit.py:262-278 | for well-formed text of any length the value is the sign times the floor of the absolute value times 10^6 |
| Projection.SecondsAreExact | src/enfinitos_auditor/metering_audit.py:247-253 | seconds-type units equal floor(dwell * weight / 1000), in spite of two floors |
| Projection.UnitsWrittenOut | src/enfinitos_auditor/metering_audit.py:234-259 | by the unit types' own names, what is counted for a dwell and a weight, and that any other type has no projection |
| Projection.DeliveryMinutesAreClose | src/enfinitos_auditor/metering_audit.py:256-258 | the bounds on minutes, for COMPLIANT_DELIVERY_MINUTE |
| Projection.MinutesAreClose | src/enfinitos_auditor/metering_audit.py:256-258 | minutes never exceed dwell * weight / 60000 and fall short by less than 1 + weight / 10^6 scaled units |
| Projection.UnitsAreMonotone | src/enfinitos_auditor/metering_audit.py:252-258 | more dwell or more weight never projects to fewer units |
| Projection.SplitDwellLosesLittle | src/enfinitos_auditor/metering_audit.py:252-258 | splitting a dwell never raises the total and loses less than 2 + weight / 10^6 scaled units |
| Metering.VerifyMeteringProjection | src/enfinitos_auditor/metering_audit.py:48-231 | raises exactly on `RaisesOn`; otherwise the exact steps, with totals from the per-type dictionary; VALID if and only if `MeteringHolds` |
| Metering.VerifyMeter | src/enfinitos_auditor/metering_audit.py:93-189 | one record: unknown receipt, key, weight, unit count, and whether the expected count goes into the totals |
| Metering.StepsDecideMetering | src/enfinitos_auditor/metering_audit.py:90-223 | nothing raises and no step is INVALID exactly when every record re-derives and every claimed total is the sum of the claimed unit counts of its type |
| Metering.ReceiptIndexFindsLast | src/enfinitos_auditor/metering_audit.py:61-63 | of records with one receipt id the last is found |
| Metering.MeterRecordsRederive | src/enfinitos_auditor/metering_audit.py:90-189 | under a VALID report each record's key and unit count come from a record of the proof pack |
| Metering.VerifiedUnitsWrittenOut | src/enfinitos_auditor/metering_audit.py:136-189 | under a VALID report a claimed unit count is, by its unit type, this number of its receipt's dwell and its weight |
| Metering.TurnWrittenOut | src/enfinitos_auditor/metering_audit.py:93-189 | one record's steps and exceptions, with targets and reasons |
| Metering.CountedWrittenOut | src/enfinitos_auditor/metering_audit.py:185-189 | what a record adds to the total of its own unit type, whether or not its claim agrees |
| Metering.UnnamedReceiptIsIdle | src/enfinitos_auditor/metering_audit.py:61-63 | a record whose receipt no meter record names may be taken out without changing the metering verdict |
| Metering.UnreadableWeightRaises | src/enfinitos_auditor/metering_audit.py:262-278 | a weight that is not a number, on a known receipt, raises |
| Split.DeterministicSplitCents | src/enfinitos_auditor/settlement_audit.py:341-363 | the result adds up to the gross, and every line but the first with the largest share and smallest role gets its exact floor; it is the split the lemmas are about |
| Split.WinnerIsFirstBest | src/enfinitos_auditor/settlement_audit.py:355-361 | the winner is the first line that no line beats by share or by smaller role |
| Split.SplitConserves | src/enfinitos_auditor/settlement_audit.py:346-350 | the amounts add up to the gross, for any shares and any sign |
| Split.ResidualIsSmall | src/enfinitos_auditor/settlement_audit.py:352-363 | when the shares make up the whole the residual lies between 0 and n - 1 |
| Split.AmountAt | src/enfinitos_auditor/settlement_audit.py:352-363 | every line but one gets its exact floor |
| Split.LargerShareGetsNoLess | src/enfinitos_auditor/settlement_audit.py:352-363 | for a gross that is not negative a strictly larger share never receives less |
| Split.SplitIgnoresOrder | src/enfinitos_auditor/settlement_audit.py:346-350 | reordering the lines leaves the multiset of (share, role, amount) as it was |
| Split.EachLineKeepsItsAmount | src/enfinitos_auditor/settlement_audit.py:353-362 | each line keeps its amount under reordering if the winner is alone or there is no residual |
| Split.EqualLinesArePaidAlike | src/enfinitos_auditor/settlement_audit.py:353-362 | lines of one share and role are paid alike exactly when the winner is alone or there is no residual |
| Settlement.VerifySettlementReconciliation | src/enfinitos_auditor/settlement_audit.py:49-311 | the exact steps, through the grouping dictionaries and the running totals; VALID if and only if `SettlementHolds` |
| Settlement.GroupByMeter | src/enfinitos_auditor/settlement_audit.py:85-98 | the dictionary lists each meter once, in order of first occurrence, with exactly its lines |
| Settlement.ExpectedByIndex | src/enfinitos_auditor/settlement_audit.py:94-109 | every line whose meter has a gross is given its own entry of its meter's split |
| Settlement.VerifyLine | src/enfinitos_auditor/settlement_audit.py:116-254 | one line: meter, version-selected key, gross, share text, exact cents, and whether it counts for the totals |
| Settlement.LineStepsWrittenOut | src/enfinitos_auditor/settlement_audit.py:116-249 | a line's steps, with key texts, targets and reasons |
| Settlement.ComputedWrittenOut | src/enfinitos_auditor/settlement_audit.py:117-254 | which lines go into which totals: known meter with a gross, readable share, exact cents, whatever the key |
| Settlement.FrameWrittenOut | src/enfinitos_auditor/settlement_audit.py:256-301 | the organisation's step, a meter's share step and the three totals |
| Settlement.StepsDecideSettlement | src/enfinitos_auditor/settlement_audit.py:49-311 | no step is INVALID exactly when organisation, meters, keys, shares, amounts, share sums and totals all hold |
| SettlementFacts.MeterConserves | src/enfinitos_auditor/settlement_audit.py:85-109 | if VALID, each meter's lines add up exactly to its gross |
| SettlementFacts.LinesPartitionIntoMeters | src/enfinitos_auditor/settlement_audit.py:112-118 | adding line by line comes to the same as adding over the distinct meters |
| SettlementFacts.TotalsConserve | src/enfinitos_auditor/settlement_audit.py:285-301 | if VALID, a claimed grossCents is the sum of the gross amounts of the distinct meters that have lines |
| SettlementFacts.ExpectedIgnoresAmounts | src/enfinitos_auditor/settlement_audit.py:94-109 | what a line should receive does not depend on any claimed amount |
| SettlementFacts.ExactlyOneVectorIsAccepted | src/enfinitos_auditor/settlement_audit.py:214-249 | with everything but the amounts in order, exactly the split is accepted, provided the claimed totals are its totals |
| SettlementFacts.LinesWithOneKey | src/enfinitos_auditor/settlement_audit.py:133-149 | lines of a VALID settlement over a VALID metering with one key have one meter, one role under settlement.v1, and under settlement.v2 one join of role and account, or their key texts collide |
| SettlementFacts.UnitsNeverReachTheMoney | src/enfinitos_auditor/settlement_audit.py:82 | summaries with one organisation and one set of meter keys get the same steps, whatever their unit counts |
| SettlementOrder.VerdictIgnoresOrder | src/enfinitos_auditor/settlement_audit.py:85-109 | without ties the verdict is the same for every order of the lines |
| SettlementOrder.OrderIsIrrelevantExactly | src/enfinitos_auditor/settlement_audit.py:352-362 | a VALID settlement stays VALID under every reordering exactly when in each meter the winner is alone or there is no residual |
| Provenance.VerifyProvenanceRecord | src/enfinitos_auditor/provenance.py:154-367 | the exact steps of a legacy or a signed row, with the early returns |
| Provenance.SigningInputWrittenOut | src/enfinitos_auditor/provenance.py:121-146 | the signed text: the version and the eight fields in order, each itself or a dash |
| Provenance.RecordStepsWrittenOut | src/enfinitos_auditor/provenance.py:154-367 | a row's steps, with targets and reasons |
| Provenance.VerifyProvenanceChain | src/enfinitos_auditor/provenance.py:375-493 | the exact steps; signed plus unsigned is the record count; VALID iff some row is signed and nothing is refused; SKIPPED iff no row is signed and organisations match |
| Provenance.RecordStepsKinds | src/enfinitos_auditor/provenance.py:201-367 | a signed row's steps are clean exactly when it is authentic over the text its own fields spell, although the signature is checked over the shipped text |
| Provenance.StepsDecideProvenance | src/enfinitos_auditor/provenance.py:389-394 | the three-way status of a set, from its rows |
| Provenance.SharedInputExactly | src/enfinitos_auditor/provenance.py:121-151 | another row, whatever it holds, shares a row's signing input exactly when a pipe of the row does not open its field, in any but the last, or does not close it, in any but the first |
| Provenance.SigningInputDecides | src/enfinitos_auditor/provenance.py:121-151 | a row without pipes shares its signing input only with rows written alike, pipes or not |
| Provenance.SignatureTwinExactly | src/enfinitos_auditor/provenance.py:329-336 | the signature of an authentic row makes a differently written row under the same key authentic exactly when the texts before the key id have a second reading |
| Provenance.SignatureTwinAnyKeyExactly | src/enfinitos_auditor/provenance.py:264-336 | over all keys, exactly when the text has a second reading that ends in the id of some listed key that serves |
| Provenance.WrittenAlikeExactly | src/enfinitos_auditor/provenance.py:131-132 | two rows are written alike exactly when their signed fields are pairwise equal or both absent, empty or a dash |
| Provenance.DashStandsForNone | src/enfinitos_auditor/provenance.py:131-132 | a row without a right id and the same row with an empty one or a dash are authentic together |
| Provenance.RowHasSignatureTwin | src/enfinitos_auditor/provenance.py:296-302 | every authentic row is authentic with another spelling of its signature |
| Readings.SecondReadingExactly | src/enfinitos_auditor/provenance.py:134-146 | joined text can be cut into as many nonempty pieces in another way exactly when a separator inside a piece can take over a cut |
| Exports.VerifySignedExport | src/enfinitos_auditor/exports.py:109-308 | the exact steps with the early exits; VALID if and only if version, algorithm, key window, canonical text, hash and signature hold |
| Exports.ExportStepsWrittenOut | src/enfinitos_auditor/exports.py:109-290 | an export's steps, with targets and reasons, and the text its signature covers |
| Exports.SignedBytesDetermineExport | src/enfinitos_auditor/exports.py:210-276 | two VALID exports with the same signed bytes carry equal payloads, up to key order, and equal key ids |
| Exports.PayloadHashDeterminesPayload | src/enfinitos_auditor/exports.py:235-250 | two VALID exports with one payload hash carry equal payloads, or their texts collide |
| Exports.CodeUnitExportsHoldExactly | src/enfinitos_auditor/exports.py:210-225 | an export canonicalised in code-unit order keeps its canonical text exactly when no keys cross; otherwise its report is INVALID |
| Auditor.RollupStatus | src/enfinitos_auditor/auditor.py:398-409 | VALID needs a valid step and no invalid one; no step at all is SKIPPED |
| Auditor.RollupOverallStatus | src/enfinitos_auditor/auditor.py:412-421 | VALID iff nothing is INVALID and something is VALID |
| Auditor.StepsDecidePack | src/enfinitos_auditor/auditor.py:155-181 | a pack report is VALID exactly when there are records and each is authentic, and it is never SKIPPED |
| Auditor.OutcomeDecides | src/enfinitos_auditor/auditor.py:228-335 | a full run ends VALID exactly when pack and chain hold, metering holds if present, and settlement holds if both are present |
| Auditor.InputsWrittenOut | src/enfinitos_auditor/auditor.py:267-289 | the bundle's own metering and settlement go before the envelope's |
| Auditor.FullReportWrittenOut | src/enfinitos_auditor/auditor.py:259-335 | the four parts of a full report, and where metering and settlement are skipped |
| Auditor.ErrorsWrittenOut | src/enfinitos_auditor/auditor.py:242-271 | which error a full run raises: loading, then the hash comparison, then the projection |
| Auditor.RunRaisesExactly | src/enfinitos_auditor/auditor.py:228-335 | the full run raises exactly where keys fail to load, a hash comparison raises, or the projection does |
| Auditor.NonAsciiHashRaises | src/enfinitos_auditor/proof_pack.py:369 | an after-hash of 64 characters that are not ASCII makes the full run raise |
| Auditor.NoRotation | src/enfinitos_auditor/keys.py:13-17 | once a directory is cached it serves the rest of the session, whatever is offered later |
| Auditor.LocalSessionIsReproducible | README.md:368-374 | over one list of keys every outcome of a session is that of the keys the bundle ships, or else of the list, and depends on the bundle alone |
| Auditor.ShippedKeysDecide | src/enfinitos_auditor/auditor.py:242-257 | with shipped keys the outcome is the same for every cache and every offer |
| Auditor.EnfinitOSAuditor.Create | src/enfinitos_auditor/auditor.py:81-102 | construction fails exactly when local keys are asked for and not given; the cache starts empty |
| Auditor.EnfinitOSAuditor.GetKeyDirectory | src/enfinitos_auditor/auditor.py:104-121 | the cached directory whatever is offered; otherwise one load, which fills the cache if and only if it succeeds; every key in it is an Ed25519 key under its own id |
| Auditor.EnfinitOSAuditor.VerifyProofPack | src/enfinitos_auditor/auditor.py:136-196 | the exact pack report or exception under the cached or freshly loaded directory, and the new cache |
| Auditor.EnfinitOSAuditor.VerifyAll | src/enfinitos_auditor/auditor.py:228-335 | the exact full report or error and the new cache; keys shipped with the bundle leave the cache as it was; a local auditor's outcome depends on its own keys and the bundle, whatever is served |
| EndToEnd.EveryLineDerives | src/enfinitos_auditor/auditor.py:228-335 | if a full report with metering and settlement is VALID the organisation ids agree, each line derives from a meter record and that from an authentic receipt, and each meter's lines add up to its gross |
| EndToEnd.DerivationsAgree | src/enfinitos_auditor/metering_audit.py:110-124 | all derivations of a line name one receipt id and unit type, or two key texts collide |
| Promise.PromiseKeptExactly | README.md:273-277 | for a bundle VALID for some auditor the documented promise is kept, over all directories and all settlements put beside it, exactly when it has metering and either ships no keys or meters nothing |
| Promise.ShippedKeysBreakThePromise | src/enfinitos_auditor/auditor.py:242-257 | an honest bundle shipped with its keys is VALID for an auditor who lists none, and nothing of its settlement derives there |
| Promise.AnyGrossIsAccepted | README.md:92-95 | for any gross amounts of the same meters there are amounts and totals that make the report VALID again |
| Promise.OrganisationIsALabel | src/enfinitos_auditor/settlement_audit.py:59-60 | a VALID bundle relabelled to any one organisation is VALID |
| EndToEnd.SettlementIsSkipped | src/enfinitos_auditor/auditor.py:289-314 | without metering the outcome does not depend on the settlement |
| EndToEnd.AmountsAreForced | src/enfinitos_auditor/auditor.py:289-293 | of settlements that differ only in line amounts at most one gives a VALID report |
| EndToEnd.VerifiedBundleIsSorted | src/enfinitos_auditor/proof_chain.py:182-204 | in every VALID full report all times parse and are sorted over all pairs |
| EndToEnd.PackReportIgnoresTheChain | README.md:259-264 | a pack report stays VALID under any reordering, repetition, selection or relinking of its records |
| EndToEnd.SelectionGivesBundle | src/enfinitos_auditor/auditor.py:259-271 | with links rewritten, a list of records of a VALID bundle gives a VALID bundle exactly when it is not empty, its links fit its own order and the anchor, its times do not run back, no record is taken twice, and the metering still holds |
| EndToEnd.ReplacementGivesBundle | README.md:82-86 | a VALID bundle with record i replaced is VALID exactly when the new record is authentic, has the old link, the old after-hash if another follows, a time in order, an unused nonce, and the metering still holds |
| EndToEnd.TamperingIsDetected | README.md:82-86 | of every record but the last nothing but key id and signature can change alone in a VALID bundle, or two canonical texts collide |
| EndToEnd.LastRecordIsHeldBySignature | README.md:82-86 | for the last record any authentic one with its link, a time in order, an unused nonce and the same metering can stand in |
| EndToEnd.DropGoesUnnoticed | src/enfinitos_auditor/proof_chain.py:146-183 | any one record of a VALID bundle can be taken out and the next one relinked; the run stays VALID exactly as far as the metering does |
| EndToEnd.UnmeteredDropGoesUnnoticed | src/enfinitos_auditor/proof_chain.py:146-183 | a record whose receipt no meter record names can be taken out of a VALID bundle |
| EndToEnd.BundleOrderIsRigid | src/enfinitos_auditor/auditor.py:259-271 | with the links they carry, the records of a VALID bundle give a VALID bundle from the same anchor exactly as a nonempty prefix over which the metering still holds, or two canonical texts collide |
| EndToEnd.AuthenticHasTwin | src/enfinitos_auditor/canonical_json.py:180-182 | every authentic record has another one that differs only in the text of its signature |
| Issuing.IssuedPackVerifies | src/enfinitos_auditor/proof_chain.py:39-56 | records issued for any list of payloads, each under a usable key of its own with a true signature, times in order and nonces distinct, pass both the record and the chain verifier from any anchor |
| Issuing.HonestBundleVerifies | src/enfinitos_auditor/auditor.py:228-335 | over every such list of records, every list of projectable meter records with true totals, and every payable list of settlement lines of either schema version, there is a bundle of just these that the full run finds VALID; so the theorems about VALID reports are not empty |

## Left out

- Fetching keys over HTTP, response adapters and envelope shape checks of key sets: the endpoint's answer is a parameter.
- Parsing raw JSON into typed records (`parse_signed_proof_pack`, `parse_signed_export`) and the one-step report for a pack that does not parse: type checks only.
- The inside of SHA-256, Ed25519, `datetime.fromisoformat` and `int`: arbitrary functions. A timestamp is a real number of milliseconds, without floating-point rounding, and a parse either gives one or None.
- A verifier supplied by the caller, and one that raises: the default length check and curve are modelled.
- Floats in canonical JSON and the refusal of non-finite dwell times: numbers are integers.
- Lone surrogates in strings, which Dafny's `char` does not have, and UTF-8 encoding, which is injective on what remains.
- Non-ASCII decimal digits, which Python's `isdigit` partly accepts, and the interpreter's limit on long integer text.
- Messages, detail dictionaries, `verified_at`, SDK version stamps, key snapshots (`fetch_keys`, `size`, `key_ids`) and unsigned envelope fields such as labels: no property depends on them.
- The timing of `constant_time_hex_equal`; its result and its exception are modelled.
- `lines_by_meter` beside `idx_by_meter`: two dictionaries with one grouping, modelled as one.
- The permissive `base64url_decode`, `sha256_prefixed` and `python_to_wire`: thin wrappers.
- The code does not promise, and the model does not state, that meter keys and receipt ids are unique, that unit types missing from the totals are checked, or that a meter with a gross and no lines counts.
