# A model of the guardian node

This project models the core of a Wormhole guardian node for Solana, and of the TypeScript client that
reads its messages, and proves what they promise. It has five parts.

- **Guardian quorum.** The wire format of signed messages (VAAs), their verification, and the admin
  service that moves a VAA from an old guardian set to a new one. Main results: two VAAs accepted under
  one message id have the same body as long as at most a third of the guardians contradict themselves
  (`Equivocation.NoTwoBodies`), which is a bound that guardians with working keys can meet and that cannot
  be raised; and a moved VAA is accepted by the new set whenever the service answers, which it does for
  exactly the requests it should (`Resign.SignExistingVAA`).
- **Query proxy.** HTTP handlers and a gossip listener that collects guardian responses. Main results hold
  on every interleaving: each client is answered once, with a quorum of signatures that verify
  (`CcqRuns.ResultsOnEveryRun`); as long as no guardian answers a request in two ways, a client is told that
  quorum is not met only when it has become impossible (`CcqRuns.UnmetOnEveryRun`), and the listener finds
  that out in every case exactly for guardian lists without a repeated key
  (`CcqVerdict.ExactForDistinctKeys`). Every reply has the step of the run that caused it
  (`CcqCauses.RepliesHaveCauses`, `CcqCauses.StepsTellReplies`). Permissions accept exactly what the configuration grants
  (`Permissions.AcceptsExactlyGranted`).
- **Payload formats.** The sixteen parsers of the client, tried in order, and the governance bodies of the
  node. Main results: what the client makes of any bytes at all (`PayloadChoice.ParsedExactly`), which
  payloads are read by their own parser, and which bytes are written back as they
  were read, with the exact conditions on their strings
  (`JsPayload.ParseOfSerialise`, `JsPayload.SerialiseOfParse`), and the client reads what the node wrote
  exactly for the supported bodies (`GoPayload.ReadAsSent`).
- **Store.** Textual keys, the stored forms of messages and transfers in two versions, the load that
  rewrites the old version, the scan for missing sequence numbers and the purge. Main results: what two
  messages share if they share their signed bytes (`Layouts.SignedExactly`), what a load takes from any store
  (`Loading.LoadedExactly`),
  `Migration.LoadMigrates`, `Migration.SecondLoadExact`, `SignedStore.GapsExact`, `SignedStore.PurgeExact`.
- **Chain governor and spy.** The governor holds transfers back so that a daily limit is kept; the spy hands
  VAAs to subscribers through bounded channels. Main results on every run: no stretch of a day, wherever it
  begins, exceeds the limit (`GovernorRuns.DailyLimitOnEveryRun`), the answer about each message and what
  leaves the queues, counted or not, are what limit, release times and index say
  (`Admission.AnswersOnEveryRun`, `Releases.ChecksOnEveryRun`), so that a message held back waits for room
  or for a day (`Releases.HeldForADay`), no queued message is lost or released
  twice (`GovernorRuns.QueueConserved`, `GovernorAnswers.AnswersConserved`) except at a restart, which loses
  what was kept for a later call (`GovernorAnswers.RestartLosesKept`) or overwritten under one id
  (`SharedIds.QueueSurvivesExactly`), the index of seen messages agrees with the lists, also after a
  reload (`Reload.ReloadRebuilds`), a restarted governor has the queue and the lists that it had
  (`AcrossRestart.RestartOnEveryRun`) and keeps the daily limit across any number of restarts, up to the
  second that stored times are cut to (`Lifetimes.DailyLimitAcrossRestarts`), which is needed
  (`LostSecond.TwiceTheLimit`), a subscriber is sent all that was
  published to it in order (`Spy.DeliveredInOrder`), and a publisher that is blocked on a subscriber gets
  unblocked (`Spy.BlockedRunDrains`).

Conventions. Text in Go is a sequence of byte values, a string in TypeScript a sequence of Unicode scalar values. A timestamp is an integer count of nanoseconds; writing it
keeps whole seconds modulo 2^32, as the conversion in Go does. The hash function and public key recovery are
function values in `Vaa.Crypto`, so every statement holds for all of them; what a result needs of them is in
its premises. The store is a map, and the order in which its iterator or a loop over a Go map visits the keys
is a parameter. Classes stand for the objects that the code updates in place, and their methods are proved
against functions on values; the laws are proved about those functions. In a method that panics in the
source, the panic is a precondition or a result of its own.

Where the code and its comments or names differ, the model follows the code: the marshalled length with an
empty payload is 84 and not 88 (`node/pkg/common/chainlock.go:46`), and the first sequence number that the gap
scan reports is always 0 (`node/pkg/db/db.go:194`).

## Model

| member | source | states |
|---|---|---|
| Vaa.SerializeBody | sdk/vaa/structs.go:492-503 | writes the signed body field by field; it is the body that all digests are taken of |
| Vaa.Marshal | sdk/vaa/structs.go:437-453 | the loop over the signatures writes exactly the encoding that the codec laws are about |
| Vaa.UnmarshalBody | sdk/vaa/structs.go:200-243 | the reader returns the body fields, or an error exactly when fewer than 51 bytes are left |
| Vaa.UnmarshalSignatures | sdk/vaa/structs.go:258-280 | the loop reads exactly the announced number of signatures and leaves the rest of the data |
| Vaa.Unmarshal | sdk/vaa/structs.go:246-287 | returns what the decoding function says, in every error case too |
| Vaa.DecodeAccepts | sdk/vaa/structs.go:246-287 | decoding succeeds exactly on version 1 and a length of at least 57 + 66 times byte 5 |
| Vaa.EncodeOfDecode | sdk/vaa/structs.go:246-287 | whatever is accepted is encoded back to the same bytes |
| Vaa.DecodeTruncatesTime | sdk/vaa/structs.go:437-453 | a version 1 VAA with up to 255 signatures comes back with only its timestamp cut to whole 32-bit seconds |
| Vaa.DecodeOfEncode | sdk/vaa/structs.go:437-453 | a round trip returns the same VAA if and only if it has version 1, at most 255 signatures and a whole-second timestamp in 32 bits |
| Vaa.BodyInjective | sdk/vaa/structs.go:492-503 | two VAAs with the same signed body agree on every signed field |
| Layouts.BodyLayout | sdk/vaa/structs.go:492-503 | the signed fields by their places: seconds, nonce, chain, address, sequence, consistency level in bytes 0 to 50 and the payload from byte 51 on |
| Layouts.VaaLayout | sdk/vaa/structs.go:437-453 | version, set index, signature count and 66 bytes per signature by their places, then the body |
| Layouts.FirstByteWeighsMost | sdk/vaa/structs.go:577-581 | numbers are written with the most significant byte first |
| Vaa.VerifySignatures | sdk/vaa/structs.go:343-379 | the loop accepts exactly lists with strictly ascending indices in range, each signature recovering to its key, and no key twice |
| Vaa.TooManySignatures | sdk/vaa/structs.go:343-379 | a list that verifies is no longer than the guardian list |
| Vaa.CalculateQuorum | sdk/vaa/quorum.go:7-22 | the smallest number above two thirds, and never more than all of a non-empty set |
| Vaa.Verify | sdk/vaa/structs.go:412-434 | accepts exactly valid signatures of more than two thirds of the guardians; no key list, no signature and too few signatures each have their own reason, in that order |
| Equivocation.QuorumsOverlap | sdk/vaa/quorum.go:7-22 | two quorums of n guardians share at least n/3 + 1 of them, rounded down |
| Equivocation.OverlapIsTight | sdk/vaa/quorum.go:7-22 | some pair of quorums shares no more than that |
| Equivocation.ValidSigners | sdk/vaa/structs.go:343-379 | the signer positions of a list that verifies are as many as its signatures, in range, and each signature carried there recovers to its key |
| Equivocation.BothSigned | sdk/vaa/structs.go:412-434 | whatever two VAAs a set accepts, more than a third of its guardians have a valid signature on both |
| Equivocation.NoTwoBodies | sdk/vaa/structs.go:412-434 | given what each guardian has issued, if fewer guardians than two quorums must share contradict themselves and no signature that the two VAAs carry is forged, two accepted VAAs with one message id have the same body |
| Equivocation.ThirdIsFewer | sdk/vaa/quorum.go:7-22 | that bound covers every number of guardians up to a third |
| Equivocation.PremisesAreMet | sdk/vaa/structs.go:412-434 | guardians whose keys all work can meet those premises, for every body, with an accepted VAA |
| Equivocation.OneMoreEquivocatorSuffices | sdk/vaa/structs.go:412-434 | the bound is exact: with that many guardians signing both bodies, and everyone else one, both are accepted |
| Guardians.KeyIndex | node/pkg/common/guardianset.go:68-76 | the first position of a key, or none if it is absent |
| Resign.SortedCompactDetectsDuplicates | node/pkg/adminrpc/adminserver.go:620-628 | sorting and compacting keeps the length exactly when all guardians differ |
| Resign.RemapElement | node/pkg/adminrpc/adminserver.go:650-662 | the remapped list holds exactly the signatures of guardians on both sets, at their new positions |
| Resign.RemapOneIndexEach | node/pkg/adminrpc/adminserver.go:650-662 | remapping gives no two signatures the same index |
| Resign.RemapCount | node/pkg/adminrpc/adminserver.go:650-662 | as many signatures survive as belong to guardians on both sets |
| Resign.SortedSignaturesValid | node/pkg/adminrpc/adminserver.go:672-680 | signatures at different positions of distinct keys verify once sorted |
| Resign.JoinedValid | node/pkg/adminrpc/adminserver.go:650-680 | the surviving signatures and the local one, sorted, verify against the new set |
| Resign.MovedSignatures | node/pkg/adminrpc/adminserver.go:650-680 | the answer carries exactly the surviving signatures and the local one, under the unchanged body |
| Resign.MovedIsGood | node/pkg/adminrpc/adminserver.go:650-687 | the encoded answer decodes, has the same digest and is accepted by the new set |
| Resign.RemapSignatures | node/pkg/adminrpc/adminserver.go:650-662 | the loop computes the remapping |
| Resign.LoadNewSet | node/pkg/adminrpc/adminserver.go:611-633 | exact acceptance of the new address list, with the reason of the first test that fails |
| Resign.MoveSignatures | node/pkg/adminrpc/adminserver.go:650-687 | answers exactly when the surviving signatures and one more reach the new quorum |
| Resign.SignDecodedVAA | node/pkg/adminrpc/adminserver.go:576-687 | exact conditions for signing, for the panic and for each refusal, which is that of the first test that fails; the answer is the moved VAA |
| Resign.SignExistingVAA | node/pkg/adminrpc/adminserver.go:570-688 | on request bytes: signs exactly the requests that decode, name a VAA its own set accepts, a higher index and a new set with the local guardian that reaches quorum; exact conditions for the panic and for each refusal; the answer is accepted by the new set under the same body |
| Ccq.Listener.Handle | node/cmd/ccq/p2p.go:157-300 | one turn of the loop changes the buckets and answers exactly as the turn function says |
| Ccq.CannotReachQuorum | node/cmd/ccq/p2p.go:252-262 | the totals of the loop decide whether the largest bucket plus the outstanding guardians is below quorum |
| Ccq.ProcessKeeps | node/cmd/ccq/p2p.go:205-288 | every turn keeps the buckets genuine, by different guardians and below quorum; a forwarded list has exactly quorum signatures over one digest |
| CcqVerdict.OpenMeansOutstanding | node/cmd/ccq/p2p.go:250-288 | a request still open has not been counted for all positions and, if no key is listed twice, some guardian has not answered |
| CcqVerdict.SeatsCount | node/pkg/common/guardianset.go:68-76 | the positions at which a signer can be found are as many as different keys, and all positions exactly if no key is listed twice |
| Ccq.TruncatedIndexFails | node/cmd/ccq/http.go:189-193 | an index cut to one byte points to the wrong key exactly from 256 on |
| Ccq.ClientSignaturesValid | node/cmd/ccq/http.go:184-193 | after the sort the list verifies if and only if every guardian index is below 256, even when keys repeat |
| CcqVerdict.HopelessIfImpossible | node/cmd/ccq/p2p.go:250-262 | if no completion by guardians that have not answered reaches quorum, the test fails when it counts different keys instead of positions, even when guardians answer twice |
| CcqVerdict.HopelessExactly | node/cmd/ccq/p2p.go:250-262 | if no guardian answers twice, the loop gives up only if no completion reaches quorum, for every guardian list, and exactly then if no key is listed twice |
| CcqVerdict.PossibleExactly | node/cmd/ccq/p2p.go:250-262 | a completion exists if and only if the largest bucket and the different keys that have not answered are together a quorum |
| CcqVerdict.ExactForDistinctKeys | node/cmd/ccq/p2p.go:250-262 | the loop gives up exactly when quorum is impossible, for all answers below quorum, if and only if no key is listed twice |
| CcqVerdict.VerdictExact | node/cmd/ccq/p2p.go:227-288 | if no guardian has answered twice, a counted response is forwarded exactly at quorum and failed only when quorum has become impossible, exactly then for distinct keys; impossible means that too few different keys are left |
| CcqVerdict.NoForwardIfImpossible | node/cmd/ccq/p2p.go:205-288 | once no completion exists, no messages to come are forwarded while the request stays open and nobody answers in two ways |
| CcqVerdict.CompletionRun | node/cmd/ccq/p2p.go:205-288 | a completion is a run: messages of its guardians, taken one by one, end with a forwarded response |
| CcqVerdict.RepeatedKeyKeepsWaiting | node/cmd/ccq/p2p.go:250-288 | with keys [a, a, b] the request stays open when both guardians have agreed; no completion exists and nothing is forwarded any more |
| CcqVerdict.DoubleAnswerGivesUpEarly | node/cmd/ccq/p2p.go:227-288 | two turns of the listener, for two answers of one guardian out of three different ones, first wait and then give up although the other guardians can still complete a quorum |
| CcqRuns.StepKeeps | node/cmd/ccq/http.go:142-216 | every step of a handler or of the listener keeps the invariant |
| CcqRuns.RunKeeps | node/cmd/ccq/http.go:142-216 | so does every run |
| CcqRuns.PendingOnEveryRun | node/cmd/ccq/pending_request.go:50-78 | in every reachable state a signature is pending exactly when one handler is between its Add and its Remove, and never for two |
| CcqRuns.LookupOnEveryRun | node/cmd/ccq/pending_request.go:64-71 | in every reachable state a lookup finds exactly the handler with that signature that is between its Add and its Remove |
| CcqRuns.RemovesOwnEntry | node/cmd/ccq/pending_request.go:73-78 | a handler that unregisters removes its own entry and no other |
| CcqRuns.RepliesOnEveryRun | node/cmd/ccq/http.go:142-216 | no client is answered twice |
| CcqRuns.FinishedHasReplied | node/cmd/ccq/http.go:142-216 | a finished handler has answered |
| CcqRuns.ResultsOnEveryRun | node/cmd/ccq/http.go:176-206 | every response written is what a gossiped answer to that request decodes to, with exactly a quorum of signatures that verify over the gossiped bytes |
| CcqRuns.ResultsVerify | node/cmd/ccq/http.go:176-206 | so the client can verify the response itself if decoding and encoding again leaves response bytes as they are |
| CcqRuns.OpenOnEveryRun | node/cmd/ccq/p2p.go:250-288 | no reachable state keeps a request open once all guardian positions are counted or, if no key is listed twice, once all guardians have answered |
| CcqRuns.VerdictOnEveryRun | node/cmd/ccq/p2p.go:227-288 | on a run on which no guardian answers one request in two ways, the listener forwards exactly at quorum and gives up only when quorum is impossible, exactly then for distinct keys; impossible means that too few different keys are left |
| CcqRuns.UnmetOnEveryRun | node/cmd/ccq/p2p.go:258-276 | on such a run a client is told that quorum is not met only by a turn at which its handler was waiting and quorum had become impossible |
| CcqRuns.OpenIsPossibleOnEveryRun | node/cmd/ccq/p2p.go:250-288 | on such a run quorum is possible for an open request if no key is listed twice, and in general exactly if enough different keys are left |
| CcqRuns.OpenCanCompleteOnEveryRun | node/cmd/ccq/p2p.go:184-247 | and possible means a run: while the handler waits, if the outstanding guardians can give an answer given so far, the run goes on to a result for the client, or to one that cannot be encoded |
| CcqRuns.NeverStuck | node/cmd/ccq/http.go:142-216 | a handler always has a step of its own towards its end |
| CcqRuns.NeverBack | node/cmd/ccq/http.go:142-216 | no step of anyone sends a handler back |
| CcqCauses.RepliesHaveCauses | node/cmd/ccq/http.go:142-216 | on every run a client has a reply exactly if a step of the run caused it, for each kind of reply: what happened and where the handler and the listener stood |
| CcqCauses.WaitedExactly | node/cmd/ccq/http.go:156-171 | a handler is or was waiting exactly if the run has posted its request |
| CcqCauses.ToldOnEveryRun | node/cmd/ccq/http.go:142-216 | the phase of a handler is the one that the steps taken so far say |
| CcqCauses.StepsTellReplies | node/cmd/ccq/http.go:142-216 | a client is told that publishing failed exactly if it did, of a timeout exactly if the timer ran out while the handler waited, of a duplicate exactly if another handler with the signature was in flight when it registered; a handler is finished exactly if it unregistered or was a duplicate |
| CcqTally.TallyOnEveryRun | node/cmd/ccq/p2p.go:205-288 | on every run the buckets of a request hold exactly the answers delivered for it since the last verdict on it; a verdict clears them and nothing else does |
| CcqRuns.PendingResponses.Add | node/cmd/ccq/pending_request.go:50-62 | adds the entry unless the signature is there already; the Add step of a run |
| CcqRuns.PendingResponses.Remove | node/cmd/ccq/pending_request.go:73-78 | removes exactly one signature; the Remove step of a run |
| Keys.VaaIDFromMessageID | node/pkg/db/db.go:32-60 | parsing a printed message id returns the id, for every id |
| Keys.MessageIDInjective | sdk/vaa/structs.go:473-475 | different ids print differently |
| Texts.HexSpelt | sdk/vaa/structs.go:116-118 | two lower-case digits for each byte, the higher one first |
| Texts.DecSpelt | node/pkg/db/db.go:75-77 | each decimal digit stands for its power of ten |
| Texts.DecLength | node/pkg/db/db.go:75-77 | and there are as many digits as it takes |
| Texts.FromHexReads | sdk/vaa/structs.go:584-607 | hexadecimal text is read digit by digit, in either case, and nothing else is accepted |
| Texts.AddressReads | sdk/vaa/structs.go:584-607 | an address is accepted exactly if it is hexadecimal, with or without 0x, of at most 32 bytes, and is filled up with zeros in front |
| Texts.DigitsRead | node/pkg/db/db.go:38-51 | a decimal text has a value exactly if it is made of digits, the first of which weighs most |
| Texts.SplitJoins | node/pkg/db/db.go:33 | splitting takes a text apart at its slashes |
| Texts.IdReads | node/pkg/db/db.go:32-60 | exactly the texts that name an id: three parts between slashes, numbers in range outside and an address in the middle |
| Keys.KeyInjective | node/pkg/db/db.go:75-77 | different ids have different store keys |
| Keys.EmitterPrefixExact | node/pkg/db/db.go:79-84 | with an address, a key has the emitter prefix if and only if chain and address match |
| Keys.NullPrefixExact | node/pkg/db/db.go:79-84 | without an address, it has the prefix if and only if its chain number starts with the same digits |
| Keys.NullPrefixCounterexample | node/pkg/db/db.go:79-84 | the prefix of chain 1 covers chain 10 |
| JsPayload.TagInjective | clients/js/src/vaa.ts:1051-1053 | the padded module names differ |
| JsPayload.HeaderReads | clients/js/src/vaa.ts:347-361 | a governance header is read back, and refused for every other module or action |
| Utf8.DecodeOfEncode | clients/js/src/vaa.ts:1057-1059 | decoding the UTF-8 of a string gives the string back |
| Utf8.EncodeOfDecode | clients/js/src/vaa.ts:908-913 | encoding what bytes decode to gives them back if and only if nothing in them had to be replaced |
| Utf8.UnitsAreBytes | clients/js/src/vaa.ts:935-936 | the length of a string in UTF-16 units is its length in UTF-8 bytes if and only if it is ASCII |
| Utf8.ReplacesLongest | clients/js/src/vaa.ts:908-913 | what is replaced is a byte that begins nothing or the longest beginning of a scalar value |
| JsPayload.TypedRefused | clients/js/src/vaa.ts:657-695 | a payload of types 1 to 3 is refused by all governance parsers and all typed parsers before its own; type 1 is told apart by the 133-byte length |
| JsPayload.ParseOfSerialise | clients/js/src/vaa.ts:91-122 | every well-formed payload is refused by every parser before its own and read back there, strings padded and stripped as the parser leaves them; an NFT transfer whose URI is not ASCII is refused by all sixteen |
| JsPayload.TextFieldIsPadded | clients/js/src/vaa.ts:1057-1059 | padding the bytes of a string with zeros is padding the string with NUL characters, and reads as that |
| JsPayload.NFTTransferReads | clients/js/src/vaa.ts:865-925 | the fields of a written NFT transfer are read back if its URI is ASCII, and otherwise bytes are left over |
| JsPayload.PadOfUnpadded | clients/js/src/vaa.ts:882-900 | reading an NFT text field and padding it again gives the same 32 bytes if and only if it is valid UTF-8 and does not start with a zero byte, or is all zero |
| JsPayload.NFTTransferWrites | clients/js/src/vaa.ts:927-941 | an NFT transfer is written back to the bytes read if and only if its text fields are such and its URI is ASCII |
| JsPayload.SerialiseOfParse | clients/js/src/vaa.ts:204-303 | whatever parses is serialised to the same bytes if and only if its text is valid UTF-8 and, in an NFT transfer, does not start with a zero byte and has an ASCII URI |
| JsPayload.SerialiseParseSerialise | clients/js/src/vaa.ts:204-303 | serialising, parsing and serialising again works and gives the same bytes if and only if, in an NFT transfer, the URI is ASCII and symbol and name do not start with NUL or are all NUL |
| JsPayload.LeadingZeroLost | clients/js/src/vaa.ts:882-900 | an NFT symbol that starts with NUL loses it |
| JsPayload.AccentedUriRefused | clients/js/src/vaa.ts:935-936 | an NFT transfer whose URI is the character U+00E9, bytes C3 A9, is refused by all parsers |
| JsPayload.InvalidSymbolReplaced | clients/js/src/vaa.ts:746-755 | an attestation with byte FF in its symbol is not written as it was read |
| PayloadLayouts.TagIsPadded | clients/js/src/vaa.ts:1051-1053 | the four module names spelt out, padded to 32 bytes |
| PayloadLayouts.WrittenAsLaidOut | clients/js/src/vaa.ts:336-1000 | each payload is written exactly as its fields are laid out, place by place, and bytes laid out as a payload are read as it |
| PayloadChoice.ParsedExactly | clients/js/src/vaa.ts:91-118 | for all bytes: which payload is read from them, and exactly when a field runs past their end |
| GoPayload.LeftPadBytes | sdk/vaa/payloads.go:172-192 | pads with zero bytes in front, and panics exactly when the payload is longer than the length or the length is negative |
| GoPayload.SerializeBridge | sdk/vaa/payloads.go:159-169 | writes padded module, action, chain and payload, or panics on a long module name |
| GoPayload.SerializeRecover | sdk/vaa/payloads.go:131-147 | the same for a chain id recovery, whose action depends on the module name |
| GoPayload.SerializeGuardianSet | sdk/vaa/payloads.go:99-116 | the loop over the keys writes the update, its count cut to one byte |
| GoLayouts.SerialisedAsLaidOut | sdk/vaa/payloads.go:84-190 | every body, for any module name, by the places of its fields; it panics exactly if the name is over 32 bytes |
| GoPayload.Serialize | sdk/vaa/payloads.go:84-169 | every governance body is written as the format function says |
| GoPayload.SameBytes | sdk/vaa/payloads.go:84-169 | a supported body is written by Go and by TypeScript in the same bytes |
| GoPayload.ReadAsSent | clients/js/src/vaa.ts:91-122 | the TypeScript parser reads the bytes of a Go body as the same variant, module and fields if and only if the body is supported |
| GoPayload.RelayerRecoveryUnsupported | sdk/vaa/payloads.go:131-147 | a chain id recovery for the relayer is not supported |
| GoPayload.RelayerRecoveryMisread | clients/js/src/vaa.ts:952-979 | it is read as a default delivery provider made of the same bytes |
| GoPayload.HeaderOfTransfer | sdk/vaa/structs.go:524-569 | the Go header decoder recovers type, amount, token and target of every transfer written by TypeScript |
| GoPayload.GuardianKeys | node/pkg/adminrpc/adminserver.go:91-113 | the nested loops accept exactly 1 to 19 hex addresses, all different and none zero |
| GoPayload.GuardianSetUpdateToVAA | node/pkg/adminrpc/adminserver.go:90-122 | the update is built exactly for such keys, and its payload is read by TypeScript as those keys at the next index |
| Publication.MarshalMessage | node/pkg/common/chainlock.go:48-62 | writes the stored form |
| Publication.UnmarshalOldMessage | node/pkg/common/chainlock.go:68-119 | reads the old form; an empty payload is an error |
| Publication.UnmarshalMessage | node/pkg/common/chainlock.go:122-177 | reads the new form |
| Publication.DecodeOfEncodeMessage | node/pkg/common/chainlock.go:122-177 | a stored message is read back if and only if its payload has at least four bytes, then with its time cut to seconds |
| Publication.EncodeOfDecodeMessage | node/pkg/common/chainlock.go:122-177 | accepted bytes are those of at least 88; they are written back unchanged if and only if the flag byte is 0 or 1 |
| Publication.ReloadKeeps | node/pkg/common/chainlock.go:206-225 | storing and reloading keeps the message id and, for any guardian set index and any timestamp, the signed body and digest, which are those of `Layouts.SignedExactly` |
| Layouts.MessageBodyLayout | node/pkg/common/chainlock.go:206-219 | the body of a message has the fields of the message at the places of the format; its VAA has version 1 and no signatures |
| Layouts.SignedExactly | node/pkg/common/chainlock.go:206-228 | two messages have one signed body if and only if they agree on nonce, sequence, consistency level, emitter, payload and seconds modulo 2^32, and one digest exactly then if the hash tells the bodies apart |
| Layouts.MessageNamed | node/pkg/common/chainlock.go:38-44 | a message is named chain/address/sequence, like its VAA |
| Layouts.MessageLayout | node/pkg/common/chainlock.go:48-66 | the stored form by the places of its fields |
| Layouts.MessageReads | node/pkg/common/chainlock.go:68-178 | both readers: from which length on, and every field from its place |
| Publication.OldMessageMigrates | node/pkg/common/chainlock.go:68-119 | what the old reader returns survives the new form exactly from four payload bytes on |
| Transfers.MarshalTransfer | node/pkg/db/governor.go:60-80 | writes the stored form of a transfer |
| Transfers.UnmarshalTransfer | node/pkg/db/governor.go:82-156 | reads it, with an error for every field that is cut short |
| Transfers.UnmarshalOldTransfer | node/pkg/db/governor.go:158-224 | reads the old form, which takes a shortened last text |
| Transfers.DecodeOfEncodeTransfer | node/pkg/db/governor.go:60-156 | a transfer survives the store if and only if both texts are under 65536 bytes and its time is a whole second in 32 bits |
| Transfers.EncodeOfDecodeTransfer | node/pkg/db/governor.go:82-156 | the encoding of a decoded transfer is a prefix of the data |
| Transfers.OldTransferMigrates | node/pkg/db/governor.go:158-224 | what the old reader returns is kept by the new format |
| Layouts.TransferLayout | node/pkg/db/governor.go:60-80 | the stored form by the places of its fields, with the lengths of the texts modulo 2^16 |
| Layouts.TransferReads | node/pkg/db/governor.go:82-156 | read exactly if both texts and the target are there in full, every field from its place |
| Layouts.OldTransferReads | node/pkg/db/governor.go:158-229 | the old reader: exactly which bytes it accepts, texts cut short included, and every field from its place |
| Transfers.MarshalPending | node/pkg/db/governor.go:231-244 | writes release time and message |
| Transfers.UnmarshalPending | node/pkg/db/governor.go:246-276 | reads them in the old or the new format |
| Transfers.DecodeOfEncodePending | node/pkg/db/governor.go:231-276 | a pending transfer is read back exactly from four payload bytes on |
| Transfers.OldPendingMigrates | node/pkg/db/governor.go:246-276 | an old pending transfer is kept by the new format exactly from four payload bytes on |
| Layouts.PendingLayout | node/pkg/db/governor.go:231-243 | release time in seconds and then the message |
| Layouts.PendingReads | node/pkg/db/governor.go:246-285 | read exactly if the message of the same format behind the release time is |
| Transfers.KindsAreDisjoint | node/pkg/db/governor.go:312-326 | a key carries at most one of the four tags |
| Transfers.KindOfKeys | node/pkg/db/governor.go:296-326 | every pending key is classified as pending and as nothing else; a transfer key as one exactly when its id has at least 68 bytes |
| GovernorDb.Scan | node/pkg/db/governor.go:341-381 | one pass collects the entries of each kind in order, up to the first one that cannot be read |
| GovernorDb.Database.StorePendingMsg | node/pkg/db/governor.go:444-459 | sets one key |
| GovernorDb.Database.StoreTransfer | node/pkg/db/governor.go:426-441 | sets one key |
| GovernorDb.Database.DeletePendingMsg | node/pkg/db/governor.go:475-485 | deletes one key |
| GovernorDb.Database.DeleteTransfer | node/pkg/db/governor.go:462-472 | deletes one key |
| GovernorDb.Database.RewriteAll | node/pkg/db/governor.go:383-418 | stores each entry under its new key and deletes its old key |
| GovernorDb.Database.GetChainGovernorData | node/pkg/db/governor.go:329-423 | returns all transfers and pending transfers and rewrites the old ones; if an entry cannot be read it returns those before it and an error, and nothing changes |
| Migration.OthersUntouched | node/pkg/db/governor.go:383-418 | a load leaves other keys and entries in the new formats alone |
| Migration.NoOldKeysLeft | node/pkg/db/governor.go:383-418 | no key of an old format is left |
| Migration.OldEntriesMove | node/pkg/db/governor.go:383-418 | every old entry is afterwards under its new key in the new format |
| Migration.NewKeysFrom | node/pkg/db/governor.go:383-418 | and nothing else is new |
| Migration.EntriesKept | node/pkg/db/governor.go:333-423 | every entry is still there after the load, under its new key |
| Migration.ReadableAgain | node/pkg/db/governor.go:333-423 | the store can be read again if and only if no old pending payload was under four bytes |
| Migration.SameList | node/pkg/db/governor.go:333-423 | a second load returns the same multiset of entries, in whatever order it visits the keys |
| Migration.ClashLosesEntry | node/pkg/db/governor.go:383-418 | an id in both formats makes the second load return fewer entries |
| Migration.SecondLoadExact | node/pkg/db/governor.go:333-423 | if keys belong to their entries, a second load can be done and returns the same entries if and only if no entry is in both formats and no old pending payload is under four bytes |
| Migration.WritesKeepKeys | node/pkg/db/governor.go:426-485 | storing an entry that can be read back, and deleting, keep every governor key with its own entry |
| Migration.LoadMigrates | node/pkg/db/governor.go:333-423 | one entry per governor key, no old keys, other keys untouched, a second load writes nothing, and returns the same entries exactly when it can |
| Window.TrimOrdered | node/pkg/governor/governor.go:662-691 | in a list in time order exactly the transfers before the start are cut off, and the rest adds up to the sum |
| Window.AdmitLimited | node/pkg/governor/governor.go:388-447 | counting a transfer under the limit after trimming keeps every past day under it |
| Window.DayEndingAt | node/pkg/governor/governor.go:296-448 | a day whose last transfer was counted under the limit is under the limit |
| Window.DayWithOrWithout | node/pkg/governor/governor.go:296-448 | a day that ends after a transfer counted under the limit is within it, any other is worth what the first transfers are worth in it |
| Window.EveryDayFrom | node/pkg/governor/governor.go:296-448 | a day is also within the limit if some first transfers were not counted under it but are together within it |
| Window.EveryDayLimited | node/pkg/governor/governor.go:296-448 | so is any stretch of a day, wherever it begins |
| Governor.EnqueueAgrees | node/pkg/governor/governor.go:410-412 | enqueueing a new message keeps the index in agreement with the lists |
| Governor.CountAgrees | node/pkg/governor/governor.go:445-447 | so does counting one |
| Governor.DequeueAgrees | node/pkg/governor/governor.go:613-624 | and taking one out of a queue |
| Governor.TrimAgrees | node/pkg/governor/governor.go:679-688 | and trimming |
| Governor.TrimTracks | node/pkg/governor/governor.go:657-691 | trimming leaves the part of the history since a day ago |
| Governor.CountTracks | node/pkg/governor/governor.go:429-447 | counting after trimming extends that part and the history alike |
| GovernorState.ReleaseKeeps | node/pkg/governor/governor.go:582-626 | releasing an entry, counted or not, keeps the whole invariant |
| GovernorState.ReleaseConserves | node/pkg/governor/governor.go:582-626 | a released hash was enqueued and is the only one that no longer is |
| GovernorNode.SumAndSplit | node/pkg/governor/governor.go:662-677 | the loop computes the wrapped 64-bit sum and the number of transfers to cut off, for any list |
| GovernorNode.ChainGovernor.TrimAndSumValue | node/pkg/governor/governor.go:662-691 | and what is cut off is deleted from the store and forgotten |
| GovernorNode.ChainGovernor.TrimAndSumValueForChain | node/pkg/governor/governor.go:657-660 | on a reachable state the sum is the true sum of what is left, all of it from the last day |
| GovernorNode.ChainGovernor.ProcessMsgForTime | node/pkg/governor/governor.go:296-448 | the new state and the answer are those of the processing function, whose meaning `Admission.AnswersOnEveryRun` states; the invariant is kept |
| GovernorNode.ProcessedKeeps | node/pkg/governor/governor.go:296-448 | processing any message at any time and price keeps the invariant |
| Admission.OthersPass | node/pkg/governor/governor.go:459-494 | a message that is not governed changes nothing and is published, or refused if it is a transfer of a governed emitter under 101 bytes |
| Admission.SeenAgain | node/pkg/governor/governor.go:312-331 | a message seen before changes nothing and is published exactly if it is complete, held back exactly if it is enqueued |
| Admission.NewMessageDecided | node/pkg/governor/governor.go:333-447 | a new message fails exactly if its value or the sum does not fit into 64 bits, is published exactly if it is not big and the last 24 hours have room, and is then on the books within the limit; otherwise it is queued with a release time 24 hours later |
| Admission.AnswerIsIndexed | node/pkg/governor/governor.go:296-448 | the answer about a governed message is Publish, Hold or Failed exactly if its hash is afterwards complete, enqueued or not in the index |
| Admission.AnswersOnEveryRun | node/pkg/governor/governor.go:296-448 | all of this in every state that a run reaches, in terms of payload bytes, books and index |
| GovernorNode.RoundKeeps | node/pkg/governor/governor.go:517-627 | a round keeps the invariant, sends one waiting message or none, and is quiet only if every entry has to wait for want of room or of its release time |
| GovernorNode.ChainGovernor.Release | node/pkg/governor/governor.go:582-626 | the entry leaves the queue, is counted or forgotten, and its record is deleted |
| GovernorNode.ChainGovernor.ReleaseRound | node/pkg/governor/governor.go:517-627 | one pass over the queue equals the round function, whose meaning `Releases.RoundMoves` states |
| Releases.RoundMoves | node/pkg/governor/governor.go:516-632 | a round moves the first entry that need not wait, counted or not as the limit and its release time say, or none because all have to wait or that entry is unusable |
| GovernorNode.ChainGovernor.ReleaseChain | node/pkg/governor/governor.go:514-633 | rounds until nothing moves or something breaks |
| GovernorNode.ChainGovernor.CheckPendingForTime | node/pkg/governor/governor.go:500-636 | the new state, what is returned and what is kept are those of draining the chains in turn, whose meaning `Releases.ChecksOnEveryRun` states; the invariant is kept |
| GovernorNode.DrainAllKeeps | node/pkg/governor/governor.go:500-636 | what is sent was waiting, is sent once, nothing else leaves, and unless a chain breaks each entry that is left is big and before its release time, or not past it and without room in the last 24 hours |
| GovernorRuns.RunKeeps | node/pkg/governor/governor.go:286-691 | every run of messages and checks keeps index, lists and limits consistent |
| GovernorRuns.RunAdvances | node/pkg/governor/governor.go:286-691 | a run only adds to what has been counted, and only with the times of its own steps |
| GovernorRuns.DailyLimitOnEveryRun | node/pkg/governor/governor.go:286-691 | on every run from an empty governor the transfers counted in any day are worth no more than the daily limit |
| GovernorRuns.DailyLimitAfterReload | node/pkg/governor/governor.go:286-691 | from any reloaded state every day that ends after a new transfer is within the limit and every other is worth what the reloaded list is worth in it, so all days are within the limit if and only if those of the reloaded list are |
| GovernorRuns.ReloadStartsRun | node/pkg/governor/governor_db.go:21-57 | a load leaves a state that runs can start from if and only if no transfer reloaded is from the future and the sums fit 64 bits |
| GovernorRuns.QueueConserved | node/pkg/governor/governor.go:286-636 | on every run a message leaves the queues as often as it enters them, but for those waiting at the start or the end |
| Releases.ChecksOnEveryRun | node/pkg/governor/governor.go:500-636 | every check of every run: each message it takes out is the first of its queue that need not wait and leaves counted, not big and with room in the day, or uncounted when its release time has come; books and queues change by exactly these; what is left has to wait, or a chain is blocked by an entry without a usable value |
| Releases.HeldForADay | node/pkg/governor/governor.go:531-580 | a message held back on a run leaves uncounted at least 86 400 seconds later or not at all |
| GovernorAnswers.ReturnedInOrder | node/pkg/governor/governor.go:500-636 | on every run what calls return and then what is kept for a later call is what was taken out of the queues, in order |
| GovernorAnswers.NothingKept | node/pkg/governor/governor.go:500-636 | after a check that ends well nothing is kept |
| GovernorAnswers.AnswersConserved | node/pkg/governor/governor.go:500-636 | every message held back is returned, kept for a later call, or still held back, and each as often as it was held back |
| GovernorAnswers.RestartLosesKept | node/pkg/governor/governor.go:507-512 | a restart loses exactly the messages that were kept for a later call, so nothing is lost if and only if none was kept |
| Reload.AddPendingsAgree | node/pkg/governor/governor_db.go:59-157 | reloading pending transfers keeps the index in agreement with the lists |
| Reload.AddTransfersAgree | node/pkg/governor/governor_db.go:159-230 | so does reloading transfers |
| Reload.AddPendingsFrom | node/pkg/governor/governor_db.go:29-37 | the queues hold only what was stored, oldest first |
| Reload.AddTransfersFrom | node/pkg/governor/governor_db.go:39-53 | so do the lists of transfers |
| Reload.RecentOrStale | node/pkg/governor/governor_db.go:44-53 | a transfer is reloaded or deleted according to its age |
| Reload.ReloadRebuilds | node/pkg/governor/governor_db.go:21-57 | after a reload the index agrees with the lists, which are in time order and from the last day; known pending transfers are enqueued; a known recent transfer without a hash is listed as often as it was stored, one with a hash is listed or its hash is enqueued or listed |
| Loading.LoadedExactly | node/pkg/governor/governor_db.go:21-205 | after a load of any store exactly the governed messages stored as pending are enqueued, entries are as stored, and the lists hold stored transfers of the last 24 hours of configured emitters and tokens, none left out but for its hash |
| GovernorNode.ChainGovernor.ReloadPendingTransfer | node/pkg/governor/governor_db.go:59-157 | adds one pending transfer or drops it |
| GovernorNode.ChainGovernor.ReloadTransfer | node/pkg/governor/governor_db.go:159-230 | adds one transfer or drops it |
| GovernorNode.ChainGovernor.ReloadTransfers | node/pkg/governor/governor_db.go:39-53 | reloads the recent transfers and deletes exactly the others from the store |
| GovernorNode.ChainGovernor.LoadFromDB | node/pkg/governor/governor_db.go:21-57 | the state after a load is that of the specification: lists and index rebuilt from the store, which loses exactly the expired transfers; nothing changes if it cannot be read |
| Restart.QueueMirrors | node/pkg/governor/governor.go:399-412 | enqueueing keeps the stored pending transfers the same as the queued ones |
| Restart.ReleaseMirrors | node/pkg/governor/governor.go:582-626 | so does releasing |
| TransferFiles.CountFiles | node/pkg/governor/governor.go:429-447 | counting a transfer keeps the stored transfers the same as the listed ones |
| TransferFiles.TrimFiles | node/pkg/governor/governor.go:662-691 | so does trimming |
| TransferFiles.ReleaseFiles | node/pkg/governor/governor.go:582-626 | so does releasing |
| Restart.RunMirrors | node/pkg/governor/governor.go:286-691 | on every run the stored pending transfers are exactly the queued ones, the stored transfers exactly the listed ones, and all can be read |
| Restart.ReloadSameQueue | node/pkg/governor/governor_db.go:21-157 | reloading such a store enqueues exactly the messages that were enqueued |
| AcrossRestart.RestartOnEveryRun | node/pkg/governor/governor_db.go:21-57 | after any run from an empty governor the store loads and needs no rewriting; a restarted governor has the same queue, with times cut to seconds, and the same lists, cut to seconds and to the last day |
| AcrossRestart.LoadedKept | node/pkg/governor/governor_db.go:21-57 | after a load the store again holds exactly what is queued and listed |
| SharedIds.OverwrittenIsLost | node/pkg/db/governor.go:444-459 | right after a message was queued a restart finds exactly the waiting messages but one with the same id that was waiting before |
| SharedIds.QueueSurvivesExactly | node/pkg/db/governor.go:444-459 | it finds them all if and only if the key of the new record was not in the store |
| SharedIds.SharedIdOnEveryRun | node/pkg/governor/governor.go:399-412 | the same for any message held back after a run without shared ids, with the key a caller can look up before |
| Lifetimes.LoadedTotal | node/pkg/governor/governor_db.go:39-53 | what a restarted governor loads is together within the daily limit |
| Lifetimes.DailyLimitAcrossRestarts | node/pkg/governor/governor_db.go:21-57 | over any number of restarts the books are within the limit for any stretch of a day, and what was really counted is within it for any stretch one second shorter |
| Lifetimes.DroppedEarly | node/pkg/governor/governor_db.go:44-53 | loading at a whole second drops a transfer exactly if less than a second of its day is left |
| LostSecond.TwiceTheLimit | node/pkg/governor/governor_db.go:39-53 | the second is needed: a run with one restart counts twice the limit within less than a day |
| SignedStore.StoreKeepsKeys | node/pkg/db/db.go:101-129 | storing a VAA keeps every key with its own VAA |
| SignedStore.VaaStore.StoreSignedVAA | node/pkg/db/db.go:101-129 | sets the key of the VAA to its bytes |
| SignedStore.MinMax | node/pkg/db/db.go:193-206 | the loop finds the largest number; with the flag as the code sets it the smallest stays 0 |
| SignedStore.Missing | node/pkg/db/db.go:208-214 | the loop lists in ascending order exactly the numbers that are missing |
| SignedStore.NeverEndsExactly | node/pkg/db/db.go:208-214 | counting up in 64 bits, the guard of the loop holds after every number of turns if and only if the last number is 2^64 - 1 |
| SignedStore.VaaStore.FindEmitterSequenceGap | node/pkg/db/db.go:166-221 | answers about exactly the sequence numbers found under the prefix, or fails exactly when one cannot be read; has no end exactly when 2^64 - 1 is found |
| SignedStore.KeyUnderPrefix | node/pkg/db/db.go:79-84 | in a store built by storing VAAs a key is under a prefix exactly when its VAA is of the emitter or, without an address, of a chain whose number starts with the same digits |
| SignedStore.GapsExact | node/pkg/db/db.go:166-221 | the scan ends unless 2^64 - 1 is stored for what the prefix covers, and returns exactly the numbers not stored up to the largest |
| SignedStore.FirstIsSmallest | node/pkg/db/db.go:193-206 | the first number reported is the smallest one found if and only if 0 is found |
| SignedStore.LoneVaaFirst | node/pkg/db/db.go:193-214 | for a store with one VAA, not number 0, the first number reported is 0, and all numbers below the VAA are missing |
| SignedStore.VaaStore.PurgeVaas | node/pkg/db/purge_vaas.go:15-80 | counts and deletes exactly the old VAAs under the prefix; with logOnly the counts are the same and nothing changes |
| SignedStore.PurgeExact | node/pkg/db/purge_vaas.go:15-80 | these are exactly the covered VAAs before the time, and the counts add up to all covered VAAs |
| SignedStore.PurgeReachesChainTen | node/pkg/db/purge_vaas.go:15-80 | a purge of chain 1 without an address deletes old VAAs of chain 10 |
| Spy.PublishSignedVAA | node/cmd/spy/spy.go:98-127 | the nested loops make exactly the sends of the specification |
| Spy.TargetsExact | node/cmd/spy/spy.go:104-123 | a message that decodes goes once to a subscription without filters, and otherwise once for each filter with its emitter chain and its emitter address |
| Spy.UndecodableTargets | node/cmd/spy/spy.go:104-123 | a message that does not decode goes to the subscriptions visited before the first one with filters, and to no other |
| Spy.StepKeeps | node/cmd/spy/spy.go:98-184 | every step of publisher, handlers and cleanup keeps the invariant |
| Spy.DeliveredInOrder | node/cmd/spy/spy.go:98-183 | on every run what went into a channel and what is still to be sent to it is everything published to that subscription, in order; until its handler leaves, all of it was taken out but for what is in the channel |
| Spy.PublisherKeepsSubscriptions | node/cmd/spy/spy.go:98-127 | while a publisher holds the mutex no subscription is added or removed |
| Spy.BlockedHandlerLives | node/cmd/spy/spy.go:149-184 | a blocked publisher has a live handler on the other side with a step to make |
| Spy.BlockedGetsDrained | node/cmd/spy/spy.go:158-170 | every step of that handler empties the channel or comes closer to it, and no other step undoes this |
| Spy.BlockedRunDrains | node/cmd/spy/spy.go:98-184 | on every run from a blocked state, after a few steps of that handler the channel has been emptied or a receiver is ready to |
| Spy.PublisherGoesOn | node/cmd/spy/spy.go:98-127 | a publisher that is not blocked can make a step |
| SpyLedger.LedgerOnEveryRun | node/cmd/spy/spy.go:129-184 | filters, phase and channel counts of a subscription are those that the steps of the run say: it serves until it leaves and goes round its cleanup loop until it is removed |
| SpyLedger.LeavingEnds | node/cmd/spy/spy.go:156-168 | a leaving handler is removed after at most three steps of its own once no publisher holds the mutex |
| Permissions.CallKey | node/cmd/ccq/permissions.go:206-286 | computes the key of an allowed call, or an error for an invalid one |
| Permissions.KeyOfGrant | node/cmd/ccq/permissions.go:206-286 | that key is the key of what the entry grants |
| Permissions.KeyTextInjective | node/cmd/ccq/permissions.go:224-286 | different grants have different keys, within and across kinds of calls |
| Permissions.AllowedCalls | node/cmd/ccq/permissions.go:204-293 | accepts exactly lists of valid calls without repetition, and returns their keys |
| Permissions.ParseConfig | node/cmd/ccq/permissions.go:183-307 | parsed exactly without invalid or repeated calls, names or keys; each user has one entry, under the lower-case key, with its flags and with all its calls |
| Permissions.GoodCallsExactly | node/cmd/ccq/permissions.go:205-290 | a list of calls is accepted exactly if each entry is valid and no two stand for the same call of the same kind, told by the fields of the entries |
| Permissions.ValidateQuery | node/cmd/ccq/utils.go:97-126 | a query passes exactly when all its accounts are allowed |
| Permissions.QueryGranted | node/cmd/ccq/utils.go:97-126 | a query passes exactly if the fields of the user's entries allow it: account queries by solAccount entries, queries about derived addresses by solPDA entries |
| Permissions.ValidateQueries | node/cmd/ccq/utils.go:71-91 | the first query that does not pass decides the status |
| Permissions.ValidateRequest | node/cmd/ccq/utils.go:24-94 | returns the status of the first check that fails, and the signature to use |
| Permissions.KeyGranted | node/cmd/ccq/utils.go:97-126 | a key is allowed if and only if the configuration grants that access |
| Permissions.AcceptsExactlyGranted | node/cmd/ccq/utils.go:24-126 | a request is accepted if and only if it is signed or the node may and can sign it, it is well formed, and for each account of each query an entry of the right kind, without an earlier kind set, names chain and account; exact conditions for forbidden and for internal errors |
| Permissions.StrangersRefused | node/cmd/ccq/utils.go:25-30 | an unknown API key is refused |

## Left out

- Keccak, ECDSA, AES and key files: foreign cryptography, kept as function values.
- libp2p, gRPC, HTTP transport and command lines: they carry the requests and messages that the models take as parameters.
- Metrics and logging: they count and print what happens and decide nothing.
- The contents of query requests and responses: the proxy model takes their parsing, their digest and their re-encoding as function values.
- JSON and protobuf codecs, base58 and lower-casing: library code; base58 is a function value, assumed one to one where it matters.
- Unpaired surrogates: the strings that a TypeScript payload is built from are well-formed Unicode; parsing never yields others.
- JsPayload.SerialiseOfParse: the assertion that the greedy last string of a parser is empty is taken to mean that no bytes are left; a decoder that strips a byte order mark would also accept the trailing bytes EF BB BF.
- The TypeScript VAA envelope, signing and digest: they only repeat the Go format.
- The governance converters other than the guardian set update: they check field sizes and then call the modelled serialisers.
- Token prices and the floating-point value of an amount: each operation of the governor takes its prices as a function.
- The governor's monitoring commands, its price queries and the token lists: constant data and I/O.
- Errors of the database: writes are taken to succeed, and each is a step of its own as in the source.
- HasVAA and GetSignedVAABytes: each looks one key up in the store and returns what is there.
- The text that the purge returns: only the two counts in it are modelled.
- The filters of a spy subscription request: parsing them is one address conversion each.
- The permission file watcher: it parses the changed file and swaps the whole permission map, which is one assignment after `Permissions.ParseConfig`.
- The logging map: it remembers the request ids whose responses are to be logged, with an expiry time, and decides nothing else.
- Migration.SecondLoadExact: stores in which a governor key does not belong to the entry under it are not described; storing an entry that can be read back never makes one (`Migration.WritesKeepKeys`).
- GovernorRuns.DailyLimitOnEveryRun: the clock does not go back during a run, and transfers released after their waiting time, which the source does not count, are not counted; when they leave is stated by `Releases.HeldForADay`.
- Releases.HeldForADay: the two operations are on one run; a restart in between cuts the release time to whole seconds.
- SignedStore.VaaStore.FindEmitterSequenceGap: a loop without end is the result `Diverges`, whose condition is proved of the wrapping loop variable.
- Spy.BlockedRunDrains: that the handler goes on to make steps is its premise; scheduling is not modelled.
- AcrossRestart.RestartOnEveryRun: on the runs described one message id stands for one message, since the store keys transfers by id; what a restart loses when a queued message shares its id is stated by `SharedIds.SharedIdOnEveryRun`, and a record of a counted transfer that is overwritten in the same way is not described.
- Lifetimes.DailyLimitAcrossRestarts: one message id stands for one message, and times are within the 32 bits of seconds that are stored.
- CcqRuns.UnmetOnEveryRun: no guardian answers one request in two ways; without that the listener can give up early (`CcqVerdict.DoubleAnswerGivesUpEarly`).
