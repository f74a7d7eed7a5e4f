# Soul Society: a model of one proven, bound, fetchable result

The system takes a signed Nostr request for a Fibonacci number, a hash check or a Merkle membership check, proves the
computation with a Cairo program, publishes a signed result that names the proof, and lets a browser client fetch and
check the proof. This project models the four parts that have to agree for that to work and proves what each promises,
then composes them.

Verify everything with `dafny verify dfyconfig.toml`.

## The parts

**Statement pipeline** (`Felt`, `Bytes`, `Fibonacci`, `Merkle`, `Cairo`, `Statement`, `Pipeline`). A typed job is
flattened to Cairo arguments, deserialised, dispatched, run, flattened again and decoded to a typed statement. The
loops of the Cairo program and the cursor parsing of both decoders are methods, proved against functions on sequences.
Poseidon is any function.

**Wire format and binding** (`Hex`, `Decimal`, `Json`, `JsonGrammar`, `Types`, `Codec`, `ResultCodec`, `CodecExact`,
`Events`, `Wire`, `Binding`, `TsText`, `TsMirror`, `TsResult`). A JSON printer and reader for the values the protocol uses, escapes and
surrogate pairs included, with the reader proved against a grammar and the typed readers against the
members of their structs; strict parsing by parse, validate, reprint and
compare; the tag vectors; the embedded copy of the request; and the TypeScript printer, tag builder and validators,
written from their own literals, next to the Rust ones. Event hashing and signatures are the two functions of `Events.Nostr`; no
injectivity is assumed, and a statement that could fail by a collision says so.

**Provider** (`Fifo`, `Caches`, `Intake`, `IntakeSafety`, `Provider`, `Handler`, `ArtifactStore`, `ArtifactSafety`,
`ArtifactRefinement`, `ArtifactProgress`). The two bounded indexes and the request handler are classes, each tied to a history: an index
retains the last `capacity` insertions. `Intake` is the same handler as a step machine in which any number of deliveries interleave;
every lock-protected section is one step, so the lookup in the completed index and the claim are two. The file store is
a step machine over a directory of hard links with any number of puts, gets and processes, where any step may meet an
I/O error, any operation may simply stop, and a process may end anywhere and its id be used again by a later one; the
in-memory store, a class, is its specification.

**Client** (`ProofFetch`, `Settlement`, `Retry`, `SoulJob`, `SoulJobSafety`, `SoulJobRetry`). The bounded download and the
attempt loops are methods; the wait for a result is a class over the history of relay deliveries; the job lifecycle is a
step machine between awaits, with public calls interleaved. The machine's attempts are proved to be those of the loops.

`EndToEnd` composes them: an accepted request whose proving, storing, serving and checking go well ends in a verified
job with the specified result, refusals and failed downloads included; whatever fails in the provider's processing reaches
the waiting job as that error; and a verified job, in any run, has all its evidence, which with a sound verifier makes its
result true. `Witness` holds concrete inputs at which five expected
properties fail, and one honest run that meets every hypothesis of the composition.

## Assumptions

- Event ids determine events (`Intake.Config.createdAt` is a function of the id).
- Where a property speaks of time, observation times do not decrease in claim order.
- The futures of the provider are not dropped midway, except that an operation on the file store may stop at any step.
- Listeners do not call back into the job. Creating a file exclusively and creating a hard link are atomic.
- No two running processes on one artifact directory have the same process id.
- The library's event builder signs exactly the kind, text and tags it is given, at the time it takes from its clock. In
  particular it keeps a `p` tag that names the signer (apps/provider/src/nostr/handler.rs:76-80), which matters only when
  a provider answers its own request.
- A request event in hand has the shape its type gives it: hexadecimal ids, a 16-bit kind and no empty tag (`WellFormed`).
- SHA-256, Poseidon, event hashing, signatures, the STWO verifier and the URL policy are arbitrary functions. A digest
  is taken to be 64 lower-case hexadecimal digits where a path or a descriptor needs it.

## Where the code and its documentation differ

- apps/provider/src/nostr/handler.rs:41-42 and apps/provider/src/dedupe.rs:6-7 say that a duplicate cannot trigger a
  second proof and that an id is claimed at most once for the life of the process. Both indexes evict. A second proof
  needs `capacity` other requests claimed within 900 seconds (`IntakeSafety.SecondClaimNeedsEviction`), and at every
  capacity that many are enough (`IntakeSafety.EvictedIsProvedTwice`). The same comment says duplicates return nothing; a
  retained answer is returned again.
- Intake admits requests dated up to 300 seconds ahead, and clients refuse results signed before their request. A
  prompt answer to such a request is refused by every client: `Provider.PromptAnswerToFutureRequestIsRefused`, with an
  input in `Witness.PromptAnswerIsRefused`. `Provider.ProviderOutputAcceptedIff` is the exact condition.
- One result can answer two requests that differ in the signature of their events, since signatures are not part of an
  event's id: `Witness.OneResultTwoSignedRequests`. The requests are equal exactly when the signatures are:
  `Binding.OneResultOneSignedRequest`.
- A retained answer is replayed for any signed copy of its request, and embeds the copy it was made for. The Rust parser
  accepts it for either copy, the SDK only for that one: packages/soul-sdk/src/validation.ts:475-487 compares signatures.
  `Handler.ReplayIsAcceptedBySdkIff` is the exact condition, `Witness.ReplayToOtherSignatureIsRefused` an input.
- The provider accepts requests whose creation or expiry time is not a safe integer, and the SDK does not:
  `Witness.BeyondSafeIntegers`. Otherwise they accept the same requests: `TsMirror.RequestChecksAgree`.
- A result that reaches a waiting client too early for its clock is remembered as seen, so that a later, timely
  redelivery is ignored: `Settlement.RedeliveryIsIgnored`, with an input in `Witness.EarlyResultIsLost`.
  `Settlement.RedeliveryIsConsideredIff` is the exact condition.
- A job may ask for an expiry of up to an hour (packages/soul-sdk/src/client.ts:114-116), but a request older than ten
  minutes is refused by the provider and by the SDK alike. `TsMirror.BuiltRequestIsAcceptedIff` gives the exact times.
- A cancelled job can run again when two `retry()` calls wait for one run:
  `SoulJobSafety.OverlappingRetriesReviveCancelledJob`. It stays as it is in every continuation exactly when no
  `retry()` call is waiting: `SoulJobSafety.FinalIff`.

## Model

| member | source | states |
|---|---|---|
| Hex.TextOrderIsValueOrder | crates/soul-core/src/types.rs:23-45 | Comparing two hexadecimal texts of one width as strings, as the parser does with the prime, is comparing their values. |
| Felt.ParseAcceptsExactlyFeltTexts | crates/soul-core/src/types.rs:23-40 | The parser accepts exactly the texts of field elements, one for each. |
| Felt.ValueThenText | crates/soul-core/src/types.rs:43-45 | Reading the text of a field element gives the element back. |
| Felt.TextThenValue | crates/soul-prover/src/statement.rs:162-170 | Printing the value of an accepted text gives the text back, so the trip through a Cairo value changes nothing. |
| Felt.FeltTextInjective | crates/soul-core/src/types.rs:23-45 | Two field elements never share a text. |
| Felt.PrimeText | crates/soul-core/src/constants.rs:66-68 | The bound that texts are compared with is the Cairo prime. |
| Bytes.LeadingZerosMeanU64 | crates/soul-prover/src/statement.rs:181-199 | The decoders' test for a 64-bit word (24 zero bytes, then eight big-endian bytes) succeeds exactly on values below 2^64 and yields the value. |
| Bytes.FieldToFeltIsFeltText | crates/soul-prover/src/statement.rs:162-165 | Hex-encoding the 32 big-endian bytes of an element is its canonical text. |
| Fibonacci.ComputeFibonacci | crates/soul-cairo/src/fibonacci.cairo:12-35 | The loop returns F(n) modulo the prime for every 64-bit n short of the counter overflow. |
| Fibonacci.FibAddition | crates/soul-cairo/src/fibonacci.cairo:12-35 | The addition law of Fibonacci numbers, by which the bound is computed. |
| Fibonacci.BoundIsTight | crates/soul-core/src/constants.rs:44-45 | An index is at most 363 if and only if its Fibonacci number is below the prime. |
| Fibonacci.NoWrapExactlyInRange | crates/soul-cairo/src/lib.cairo:41-46 | The modular result is the integer Fibonacci number exactly on the accepted range. |
| Merkle.ComputeRoot | crates/soul-cairo/src/merkle_proof.cairo:32-62 | The loop folds the path over the leaf, ordering each pair by the index bit of its level. |
| Merkle.VerifyMerkleProof | crates/soul-cairo/src/merkle_proof.cairo:18-30 | True exactly when the folded path is the root. |
| Merkle.HonestPathVerifies | crates/soul-cairo/src/merkle_proof.cairo:18-62 | Completeness: in every complete tree the path of every leaf verifies. |
| Merkle.AcceptedPathOpensTree | crates/soul-cairo/src/merkle_proof.cairo:18-62 | Soundness: any accepted path of the tree's depth opens the tree's leaf at that index, or two different pairs hashed along the way have one hash. |
| Cairo.VerifyHash | crates/soul-cairo/src/hash_verifier.cairo:16-24 | True exactly when the preimage hashes to the expected value. |
| Cairo.Execute | crates/soul-cairo/src/lib.cairo:34-74 | The entry point panics exactly off the accepted calls, and otherwise returns the service, the public input and the single answer. |
| Cairo.DepthFitsU64 | crates/soul-cairo/src/lib.cairo:57-63 | The checked power of two never overflows up to the depth bound, so the Cairo and Rust index tests agree. |
| Cairo.DeserializeSerializedCall | crates/soul-cairo/src/lib.cairo:34-38 | The argument wrapper reads back exactly the three arguments that were flattened. |
| Statement.EncodeJob | crates/soul-prover/src/statement.rs:32-73 | Encoding succeeds exactly on valid jobs, and yields a flattened call of the service with its public and private values. |
| Statement.DecodeStatement | crates/soul-prover/src/statement.rs:75-132 | The decoder accepts an output exactly when it flattens some valid statement, and returns that statement. |
| Statement.TakeU64 | crates/soul-prover/src/statement.rs:181-199 | Takes a word exactly when one is left and it fits 64 bits, and moves the cursor by one. |
| Statement.TakeLen | crates/soul-prover/src/statement.rs:172-179 | Takes a length exactly when the word fits the platform's size type. |
| Statement.TakeFelts | crates/soul-prover/src/statement.rs:201-215 | Takes exactly the announced number of words, or fails when too few are left, without overflow of the end position. |
| Statement.OnlyReadingFlattens | crates/soul-prover/src/statement.rs:75-132 | The statement an output flattens is the one that is read from it. |
| Statement.FlattenInjective | crates/soul-prover/src/statement.rs:75-132 | No output flattens two statements: nothing is left over and nothing is ambiguous. |
| Statement.ReadStatementFlattens | crates/soul-prover/src/statement.rs:136-160 | Whatever is read from an output flattens to it, with the arity and the boolean that its service demands. |
| Statement.FlatteningIsRead | crates/soul-prover/src/statement.rs:75-132 | Every flattening is read, on every size type of at least 32 bits. |
| Statement.DecodeBothWidths | crates/soul-wasm/src/lib.rs:160-222 | The 64-bit and the 32-bit copies of the decoder accept the same outputs with the same statement, huge length words included. |
| Pipeline.ValidJobIsAccepted | crates/soul-cairo/src/lib.cairo:40-68 | A job that passes validation trips no assertion of the program. |
| Pipeline.RunJob | crates/soul-prover/src/statement.rs:32-132 | Encode, execute, flatten and decode succeed exactly on valid jobs, and give a valid statement that matches the request and carries the specified result. |
| Pipeline.StatementIsProven | apps/provider/src/processor.rs:106-120 | The statement of a job is valid, bound to its request, and specified. |
| Types.ErrorIsValidIffPrintable | crates/soul-core/src/types.rs:449-460 | A sanitised error message is publishable exactly when the raw one has a printable character. |
| Types.WithoutControlsConcat | crates/soul-core/src/types.rs:449-460 | Sanitising respects concatenation: with its value on one character, it drops the control characters and nothing else, and keeps the order. |
| Types.NewKeepsPrintable | crates/soul-core/src/types.rs:449-460 | A public error has the given code and the first 160 printable characters of its message, and all of a printable message of at most 160. |
| Decimal.ValueOfDec | packages/soul-sdk/src/validation.ts:366-379 | Printing a number in decimal and reading it back is the identity. |
| Decimal.DecOfValue | packages/soul-sdk/src/validation.ts:371-374 | A canonical decimal text is the text of its value. |
| Json.ReadInvertsPrint | crates/soul-core/src/types.rs:270-273 | The reader inverts the printer on every value, escapes included. |
| Json.PrintInjective | crates/soul-core/src/types.rs:270-273 | No two values have one text. |
| JsonGrammar.ReadIffDenotes | crates/soul-core/src/nostr_events.rs:200-216 | The reader accepts exactly the JSON texts of RFC 8259 (numbers as unsigned integers), in any spacing and with every escape, and reads each as what it denotes. |
| JsonGrammar.CharsRead | crates/soul-core/src/nostr_events.rs:211-212 | Every spelling of a string, by escapes, code units or surrogate pairs, is read as its characters. |
| JsonGrammar.ValueReads | crates/soul-core/src/nostr_events.rs:211-212 | Every text of a value is read, up to what follows it. |
| JsonGrammar.ValueIsText | crates/soul-core/src/nostr_events.rs:211-212 | Whatever is read is the text of some syntax tree that denotes it. |
| TsText.PrintersAgree | packages/soul-sdk/src/canonical.ts:57-60 | `JSON.stringify` and the Rust printer give one text for every value. |
| TsText.RequestTextsAgree | packages/soul-sdk/src/canonical.ts:24-60 | The SDK's canonical request text, from its own names and member order, is the Rust one. |
| TsText.ResultTextsAgree | packages/soul-sdk/src/canonical.ts:62-130 | And so is its canonical result text, success or error. |
| TsText.DecodeInvertsEncode | packages/soul-sdk/src/utils.ts:41-43 | Every text is read back from the UTF-8 octets whose number the size limits bound. |
| Codec.ContentRoundTrip | crates/soul-core/src/types.rs:224-273 | The canonical request text is read back as the same typed content, so no two texts mean one request. |
| ResultCodec.ResultRoundTrip | crates/soul-core/src/types.rs:467-558 | The canonical result text is read back as the same result. |
| CodecExact.ReadContentExact | crates/soul-core/src/types.rs:168-232 | The request reader takes exactly the JSON texts of an object with the members of a request content, each once and in any order, an absent or null expiry included, and with no other member. |
| CodecExact.InputExact | crates/soul-core/src/types.rs:168-190 | A job input is read exactly from the members of its own service. |
| CodecExact.StatementExact | crates/soul-core/src/types.rs:289-319 | A proof statement is read exactly from its five members. |
| CodecExact.ProofExact | crates/soul-core/src/types.rs:360-370 | A proof descriptor is read exactly from its seven members. |
| CodecExact.ReadResultExact | crates/soul-core/src/types.rs:465-481 | The result reader takes exactly the JSON texts of the members of its status. |
| Events.EventRoundTrip | crates/soul-core/src/nostr_events.rs:59-75 | A serialized event is read back as the same event. |
| Events.EventMembersRoundTrip | crates/soul-core/src/nostr_events.rs:200-224 | A serialized event has exactly the seven members that an embedded copy must have. |
| Events.LastMemberCounts | crates/soul-core/src/nostr_events.rs:211-216 | Of repeated members the last one counts. |
| Events.EventExact | crates/soul-core/src/nostr_events.rs:200-224 | An event is read from an object exactly when its last members of the seven names say it and it has the shape of an event. |
| Wire.SaturatingWindowIsExact | crates/soul-core/src/nostr_events.rs:31-36 | The saturating clock comparisons are the exact window for every pair of 64-bit clocks. |
| Wire.CanonicalFits | crates/soul-core/src/nostr_events.rs:27-29 | Every valid request has a canonical text within 16 KiB. |
| Wire.EncodingIsAccepted | crates/soul-core/src/nostr_events.rs:18-101 | Every encoding of a valid content and bid that is in its window parses back to the same values. |
| Wire.AcceptedIsEncoding | crates/soul-core/src/nostr_events.rs:18-76 | Only encodings are accepted: kind, text and tags are those built from the typed content and bid. |
| Wire.AcceptedIffEncoded | crates/soul-core/src/nostr_events.rs:18-101 | Accepted requests are exactly the image of the encoder. |
| Wire.RequestTagsReadBack | crates/soul-core/src/nostr_events.rs:78-101 | Each tag of a request occurs once and holds what its name promises: the content and its type, the protocol, the service, the topic, the expiry, the bid. |
| Wire.AcceptedSaysWhatItIs | crates/soul-core/src/nostr_events.rs:18-76 | What an accepted request is, read off its event: identity, author, time, kind, typed content, tags, and the bid its tag prints. |
| Wire.RefusedFor | crates/soul-core/src/nostr_events.rs:18-76 | A refused request is refused for the first thing wrong with it. |
| Binding.ResultAcceptedIff | crates/soul-core/src/nostr_events.rs:121-179 | A result is accepted exactly when it is a valid answer to the request, in canonical text, with the eight tags around any authentic copy of the request. |
| Binding.AcceptedCarries | crates/soul-core/src/nostr_events.rs:121-179 | What acceptance implies about kind, time, text, tags and the embedded copy. |
| Binding.CarryingIsAccepted | crates/soul-core/src/nostr_events.rs:121-179 | The converse. |
| Binding.OneResultOneRequest | crates/soul-core/src/nostr_events.rs:121-224 | Two authenticated requests that accept one result are equal but for their serialized copies, unless two request bodies share an id. |
| Binding.OneResultOneSignedRequest | crates/soul-core/src/nostr_events.rs:121-224 | And they are equal outright if and only if their events carry one signature. |
| Binding.AcceptanceIgnoresSignature | crates/soul-core/src/nostr_events.rs:121-179 | Two signed copies of one request accept exactly the same results. |
| Binding.OwnCopyPasses | crates/soul-core/src/nostr_events.rs:200-224 | The provider's own serialized copy of the request passes the embedded check. |
| Binding.AcceptedEmbedsRequest | crates/soul-core/src/nostr_events.rs:160-170 | An accepted result embeds an authentic event with the request's id: the request's own body, unless two bodies share that id. |
| Binding.ForeignCopyIsRefused | crates/soul-core/src/nostr_events.rs:160-170 | An embedded copy of any other event is refused as a mismatch. |
| Binding.EmbeddedInAnySpelling | crates/soul-core/src/nostr_events.rs:200-224 | The request is found in every JSON text of its seven members, in any order, spacing and spelling. |
| Binding.ResultRefusedFor | crates/soul-core/src/nostr_events.rs:121-179 | A refused result is refused for the first thing wrong with it. |
| TsMirror.FeltFromNumberIsFeltText | packages/soul-sdk/src/utils.ts:27-39 | The TypeScript padding of a number is the Rust text of the field element. |
| TsMirror.StatementChecksAgree | packages/soul-sdk/src/validation.ts:195-254 | Rust validation plus request matching accept a statement if and only if the TypeScript layout check plus request binding do. |
| TsMirror.BidsAgree | packages/soul-sdk/src/validation.ts:366-379 | Both languages accept the same bid texts with the same value, signs, leading zeros and rounding included. |
| TsMirror.StringifyInjective | packages/soul-sdk/src/validation.ts:438-440 | Comparing stringified tags is comparing tags. |
| TsMirror.LengthsAgree | packages/soul-sdk/src/utils.ts:41-43 | The length the Rust limit counts is the number of UTF-8 octets the SDK counts. |
| TsMirror.RequestTagsAgree | packages/soul-sdk/src/validation.ts:381-399 | The SDK's tag builder, from its own literals, builds the Rust tag vector. |
| TsMirror.RequestChecksAgree | packages/soul-sdk/src/validation.ts:401-442 | The SDK accepts a request event if and only if the provider does and both its times are safe integers. |
| TsMirror.RequestChecksAgreeInRange | packages/soul-sdk/src/validation.ts:401-442 | Both accept the same request events made an hour or more before the end of the safe range. |
| TsMirror.BuiltRequestIsAcceptedIff | packages/soul-sdk/src/client.ts:212-232 | What a job builds from validated input and options, once signed, is taken by its own validator and by the provider exactly from five minutes before its creation until it expires or is ten minutes old; and the provider gets its input, expiry and bid. |
| TsResult.ContentsAgree | packages/soul-sdk/src/validation.ts:256-364 | On typed contents the TypeScript result, descriptor, metrics and error checks with the binding accept what the Rust ones with the binding do. |
| TsResult.EmbeddedAgree | packages/soul-sdk/src/validation.ts:444-473 | Both parsers of an embedded copy find the same request event in it. |
| TsResult.TextsAgree | packages/soul-sdk/src/validation.ts:568-571 | A result that either side finds valid has one canonical text in both languages. |
| TsResult.ResultChecksAgree | packages/soul-sdk/src/validation.ts:538-596 | The SDK accepts a result exactly when the Rust parser does, its time is a safe integer, its statement is bound to the typed request, and its embedded copy is the request event in every member. |
| Fifo.ConsecutiveClaimsDistinct | apps/provider/src/dedupe.rs:30-48 | Any capacity + 1 consecutive successful claims are pairwise distinct. |
| Fifo.RepeatNeedsEviction | apps/provider/src/dedupe.rs:30-48 | Between two claims of one id lie at least capacity claims of distinct others. |
| Caches.RequestDeduplicator.Claim | apps/provider/src/dedupe.rs:30-48 | A claim succeeds exactly when the id is not among the last capacity successful claims; set and queue stay equal, without repeats and within capacity, and the eviction loop ends. |
| Caches.CompletedResults.Lookup | apps/provider/src/nostr/handler.rs:85-92 | Returns the retained answer of the id, if any. |
| Caches.CompletedResults.Insert | apps/provider/src/nostr/handler.rs:122-133 | Does nothing for a retained id, and otherwise retains the answer and evicts the oldest ones. |
| Caches.RetainedResultIsStable | apps/provider/src/nostr/handler.rs:113-134 | An insertion never changes the answer retained for any id; it can only evict it. |
| Intake.InvHolds | apps/provider/src/nostr/handler.rs:43-99 | In every interleaving: claims are fresh, a delivery claims and proves at most once, replays come from answered deliveries, and the permits taken are the deliveries proving. |
| Intake.PermitsKept | apps/provider/src/nostr/handler.rs:219-245 | No step leaks: the proving permits taken are the deliveries proving, the dispatch slots taken are the deliveries that hold one, through the offer to the relays, every delivery at work holds one, and both bounds hold. |
| IntakeSafety.SecondClaimNeedsEviction | apps/provider/src/nostr/handler.rs:49-54 | A second claim of a request needs capacity other requests claimed within 900 seconds of the first. |
| IntakeSafety.ProvedAtMostOnce | apps/provider/src/nostr/handler.rs:43-83 | A request is not proved twice when fewer than capacity others are claimed in the 900 seconds after each of its claims, whatever happens elsewhere and whatever the interleaving. |
| IntakeSafety.AllProvedAtMostOnce | apps/provider/src/nostr/handler.rs:43-83 | In particular no request at all is, when that holds of every span. |
| IntakeSafety.ClaimingMissedBoth | apps/provider/src/nostr/handler.rs:49-54 | In every run, a delivery that has claimed its request found the id absent from the completed index at its lookup step and, later, absent from the dedupe index at its claim step. |
| IntakeSafety.SecondProofMissedBoth | apps/provider/src/nostr/handler.rs:43-83 | A second proof of an id needs two deliveries that each missed both indexes, in that order, at two different claim steps. |
| IntakeSafety.RepliesAgree | apps/provider/src/nostr/handler.rs:49-54 | While an id has one successful claim, every event returned for it, first or replayed, is the same. |
| IntakeSafety.CachedEventIsStable | apps/provider/src/nostr/handler.rs:113-134 | No step of any delivery changes a cached event. |
| IntakeSafety.ReplayedIffRetained | apps/provider/src/nostr/handler.rs:49-51 | A delivery is replayed exactly when the completed index retains its id, with the retained event. |
| IntakeSafety.AnswerIsReplayed | apps/provider/src/nostr/handler.rs:49-54 | In every run, the first answer to an id is what every later delivery of it gets, until capacity other results have been inserted. |
| IntakeSafety.ProvedUnlessFull | apps/provider/src/processor.rs:60-66 | In every reachable state a claimed delivery is refused a proof exactly when as many deliveries are proving as there are slots. |
| IntakeSafety.TakenInUnlessFull | apps/provider/src/nostr/handler.rs:219-245 | In every reachable state an event is taken in exactly when fewer than 64 deliveries hold a slot. |
| IntakeSafety.SlotComesBack | apps/provider/src/nostr/handler.rs:219-245 | From every reachable state, each delivery that holds a dispatch slot can give it back by at most six steps of its own, whatever the others do. |
| IntakeSafety.AbandonedGivesBack | apps/provider/src/nostr/handler.rs:249-268 | A delivery whose answer cannot be made is dropped with its slot given back, its claim kept and nothing remembered. |
| IntakeSafety.UnretainedIsProved | apps/provider/src/nostr/handler.rs:43-83 | From every state with a free slot and a free permit, whatever else is in flight, an id retained by neither index is proved, however often it was before. |
| IntakeSafety.EvictedIsProvedTwice | apps/provider/src/nostr/handler.rs:41-43 | The bound is exact at every capacity: a run with capacity others in between proves one request twice. |
| Provider.ProcessedAnswers | apps/provider/src/processor.rs:60-102 | Whatever happens, the result is valid and answers the request, and a success is bound to it. |
| Provider.ProcessedExactly | apps/provider/src/processor.rs:60-102 | The exact outcome of processing: which of the six errors, or the success with the given statement, metrics, stored digest and size, and the joined URL. |
| Provider.FailuresArePublished | apps/provider/src/processor.rs:140-160 | Each of the six processing errors is published with its public code and its whole public message. |
| Provider.ProviderOutputAcceptedIff | apps/provider/src/nostr/handler.rs:56-82 | Every event the provider builds is accepted by the client for its request, with the same result, exactly when signed no earlier than the request and at most 300 seconds past the client's clock. |
| Provider.PromptAnswerToFutureRequestIsRefused | crates/soul-core/src/nostr_events.rs:132-137 | A prompt answer to a request dated ahead of the provider is refused by every client. |
| Provider.ErrorResultFits | apps/provider/src/nostr/handler.rs:71-75 | Every error result is within the size limit, whatever its message. |
| Provider.SuccessResultFits | apps/provider/src/nostr/handler.rs:71-75 | Every valid success result is within the size limit when its URL prints to at most 2,000 characters. |
| Handler.SignedJobHandler.HandleEvent | apps/provider/src/nostr/handler.rs:43-83 | A retained answer is replayed, a retained claim ignored, and only a request retained by neither index is claimed, processed and remembered; every error path with its effect on both indexes; every returned event was made for the id of the request. |
| Handler.ReturnedEventIsAcceptedIff | apps/provider/src/nostr/handler.rs:43-83 | Every event the handler returns, made now or replayed, is accepted by the Rust parser for the request exactly in its window, unless two request bodies share an id. |
| Handler.ReplayIsAcceptedBySdkIff | packages/soul-sdk/src/validation.ts:475-487 | What was made for one signed copy of a request is accepted by the SDK for another exactly in the window, at a safe time, and when the copies carry one signature. |
| Handler.ReturnedEventIsAcceptedBySdkIff | packages/soul-sdk/src/validation.ts:538-596 | Every returned event embeds some signed copy of the request, and that is the SDK's exact condition for it. |
| ArtifactStore.MemoryProofArtifactStore.Put | apps/provider/src/artifacts.rs:158-173 | Stores by digest, idempotently; refuses bad sizes and other bytes of a stored digest. |
| ArtifactStore.MemoryProofArtifactStore.Get | apps/provider/src/artifacts.rs:175-180 | Returns the stored bytes of a well-formed digest. |
| ArtifactStore.MemoryPutThenGet | apps/provider/src/artifacts.rs:158-180 | What is put can be got, can be put again, and shuts out other bytes of its digest. |
| ArtifactStore.MemoryPutAnswers | apps/provider/src/artifacts.rs:158-173 | Which sizes and which collisions are refused, and that a refusal changes nothing. |
| ArtifactSafety.StepKeepsInv | apps/provider/src/artifacts.rs:74-147 | Every step of every put and get, failures included, keeps digest-named files complete and in place, private files private, and outcomes true. |
| ArtifactSafety.PublishedForever | apps/provider/src/artifacts.rs:74-118 | A digest-named file, once seen, keeps its bytes for ever, which are of legal size and hash to its name. |
| ArtifactRefinement.StepRefines | apps/provider/src/artifacts.rs:74-118 | Each step leaves the published map alone or is one accepted put of the in-memory store. |
| ArtifactRefinement.PutAnswersAsMemory | apps/provider/src/artifacts.rs:74-118 | A finished put has answered as the in-memory store does, then and ever after. |
| ArtifactRefinement.FaultlessPutsSucceed | apps/provider/src/artifacts.rs:74-118 | In every run without faults from a directory without leftovers: a finished put has succeeded exactly when its bytes are the published ones of its digest, and whenever no other bytes are published there; it has been refused as a collision exactly when others are; and for its size exactly when that is bad. |
| ArtifactRefinement.EqualPutsAllSucceed | apps/provider/src/artifacts.rs:80-112 | Racing puts of equal bytes all succeed in such a run, unless other bytes of their digest are published. |
| ArtifactRefinement.EqualPutsAgree | apps/provider/src/artifacts.rs:80-112 | With faults, the puts of equal bytes that end without an I/O error get one answer. |
| ArtifactRefinement.RefusalIsCollision | apps/provider/src/artifacts.rs:80-112 | A put is refused only over different published bytes of its digest. |
| ArtifactRefinement.CollidingPutNeverStores | apps/provider/src/artifacts.rs:80-112 | Different bytes of a published digest are never stored. |
| ArtifactRefinement.IoErrorNeedsLeftover | apps/provider/src/artifacts.rs:87-118 | Without an injected fault, a put ends in an I/O error only over a leftover temporary file of its own name. |
| ArtifactRefinement.GetAnswersAsMemory | apps/provider/src/artifacts.rs:120-147 | A get answers as the in-memory store does at the moment it looks, and never reports corruption. |
| ArtifactRefinement.GetReturnsPut | apps/provider/src/artifacts.rs:74-147 | Once a put has returned, every get of its digest that looks afterwards, begun before or after, returns exactly the bytes put, unless a fault strikes that very get. |
| ArtifactRefinement.GetAfterPut | apps/provider/src/artifacts.rs:74-147 | With faults anywhere, it returns those bytes or ends in an I/O error. |
| ArtifactRefinement.NewGetIsToLook | apps/provider/src/artifacts.rs:120-147 | A get begun at any point of a run has yet to look. |
| ArtifactProgress.PutStepProgresses | apps/provider/src/artifacts.rs:74-118 | Every step of a put, a failing one included, brings it nearer to its end, in any state. |
| ArtifactProgress.PutAlone | apps/provider/src/artifacts.rs:74-118 | From every state any operations have left, a put that runs alone finishes with the in-memory store's answer and map, disturbs nothing and leaves no temporary name, unless a file bears the name it is to use next. |
| ArtifactProgress.GetAlone | apps/provider/src/artifacts.rs:120-147 | A get that runs alone finishes within three steps with the in-memory store's answer. |
| ArtifactProgress.GetNeverLies | apps/provider/src/artifacts.rs:120-147 | On any directory, damaged ones included, a get never returns bytes of bad size or with another digest, and reports such a file. |
| ArtifactProgress.PutNeverBlesses | apps/provider/src/artifacts.rs:80-105 | And a put that finds its digest taken has stored its artifact only if the file is that artifact. |
| ArtifactProgress.LeftoverFailsPut | apps/provider/src/artifacts.rs:87-93 | A leftover of the very temporary name makes that put fail, spends the number and touches no file. |
| ArtifactProgress.MayStopAnywhere | apps/provider/src/artifacts.rs:65-71 | A process may stop at any moment: its puts end, the directory stays, and its successor counts from zero. |
| ProofFetch.Accumulate | packages/soul-sdk/src/proof.ts:110-131 | The loop retains at most the declared size and 32 MiB from any stream, succeeds exactly when the whole body fits, with all of it, and otherwise fails as the first rejected read or overshoot demands, a failing cancellation included. |
| ProofFetch.EndedIffUnfit | packages/soul-sdk/src/proof.ts:119-130 | A body ends early exactly when a read is rejected or the whole is too long. |
| ProofFetch.Assemble | packages/soul-sdk/src/proof.ts:140-145 | The copy loop lays the chunks end to end. |
| ProofFetch.FetchProofArtifact | packages/soul-sdk/src/proof.ts:56-174 | Returns bytes exactly when the exchange delivers the described artifact: declared length, digest, media type, length header and allowed URLs; every other outcome has its error and its retry flag. |
| ProofFetch.EverySplitDelivers | packages/soul-sdk/src/proof.ts:110-155 | Every way of splitting stored bytes into chunks delivers exactly them. |
| Settlement.ResultWait.Deliver | packages/soul-sdk/src/client.ts:342-366 | Settles with the first delivered event that is allowlisted, outside the seen-window and valid; the seen set equals its queue and stays within 10,000. |
| Settlement.ResultWait.Stop | packages/soul-sdk/src/client.ts:309-333 | A timeout or a cancellation settles only a wait that is still open. |
| Settlement.SettledOnce | packages/soul-sdk/src/client.ts:305-368 | What a history of deliveries, timeouts and cancellations has decided, every longer history has decided, and nothing else. |
| Settlement.DecidesExtends | packages/soul-sdk/src/client.ts:305-368 | A decision is never revised by later signals. |
| Settlement.RedeliveryIsIgnored | packages/soul-sdk/src/client.ts:346-357 | An event looked at once is ignored until 10,000 other ids have been looked at, even if it has become valid. |
| Settlement.RedeliveryIsConsideredIff | packages/soul-sdk/src/client.ts:346-356 | And is looked at again exactly when its last look has been evicted. |
| Retry.PublishWithRetry | packages/soul-sdk/src/client.ts:282-303 | At most retries + 1 attempts; total backoff is delay times k(k+1)/2 for k delays; which attempt decides and how. |
| Retry.FetchWithRetry | packages/soul-sdk/src/client.ts:370-395 | The same, ending at once on a failure that is not worth a retry. |
| SoulJobRetry.PublishLoopRefines | packages/soul-sdk/src/client.ts:282-303 | Whatever the relays answer and whenever the job is cancelled, the machine's publications end as the loop does, at the same attempt. |
| SoulJobRetry.FetchLoopRefines | packages/soul-sdk/src/client.ts:370-395 | And its downloads: they succeed exactly when the loop does, with the proof of that attempt. |
| SoulJobRetry.PublishTriesAgain | packages/soul-sdk/src/client.ts:284-296 | A refusal within the budget, and the delay after it, lead to the next attempt. |
| SoulJobRetry.FetchTriesAgain | packages/soul-sdk/src/client.ts:373-391 | And so does a failure worth a retry. |
| SoulJobRetry.PublishesAfter | packages/soul-sdk/src/client.ts:282-303 | Up to publishRetries refusals are survived. |
| SoulJobRetry.FetchesAfter | packages/soul-sdk/src/client.ts:370-395 | Up to proofRetries retryable failures are survived. |
| SoulJobRetry.SigningEnds | packages/soul-sdk/src/client.ts:226-231 | A signer's failure ends the job, an event its own validator refuses ends it for good, and a valid one is published as the request it parses to. |
| SoulJobRetry.ProviderErrorEndsJob | packages/soul-sdk/src/client.ts:238-246 | A valid error result ends the job with the provider's code, to be retried exactly for busy, proving, artifact and internal failures. |
| SoulJobRetry.TimeoutEndsJob | packages/soul-sdk/src/client.ts:305-322 | No result in time ends the job for now. |
| SoulJobRetry.UntrustedProgramEndsJob | packages/soul-sdk/src/client.ts:248-255 | A success under another program ends the job for good before any download. |
| SoulJobRetry.RejectedProofEndsJob | packages/soul-sdk/src/client.ts:260-266 | A proof the verifier does not accept ends the job for good. |
| SoulJobRetry.CancelTakesEffect | packages/soul-sdk/src/client.ts:198-210 | The whole effect of a cancellation: the failure, the abort, the closed subscription, and which pending wait or delay it wakes. |
| SoulJobRetry.CancelledWaitEnds | packages/soul-sdk/src/client.ts:198-210 | A cancelled job that was waiting or delayed ends in two more steps, failed as cancelled. |
| SoulJobRetry.RetryStartsAfresh | packages/soul-sdk/src/client.ts:174-196 | A retry of an ended job starts it afresh under a new controller. |
| SoulJobRetry.RetryWaitsForBody | packages/soul-sdk/src/client.ts:178-184 | A retry during the end of the failed run waits for it and then does the same. |
| SoulJobRetry.RetryWaitsForItsRun | packages/soul-sdk/src/client.ts:178-184 | A waiting retry is resumed only after the run it waited for, and once. |
| SoulJobSafety.StepKeepsInv | packages/soul-sdk/src/client.ts:159-280 | Every step keeps the evidence gathered so far and the attempt bounds, overlapping retries included. |
| SoulJobSafety.VerifiedOnlyWithEvidence | packages/soul-sdk/src/client.ts:212-280 | In every run, verified means a validated request, an allowlisted and validated success, the trusted program, bytes of the signed size and digest, and a positive verifier. |
| SoulJobSafety.PhasesMoveForward | packages/soul-sdk/src/client.ts:212-280 | Within one run the phase only moves forward. |
| SoulJobSafety.TerminalIsFinalUnlessRestarted | packages/soul-sdk/src/client.ts:174-210 | A verified or failed snapshot changes only by a retry. |
| SoulJobSafety.AbortedAsksNothing | packages/soul-sdk/src/client.ts:198-210 | After a cancellation the run starts no publication, subscription, download or check. |
| SoulJobSafety.FinalForever | packages/soul-sdk/src/client.ts:174-210 | A verified job stays verified, and a cancelled one failed, for the rest of every run once no retry call is waiting. |
| SoulJobSafety.FinalIff | packages/soul-sdk/src/client.ts:174-210 | A verified or failed job stays as it is in every continuation if and only if it may not be retried and no retry call is waiting. |
| SoulJobSafety.FinalWithoutOverlap | packages/soul-sdk/src/client.ts:174-210 | In particular in every run whose retries never overlap. |
| SoulJobSafety.Drains | packages/soul-sdk/src/client.ts:212-280 | The suspended rest of a verified or failed run can always end, and leaves no trace. |
| SoulJobSafety.SubscribedOnlyWhileWaiting | packages/soul-sdk/src/client.ts:305-368 | In every run the job is subscribed to its relays only while it waits for a result. |
| SoulJobSafety.OverlappingRetriesReviveCancelledJob | packages/soul-sdk/src/client.ts:174-196 | A run in which two overlapping retries revive a cancelled job, which then publishes. |
| EndToEnd.HonestAnswer | apps/provider/src/processor.rs:60-102 | When proving and storing go well, processing succeeds with the specified result, bound to the request, the artifact's metrics, and a descriptor of the stored bytes at the joined URL. |
| EndToEnd.AnswerIsAccepted | packages/soul-sdk/src/validation.ts:538-596 | Every freshly signed answer, success or error, received in time, passes the SDK's validator for the copy it was made for, with the same result. |
| EndToEnd.HonestDownload | packages/soul-sdk/src/proof.ts:56-155 | Every honest response, however chunked, delivers the stored proof for that result. |
| EndToEnd.WaitingJobVerifies | packages/soul-sdk/src/client.ts:235-273 | A waiting job that hears a valid result, gets its proof after up to proofRetries failures worth a retry, and a positive verifier ends verified with exactly these. |
| EndToEnd.StartedJobWaits | packages/soul-sdk/src/client.ts:212-235 | A job that is started, signs a valid request and gets it published after up to publishRetries refusals waits for its result. |
| EndToEnd.HonestJobVerifies | packages/soul-sdk/src/client.ts:212-280 | A run of the job from its beginning: when everything outside the two programs goes well, after up to publishRetries refusals and proofRetries retryable failures, it ends verified with the provider's event, the stored proof and the specified result. |
| EndToEnd.FailedProcessingEndsJob | packages/soul-sdk/src/client.ts:235-246 | A run from the beginning in which the provider's processing fails, for whatever reason, ends failed with the public code of that very error, and may be retried. |
| EndToEnd.SilenceEndsJob | packages/soul-sdk/src/client.ts:305-322 | A run from the beginning that hears nothing in time ends failed and may be retried. |
| EndToEnd.ProvableMatchIsTrue | packages/soul-sdk/src/validation.ts:493-536 | A provable statement bound to a request tells the truth about it: the exact Fibonacci number, an existing preimage, an existing path. |
| EndToEnd.VerifiedMeansTrue | packages/soul-sdk/src/client.ts:212-280 | In any run, a verified job's request was authentic, its result accepted from an allowlisted provider, and, with a sound verifier, true. |
| Witness.OneResultTwoSignedRequests | crates/soul-core/src/nostr_events.rs:121-179 | A result and two signed copies of one request that both accept it and differ. |
| Witness.BeyondSafeIntegers | packages/soul-sdk/src/validation.ts:415-421 | A request that the provider accepts and the SDK does not. |
| Witness.PromptAnswerIsRefused | crates/soul-core/src/nostr_events.rs:132-137 | A request dated 100 seconds ahead whose prompt answer is refused at any time. |
| Witness.EarlyResultIsLost | packages/soul-sdk/src/client.ts:346-365 | A result that is delivered early, is valid when delivered again, and settles nothing. |
| Witness.ReplayToOtherSignatureIsRefused | packages/soul-sdk/src/validation.ts:475-487 | An answer of the handler, replayed for another signed copy, that the Rust parser accepts and the SDK never does. |
| Witness.HonestJobExists | packages/soul-sdk/src/client.ts:212-280 | Every hypothesis of the honest run can be met: a job that is verified. |

## Left out

- STWO proving and verification, Cairo VM execution, trace adaptation and salt retries: an engine is any outcome, and the verifier any function.
- SHA-256, Poseidon, Schnorr signatures and event hashing: arbitrary functions.
- URL parsing and the scheme and host policies, which differ between the languages: one predicate, a parameter.
- Relay connections, subscription plumbing, HTTP routing and headers, configuration, start-up and shutdown, the web application, WASM loading and signers.
- Real time and timers: clocks are inputs, timeouts and delays are steps.
- Durability: a sync is a step without effect, since no crash of the operating system is modelled; a process may stop anywhere.
- JSON spellings outside the protocol: a fraction, exponent, minus sign or positional array form of a struct reads as malformed, where the library would read it and the comparison with the canonical text would then refuse it. So do upper-case event ids, and a result that repeats an unknown member.
- The library's reading of JSON in TypeScript: both validators are modelled on the typed content whose canonical text the event carries. Of an embedded copy the model reads numbers in plain digits only, where JSON.parse would also read `1e2`.
- Member equality of events in Rust: the library compares ids, and so does the model; EndToEnd.SdkValidateResult compares every member as the SDK does.
- SoulJob and the file store are step machines on values, not classes: what matters in them is the interleaving at awaits and system calls, which methods cannot express. The retry loops and the wait appear both as methods and as steps.
- A transport whose subscribe call throws, listeners, and the client's registry of jobs.
- EndToEnd.ProvableMatchIsTrue: a negative hash or Merkle answer is bound to the public values only, since private inputs are not part of the statement; nothing is claimed about it.
