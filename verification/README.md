# Verified model of the Solana payment SDKs

This project models the parts of the Solana payment method for HTTP 402 whose correctness money depends on, and proves what
they promise. It covers the Rust client and server, the Go server, the Python header codec and the browser client.

| modules | what they model |
|---|---|
| `FirstFit`, `Choice` | the matching every verifier uses: expectations in order, each consuming the first free instruction that fits |
| `Charge`, `ChargeMeaning`, `ChargeVerifier`, `ChargeGuarantees`, `ChargeAcceptance` | the Rust server's check of a client transaction before broadcast, and exactly what it accepts |
| `ChargeBuilder`, `ChargeBuilt`, `ChargeAgreement`, `ChargeCases` | the Rust client's transaction builder, exactly what it builds, when the server accepts that, and charges on which promises fail |
| `ParsedVerifier`, `ParsedAcceptance`, `ParsedAgreement` | the Rust server's second check, on the parsed form that the RPC node reports, what it accepts, and when the two checks agree |
| `GoVerifier`, `GoGuarantees`, `GoAcceptance` | the Go server's check of a confirmed transaction, and exactly what it accepts |
| `Base58`, `MessageFormat`, `MessageCompiler`, `CompilerGuarantees`, `CompilerMeaning` | the browser client's base58 codec and its compiler from instructions to message bytes |
| `Sse`, `SseBlocks`, `MeteredStream`, `Session` | the streaming event decoder, what it makes of a text, the metered stream on top of it, and the session it charges |
| `HeaderText`, `GoHeaders`, `GoSplitter`, `GoRecovery`, `GoRoundTrip`, `GoChallenges`, `GoPrinted`, `GoCases` | the Go codec of `WWW-Authenticate` challenges |
| `PyHeaders`, `PySplitter`, `PyRecovery`, `PyChallenges`, `PyPrinted` | the Python codec of the same headers, with a parser and a splitter of its own |
| `Replay`, `Watermark` | two concurrent protocols: one receipt per signature, and the compare-and-swap watermark |
| `Units`, `Numbers`, `Texts`, `Selection`, `Common` | amount conversion, decimal text, string operations, challenge selection |

Loops of the source are methods with loops. Each one is tied by its `ensures` to a specification function, and the lemmas
are about those functions. The main results then say what the operations do without those functions: on the bytes, accounts,
fields and characters of their inputs, with the constants written out. Objects that the source updates in place are classes.
A concurrent protocol is a state machine whose events are the atomic steps of the source, and its lemmas quantify over every
sequence of events.

Some promises hold under a condition only. In each such case the model keeps the code as it is, and a lemma, usually with a
name that ends in `Iff`, says exactly when the promise holds:

- the payments of an accepted transaction add up to the requested amount if and only if the split amounts do not overflow
  64 bits (`ChargeGuarantees.AcceptedTotals`, `GoAcceptance.AcceptedTotals`); `ChargeCases.OverflowIsAccepted` is an
  accepted charge of one lamport that moves 2^64 + 1;
- the parsed check accepts a transaction that pays the charge on its reported fields if no memo or compute-budget instruction
  is reported as a transfer, and whatever it accepts pays the charge (`ParsedAcceptance.AcceptedIff`);
  `ParsedAcceptance.MuddledIsRefused` is a family of reports that pay and are refused;
- the Rust server accepts what the Rust client built if and only if sponsorship comes with a key that is not the signer's
  and no memo is present but empty (`ChargeAgreement.BuiltIsAcceptedIff`); `ChargeCases.SelfSponsorIsRefused` and
  `ChargeCases.EmptyMemoIsRefused` are built transactions that are refused;
- the two Rust verifiers agree if and only if the token instructions run under the token program that the second one
  assumes and the inner instructions, which only the second one sees, set the compute budget or create token accounts the
  charge allows (`ParsedAgreement.VerifiersAgreeIff`); `ChargeCases.UnnamedProgramIsRefused` is a payment on which they
  disagree, and `ParsedAgreement.InnerTransferRefuses` covers every inner System or Token instruction;
- message compilation preserves its input if and only if there are at most 256 accounts and 255 signers
  (`CompilerMeaning.CompiledSaysIff`);
- base58 round trips hold if and only if some byte is not zero, or some character is not `1` (`Base58.DecodeEncodeIff`,
  `Base58.EncodeDecodeIff`);
- the Go codec recovers the Payment challenges of a merged header if and only if what the splitter leaves attached to each
  acceptable one can be parsed after its own parameters and does not interfere with them (`GoChallenges.AbsorbingIff`,
  `GoChallenges.MergedRecovery`). It can be parsed unless a word without an equals sign, such as the name of a scheme without
  parameters, is left at its end, or an equals sign has nothing before it (`GoChallenges.GluesIff`). The comment on
  `ParseWWWAuthenticateAll` promises merged values with other schemes without this condition. `GoCases.BareSchemeDrops` and
  `GoCases.DigestBetweenDrops` are headers on which a challenge is lost, and `GoCases.PaddedTokenKeeps` is a kind of header on
  which none is. The Python codec needs no such condition (`PyChallenges.SchemesAreFiltered`);
- a metered stream consumes the same events however it is cut into chunks if and only if nothing follows its done marker
  (`MeteredStream.ChunkingIrrelevantIff`);
- Go's amount conversion returns a number of base units if and only if the amount does not contain both a minus sign and a
  digit other than zero, as `0.-5` does (`Units.ResultIsNaturalIff`), and on digit-only amounts it agrees with Python's if and
  only if the result is below 10^4300, Python's limit of 4300 digits (`Units.ConversionsAgreeIff`).

Programs and addresses are a datatype that tells the six programs apart from every other address. The derivation of
associated token accounts is a parameter, assumed injective where a lemma needs it. JSON and base64 decoding, signing, and
transport or RPC calls are parameters too: functions, or options that say whether the call succeeds.

## Model

| member | source | states |
|---|---|---|
| FirstFit.MatchAllConsumes | rust/src/server/charge.rs:1441-1493 | whatever the growing set of matched indexes gains is exactly one instruction per expectation, and together they offer exactly what was expected |
| FirstFit.MatchAllIff | go/server/server.go:467-500 | greedy first-fit matching succeeds if and only if the expectations are included, as a multiset, in what the instructions offer |
| FirstFit.OffersAssign | go/server/server.go:469-499 | when the expectations are included in the offers there is an assignment of expectations to distinct instructions |
| FirstFit.AssignmentOffers | go/server/server.go:469-499 | the converse: an assignment to distinct instructions implies inclusion |
| Choice.MatchAllChooses | rust/src/server/charge.rs:1441-1493 | greedy matching that succeeds has chosen a free position of its own for every expectation, and consumes exactly those |
| Choice.ChoiceSuffices | rust/src/server/charge.rs:1441-1493 | positions of their own that answer their expectations and no others are enough for greedy matching to succeed and consume them |
| Charge.WrappedTotal | rust/src/server/charge.rs:990-1004 | the unchecked 64-bit sum of the split amounts is their true sum modulo 2^64 |
| Charge.PaidByMultiset | rust/src/server/charge.rs:1441-1628 | what each wallet is paid depends only on the multiset of payments |
| Charge.DemandedTotal | rust/src/server/charge.rs:990-1004 | the payments a challenge demands add up to the primary amount plus the splits |
| ChargeVerifier.ExpectedAtaCreationPolicy | rust/src/server/charge.rs:1141-1167 | the loop collects the owners whose token accounts may and must be created, and fails exactly when a split recipient does not parse |
| ChargeVerifier.VerifySolTransferInstructions | rust/src/server/charge.rs:1441-1493 | one expected SOL transfer consumes the first free matching instruction, with the source's error precedence |
| ChargeVerifier.VerifySplTransferInstructions | rust/src/server/charge.rs:1536-1628 | the same for a token transfer, including mint, decimals, token account and authority checks |
| ChargeVerifier.VerifyMemoInstructions | rust/src/server/charge.rs:1495-1533 | the expected memos consume memo instructions first-fit; a memo longer than 566 bytes is an error |
| ChargeVerifier.ValidateInstructionAllowlist | rust/src/server/charge.rs:1240-1327 | the loop over what is left accepts exactly the lists in which every unmatched instruction is allowed and every required account is created |
| ChargeVerifier.VerifyTransfers | rust/src/server/charge.rs:1029-1120 | primary and split transfers and memos are matched in this order over one growing set of consumed indexes |
| ChargeVerifier.DeriveTerms | rust/src/server/charge.rs:980-1081 | the recipient, primary amount, asset, fee payer and creation policy the check works with, or the first error |
| ChargeVerifier.VerifyVersionedTransactionPreBroadcast | rust/src/server/charge.rs:975-1134 | the whole check equals the specification the lemmas below are about |
| ChargeGuarantees.AcceptedExactly | rust/src/server/charge.rs:975-1134 | in an accepted transaction the System, Token and Memo instructions are payments and memos, and as a multiset they are exactly those the challenge demands |
| ChargeGuarantees.AcceptedTotals | rust/src/server/charge.rs:990-1131 | every payee receives exactly its own total, and everything together is the requested amount if and only if the split amounts do not overflow 64 bits |
| ChargeGuarantees.SponsorIsProtected | rust/src/server/charge.rs:1141-1489 | a sponsoring fee payer is account 0, funds and authorizes no transfer, pays only for token accounts of marked splits, each of which is created, and compute-budget instructions stay within 200,000 units and 5,000,000 micro-lamports a unit |
| ChargeAcceptance.AcceptedIff | rust/src/server/charge.rs:975-1439 | the check accepts a transaction if and only if it pays the charge, read off its bytes: each demanded payment and memo has an instruction of its own with the right program, numbers, accounts and no sponsor's funds, every other one sets a unit limit of at most 200,000 or a price of at most 5,000,000 micro-lamports or creates an allowed token account, and every marked account is created |
| ChargeAcceptance.BudgetIsLimited | rust/src/server/charge.rs:1329-1359 | every compute-budget instruction of an accepted transaction, sponsored or not, is within those two limits and has no accounts |
| ChargeAcceptance.Refusals | rust/src/server/charge.rs:980-1081 | exactly when a transaction is refused for too many splits or for a recipient, and that a missing or used-up amount is refused as such |
| ChargeBuilder.PushMemoInstruction | rust/src/client/charge.rs:421-440 | a present memo, even an empty one, appends one memo instruction; one longer than 566 bytes is refused |
| ChargeBuilder.AddSplTransfer | rust/src/client/charge.rs:370-397 | a token transfer, preceded by an account creation when asked for |
| ChargeBuilder.PushSplits | rust/src/client/charge.rs:402-416 | the split loop appends the planned steps of every split in order, or stops at the first error |
| ChargeBuilder.BuildInstructions | rust/src/client/charge.rs:316-419 | the instruction list is the rendering of the plan for SOL and for token payments |
| ChargeBuilder.BuildChargeTransactionWithOptions | rust/src/client/charge.rs:62-152 | the whole builder up to the instruction list, with every error it can return |
| ChargeBuilt.BuildIff | rust/src/client/charge.rs:62-152 | the builder builds if and only if amounts, addresses, memos, sponsor key, token program and currency allow it, and exactly when it blames the splits |
| ChargeBuilt.BuiltExactly | rust/src/client/charge.rs:292-524 | every instruction built, byte for byte and account by account with its signer and writable flags: price, limit, main payment, memo, and per split its account creation when due, its payment and its memo; six decimals unless the challenge names others |
| ChargeBuilt.SignersAre | rust/src/client/charge.rs:474-524 | nobody but the signer and the payer is asked to sign, and every payment is authorized by the signer |
| ChargeAgreement.BuiltIsAcceptedIff | rust/src/client/charge.rs:62-152 | the server accepts what the client built, for every request, split list, memo set and sponsor setting, if and only if sponsorship comes with a key other than the signer's and no memo is present but empty |
| ChargeAgreement.BuiltIsAccepted | rust/src/server/charge.rs:975-1134 | completeness: everything built under those conditions passes, including duplicate payees and required account creations |
| ChargeAgreement.AcceptedWasAcceptable | rust/src/server/charge.rs:1183-1209 | necessity: an accepted transaction that the client built met those conditions |
| ChargeCases.PlacedDenotes | rust/src/client/charge.rs:163 | every built instruction list whose keys fit a byte index has a compiled form that denotes it |
| ChargeCases.OverflowIsAccepted | rust/src/server/charge.rs:990-1004 | a charge of one lamport with two splits of 2^63 is built and accepted, and moves 2^64 + 1 lamports |
| ChargeCases.EmptyMemoIsRefused | rust/src/client/charge.rs:421-440 | a charge with a present but empty memo is built and then refused |
| ChargeCases.SelfSponsorIsRefused | rust/src/server/charge.rs:1441-1493 | a charge sponsored by the signer itself is built and then refused |
| ParsedVerifier.FindTransfer | rust/src/server/charge.rs:1666-1788 | one expected transfer consumes the first free parsed instruction that fits |
| ParsedVerifier.VerifyParsedTransfers | rust/src/server/charge.rs:1632-1736 | primary and split transfers are matched in order over the parsed instructions |
| ParsedVerifier.VerifyParsedMemoInstructions | rust/src/server/charge.rs:1909-1943 | the expected memos are matched over the parsed instructions |
| ParsedVerifier.ValidateParsedInstructionAllowlist | rust/src/server/charge.rs:1816-1890 | the loop accepts exactly the parsed lists whose unmatched instructions are all allowed and that create every required account |
| ParsedVerifier.VerifyOnChain | rust/src/server/charge.rs:754-898 | the whole parsed check equals its specification |
| ParsedAcceptance.AcceptedIff | rust/src/server/charge.rs:754-2072 | from the reported fields alone: whatever the parsed check accepts gives each demanded payment and memo an instruction of its own, has besides these only compute-budget instructions and creations of the charge's token accounts for allowed owners paid by the sponsor, and creates every marked account; and all of that is enough when no memo or compute-budget instruction is reported as a transfer |
| ParsedAcceptance.MuddledIsRefused | rust/src/server/charge.rs:1666-1696 | a memo that the report also calls a transfer takes the payment's place, so that a transaction that pays the charge is refused |
| ParsedAcceptance.Refusals | rust/src/server/charge.rs:754-898 | a challenge with a bad amount or a bad recipient is refused for just that, whatever the instructions |
| ParsedAgreement.VerifiersAgreeIff | rust/src/server/charge.rs:834-898 | a transaction accepted before broadcast passes the parsed check, on its reported instructions and the inner ones after them, if and only if it is a SOL payment or runs under the token program the parsed check insists on, and every inner instruction sets the compute budget or creates a token account the charge allows |
| ParsedAgreement.InnerTransferRefuses | rust/src/server/charge.rs:2161-2191 | one inner System, Token or Memo instruction makes the parsed check refuse a transaction that was accepted before broadcast |
| ParsedAgreement.NamedTokenProgramAgrees | rust/src/server/charge.rs:834-898 | with a token program named in the challenge the two verifiers agree if and only if the inner instructions are allowed |
| ChargeCases.UnnamedProgramIsRefused | rust/src/server/charge.rs:834-898 | a token payment under Token-2022 without a named program is accepted before broadcast and refused in parsed form |
| Base58.SymbolsSpellAlphabet | html/src/main.ts:372 | the digit symbols are the 58 characters of the alphabet in order |
| Base58.CanonicalIsUnique | html/src/main.ts:374-387 | a value has one digit list without superfluous top digits |
| Base58.MultiplyAddInPlace | html/src/main.ts:376-383 | the in-place carry loop multiplies by the other base and adds, in base 58 and in base 256 |
| Base58.EncodeDigitsValue | html/src/main.ts:382-383 | the digit list denotes the bytes processed, and its top digit is not zero once the value is not |
| Base58.DecodeBytesValue | html/src/main.ts:375-376 | the byte list denotes the characters processed, without superfluous top bytes |
| Base58.Encode | html/src/main.ts:381-387 | the encoder with its loops equals its specification |
| Base58.Decode | html/src/main.ts:374-379 | the decoder with its loops equals its specification, and refuses exactly the texts with a foreign character |
| Base58.DecodeEncodeIff | html/src/main.ts:374-387 | decoding an encoded byte string gives it back if and only if some byte is not zero |
| Base58.EncodeDecodeIff | html/src/main.ts:374-387 | encoding a decoded text gives it back if and only if some character is not `1` |
| Base58.DecodeInjective | html/src/main.ts:374-379 | no two texts decode to the same bytes |
| MessageFormat.ReadCompactBack | html/src/main.ts:513 | a compact-u16 length below 2^16 is read back from any following text |
| MessageFormat.CompactIsShortest | html/src/main.ts:513 | a length takes one byte up to 127, two up to 16383 and three beyond |
| MessageFormat.ReadBack | html/src/main.ts:528-534 | every message within the format's limits is read back unchanged from its bytes |
| CompilerMeaning.CompiledSaysIff | html/src/main.ts:515-535 | there is a message exactly when every program id decodes; read back from its bytes it lists the payer first and every key once, asks the payer, the signer and the accounts marked so to sign and to be written, and means the same instructions, if and only if at most 256 keys are mentioned and at most 255 sign |
| MessageCompiler.TableMeansRequests | html/src/main.ts:516-521 | the account table holds each requested key once, with exactly the union of the requested signer and writable flags |
| MessageCompiler.OrderedIsTable | html/src/main.ts:522-525 | ordering by privilege class with the fee payer first loses and duplicates no account |
| MessageCompiler.BuildTable | html/src/main.ts:516-521 | the map loops build that table, and fail exactly when a program id is no base58 text |
| MessageCompiler.CopyParts | html/src/main.ts:534 | copying the parts into one buffer yields their concatenation |
| MessageCompiler.CompileMessage | html/src/main.ts:515-535 | the returned buffer holds the bytes of the specified message |
| CompilerGuarantees.CompiledBytesRead | html/src/main.ts:515-535 | the compiled bytes parse as the specified message |
| CompilerGuarantees.CompilationPreservesIff | html/src/main.ts:515-535 | reading the bytes back gives the payer first, each key once, privileges exactly as requested and the same instructions, if and only if there are at most 256 accounts and 255 signers |
| Sse.SseDecoder.PushChunk | rust/src/client/http_stream.rs:53-72 | a chunk emits the events of all lines it completes and leaves the unfinished line in the buffer |
| Sse.SseDecoder.TakeLine | rust/src/client/http_stream.rs:60-69 | one turn of the draining loop: the first line leaves the buffer and is processed |
| Sse.SseDecoder.Finish | rust/src/client/http_stream.rs:75-87 | the end of the stream flushes the unfinished line and event |
| SseBlocks.BlocksDecode | rust/src/client/http_stream.rs:53-139 | every text of blocks decodes to the events of its blocks in order: the data fields of a block joined by line breaks, its last event name, id and retry; with either line ending, and with the last blank line or line break missing |
| SseBlocks.EveryLineIsEntry | rust/src/client/http_stream.rs:89-117 | every line that is not blank is a comment, a field without a colon, or a field with a value that one space may precede |
| Sse.PushAllIsBatch | rust/src/client/http_stream.rs:53-72 | feeding chunks one by one reaches the state of the line-by-line decoder on the whole text |
| Sse.ChunkIndependence | rust/src/client/http_stream.rs:53-135 | for every split of a text into chunks, the events are those of the batch decoder, and the retained buffer holds no newline |
| MeteredStream.MeteredSseStream.ApplyBatch | rust/src/client/http_stream.rs:366-378 | applying a batch of events queues its messages and updates the state up to the first error |
| MeteredStream.MeteredSseStream.Next | rust/src/client/http_stream.rs:351-383 | one call returns the next message of the remaining stream, or its end, or its error |
| MeteredStream.MeteredSseStream.Ack | rust/src/client/http_stream.rs:385-391 | acknowledging drains the stream and hands over the directive to commit |
| MeteredStream.EventMeans | rust/src/client/http_stream.rs:148-205 | what one event does by its own name and data: directives are named `mpp.metering` or `metering`, usage `mpp.usage` or `usage`, the end `done` or an unnamed `[DONE]`, and every other unnamed event is a message |
| MeteredStream.RemainingStep | rust/src/client/http_stream.rs:351-383 | calling `next` repeatedly yields what remains of the stream, in order |
| MeteredStream.RemainingIsConsumed | rust/src/client/http_stream.rs:351-383 | what remains of an open stream is what applying its consumed events yields, up to the first error |
| MeteredStream.StreamResult | rust/src/client/http_stream.rs:179-217 | every stream, however it is cut into chunks, consumes a prefix of the events of the whole text; without an error among them all their messages come in order and the directive to commit carries the last usage amount, or the reserved amount when there was none, and otherwise the first error ends it |
| MeteredStream.ChunkingIrrelevantIff | rust/src/client/http_stream.rs:351-383 | all chunkings of a text consume all its events if and only if nothing follows the done marker |
| MeteredStream.CommittedAmount | rust/src/client/http_stream.rs:207-216 | the amount of the directive to commit reads back as exactly the last usage amount, or as the reserved amount when there was none |
| MeteredStream.AckCharges | rust/src/client/http_stream.rs:385-391 | acknowledging and committing charges the session exactly that amount, which is positive, or leaves the session unchanged |
| Session.ActiveSession.Prepare | rust/src/client/session.rs:120-147 | preparing a voucher changes nothing and refuses a total that does not exceed the watermark |
| Session.ActiveSession.Record | rust/src/client/session.rs:155-170 | recording moves the watermark to the voucher's total and the nonce forward, or changes nothing |
| Session.ActiveSession.SignVoucher | rust/src/client/session.rs:109-113 | signing is preparing and recording |
| Session.ActiveSession.CloseAction | rust/src/client/session.rs:187-196 | closing signs a final increment exactly when one greater than zero is given |
| Session.SessionConsumer.Commit | rust/src/client/session_consumer.rs:72-93 | the state advances only after the transport succeeded |
| Session.WrappedIncrementIff | rust/src/client/session.rs:150-152 | with wrapping addition an increment exceeds the watermark if and only if it does not overflow |
| Session.CommitExactly | rust/src/client/session_consumer.rs:72-104 | a commit succeeds if and only if session, amount, signer and transport allow it; then the total grows by exactly the amount, otherwise nothing changes |
| Session.CommitAnswers | rust/src/client/session_consumer.rs:72-112 | what a commit answers: the receipt, or the first of the six things that can be in its way |
| Session.PrepareExactly | rust/src/client/session.rs:120-147 | a voucher is prepared exactly for a total above the watermark and with a signature, and carries the session's channel and expiry, the total and the next number |
| Session.RecordMovesForward | rust/src/client/session.rs:155-170 | recording any voucher moves the total to a larger one and the number forward to the voucher's, or fails and says why |
| Session.RunConserves | rust/src/client/session_consumer.rs:72-93 | over every run with a transport that may fail at any call, the total is the start plus the amounts of the successful commits |
| Session.RunCounts | rust/src/client/session.rs:155-170 | the nonce counts the successful commits |
| Session.RetryPreparesTheSame | rust/src/client/session_consumer.rs:84-91 | after a failed commit a retry prepares the same voucher data |
| Session.PayloadAuthorizes | rust/src/client/session_consumer.rs:84-90 | a payload given to the transport authorizes exactly what was committed before it plus its own amount |
| Numbers.ParseU64Iff | rust/src/client/session.rs:156-160 | which texts parse as which 64-bit number: digits, with a plus sign or without |
| Numbers.ParseToText | rust/src/client/session.rs:156-160 | the printed total of a voucher is read back as the same 64-bit number |
| HeaderText.ReplacingEscapes | go/protocol/core/headers.go:297-303 | the chain of four replacements is the character-wise escape of section 5.6.4 of RFC 9110 without line breaks |
| HeaderText.ReadEscaped | go/protocol/core/headers.go:319-344 | an escaped value followed by its quote is read back up to line breaks, whatever follows |
| HeaderText.QuotedSkip | go/protocol/core/headers.go:174-191 | inside a quoted value the scan records no start, whatever commas, quotes or scheme names it contains |
| HeaderText.StartsAreHeads | go/protocol/core/headers.go:170-196 | in merged challenges the scan records exactly the starts of the challenges that the start check recognises |
| GoHeaders.ReadQuotedValue | go/protocol/core/headers.go:320-344 | the reading loop returns the value and the position after the closing quote, or fails without one |
| GoHeaders.ParseAuthParams | go/protocol/core/headers.go:305-361 | the parsing loop builds the parameter map or returns the first error |
| GoHeaders.ParseWWWAuthenticate | go/protocol/core/headers.go:19-62 | the parser of one challenge equals its specification |
| GoSplitter.IsPaymentSchemeStart | go/protocol/core/headers.go:267-284 | the backward loop accepts a scheme name exactly after a comma or at the start, with blanks between |
| GoSplitter.NextAuthSchemeStart | go/protocol/core/headers.go:214-247 | the loop returns the first start of any scheme outside quotes, or -1 |
| GoSplitter.FindPaymentStarts | go/protocol/core/headers.go:170-196 | the scanning loop with its flags records the starts of the scan |
| GoSplitter.SplitPaymentChallengeValues | go/protocol/core/headers.go:170-212 | the splitter cuts the header at those starts |
| GoSplitter.ParseWWWAuthenticateAll | go/protocol/core/headers.go:67-78 | all values of all headers that parse, in order |
| GoRecovery.PaymentRecognises | go/protocol/core/headers.go:267-278 | the start check recognises whole scheme names and nothing at the start of a parameter |
| GoRecovery.SplitRecovers | go/protocol/core/headers.go:170-212 | from merged challenges of any schemes, with parameters or without, the splitter returns each Payment challenge with everything before the next one, and the last one with the schemes without parameters that follow it |
| GoRoundTrip.ParsePrinted | go/protocol/core/headers.go:305-361 | parsing a printed list of parameters and words gives the map of the parameters that the words glue to, an error exactly when a key repeats or no such parameters exist |
| GoRoundTrip.ParseGroup | go/protocol/core/headers.go:19-62 | a value of the splitter is read as one challenge with the parameters that its own and all absorbed parts glue to, and refused when there are none |
| GoChallenges.GluesIff | go/protocol/core/headers.go:305-318 | a list glues to parameters if and only if every word without an equals sign is followed by a later part with one, and every equals sign has text before it |
| GoPrinted.FormatIs | go/protocol/core/headers.go:81-102 | the printed challenge character by character: the scheme, then the named fields in order, each quoted with a backslash before quotes and backslashes and without line breaks, optional ones only when they are not empty |
| GoPrinted.InterpretIs | go/protocol/core/headers.go:33-62 | which challenge parsed parameters make up, and which of them is missing or wrong otherwise |
| GoPrinted.SchemeIs | go/protocol/core/headers.go:286-295 | a header is taken exactly when the scheme name comes first after white space, and the parameters are what follows it |
| GoPrinted.OpenQuoteIsRefused | go/protocol/core/headers.go:319-345 | a quoted value that is not closed is refused as unterminated |
| GoPrinted.PaymentNames | go/protocol/core/headers.go:267-278 | the scheme name is accepted in any case and no other name is |
| GoChallenges.RoundTripIff | go/protocol/core/headers.go:81-102 | a formatted challenge parses back, up to line breaks, case and description, if and only if the required fields are acceptable |
| GoChallenges.AbsorbingIff | go/protocol/core/headers.go:198-211 | a Payment challenge left together with any challenges reads back if and only if it is acceptable, they can be parsed after it and do not interfere; it is refused if and only if it is not acceptable, they cannot be parsed or a key repeats |
| GoChallenges.MergedRecovery | go/protocol/core/headers.go:64-78 | parsing a header of merged Payment challenges and challenges of other schemes returns exactly the acceptable Payment challenges in order, if and only if nothing interferes with an acceptable one |
| GoChallenges.MergedPaymentsComeBack | go/protocol/core/headers.go:67-103 | canonical Payment challenges merged into one value all come back, in order, without their descriptions |
| GoChallenges.OursNeverInterfere | go/protocol/core/headers.go:198-211 | Payment challenges alone never interfere with each other |
| GoCases.BareSchemeDrops | go/protocol/core/headers.go:214-265 | a scheme name alone after a Payment challenge makes the parser of the whole header return nothing |
| GoCases.RepeatBetweenDrops | go/protocol/core/headers.go:355-357 | a challenge between two Payment challenges that cannot be parsed after the first or repeats one of its keys drops the first and keeps the second |
| GoCases.DigestBetweenDrops | go/protocol/core/headers.go:355-357 | for instance a Digest challenge whose second parameter is `realm` |
| GoCases.PaddedTokenKeeps | go/protocol/core/headers.go:305-361 | between two Payment challenges a challenge of any other scheme with one padded token does no harm |
| PyHeaders.EscapesAgree | python/src/solana_mpp/_headers.py:312-316 | on text without line breaks the two replacements are the same escape as in Go |
| PyHeaders.ReadQuotedLoop | python/src/solana_mpp/_headers.py:356-368 | the reading loop returns the unescaped value and the position after it, tolerating a missing closing quote |
| PyHeaders.ParsePyParams | python/src/solana_mpp/_headers.py:326-379 | the parsing loop builds the parameter map, skipping words without an equals sign, and fails exactly on a repeated key |
| PySplitter.AuthSchemeStartsAt | python/src/solana_mpp/_headers.py:296-309 | a start is an alphabetic name before a blank, first in the header or after a comma and blanks |
| PySplitter.FindChallengeStarts | python/src/solana_mpp/_headers.py:264-289 | the scanning loop with its flags records the starts of all challenges |
| PySplitter.ExtractChallenges | python/src/solana_mpp/_headers.py:248-261 | the selected challenges are cut at the next start of any scheme |
| PySplitter.ParseWWWAuthenticatePy | python/src/solana_mpp/_headers.py:33-74 | the parser of one challenge equals its specification |
| PySplitter.ParseAllWWWAuthenticatePy | python/src/solana_mpp/_headers.py:77-86 | all extracted challenges of all headers that parse, in order |
| PyRecovery.StartsConcat | python/src/solana_mpp/_headers.py:264-289 | the starts found in a text do not depend on what follows it after a comma |
| PyRecovery.ScanQuotes | python/src/solana_mpp/_headers.py:264-289 | skipping scheme names does not change where the scan is inside quotes |
| PyRecovery.ExtractChooses | python/src/solana_mpp/_headers.py:248-309 | from joined challenge texts of any alphabetic schemes with balanced quotes, with parameters or without, the splitter extracts what it would extract from each text alone with the scheme names that follow it |
| PyPrinted.FormatStrictIs | python/src/solana_mpp/_headers.py:89-108 | printing refuses exactly the challenges with a line break in a field that is shown, and prints the others as Go does |
| PyPrinted.InterpretPyIs | python/src/solana_mpp/_headers.py:33-74 | which challenge parsed parameters make up, and which of them is missing or wrong otherwise |
| PyChallenges.PyRoundTripIff | python/src/solana_mpp/_headers.py:89-108 | a formatted challenge parses back without its description if and only if its id, method and request are acceptable |
| PyChallenges.SchemesAreFiltered | python/src/solana_mpp/_headers.py:77-108 | interleaving printed Payment challenges with arbitrary texts that begin with an alphabetic name, balance their quotes and start no Payment challenge outside quotes, and parsing, returns exactly the acceptable Payment challenges in order |
| PyChallenges.PrintedItemIsForeign | python/src/solana_mpp/_headers.py:296-309 | every printed challenge of another alphabetic scheme is such a text |
| Replay.MemoryStore.PutIfAbsent | go/store.go:58-70 | the insertion succeeds exactly when the key is free, and then it alone is added |
| Replay.MemoryStore.Delete | go/store.go:51-56 | exactly the key is removed |
| Replay.VerifyTransaction | go/server/server.go:387-415 | reserve, simulate, send, confirm, check, with the deferred deletion unless all succeed: the method is the sequence of atomic steps |
| Replay.VerifySignature | go/server/server.go:428-444 | reserve, decode, check, with deletion on failure: the method is the sequence of atomic steps |
| Replay.AloneExactly | go/server/server.go:387-444 | a verification by itself: a taken key is refused, success leaves the key behind, and a failure at any later call leaves the store as it was unless the deletion fails |
| Replay.FailureFreesKey | go/server/server.go:395-441 | in any state of any run a failed verification that cleans up frees its key and changes nothing else |
| Replay.RunIsSafe | go/server/server.go:387-444 | in every interleaving, whatever fails, no two verifications account for one key, and the store holds just their keys beside those of the start |
| Replay.AtMostOneClaim | go/server/server.go:387-444 | each key has at most one verification under way or successful |
| Replay.OneClaimPerSignature | go/server/server.go:428-444 | one on-chain signature has at most one verification under way or successful, however its base58 text is spelled |
| Replay.SuccessIsNeverFollowed | go/server/server.go:388-415 | after a receipt the key stays consumed and no other verification of it ever holds it or succeeds |
| Replay.OldKeysStayConsumed | go/server/server.go:428-434 | a key that was in the store from the start never gets a receipt |
| Replay.FreeKeyCanBePaid | go/server/server.go:395-415 | rolling back restores the key: a key that nothing accounts for can be paid by a new request whose steps succeed |
| Watermark.MemoryChannelStore.UpdateChannel | rust/src/store.rs:294-312 | read, modify and write in one step; a refusing updater changes nothing |
| Watermark.MemoryChannelStore.AdvanceCumulative | rust/src/store.rs:314-329 | the watermark moves exactly when it is where the caller expects it |
| Watermark.WinnersTile | rust/src/store.rs:314-358 | for every interleaving of workers, top-ups and finalisations the intervals of the successful calls tile the way from the first watermark to the last, which is the first plus the amounts won |
| Watermark.LoserWasOvertaken | rust/src/store.rs:321-326 | a call is turned away only because another one moved the watermark its worker had read |
| Watermark.FieldsAreIndependent | rust/src/store.rs:331-358 | moving the watermark changes nothing else, and deposits and finalisation never move it |
| Watermark.RunFields | rust/src/store.rs:331-358 | after any run a channel has the deposit last set, is finalized once it was finalized, and is otherwise as before |
| Watermark.SwapExactly | rust/src/store.rs:314-329 | a swap wins exactly where the watermark is what was read and the sum fits in 64 bits |
| Watermark.NewcomerWins | rust/src/store.rs:314-329 | a worker may join at any time and wins when nobody gets in its way |
| Units.ConversionIsExact | go/protocol/intents/charge.go:61-94 | for digit-only parts with white space around, the result is the canonical text of the amount times ten to the decimals, or an error exactly for too many decimal places |
| Units.ScalingIsExact | go/protocol/intents/charge.go:84-93 | the base units over ten to the decimals are the amount as written |
| Units.Refusals | go/protocol/intents/charge.go:62-82 | an amount that starts with a minus sign, has two points or too long a fraction is refused, each for its reason |
| Units.RefusalsMean | go/protocol/intents/charge.go:62-82 | conversely a refusal as empty, negative or too long in its fraction is the refusal of such an amount |
| Units.PythonRefusalsMean | python/src/solana_mpp/protocol/intents.py:52-66 | the same for Python's refusals |
| Units.ConvertedIsNumeric | go/protocol/intents/charge.go:84-93 | whatever is converted consists of white space, digits, signs and points |
| Units.ParseAmountExactly | go/protocol/intents/charge.go:36-42 | which texts read as which amount: digits that fit in 64 bits, with a plus sign or, for zero, a minus sign in front |
| Units.ParseAmountIff | go/protocol/intents/charge.go:36-42 | reading a canonical text gives its value exactly when that fits in 64 bits |
| Units.AmountSurvives | go/protocol/intents/charge.go:36-94 | converting and reading back gives the number of base units exactly when it fits in 64 bits |
| Units.ResultIsNaturalIff | go/protocol/intents/charge.go:66-93 | the converted text is a number of base units if and only if the amount does not contain both a minus sign and a digit other than zero |
| Units.HiddenMinus | go/protocol/intents/charge.go:66-93 | every amount with a minus sign right after the point comes out negative |
| Units.ConversionsAgreeIff | python/src/solana_mpp/protocol/intents.py:44-80 | on digit-only amounts the Python conversion gives the same text if and only if the amount is below ten to the 4300 base units |
| GoVerifier.SplitAmounts | go/internal/solanautil/solanautil.go:266-282 | the loop computes what the total leaves after the splits, whose sum wraps around, or the first error |
| GoVerifier.SplitConservationIff | go/internal/solanautil/solanautil.go:270-281 | the primary amount is positive, and with the splits it makes up the total if and only if their sum fits in 64 bits |
| GoVerifier.ScanUintIff | go/internal/solanautil/solanautil.go:270-276 | what scanning reads: the leading digits after white space other than line feeds, when they fit in 64 bits |
| GoVerifier.ReadersAgree | go/server/server.go:655-658 | the two readers of a split amount agree whenever both accept it |
| GoVerifier.ExpectedTotalIff | go/server/server.go:648-669 | the expected transfers add up to the charged amount if and only if the splits do not wrap |
| GoVerifier.BuildExpectedTransfers | go/server/server.go:648-669 | the primary transfer and one transfer per split, or the first error |
| GoVerifier.MatchWant | go/server/server.go:471-499 | the inner loop marks the first free instruction that answers the expectation |
| GoVerifier.SettleInOrder | go/server/server.go:467-640 | the expectations are settled in order over one slice of marks, and then unexpected memos are refused |
| GoVerifier.VerifyTransfersAgainstChallenge | go/server/server.go:462-641 | the whole check equals its specification |
| GoGuarantees.SettleIff | go/server/server.go:467-641 | the greedy loops succeed if and only if an assignment of the transfers to distinct instructions before the first unresolvable one of the asset's program exists and the memo instructions are, as a multiset, the expected memos, each at most 566 bytes |
| GoGuarantees.ResolvableIsReached | go/server/server.go:467-500 | all instructions are before that one exactly when every instruction of the asset's program resolves |
| GoGuarantees.AcceptedIff | go/server/server.go:462-669 | the same for the whole check of any transaction, in terms of the expected transfers and memos |
| GoAcceptance.AcceptedIff | go/server/server.go:462-669 | the server accepts a transaction if and only if the main recipient and each split recipient has an instruction of its own that moves exactly its amount, to the wallet for SOL and to the wallet's token account for a token, and the memo instructions are exactly the external id and the split memos that are not empty, none longer than 566 bytes |
| GoAcceptance.AcceptedTotals | go/server/server.go:462-669 | every wallet receives at least what is due to it, and what is due is the charge if and only if the splits do not wrap |
| GoAcceptance.ExtraMemoIsRefused | go/server/server.go:630-638 | a transaction with everything that was asked for and one more memo is refused for that memo |
| GoAcceptance.SearchRefusals | go/server/server.go:468-499 | without any instruction of the asset's program no transfer is found, and a bad account index in the first one ends the search |
| GoAcceptance.Refusals | go/internal/solanautil/solanautil.go:266-282 | too many splits, splits that exceed the charge and a bad split recipient are refused for just that |
| GoGuarantees.AcceptedTotalIff | go/server/server.go:455-459 | the transfers expected of an accepted transaction make up the charge if and only if the splits do not wrap |
| Selection.Candidates | rust/src/client/charge.rs:250-264 | the candidates are the eligible challenges in server order, unless a charge does not decode |
| Selection.SelectChargeChallenge | rust/src/client/charge.rs:246-283 | the selected challenge is least by preference and then by server order, and there is none exactly when none matches |
| Selection.BestIsUnique | rust/src/client/charge.rs:270-280 | preferences and server order determine the selected challenge |

## Left out

- RPC calls, simulation retries, broadcast, confirmation polling, sleeps, tracing and balance diagnostics: input and output; in the replay protocol they succeed or fail arbitrarily.
- Signing, HMAC challenge identifiers, hashing and the derivation of program addresses: cryptography; the derivation of token accounts is a parameter.
- JSON and base64: requests, events and directives are given decoded, or by decoding functions that are parameters.
- Compilation of the Rust client's instruction list by the Solana library: `ChargeAgreement.Denotes` says that a transaction carries the built instructions; the library's own ordering of accounts is not part of this model.
- The report of the RPC node: `ParsedAgreement.ReportedAs` says what a faithful report of an instruction looks like; inner instructions are arbitrary.
- The network blockhash check, stablecoin mint tables and the resolution of the Go server's token program: one-branch lookups, given resolved.
- build_sol_instructions and build_spl_instructions: modelled by one method, `ChargeBuilder.BuildInstructions`, because they differ only in how a planned transfer is rendered.
- UTF-8: stream chunks and headers are sequences of characters; the rejection of a chunk that splits a character and Go's replacement of invalid bytes are not modelled.
- Case folding outside ASCII: no letter of the scheme name folds to one; lower-casing of methods and intents is a parameter.
- Challenges of other schemes whose names are not alphabetic: the Python lemmas do not cover them; the Python splitter does not see their starts. All separators of one joined header consist of a comma and the same blanks.
- Python's `int` on texts that are not digits: a parameter; the lemmas about the Python conversion are about digit-only amounts.
- The decoding of instruction data by the Go Solana library: `GoVerifier.Decoded` is its result; unresolvable accounts are modelled as the error the server returns, and the program of an instruction is given, so that an out-of-range program index does not arise.
- Marshalling the values of the Go store to JSON: it cannot fail for the reservation's value `true`.
- The reference in a Go receipt: the signature that the node returns for the sent transaction; the model counts receipts per reserved key.
- Checks before the reservation in the Go server, such as an empty payload or an undecodable transaction: they end a request before the protocol starts.
- Server-side session handling: `rust/src/server/session.rs` is not part of this model, only the store under it and the client.
- The store's general update inside the watermark runs: an updater may set the watermark to anything; the runs contain reads, compare-and-swap, deposits and finalisation.
- HTML pages, wallets, service workers, middleware and command-line programs: user interface and plumbing.
