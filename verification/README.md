# x402 on Nockchain: payments, from signature to settlement

A Dafny model of the payment pipeline of this repository, with proofs of what the
pipeline promises from end to end. It checks with `dafny verify dfyconfig.toml`.

The pieces, in the order a payment meets them:

- **Text and bytes** (`Positional`, `Alphabet`, `Decimal`, `Base58`, `Base64`): positional
  numerals, Rust's decimal printing and parsing, base58 with the Bitcoin alphabet
  (draft-msporny-base58), and strict base64 (section 4 of RFC 4648). All concrete.
- **The signed message** (`HashText`, `Packing`, `Notes`, `NoteOrder`, `SignMessage`): Tip5 digests as
  base-PRIME integers in base58, seven-byte packing, the sorted and flattened note list, and
  the 32-Belt layout that is hashed and signed. PRIME is 2^64 - 2^32 + 1. The Tip5 sponge is a
  function parameter.
- **Signatures** (`Crypto`): signer and verifier over an abstract Schnorr scheme. The only
  assumption about it (`Schnorr.Sound`) is that verify accepts what sign makes and that the
  signature codec round-trips.
- **The wallet and the wire** (`Chain`, `Surrogate`, `RoundTrip`, `Printing`, `Wallet`, `Conservation`): one
  note is split into payment, change and fee, the transaction is printed to its JSON surrogate
  and parsed back. Jam and cue are functions with one law each: cue undoes jam.
- **The client** (`Client`): both payload builders, with clock, nonce and random bytes as inputs.
- **Discovery** (`Bazaar`, `JsonSchema`, `Advertiser`, `Catalog`, `Stores`, `Discovery`): advertised extensions,
  the JSON Schema check they meet (Draft 2020-12: Validation sections 6.1.1-6.1.3 and 6.5.3,
  Core sections 10.3.2.1 and 10.3.2.3), and the two catalog stores.
- **The facilitator** (`Envelope`, `Scheme`, `Facilitator`, `Runs`, `Replay`, `Atomicity`): handler
  registry, envelope check, replay cache, cataloging, both endpoints as classes that change state,
  and a machine in which requests in flight interleave step by step while the clock advances.
- **Settlement** (`Settlement`): the stub and the gRPC chain client; the node's answer to a
  submission is a parameter, what is submitted to it is not.
- **What a signature covers** (`Respelling`), and **concrete payments** (`PlainCodec`, `Instances`)
  that meet the assumptions or show where an expected property fails.

Code that works by changing things in place is a `method` or a class, proved equal to a
specification function; the properties are proved of those functions and of whole runs of them.

## What the proofs settle

- An honest client's payment is accepted exactly while the facilitator's clock lies in a stated
  interval, with a fresh nonce and the native asset (`Client.HonestPaymentAcceptedIff`). A wallet's
  payment, followed through `/settle` to the node, is submitted exactly when it is on time and in
  NOCK, and is answered with the node's answer; it spends exactly the payer's note, with the amount
  to the payee, the fee asked for, and any change to the payer's envelope name, under the id that the
  kernel gives it (`Client.WalletPaymentEndToEnd`). `Instances.HonestPaymentExists` and
  `Instances.WalletPaymentExists` exhibit payments that meet the assumptions.
- The signed Belts identify the payment, up to leading `1`s in base58 text and to numbers modulo
  PRIME, and nothing else is lost (`SignMessage.SameBeltsSamePayment`). So does the digest, as far as
  the sponge separates messages (`SignMessage.DigestIdentifiesPayment`), and where the scheme binds a
  digest one signature is good for one payment (`Crypto.OneSignatureOnePayment`).
- `/verify` says valid exactly of an acceptable request inside its window with a fresh nonce, and
  otherwise names the first check that fails; its header and its catalog entry are those of the
  request's extension (`Facilitator.VerifyReply`). The same is settled for `/settle` with either chain
  client (`Facilitator.SettleEnvelopeReply`, `Facilitator.SettleReply`, `Facilitator.StubReply`).
- The surrogate of a transaction is characterised text by text in both directions: what is printed
  (`Printing.PrintsToIff`), what parses and as what (`RoundTrip.ParserDomain`,
  `RoundTrip.ParsesToIff`), and which transactions come back (`RoundTrip.TxTrip`).
- Over every interleaving, what one signature covers, written with no leading `1` in the nonce and
  with times below PRIME, can be accepted twice if and only if its tolerated window, stretched by
  the delay between the two clock readings, is at least as long as the nonce lifetime
  (`Replay.TwiceIff`). The same holds of any authorization exactly as written
  (`Replay.VerbatimTwiceIff`).
- Both restrictions are needed. The cache is keyed on the nonce as written and the times are read as
  written, while the signature fixes the nonce up to leading `1`s and the times modulo PRIME. Over
  all spellings a signature can be accepted twice, even at one instant and for every lifetime, if and
  only if its window is ever open in its widest reading (`Respelling.AnySpellingTwiceIff`). A
  facilitator that requires canonical nonces and times below PRIME is in the case of
  `Replay.TwiceIff`.
- In every run a payment is turned away at the nonce check exactly when some request, under a valid
  signature or not, has passed with its nonce within the last lifetime (`Replay.AcceptedUnlessPassed`,
  `Client.HonestPaymentInRun`): the nonce is recorded before the signature is looked at, so a copy
  under any signature can take it first (`Replay.NonceTakenByCopy`).
- In every run the node has been handed the transaction of each settled request, once, in order, and
  nothing else (`Atomicity.SubmittedIsLog`); while a window is open one payload can be settled any
  number of times (`Atomicity.SubmittedAnyNumberOfTimes`), which is left to the chain.
- The envelope check never reads the transaction that `/settle` submits
  (`Facilitator.AcceptanceIgnoresTransaction`). What a wallet ships passes the comparison
  `Client.SomeGiftPays`, a gift of the requested amount locked to the payee, and a facilitator that
  wants the transaction to match the request would have to make it: an accepted request may carry a
  transaction that pays nobody (`Instances.EmptyTransactionSubmitted`).
- The catalog of every run is the log of the accepted requests, folded by key (`Atomicity.CatalogIsLog`),
  and the two stores answer every sequence of operations alike, each listing from the upserts before
  it, keys in order of first upsert and each with its last value (`Stores.RunBoth`). From end to end, a
  resource that a server declares and an honest client pays for is listed exactly when its declaration
  was passable (`Discovery.DeclaredIsListedIff`).

## Where the code and its documentation disagree

The model follows the code.

- ARCHITECTURE.md:127-136 lists rules `value >= maxAmountRequired` and `fee >= minFee`, a
  tolerance of 30 seconds, a nonce refused once settled, and a check that every note exists. The
  code requires `value <= maxAmountRequired`, does not check the fee, tolerates 60 seconds by
  default, records the nonce at the first `/verify` inside the window, before the handler looks at
  the signature, and looks up no note (`Facilitator.DefaultAcceptsIff`,
  `Facilitator.EnvelopeRecordsIff`, `Facilitator.OnlyTheCapIsChecked`).
  `Instances.UnderpaymentAccepted` is an accepted payment below the amount and below the fee asked for.
- crates/x402-nockchain-facilitator/src/lib.rs:139-141 advises a nonce lifetime of at least the
  authorization window plus the skew. That lifetime still admits two acceptances
  (`Replay.WindowPlusSkewIsNotEnough`); more than the window plus twice the skew is enough
  (`Replay.AtMostOnce`).
- ARCHITECTURE.md:174-183 says that a payer has two names, that locks use the chain form, and that the
  two differ. The builder nevertheless sends change to the envelope form
  (crates/x402-client/src/lib.rs:565 and 591, crates/x402-nockchain-wallet-client/src/lib.rs:340-352),
  while the wallet's witness presents locks of the chain form only. The wallet can spend its own
  change if and only if the two names are one digest (`Client.ChangeReturnsIff`);
  `Instances.ChangeMissesWallet` is a payment whose change it cannot.
- The comment at crates/x402-nockchain-crypto/src/sign_message.rs:146-147 says that base58 strings
  compare as their bytes do. `NoteOrder.TextOrderIsNotByteOrder` is an input where they do not, and
  `NoteOrder.WhatTheOrdersCompare` says what each order compares. Texts of one length are ordered as
  their integers, and as their bytes too when those have one length (`NoteOrder.OneLengthOrders`);
  `NoteOrder.OrdersDisagreeIff` is the exact condition when the byte lengths differ. The notes are
  ordered by the text as written, so the same notes under two spellings can be hashed differently
  (`NoteOrder.SpellingChangesPreimage`).
- An MCP declaration with a null example fails the schema check where it is built, but passes once
  it has been over the wire, where a null option reads back as absent
  (`Advertiser.McpPassesIff`, `Advertiser.McpPassesOverWireIff`).

## Model

| member | source | states |
|---|---|---|
| Base58.DecodeOfEncode | crates/x402-nockchain-crypto/src/sign_message.rs:79 | decoding gives back any encoded bytes, leading zero bytes included |
| Base58.EncodeOfDecode | crates/x402-nockchain-crypto/src/sign_message.rs:173-175 | every text that decodes is the encoding of its bytes |
| Base58.BitcoinAlphabet | crates/x402-nockchain-crypto/src/sign_message.rs:79 | a character is in the alphabet exactly when it is a digit or letter other than 0, O, I and l, and digits count up with the characters |
| Base64.DecodeOfEncode | crates/x402-nockchain-wallet-client/src/surrogate.rs:127-134 | decoding gives back any encoded bytes |
| Base64.EncodeOfDecode | crates/x402-nockchain-wallet-client/src/surrogate.rs:251-257 | the strict decoder accepts nothing but what the encoder writes |
| Base64.StandardAlphabet | crates/x402-nockchain-wallet-client/src/surrogate.rs:158-163 | the 64 symbols are capitals, small letters, digits, plus and slash, in that order |
| Decimal.ParsePrinted | crates/x402-nockchain-wallet-client/src/surrogate.rs:208-211 | a printed number parses back if and only if it fits the integer type |
| Decimal.ParsesIff | crates/x402-nockchain-wallet-client/src/surrogate.rs:208-211 | a text parses as a number if and only if it is decimal digits denoting it, after at most one plus sign, and the number fits the type |
| Decimal.NotNumbers | crates/x402-nockchain-wallet-client/src/surrogate.rs:208-211 | the empty text, a lone sign and anything after a minus sign are no numbers |
| Decimal.PrintedIsPlain | crates/x402-nockchain-wallet-client/src/surrogate.rs:151-156 | a printed number is digits alone, with no zero in front |
| Decimal.Widths | crates/x402-nockchain-facilitator/src/scheme/exact_nockchain.rs:97-122 | the bounds of the parsed types are 2^64 - 1 and 2^128 - 1 |
| HashText.PkhBeltsToBase58 | crates/x402-nockchain-crypto/src/sign_message.rs:71-80 | the value/power loop writes the base-PRIME integer of the digest in base58 |
| HashText.RemainderBelt | crates/x402-nockchain-crypto/src/sign_message.rs:180-183 | the remainder taken through text always parses as a u64: the inner overflow error cannot arise |
| HashText.Base58ToBelts | crates/x402-nockchain-crypto/src/sign_message.rs:172-191 | the divide-down loop fills the five base-PRIME digits, or reports a decode or overflow error |
| HashText.DecodeHashMeaning | crates/x402-nockchain-crypto/src/sign_message.rs:172-191 | decode error exactly for texts outside base58, overflow exactly when the integer is at least PRIME^5, otherwise the digits denote that integer |
| HashText.HashRoundTrip | crates/x402-nockchain-crypto/src/sign_message.rs:69-80 | decoding inverts printing for a digest if and only if all five Belts are in the field |
| HashText.HashTextRoundTrip | crates/x402-nockchain-crypto/src/sign_message.rs:169-191 | printing a decoded text gives the text without exactly its leading `1`s |
| HashText.SameHash | crates/x402-nockchain-crypto/src/sign_message.rs:172-191 | two texts decode to one digest if and only if they agree up to leading `1`s |
| HashText.ShortBytesFit | crates/x402-client/src/lib.rs:615-629 | any encoding of up to 32 bytes decodes, so a generated nonce cannot overflow |
| Packing.PackChunk | crates/x402-nockchain-crypto/src/sign_message.rs:210-215 | a chunk copied into the zeroed 8-byte buffer reads as its little-endian value |
| Packing.PackBytes | crates/x402-nockchain-crypto/src/sign_message.rs:208-220 | the chunk loop with its trailing zero Belt computes the packing |
| Packing.PackedShape | crates/x402-nockchain-crypto/src/sign_message.rs:208-220 | exactly len/7 + 1 Belts, each below 2^56 |
| Packing.SamePacking | crates/x402-nockchain-crypto/src/sign_message.rs:204-220 | two byte strings pack alike if and only if they agree once zero-padded |
| Packing.PackingInjective | crates/x402-nockchain-crypto/src/sign_message.rs:204-220 | packing is injective at equal length, and on zero-free bytes of any length |
| Notes.SortNotesSorts | crates/x402-nockchain-crypto/src/sign_message.rs:146-152 | the sort orders notes by (first, last) text and permutes them |
| Notes.FlattenNotes | crates/x402-nockchain-crypto/src/sign_message.rs:154-158 | the push loop yields ten Belts a name in order, or the first decode error |
| Notes.ComputeNotesHash | crates/x402-nockchain-crypto/src/sign_message.rs:145-167 | sort, decode, flatten, one zero Belt when empty, hash |
| Notes.HashIdentifiesPreimage | crates/x402-nockchain-crypto/src/sign_message.rs:145-167 | as far as the sponge separates two preimages, equal notes hashes are equal preimages, and back |
| Notes.NotesHashEdges | crates/x402-nockchain-crypto/src/sign_message.rs:154-167 | the hash fails exactly as the preimage does, and no notes at all are hashed as one zero Belt |
| Notes.SortedMeans | crates/x402-nockchain-crypto/src/sign_message.rs:146-152 | in a sorted list earlier names have the lesser first text, and the lesser last text when the first ones are equal |
| Notes.PreimageSlices | crates/x402-nockchain-crypto/src/sign_message.rs:145-163 | where each name sits in the preimage: in sorted order, ten Belts a name, the first text before the last |
| Notes.PreimageOfNames | crates/x402-nockchain-crypto/src/sign_message.rs:145-167 | the preimage and the whole Result depend on the multiset of note names alone, errors included |
| Notes.SamePreimage | crates/x402-nockchain-crypto/src/sign_message.rs:145-163 | for all notes, equal preimages if and only if the sorted names agree one by one up to leading `1`s |
| Notes.PreimageIdentifiesNames | crates/x402-nockchain-crypto/src/sign_message.rs:145-163 | for canonical names, equal preimages if and only if equal multisets of names |
| NoteOrder.WhatTheOrdersCompare | crates/x402-nockchain-crypto/src/sign_message.rs:146-152 | text order and byte order compare the same two integers, aligned at their leading digits in base 58 and in base 256 |
| NoteOrder.OneLengthOrders | crates/x402-nockchain-crypto/src/sign_message.rs:146-152 | texts of one length are ordered as their integers, and as their bytes too when those have one length |
| NoteOrder.OrdersDisagreeIff | crates/x402-nockchain-crypto/src/sign_message.rs:146-152 | for texts of one length, the orders disagree exactly when cutting the longer byte string to the shorter length moves one integer past the other |
| NoteOrder.TextOrderIsNotByteOrder | crates/x402-nockchain-crypto/src/sign_message.rs:146-152 | an input at which text order and byte order differ |
| NoteOrder.OrdersMayAgreeAcrossLengths | crates/x402-nockchain-crypto/src/sign_message.rs:146-152 | an input at which the orders agree although the byte lengths differ: equal lengths suffice but are not needed |
| NoteOrder.SpellingChangesPreimage | crates/x402-nockchain-crypto/src/sign_message.rs:145-163 | an input at which one set of notes under two spellings gives two preimages |
| SignMessage.DecimalToBelt | crates/x402-nockchain-crypto/src/sign_message.rs:193-202 | the decimal error exactly when the text is no u64, otherwise the number, less PRIME when it is not below PRIME |
| SignMessage.SignMessageBelts | crates/x402-nockchain-crypto/src/sign_message.rs:101-135 | the append sequence builds the layout, and the first failing field decides the error |
| SignMessage.LayoutSlices | crates/x402-nockchain-crypto/src/sign_message.rs:101-135 | where each field sits among the 32 Belts |
| SignMessage.DomainIs | crates/x402-nockchain-crypto/src/sign_message.rs:101-106 | the three Belts that the separator `x402-nockchain-v2` is signed as |
| SignMessage.FirstBadField | crates/x402-nockchain-crypto/src/sign_message.rs:101-143 | message and digest fail with an error if and only if some field does, all before it read, and it has that error |
| SignMessage.MessageShape | crates/x402-nockchain-crypto/src/sign_message.rs:101-135 | always 32 Belts, all in the field when hash outputs are |
| SignMessage.FieldsAre | crates/x402-nockchain-crypto/src/sign_message.rs:107-132 | each part of the message is the decoding of the field it is named after |
| SignMessage.SameBeltsSamePayment | crates/x402-nockchain-crypto/src/sign_message.rs:101-135 | equal sequences if and only if the same payment: texts up to leading `1`s, numbers as field elements, equal notes hash |
| SignMessage.SameBeltsSameNumbers | crates/x402-nockchain-crypto/src/sign_message.rs:113-126 | equal sequences force equal value, fee and times whenever those are below PRIME |
| SignMessage.DigestIdentifiesPayment | crates/x402-nockchain-crypto/src/sign_message.rs:139-143 | as far as the sponge separates the two messages, equal digests if and only if the same payment |
| SignMessage.DigestIgnoresNoteOrder | crates/x402-nockchain-crypto/src/sign_message.rs:128-143 | the signed digest is unchanged by permuting the notes or changing anything but their names |
| SignMessage.PkhIdentifiesKey | crates/x402-nockchain-crypto/src/sign_message.rs:63-67 | as far as the sponge separates the two packed keys, equal names if and only if equal keys |
| SignMessage.PkhReadsBack | crates/x402-nockchain-crypto/src/sign_message.rs:63-67 | the name decodes to the sponge's output on the packed key, and has no leading `1` |
| Crypto.SignedVerifies | crates/x402-nockchain-crypto/src/signer.rs:72-87 | what a key signs under its own public-key hash, the verifier accepts |
| Crypto.AcceptedBindsPayer | crates/x402-nockchain-crypto/src/verifier.rs:57-83 | an accepted payment names as payer the hash of the key its signature verifies under, in canonical text |
| Crypto.OneSignatureOnePayment | crates/x402-nockchain-crypto/src/verifier.rs:57-83 | where the scheme binds one digest and the sponge separates the messages, a signature accepted for one authorization is accepted for another if and only if that is the same payment under the same name |
| Crypto.PaymentRefusals | crates/x402-nockchain-crypto/src/verifier.rs:68-83 | which refusal: unreadable signature, another payer's name, unreadable message with its error, or a signature that does not verify |
| Crypto.SigningRefusals | crates/x402-nockchain-crypto/src/signer.rs:72-87 | which signing error: unreadable message first, then a failed signature, then one without a wire form |
| Crypto.NewSignerIs | crates/x402-nockchain-crypto/src/signer.rs:42-57 | a signer is made exactly when its public key has both encodings, and carries the key, its text and the hash of its bytes |
| Surrogate.Codec.SurrogateFromRawTx | crates/x402-nockchain-wallet-client/src/surrogate.rs:53-66 | the push loop prints every spend in order, or stops at the first that cannot be printed |
| Surrogate.Codec.ParseBeltArray | crates/x402-nockchain-wallet-client/src/surrogate.rs:296-305 | the array is filled with the eight parsed numbers, or the first bad text is the error |
| Surrogate.Codec.WitnessFromSurrogate | crates/x402-nockchain-wallet-client/src/surrogate.rs:219-236 | both push loops parse every signature and preimage in order |
| Surrogate.Codec.Spend1FromSurrogate | crates/x402-nockchain-wallet-client/src/surrogate.rs:202-217 | witness, then every seed in order, then the fee |
| Surrogate.Codec.RawTxFromSurrogate | crates/x402-nockchain-wallet-client/src/surrogate.rs:172-190 | version, id and every spend in order, first error wins |
| RoundTrip.SeedTrip | crates/x402-nockchain-wallet-client/src/surrogate.rs:264-288 | a printed seed parses back if and only if its hashes are in the field, with or without source and note data |
| RoundTrip.WitnessTrip | crates/x402-nockchain-wallet-client/src/surrogate.rs:219-236 | a printed witness parses back if and only if its hashes are in the field |
| RoundTrip.TxTrip | crates/x402-nockchain-wallet-client/src/surrogate.rs:172-190 | a printed transaction parses back to itself if and only if all its hashes are in the field, over any number of spends, seeds, signatures and preimages |
| RoundTrip.PrinterDomain | crates/x402-nockchain-wallet-client/src/surrogate.rs:53-80 | the printer succeeds exactly on V1 transactions of witness spends whose public keys have a text form |
| Printing.PrintsToIff | crates/x402-nockchain-wallet-client/src/surrogate.rs:53-163 | a transaction is printed as a surrogate if and only if each text is the one canonical text of its own part: base58 without leading `1`s, plain digits, canonical base64, absent exactly when there is no source or no note data |
| RoundTrip.ParserDomain | crates/x402-nockchain-wallet-client/src/surrogate.rs:172-316 | the parser succeeds exactly when the version is v1, every hash text decodes, every number parses as a u64, every key reads, and every noun decodes and cues |
| RoundTrip.ParsesToIff | crates/x402-nockchain-wallet-client/src/surrogate.rs:172-316 | a surrogate parses to a transaction if and only if each part of that is the reading of its own text |
| RoundTrip.ParsedTxInField | crates/x402-nockchain-wallet-client/src/surrogate.rs:172-216 | whatever parses is V1, all witness spends, and has every hash in the field |
| RoundTrip.ParsePrintParse | crates/x402-nockchain-wallet-client/src/surrogate.rs:53-190 | printing what was parsed gives a surrogate of the same transaction |
| Wallet.SplitNoteIff | crates/x402-nockchain-wallet-client/src/lib.rs:262-302 | the split succeeds exactly for this payer, one note and enough in it, and value, fee and change add up to its assets |
| Wallet.SplitRefusals | crates/x402-nockchain-wallet-client/src/lib.rs:262-302 | which refusal: another payer, another number of notes, the first unreadable number, an overflow of value plus fee, or too little in the note |
| Wallet.BuildRefusals | crates/x402-nockchain-wallet-client/src/lib.rs:262-330 | nothing is built for a note that cannot be split, and otherwise payee, last name and first name are read in that order |
| Wallet.AuthorizeRefusals | crates/x402-nockchain-wallet-client/src/lib.rs:404-442 | no envelope is signed for a transaction that cannot be built or printed; then an unreadable message and a bad key, in that order |
| Wallet.AuthorizeAndSign | crates/x402-nockchain-wallet-client/src/lib.rs:253-442 | the twelve steps, step by step, with the error of the first that fails |
| Wallet.CryptoSecretKey | crates/x402-nockchain-wallet-client/src/lib.rs:446-456 | the accumulation loop computes the base-2^32 value of the chunks |
| Conservation.SeedsConserve | crates/x402-nockchain-wallet-client/src/lib.rs:329-354 | gifts add up to value plus change, and a second seed exists if and only if there is change |
| Conservation.RawTxSpendsNote | crates/x402-nockchain-wallet-client/src/lib.rs:282-418 | the assembled transaction spends the one note: gifts plus fee equal its assets, the first gift is the value, every parent is the note's last name, outputs are locked to payee and change address, the payer's key signs these seeds and fee, and its id is the one the kernel gives these spends |
| Conservation.BuildsIff | crates/x402-nockchain-wallet-client/src/lib.rs:253-418 | when the kernel answers, a transaction is built if and only if the note can be split and every name and lock read |
| Conservation.AuthorizesIff | crates/x402-nockchain-wallet-client/src/lib.rs:253-442 | a payment is authorized if and only if its transaction is built and printed, its message reads, the key is a scalar and signing succeeds |
| Conservation.RawTxInField | crates/x402-nockchain-wallet-client/src/lib.rs:304-418 | every hash in the assembled transaction is in the field |
| Conservation.ThroughTheWire | crates/x402-nockchain-facilitator/src/chain/grpc.rs:62-70 | whenever the wallet authorizes, the surrogate decodes at the facilitator to a transaction that spends the note as above, id included |
| Conservation.ScalarChunks | crates/x402-nockchain-wallet-client/src/lib.rs:446-453 | for 32-bit chunks the scalar is below 2^256 and each chunk comes back by shifting and masking |
| Conservation.ScalarInjective | crates/x402-nockchain-wallet-client/src/lib.rs:446-453 | keys of 32-bit chunks have equal scalars if and only if they are equal |
| Conservation.WideChunkCollides | crates/x402-nockchain-wallet-client/src/lib.rs:447-453 | the 32-bit bound is needed: a wider chunk shares its scalar with another key |
| Client.BuilderSucceedsIff | crates/x402-client/src/lib.rs:452-511 | the builder succeeds exactly when payee, amount and fee read, and signing succeeds; nonce, placeholder names and own name never fail |
| Client.PayloadResponds | crates/x402-client/src/lib.rs:452-511 | the payload answers the requirements field by field, echoes the extensions it was given, asks for the minimum fee, and carries the drawn bytes as nonce and note name |
| Client.WalletPayloadResponds | crates/x402-client/src/lib.rs:562-613 | the same for the wallet's payload, with its own notes and a transaction |
| Client.NewWindow | crates/x402-client/src/lib.rs:459-461 | the saturating window of a new authorization, with the skew, is the stated clock interval |
| Client.SignedIsAcceptable | crates/x402-nockchain-facilitator/src/scheme/exact_nockchain.rs:50-79 | a validly signed payment of exactly what is asked passes the handler if and only if the asset is native |
| Client.DefaultIsNockchain | crates/x402-nockchain-facilitator/src/scheme/mod.rs:118-123 | under the default registry every exact or upto payment on a nockchain network meets the assumption of the end-to-end results |
| Client.HonestPaymentAcceptedIff | crates/x402-client/src/lib.rs:452-511 | whatever the builder returns is accepted exactly on time, with a fresh nonce, in NOCK |
| Client.HonestPaymentInRun | crates/x402-nockchain-facilitator/src/handlers/verify.rs:152-160 | in every run, whatever the builder returns is accepted exactly on time, in NOCK, and if nobody has passed with its nonce lately |
| Client.HonestPaymentCataloged | crates/x402-client/src/lib.rs:452-511 | an honest payment that `/verify` calls valid and whose echoed extension meets its schema is reported as cataloged, and the listing for its kind, network and scheme shows it |
| Client.WalletTransactionPays | crates/x402-client/src/lib.rs:562-613 | a wallet's payload carries a transaction that pays the requested amount to the payee, the requested fee, and the change to the payer's envelope name, out of exactly the payer's note, under the id the kernel gives its spends |
| Client.ChangeReturnsIff | crates/x402-nockchain-wallet-client/src/lib.rs:340-352 | if no lock hashes collide, the wallet's witness opens the lock of its change if and only if its envelope name decodes to its chain name |
| Client.WalletPaymentAcceptedIff | crates/x402-client/src/lib.rs:562-613 | a wallet's payload is accepted exactly on time, with a fresh nonce, in NOCK |
| Client.WalletPaymentEndToEnd | crates/x402-nockchain-facilitator/src/handlers/settle.rs:39-128 | through `/settle`: on time and in NOCK exactly one transaction is submitted, with the id the kernel gives its spends and under that id, it spends the payer's note as above, change to the envelope name, and the reply is the node's answer to it; otherwise nothing is submitted and the reply is an error |
| Advertiser.DeclareHttpQuery | crates/x402-advertiser/src/lib.rs:22-135 | the extension built carries the declared info and the published schema, and passes the facilitator's check if and only if it has no headers and only string parameters |
| Advertiser.DeclareHttpBody | crates/x402-advertiser/src/lib.rs:44-170 | the extension built carries the declared info and the published schema, and always passes |
| Advertiser.DeclareMcp | crates/x402-advertiser/src/lib.rs:69-205 | the extension built carries the declared info and the published schema, and passes exactly as stated below, before and after the wire |
| Advertiser.HttpQueryPassesIff | crates/x402-advertiser/src/lib.rs:22-40 | a query declaration passes the facilitator's check if and only if it has no headers and only string parameters |
| Advertiser.HttpBodyPasses | crates/x402-advertiser/src/lib.rs:44-66 | a body declaration always passes |
| Advertiser.McpPassesIff | crates/x402-advertiser/src/lib.rs:69-91 | a tool declaration passes if and only if its input schema and any example are objects |
| Advertiser.McpPassesOverWireIff | crates/x402-nockchain-facilitator/src/handlers/bazaar.rs:115-130 | as received, a null example counts as absent |
| Advertiser.SchemasAccept | crates/x402-advertiser/src/lib.rs:94-205 | everything that each published schema accepts: which keys, which texts, which types, and whether others are allowed |
| Advertiser.ReceivedPassesIff | crates/x402-nockchain-facilitator/src/handlers/bazaar.rs:33-47 | a declaration passes as received exactly when it is passable: no headers and only string parameters, only objects for a tool, nothing for a body |
| Advertiser.UncompiledFails | crates/x402-nockchain-facilitator/src/handlers/bazaar.rs:115-130 | a schema that would accept the block but does not compile is turned down |
| Discovery.DeclaredIsListedIff | crates/x402-nockchain-facilitator/src/handlers/bazaar.rs:33-82 | a server declares, a client pays and echoes, the payment is valid: the resource is cataloged and listed, with its block, exactly when the declaration was passable, and the reply says which |
| Bazaar.InfoJsonInjective | crates/x402-types/src/bazaar.rs:60-112 | two info blocks have one JSON form if and only if they are equal |
| Bazaar.WireNames | crates/x402-types/src/bazaar.rs:60-112 | the names of methods, body types and transports on the wire |
| Bazaar.OverWireIff | crates/x402-types/src/bazaar.rs:60-112 | a block changes over the wire if and only if its example or its output sample is null, and never twice |
| JsonSchema.BadSchemas | crates/x402-nockchain-facilitator/src/handlers/bazaar.rs:115-130 | what does not compile: no object or boolean, an unknown type, or a keyword of the wrong shape, at any depth |
| Catalog.Hits | crates/x402-nockchain-facilitator/src/storage/memory.rs:45-68 | exactly the positions that meet all filters, in order |
| Catalog.RetainIsMatching | crates/x402-nockchain-facilitator/src/storage/memory.rs:45-68 | retaining in place picks out exactly those entries |
| Catalog.AcceptsAny | crates/x402-nockchain-facilitator/src/storage/memory.rs:50-62 | an entry is shown for each network and scheme of each of its requirements, and for no other |
| Catalog.PutKeeps | crates/x402-nockchain-facilitator/src/storage/contract.rs:25-36 | an upsert keeps keys unique, every other entry and the order |
| Catalog.PutReplacesSame | crates/x402-nockchain-facilitator/src/storage/memory.rs:33-43 | an upsert replaces the entry of the same resource and kind where it stands, leaves every other one, and adds at the end when there is none |
| Catalog.PutAllIs | crates/x402-nockchain-facilitator/src/storage/contract.rs:25-36 | after any upserts: keys in order of first upsert, each with the value of its last |
| Catalog.PagesArePrefix | crates/x402-nockchain-facilitator/src/storage/contract.rs:27-36 | pages at offsets 0, L, 2L, ... join to a prefix of the matches without gap or repeat |
| Catalog.PagesComplete | crates/x402-nockchain-facilitator/src/storage/contract.rs:27-36 | enough pages give every match once and in order, each with the same total |
| Catalog.PagesJoin | crates/x402-nockchain-facilitator/src/storage/memory.rs:64-71 | for every page size such pages exist while the matches can be counted in a u32 |
| Catalog.ListingShows | crates/x402-nockchain-facilitator/src/storage/memory.rs:45-72 | item i of a listing is match offset + i, as many as the limit allows; without an offset it starts at the first match, without a limit it shows 50; the total is the number of matches as a u32 |
| Catalog.PlainListing | crates/x402-nockchain-facilitator/src/storage/sqlite.rs:108-120 | a listing without parameters is the first 50 entries in order |
| Stores.FiltersInTurn | crates/x402-nockchain-facilitator/src/storage/sqlite.rs:82-113 | kind in the query and two retains are the three filters together |
| Stores.Paginate | crates/x402-nockchain-facilitator/src/storage/sqlite.rs:108-120 | narrowing, u32 total, defaults, skip and take give one page of the matches |
| Stores.InMemoryCatalogStore.Upsert | crates/x402-nockchain-facilitator/src/storage/memory.rs:33-43 | overwriting at the position or pushing is the upsert of the contract |
| Stores.InMemoryCatalogStore.List | crates/x402-nockchain-facilitator/src/storage/memory.rs:45-72 | the vector lists what the contract lists |
| Stores.SqliteCatalogStore.Upsert | crates/x402-nockchain-facilitator/src/storage/sqlite.rs:46-76 | insert or update on conflict, ids kept and increasing with gaps, is the upsert of the contract |
| Stores.SqliteCatalogStore.List | crates/x402-nockchain-facilitator/src/storage/sqlite.rs:78-121 | the table ordered by id lists what the contract lists |
| Stores.AnswersAre | crates/x402-nockchain-facilitator/src/storage/contract.rs:25-36 | over every sequence of operations, the listing at each position is that of the upserts before it: keys in order of first upsert, each with its last value |
| Stores.RunBoth | crates/x402-nockchain-facilitator/src/storage/contract.rs:41-52 | over every sequence of upserts and lists both stores return those items and totals |
| Scheme.CheckMaxAmountIff | crates/x402-nockchain-facilitator/src/scheme/exact_nockchain.rs:97-122 | both texts are u128 numbers and the value is at most the cap |
| Scheme.NockchainRefusals | crates/x402-nockchain-facilitator/src/scheme/exact_nockchain.rs:50-134 | which refusal the handlers give: payload, recipient, signature, numbers, amount, asset, the first that fails |
| Scheme.HandlerForIsFirst | crates/x402-nockchain-facilitator/src/scheme/mod.rs:109-114 | resolution fails exactly without a claimant, and otherwise gives the earliest |
| Scheme.ResolutionIsStable | crates/x402-nockchain-facilitator/src/scheme/mod.rs:100-114 | no later registrations change a resolved pair |
| Scheme.SchemeHandlerRegistry.Register | crates/x402-nockchain-facilitator/src/scheme/mod.rs:102-104 | the handler is added last and every resolved pair stays as it is |
| Scheme.WithDefaultHandlers | crates/x402-nockchain-facilitator/src/scheme/mod.rs:118-123 | a fresh registry of exact and upto, in that order |
| Facilitator.DefaultResolves | crates/x402-nockchain-facilitator/src/scheme/mod.rs:118-123 | the default registry resolves both schemes on every nockchain network and nothing else |
| Facilitator.WindowIff | crates/x402-nockchain-facilitator/src/handlers/verify.rs:176-196 | the saturating 64-bit edges decide as unbounded integers do |
| Facilitator.EnvelopeAcceptsIff | crates/x402-nockchain-facilitator/src/handlers/verify.rs:116-160 | accepted exactly when admitted, inside the window, fresh (for `/verify`) and approved by the handler |
| Facilitator.EnvelopeRecordsIff | crates/x402-nockchain-facilitator/src/handlers/verify.rs:121-160 | the state changes exactly when an admitted request inside its window brings a fresh nonce in consuming mode, and then the nonce is recorded whatever the handler answers |
| Facilitator.RefusedIff | crates/x402-nockchain-facilitator/src/handlers/verify.rs:116-160 | which refusal: that of the first check that fails, in the order version, scheme, network, registry, payload, window, nonce, handler |
| Facilitator.DefaultRefusedIff | crates/x402-nockchain-facilitator/src/handlers/verify.rs:116-160 | the whole refusal rule of the default facilitator: which error code each request earns, field by field |
| Facilitator.VerifyReply | crates/x402-nockchain-facilitator/src/handlers/verify.rs:33-60 | `/verify` says valid exactly of an acceptable request inside its window with a fresh nonce, otherwise names the first failing check; the header reports on the extension of a valid request only, and the catalog gains exactly the entry it reports |
| Facilitator.SettleEnvelopeReply | crates/x402-nockchain-facilitator/src/handlers/settle.rs:39-68 | `/settle` refuses for the envelope exactly when the same check without the nonce does, with its error and no header; otherwise header and catalog are as for `/verify` |
| Facilitator.RecordedUntilExpiry | crates/x402-nockchain-facilitator/src/handlers/verify.rs:203-214 | a recorded nonce passes again exactly once its lifetime is over |
| Facilitator.KeysAreApart | crates/x402-nockchain-facilitator/src/handlers/verify.rs:198-208 | replay keys are the nonce behind `x402-auth:`, apart from one another and from sign-in keys |
| Facilitator.DefaultVerdict | crates/x402-nockchain-facilitator/src/scheme/exact_nockchain.rs:50-79 | what the default handlers accept, apart from the clock and the cache |
| Facilitator.DefaultAcceptsIff | crates/x402-nockchain-facilitator/src/handlers/verify.rs:116-160 | the whole acceptance rule of the default facilitator, field by field |
| Facilitator.OnlyTheCapIsChecked | crates/x402-nockchain-facilitator/src/scheme/exact_nockchain.rs:97-122 | an accepted request stays accepted under another cap and other extras if and only if its value is within that cap |
| Facilitator.AcceptanceIgnoresTransaction | crates/x402-nockchain-facilitator/src/handlers/verify.rs:116-160 | swapping the transaction in a payload leaves verdict and state unchanged |
| Facilitator.WhateverParsesIsSubmitted | crates/x402-nockchain-facilitator/src/chain/grpc.rs:62-76 | whatever transaction an accepted request carries is submitted if it parses, and otherwise nothing is |
| Facilitator.SettleReply | crates/x402-nockchain-facilitator/src/handlers/settle.rs:39-128 | over gRPC, one transaction is submitted and the reply is the node's answer to it, or nothing is submitted and the reply says why: the envelope's error, no transaction, or one that cannot be read |
| Facilitator.StubReply | crates/x402-nockchain-facilitator/src/chain/stub.rs:16-41 | with the stub client an accepted request is settled as broadcast under a name made of its nonce, and nothing is submitted |
| Facilitator.RelabellingIsNeutral | crates/x402-nockchain-facilitator/src/scheme/upto_nockchain.rs:54-83 | relabelling a request between exact and upto on both sides changes neither acceptance nor state |
| Facilitator.EntryKindIsItsTag | crates/x402-nockchain-facilitator/src/handlers/bazaar.rs:48-55 | an entry's kind is the type tag of the block stored with it, and it lists the one requirement of its request |
| Facilitator.EntryMeetsIff | crates/x402-nockchain-facilitator/src/handlers/bazaar.rs:33-82 | an entry is shown by exactly the listings for its kind and for the network and scheme of its requirement |
| Facilitator.ValidIsListed | crates/x402-nockchain-facilitator/src/handlers/verify.rs:41-60 | a valid request whose extension meets its schema is reported as cataloged and listed, with its info block, for its kind, network and scheme |
| Facilitator.EndpointEffects | crates/x402-nockchain-facilitator/src/handlers/settle.rs:39-94 | settling never touches the replay cache, a rejected request never touches the catalog, entries stay in order, and the handler is never missing at dispatch |
| Settlement.SubmittedIdIsOwn | crates/x402-nockchain-facilitator/src/chain/grpc.rs:64-77 | the id that a transaction is submitted under is its own |
| Settlement.SettleOnChain | crates/x402-nockchain-facilitator/src/chain/grpc.rs:62-113 | decode, submit and report, with the errors of each; the node is handed exactly the decoded transaction |
| Facilitator.ReplayCache.Seen | crates/x402-nockchain-facilitator/src/handlers/verify.rs:208 | one atomic check-and-record with a lifetime, never refreshed by a hit |
| Facilitator.Facilitator.ConsumeNonce | crates/x402-nockchain-facilitator/src/handlers/verify.rs:203-214 | records the domain-prefixed nonce or reports the replay |
| Facilitator.Facilitator.VerifyEnvelopeInner | crates/x402-nockchain-facilitator/src/handlers/verify.rs:116-160 | the checks in order, first failure wins, and the state afterwards |
| Facilitator.Facilitator.ProcessBazaar | crates/x402-nockchain-facilitator/src/handlers/bazaar.rs:33-82 | absent, declined or cataloged, and the catalog afterwards |
| Facilitator.Facilitator.Verify | crates/x402-nockchain-facilitator/src/handlers/verify.rs:33-60 | reply and whole new state of `/verify` |
| Facilitator.Facilitator.Settle | crates/x402-nockchain-facilitator/src/handlers/settle.rs:29-128 | reply and whole new state of `/settle`, and what the node has been handed |
| Runs.NextKeeps | crates/x402-nockchain-facilitator/src/handlers/verify.rs:116-160 | one step of one request keeps what entitles it to be where it is, and its record in the cache |
| Runs.StepKeeps | crates/x402-nockchain-facilitator/src/handlers/verify.rs:33-160 | every step of every interleaving keeps the invariant of the machine |
| Replay.PassesAreApart | crates/x402-nockchain-facilitator/src/handlers/verify.rs:198-214 | over every run, two requests that pass the nonce check with one nonce do so at least a lifetime apart |
| Replay.RememberedIff | crates/x402-nockchain-facilitator/src/handlers/verify.rs:203-214 | in every run a nonce is remembered exactly when some request passed the nonce check with it within the last lifetime |
| Replay.AcceptedUnlessPassed | crates/x402-nockchain-facilitator/src/handlers/verify.rs:116-160 | in every run an acceptable request is accepted exactly when its window is open and nobody has passed with its nonce lately, under whatever signature |
| Replay.NonceTakenByCopy | crates/x402-nockchain-facilitator/src/handlers/verify.rs:152-157 | in every run, while a request would be accepted, a copy under any signature can pass first, and then the request is accepted exactly once the lifetime is over and its window still open |
| Replay.PlainFixesTerms | crates/x402-nockchain-crypto/src/sign_message.rs:101-135 | everything that one signature covers, with no leading `1` in the nonce and times below PRIME, has one nonce and one window |
| Replay.TwiceIff | crates/x402-nockchain-facilitator/src/handlers/verify.rs:152-160 | for every lag between the two readings, what one signature covers, so written, can be accepted twice if and only if the tolerated window plus the lag reaches the lifetime |
| Replay.VerbatimTwiceIff | crates/x402-nockchain-facilitator/src/handlers/verify.rs:152-160 | the same for an authorization exactly as written, with any nonce and any times |
| Replay.AtMostOnce | crates/x402-nockchain-facilitator/src/handlers/verify.rs:152-160 | when both checks read one instant, a lifetime above window plus twice the skew means at most one acceptance in any run, of the authorization as written and of all plain spellings under its signature |
| Replay.DefaultSettingsProtect | crates/x402-nockchain-facilitator/src/lib.rs:56-69 | the default skew and lifetime protect every window shorter than 780 seconds, in the same two senses |
| Replay.WindowPlusSkewIsNotEnough | crates/x402-nockchain-facilitator/src/lib.rs:139-145 | a lifetime of window plus one skew admits two acceptances |
| Respelling.RespeltIsSameSigned | crates/x402-nockchain-crypto/src/sign_message.rs:119-126 | further leading `1`s in the nonce, and times that agree modulo PRIME, are signed as the same Belts |
| Respelling.RespeltIsAcceptable | crates/x402-nockchain-crypto/src/verifier.rs:68-83 | what the default handlers accept, they accept under every such respelling with the same signature |
| Respelling.RespeltNonceIsFresh | crates/x402-nockchain-facilitator/src/handlers/verify.rs:203-214 | right after an acceptance, the same signature under a nonce with further leading `1`s is accepted exactly when that text is not remembered |
| Respelling.RaisedEndStaysOpen | crates/x402-nockchain-facilitator/src/handlers/verify.rs:176-196 | when validBefore + PRIME is a u64, the request with that end is accepted exactly up to there plus the skew, on `/verify` with a nonce not remembered |
| Respelling.AcceptedAgain | crates/x402-nockchain-facilitator/src/handlers/verify.rs:152-160 | in every run, while the window of an accepted request is open, its signature can be accepted once more at that instant under another spelling |
| Respelling.EveryAcceptanceRepeats | crates/x402-nockchain-facilitator/src/handlers/verify.rs:152-160 | whatever is accepted in some run is, under one signature, accepted twice at one instant in another |
| Respelling.AnySpellingTwiceIff | crates/x402-nockchain-facilitator/src/handlers/verify.rs:152-160 | over all spellings and for every lifetime and lag, two acceptances under one signature are possible if and only if its window is ever open in its widest reading, and then also at one instant |
| Instances.FreePaymentAcceptedAgain | crates/x402-nockchain-facilitator/src/handlers/verify.rs:203-214 | an input: one signature accepted twice at one instant |
| Instances.FreePaymentStaysOpen | crates/x402-nockchain-facilitator/src/handlers/verify.rs:176-196 | an input: a request that can be settled at every clock up to PRIME |
| Instances.UnderpaymentAccepted | crates/x402-nockchain-facilitator/src/scheme/exact_nockchain.rs:97-122 | an input: an accepted payment below the amount and below the fee asked for |
| Instances.ChangeMissesWallet | crates/x402-nockchain-wallet-client/src/lib.rs:340-352 | an input: a payment with change under two different names, whose change the wallet's witness cannot open |
| Instances.EmptyTransactionSubmitted | crates/x402-nockchain-facilitator/src/chain/grpc.rs:62-76 | an input: an accepted request whose submitted transaction pays nobody |
| Atomicity.BurstIsEndpoint | crates/x402-nockchain-facilitator/src/handlers/verify.rs:33-60 | the steps of a request taken without interruption are the endpoint, in state, in reply and in what is handed to the node |
| Atomicity.CatalogIsLog | crates/x402-nockchain-facilitator/src/handlers/verify.rs:41-60 | the catalog of every run is the accepted requests' entries folded by key, each well formed, and nothing else |
| Atomicity.ReachableCatalogOk | crates/x402-nockchain-facilitator/src/handlers/bazaar.rs:33-82 | in every reachable state keys are unique and each entry has version 2, kind http or mcp, one requirement for its own resource, and a scheme and network the registry resolves |
| Atomicity.SubmittedIsLog | crates/x402-nockchain-facilitator/src/handlers/settle.rs:29-128 | in every run the node has been handed, in order, the transactions of the accepted `/settle` requests, of each once, and nothing else |
| Atomicity.SubmittedAnyNumberOfTimes | crates/x402-nockchain-facilitator/src/handlers/settle.rs:36-68 | while its window is open, one acceptable payload can be submitted any number of times at one instant |
| Atomicity.SettleAfterVerify | crates/x402-nockchain-facilitator/src/handlers/verify.rs:95-108 | after an accepted `/verify` and any further traffic, the envelope check of `/settle` accepts if and only if the clock is at most validBefore plus the skew |
| Atomicity.SettleAfterAccepted | crates/x402-nockchain-facilitator/src/handlers/verify.rs:95-108 | the same for a request accepted anywhere in an interleaved run |

## Left out

- Tip5, Cheetah curve and Schnorr internals: parameters, with the assumptions named above.
- Jam, cue and noun encodings: opaque byte blobs with the law that cue undoes jam. Note data is taken as the list that its map gives back.
- The wallet kernel: `%sig-hash`, `%tx-id`, lock hashes and chain signing are functions of their inputs; the kernel's own mutable state and its lock are not part of this model.
- The derivation of the wallet's public key and names from its key chunks: an assumption of the end-to-end result (`Client.OwnKey`).
- HTTP, headers, metrics, tracing, SIWN middleware, policy wrappers, demos and the x402-mcp crate: no property of their own beyond one branch.
- Submission to and polling of the chain beyond what is handed to the node: its answer, accepted, timed out or failed, is a parameter.
- A payload that does not decode but carries a readable transaction, and a transaction field that is present as null: both read as carrying none. No default handler lets the first kind through.
- Serde decoding of payloads and extensions: a payload either decodes or does not, a `bazaar` entry is absent, malformed or a block.
- PaymentRequirements fields that no modelled code reads (description, MIME type, output schema, extensions).
- SQL text, JSON columns, connection pools and I/O errors of the SQLite store: the table keeps its unique key, its increasing ids and its order.
- JSON Schema keywords that the advertiser does not emit; the facilitator's own check is a parameter of the state machine, so its results hold for any validator.
- Eviction of expired replay keys and the SIWN keys in the same cache: an expired entry and an absent one are treated alike, and the key domains are disjoint.
- The replay cache's own implementation is not part of this model: it is an atomic check-and-record with a lifetime per call.
- The standard library's in-place sort: a specification function, proved to sort and to permute.
- Integer widths of usize (taken as 64 bits) and of lengths.
- Replay.AtMostOnce: assumes that the window check and the nonce check read one instant; `Replay.TwiceIff` has the exact condition for any lag, and `Respelling.AnySpellingTwiceIff` that for authorizations written in any way.
- Runs.StepKeeps: the clock never goes back; the code reads the system clock and its cache keeps time of its own.
