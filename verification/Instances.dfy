/**
 Concrete payments: that the assumptions of the end-to-end results can be met, and the
 inputs at which a property one might expect does not hold.
 */
module Instances {
  import Base58
  import opened Chain
  import opened Client
  import opened Conservation
  import opened Crypto
  import opened Decimal
  import opened Envelope
  import opened Facilitator
  import opened HashText
  import opened Json
  import opened Notes
  import opened Payment
  import opened PlainCodec
  import opened Replay
  import opened Respelling
  import opened RoundTrip
  import opened Scheme
  import opened Settlement
  import opened SignMessage
  import opened Surrogate
  import opened Wallet
  import opened Wrappers

  const NO_BELTS: Belts8 := [0, 0, 0, 0, 0, 0, 0, 0]

  /** A scheme with one public key and one signature. */
  function OneKeySchnorr(): Schnorr {
    Schnorr(
      (sk: nat) => true,
      (sk: nat) => [],
      (p: Point) => Some([]),
      (p: Point) => Some(""),
      (sk: nat, d: Digest) => Some((NO_BELTS, NO_BELTS)),
      (p: Point, d: Digest, c: Belts8, s: Belts8) => true,
      (p: Point, c: Belts8, s: Belts8) =>
        if p == [] && c == NO_BELTS && s == NO_BELTS then Some(SignatureJson("", [], [])) else None,
      (json: SignatureJson) => Some(([], NO_BELTS, NO_BELTS)))
  }

  function ZeroSponge(): HashText.Tip5 {
    (belts: seq<Belt>) => [0, 0, 0, 0, 0]
  }

  function FreePayment(): PaymentRequirements {
    PaymentRequirements("exact", NETWORK_PREFIX, ToDecimal(0), "", NATIVE_ASSET, Base58.Encode([]), 0, None)
  }

  lemma OneKeySigns(d: Digest)
    ensures OneKeySchnorr().Sound()
    ensures NewSigner(OneKeySchnorr(), ZeroSponge(), 0).Ok? && SignDigest(OneKeySchnorr(), 0, d).Ok?
  {
  }

  lemma FreePaymentReads()
    ensures DecodeHash(FreePayment().payTo, "to").Ok?
    ensures ParseU64(FreePayment().maxAmountRequired).Some? && ParseU64(MinFee(FreePayment())).Some?
    ensures FreePayment().scheme in {"exact", "upto"} && NETWORK_PREFIX <= FreePayment().network
    ensures FreePayment().asset == NATIVE_ASSET
    ensures forall belts :: InField(ZeroSponge()(belts))
  {
    ParsePrinted(0, U64_MAX);
    ShortBytesFit([], "to");
    hide DecodeHash, ParseUnsigned, Base58.Encode;
  }

  /** The assumptions of the honest-payment result can be met, by a payment that is then accepted. */
  lemma HonestPaymentExists(config: Config, nonce: Bytes32, first: Bytes32, last: Bytes32)
    requires config.handlers == DefaultHandlers(OneKeySchnorr(), ZeroSponge())
    ensures OneKeySchnorr().Sound() && ToNockchain(config, OneKeySchnorr(), ZeroSponge(), FreePayment())
    ensures
      var signer := NewSigner(OneKeySchnorr(), ZeroSponge(), 0);
      && signer.Ok?
      && var payload := BuildPayload(
           OneKeySchnorr(), ZeroSponge(), signer.value, FreePayment(), 0, nonce, first, last, NoBazaar);
      && payload.Ok?
      && CheckEnvelope(config, State(0, map[], []), Request(payload.value, FreePayment()), Consume).0.Ok?
  {
    hide OneKeySchnorr, ZeroSponge, FreePayment, NewSigner, BuildPayload, CheckEnvelope, DefaultHandlers, HandlerFor;
    hide MessageDigest, DecodeHash, ParseU64, MinFee, ToNockchain, NewAuthorization, Base58.Encode, SignDigest;
    hide PlaceholderNote;
    OneKeySigns([0, 0, 0, 0, 0]);
    FreePaymentReads();
    DefaultIsNockchain(config, OneKeySchnorr(), ZeroSponge(), FreePayment());
    var signer := NewSigner(OneKeySchnorr(), ZeroSponge(), 0).value;
    var note := PlaceholderNote(FreePayment(), first, last);
    var auth := NewAuthorization(signer.pkh, FreePayment(), 0, nonce, [note]);
    BuilderSucceedsIff(OneKeySchnorr(), ZeroSponge(), 0, signer, FreePayment(), 0, nonce, first, last, NoBazaar);
    OneKeySigns(MessageDigest(ZeroSponge(), auth).value);
    HonestPaymentAcceptedIff(
      config, State(0, map[], []), Consume, OneKeySchnorr(), ZeroSponge(), 0, signer, FreePayment(), 0, nonce, first, last,
      NoBazaar);
  }

  // ---------------------------------------------------------------------------
  // The free payment, accepted
  // ---------------------------------------------------------------------------

  const AT_ZERO := State(0, map[], [])

  function FreeAuthorization(nonce: Bytes32, first: Bytes32, last: Bytes32): Authorization {
    NewAuthorization(
      PkhFromPubkeyBytes(ZeroSponge(), []), FreePayment(), 0, nonce, [PlaceholderNote(FreePayment(), first, last)])
  }

  function FreeRequest(nonce: Bytes32, first: Bytes32, last: Bytes32): Request {
    var exact := ExactPayload(SignatureJson("", [], []), FreeAuthorization(nonce, first, last), None);
    Request(Wrap(FreePayment(), exact, NoBazaar), FreePayment())
  }

  lemma FreeRequestIsBuilt(nonce: Bytes32, first: Bytes32, last: Bytes32)
    requires NewSigner(OneKeySchnorr(), ZeroSponge(), 0).Ok?
    requires
      var signer := NewSigner(OneKeySchnorr(), ZeroSponge(), 0).value;
      BuildPayload(OneKeySchnorr(), ZeroSponge(), signer, FreePayment(), 0, nonce, first, last, NoBazaar).Ok?
    ensures
      var signer := NewSigner(OneKeySchnorr(), ZeroSponge(), 0).value;
      var built := BuildPayload(OneKeySchnorr(), ZeroSponge(), signer, FreePayment(), 0, nonce, first, last, NoBazaar);
      Request(built.value, FreePayment()) == FreeRequest(nonce, first, last)
  {
    hide MessageDigest, NewAuthorization, FreePayment, ZeroSponge, PkhFromPubkeyBytes, PlaceholderNote;
  }

  lemma FreeRequestAccepted(config: Config, nonce: Bytes32, first: Bytes32, last: Bytes32)
    requires config.handlers == DefaultHandlers(OneKeySchnorr(), ZeroSponge())
    ensures CheckEnvelope(config, AT_ZERO, FreeRequest(nonce, first, last), Consume).0.Ok?
    ensures CheckEnvelope(config, AT_ZERO, FreeRequest(nonce, first, last), Skip).0.Ok?
  {
    hide OneKeySchnorr, ZeroSponge, FreePayment, NewSigner, BuildPayload, CheckEnvelope, DefaultHandlers, FreeRequest;
    hide Acceptable, Admission, InWindow, Remembered, ToNockchain;
    HonestPaymentExists(config, nonce, first, last);
    FreeRequestIsBuilt(nonce, first, last);
    EnvelopeAcceptsIff(config, AT_ZERO, FreeRequest(nonce, first, last), Consume);
    EnvelopeAcceptsIff(config, AT_ZERO, FreeRequest(nonce, first, last), Skip);
  }

  /** What it says: nothing is paid, for no fee, at the start of time. */
  lemma FreeTerms(nonce: Bytes32, first: Bytes32, last: Bytes32)
    ensures
      var req := FreeRequest(nonce, first, last);
      && req.payload.payload.Decoded? && req.payload.payload.exact.authorization == FreeAuthorization(nonce, first, last)
    ensures
      var auth := FreeAuthorization(nonce, first, last);
      && auth.validAfter == auth.validBefore == 0 && ParseU64(auth.value) == ParseU64(auth.fee) == Some(0)
  {
    ParsePrinted(0, U64_MAX);
    hide ParseUnsigned, Base58.Encode, PkhFromPubkeyBytes, PlaceholderNote;
  }

  // ---------------------------------------------------------------------------
  // Inputs
  // ---------------------------------------------------------------------------

  /** The same signature is accepted at once under the nonce with one more leading '1', for every lifetime. */
  lemma FreePaymentAcceptedAgain(config: Config, nonce: Bytes32, first: Bytes32, last: Bytes32)
    requires config.handlers == DefaultHandlers(OneKeySchnorr(), ZeroSponge())
    ensures
      var req, auth := FreeRequest(nonce, first, last), FreeAuthorization(nonce, first, last);
      var (first, st) := CheckEnvelope(config, AT_ZERO, req, Consume);
      var again := WithAuthorization(req, auth.(nonce := "1" + auth.nonce));
      first.Ok? && CheckEnvelope(config, st, again, Consume).0.Ok?
  {
    hide CheckEnvelope, FreeRequest, FreeAuthorization, DefaultHandlers, OneKeySchnorr, ZeroSponge, SameSigned;
    var req, auth := FreeRequest(nonce, first, last), FreeAuthorization(nonce, first, last);
    FreeRequestAccepted(config, nonce, first, last);
    FreeTerms(nonce, first, last);
    assert Ones(1) == "1";
    assert Respelt(auth, 1, auth.validAfter, auth.validBefore) == auth.(nonce := "1" + auth.nonce);
    RespeltNonceIsFresh(config, OneKeySchnorr(), ZeroSponge(), AT_ZERO, req, 1);
  }

  /** With PRIME added to its end it can be settled at every clock up to there, whatever the cache holds. */
  lemma FreePaymentStaysOpen(config: Config, nonce: Bytes32, first: Bytes32, last: Bytes32, later: State)
    requires config.handlers == DefaultHandlers(OneKeySchnorr(), ZeroSponge()) && later.now <= PRIME
    ensures
      var req, auth := FreeRequest(nonce, first, last), FreeAuthorization(nonce, first, last);
      CheckEnvelope(config, later, WithAuthorization(req, auth.(validBefore := PRIME)), Skip).0.Ok?
  {
    hide CheckEnvelope, FreeRequest, FreeAuthorization, DefaultHandlers, OneKeySchnorr, ZeroSponge, SameSigned;
    FreeRequestAccepted(config, nonce, first, last);
    FreeTerms(nonce, first, last);
    RaisedEndStaysOpen(
      config, OneKeySchnorr(), ZeroSponge(), AT_ZERO, FreeRequest(nonce, first, last), Skip, later, Skip);
  }

  const FEE_OF_ONE := Some(Object(map["minFee" := Str("1")]))

  /** A payment below the amount and below the fee that are asked for is accepted. */
  lemma UnderpaymentAccepted(config: Config, nonce: Bytes32, first: Bytes32, last: Bytes32)
    requires config.handlers == DefaultHandlers(OneKeySchnorr(), ZeroSponge())
    ensures
      var free, auth := FreeRequest(nonce, first, last), FreeAuthorization(nonce, first, last);
      var req := free.(requirements := free.requirements.(maxAmountRequired := ToDecimal(1), extra := FEE_OF_ONE));
      && CheckEnvelope(config, AT_ZERO, req, Consume).0.Ok?
      && ParseU64(auth.value) == Some(0) && ParseU64(req.requirements.maxAmountRequired) == Some(1)
      && ParseU64(auth.fee) == Some(0) && MinFee(req.requirements) == "1"
  {
    hide CheckEnvelope, FreeRequest, FreeAuthorization, DefaultHandlers, OneKeySchnorr, ZeroSponge, ParseUnsigned;
    FreeRequestAccepted(config, nonce, first, last);
    FreeTerms(nonce, first, last);
    ParsePrinted(1, U64_MAX);
    assert WithinCap(FreeAuthorization(nonce, first, last).value, ToDecimal(1)) by {
      assert ParseU64(ToDecimal(1)) == Some(1);
    }
    OnlyTheCapIsChecked(
      config, OneKeySchnorr(), ZeroSponge(), AT_ZERO, FreeRequest(nonce, first, last), Consume, ToDecimal(1), FEE_OF_ONE);
  }

  function EmptyTransaction(): SignedRawTx {
    SignedRawTx("v1", Base58.Encode([]), [])
  }

  /** An accepted request whose transaction pays nobody: it is submitted all the same. */
  lemma EmptyTransactionSubmitted(config: Config, kernel: Kernel, nonce: Bytes32, first: Bytes32, last: Bytes32)
    requires config.handlers == DefaultHandlers(OneKeySchnorr(), ZeroSponge()) && config.chain.GrpcClient?
    ensures
      var free := FreeRequest(nonce, first, last);
      && free.payload.payload.Decoded?
      && var req := WithTransaction(free, Some(EmptyTransaction()));
      && CheckEnvelope(config, AT_ZERO, req, Consume).0.Ok?
      && |Submitted(config, AT_ZERO, req)| == 1
      && !SomeGiftPays(kernel, req.requirements, Submitted(config, AT_ZERO, req)[0])
  {
    hide CheckEnvelope, FreeRequest, FreeAuthorization, DefaultHandlers, OneKeySchnorr, ZeroSponge, Submitted;
    var free := FreeRequest(nonce, first, last);
    FreeRequestAccepted(config, nonce, first, last);
    FreeTerms(nonce, first, last);
    AcceptanceIgnoresTransaction(
      config, OneKeySchnorr(), ZeroSponge(), AT_ZERO, free, Some(EmptyTransaction()), Consume);
    WhateverParsesIsSubmitted(config, OneKeySchnorr(), ZeroSponge(), AT_ZERO, free, EmptyTransaction());
    EmptyTransactionParses(config.chain.codec);
  }

  lemma EmptyTransactionParses(codec: Codec)
    ensures codec.Parse(EmptyTransaction()).Ok? && codec.Parse(EmptyTransaction()).value.spends == []
  {
    ShortBytesFit([], "tx_id");
    hide DecodeHash, Base58.Encode;
    hide codec.ParseEntry;
  }

  // ---------------------------------------------------------------------------
  // A wallet's payment
  // ---------------------------------------------------------------------------

  const NO_HASH: Hash := [0, 0, 0, 0, 0]
  const ONE_HASH: Hash := [1, 0, 0, 0, 0]

  /** Locks hash to the names they are for, coinbase locks to something else. */
  function LockByName(c: SpendCondition): Option<Hash> {
    match c
    case SimplePkh(pkh) => if InField(pkh) then Some(pkh) else None
    case CoinbasePkh(_, t) => Some([2, t % PRIME, 0, 0, 0])
  }

  function PlainKernel(): Kernel {
    Kernel(
      LockByName,
      (seeds: seq<Seed>, fee: u64) => Some(NO_HASH),
      (spends: seq<SpendEntry>) => Some(NO_HASH),
      (sk: Belts8, h: Hash) => Some(SchnorrSignature(NO_BELTS, NO_BELTS)))
  }

  /** A wallet whose envelope name is all zeros and whose chain name is not. */
  function TwoNameWallet(): Wallet {
    Wallet(PkhFromPubkeyBytes(ZeroSponge(), []), ONE_HASH, Pubkey([]), NO_BELTS)
  }

  /** A note of one nick, which a free payment turns into change. */
  function OneNickNote(): NoteRef {
    NoteRef(NoteName(Base58.Encode([]), Base58.Encode([])), ToDecimal(1), NoteLock.SimplePkh)
  }

  function WalletAuthorization(nonce: Bytes32): Authorization {
    NewAuthorization(TwoNameWallet().payerPkhEnvelope, FreePayment(), 0, nonce, [OneNickNote()])
  }

  lemma EmptyTextReads()
    ensures forall field :: DecodeHash(Base58.Encode([]), field).Ok?
    ensures ParseU64(ToDecimal(0)) == Some(0) == ParseU64("0") && ParseU64(ToDecimal(1)) == Some(1)
  {
    forall field
      ensures DecodeHash(Base58.Encode([]), field).Ok?
    {
      ShortBytesFit([], field);
    }
    ParsePrinted(0, U64_MAX);
    ParsePrinted(1, U64_MAX);
  }

  lemma WalletSplits(nonce: Bytes32)
    ensures SplitNote(TwoNameWallet(), WalletAuthorization(nonce)) == Ok(Split(0, 0, 1))
  {
    hide ParseU64, ToDecimal, PkhFromPubkeyBytes, Base58.Encode;
    EmptyTextReads();
    SplitNoteIff(TwoNameWallet(), WalletAuthorization(nonce));
  }

  predicate BuildsOneSpend(built: Result<RawTx, WalletError>) {
    built.Ok? && built.value.version == V1 && |built.value.spends| == 1 && built.value.spends[0].spend.Witnessed?
  }

  lemma WalletBuildsTx(nonce: Bytes32)
    ensures BuildsOneSpend(BuildRawTx(TwoNameWallet(), PlainKernel(), WalletAuthorization(nonce)))
  {
    hide DecodeHash, Base58.Encode, ParseU64, ToDecimal, PkhFromPubkeyBytes, SplitNote, BuildRawTx, BuildsOneSpend;
    EmptyTextReads();
    WalletSplits(nonce);
    WalletIsNamed("auth.change_address");
    assert InField(ONE_HASH);
    BuildsTx(TwoNameWallet(), WalletAuthorization(nonce), Split(0, 0, 1));
  }

  /** With texts that decode, the transaction is built. */
  lemma BuildsTx(wallet: Wallet, auth: Authorization, split: Split)
    requires |auth.notes| == 1 && auth.notes[0].lock.SimplePkh? && SplitNote(wallet, auth) == Ok(split)
    requires HashField(auth.to, "auth.to").Ok? && HashField(auth.changeAddress, "auth.change_address").Ok?
    requires HashField(auth.notes[0].name.last, "name.last").Ok? && HashField(auth.notes[0].name.first, "name.first").Ok?
    requires InField(wallet.payerPkhChain)
    ensures BuildsOneSpend(BuildRawTx(wallet, PlainKernel(), auth))
  {
    hide DecodeHash, SplitNote, HashField, InField;
  }

  lemma WalletIsNamed(field: string)
    ensures OwnKey(TwoNameWallet(), OneKeySchnorr(), ZeroSponge())
    ensures DecodeHash(TwoNameWallet().payerPkhEnvelope, field) == Ok(NO_HASH)
  {
    hide DecodeHash, KeyScalar, EncodeHash;
    HashRoundTrip(NO_HASH, field);
    assert TwoNameWallet().payerPkhEnvelope == EncodeHash(NO_HASH);
  }

  lemma WalletMessage(nonce: Bytes32)
    ensures MessageDigest(ZeroSponge(), WalletAuthorization(nonce)).Ok?
  {
    hide DecodeHash, ParseUnsigned, NotesHash, Base58.Encode, MessageDigest, ToDecimal, ZeroSponge, TwoNameWallet;
    EmptyTextReads();
    ShortBytesFit(nonce, "nonce");
    WalletIsNamed("from");
    WalletIsNamed("changeAddress");
    SingleNoteHashes(ZeroSponge(), OneNickNote());
    FieldsOkIff(ZeroSponge(), WalletAuthorization(nonce));
  }

  lemma WalletSigns(nonce: Bytes32)
    ensures SignEnvelope(TwoNameWallet(), OneKeySchnorr(), ZeroSponge(), WalletAuthorization(nonce)).Ok?
  {
    hide MessageDigest, KeyScalar, WalletAuthorization, TwoNameWallet, ZeroSponge;
    WalletMessage(nonce);
  }

  lemma WalletBuilds(nonce: Bytes32)
    ensures
      BuildPayloadWithWallet(
        TwoNameWallet(), PlainKernel(), PlainlyJammed(), OneKeySchnorr(), ZeroSponge(), FreePayment(), [OneNickNote()], 0, nonce,
        NoBazaar).Ok?
  {
    hide BuildRawTx, SignEnvelope, OneKeySchnorr, ZeroSponge, FreePayment, PlainlyJammed, NewAuthorization, OneNickNote;
    hide TwoNameWallet, PlainKernel;
    WalletSigns(nonce);
    WalletBuildsTx(nonce);
    PrintsAnyKey(BuildRawTx(TwoNameWallet(), PlainKernel(), WalletAuthorization(nonce)).value);
  }

  lemma KernelIsInField()
    ensures PlainKernel().InFieldOutputs() && InField(TwoNameWallet().payerPkhChain)
  {
    hide PkhFromPubkeyBytes;
  }

  /** The assumptions of the wallet's end-to-end result can be met together. */
  lemma WalletPaymentExists(config: Config, nonce: Bytes32)
    requires config.handlers == DefaultHandlers(OneKeySchnorr(), ZeroSponge())
    ensures OneKeySchnorr().Sound() && ToNockchain(config, OneKeySchnorr(), ZeroSponge(), FreePayment())
    ensures OwnKey(TwoNameWallet(), OneKeySchnorr(), ZeroSponge())
    ensures PlainlyJammed().Lawful() && PlainKernel().InFieldOutputs() && InField(TwoNameWallet().payerPkhChain)
    ensures
      BuildPayloadWithWallet(
        TwoNameWallet(), PlainKernel(), PlainlyJammed(), OneKeySchnorr(), ZeroSponge(), FreePayment(), [OneNickNote()], 0, nonce,
        NoBazaar).Ok?
  {
    hide *;
    OneKeySigns(NO_HASH);
    KernelIsInField();
    FreePaymentReads();
    DefaultIsNockchain(config, OneKeySchnorr(), ZeroSponge(), FreePayment());
    PlainlyJammedIsLawful();
    WalletIsNamed("from");
    WalletBuilds(nonce);
  }

  /** A payment with change under two different names: no lock that the wallet can present is that of its change. */
  lemma ChangeMissesWallet(nonce: Bytes32)
    ensures
      var payload := BuildPayloadWithWallet(
        TwoNameWallet(), PlainKernel(), PlainlyJammed(), OneKeySchnorr(), ZeroSponge(), FreePayment(), [OneNickNote()], 0,
        nonce, NoBazaar);
      && payload.Ok?
      && var raw := DecodeForSubmit(PlainlyJammed(), payload.value.payload);
      && raw.Ok? && |raw.value.0.spends| == 1 && raw.value.0.spends[0].spend.Witnessed?
      && var seeds := raw.value.0.spends[0].spend.spend1.seeds;
      && |seeds| == 2 && seeds[1].gift == 1
      && !CanOpen(TwoNameWallet(), PlainKernel(), seeds[1].lockRoot)
  {
    hide *;
    KernelIsInField();
    PlainlyJammedIsLawful();
    WalletBuilds(nonce);
    WalletIsNamed("auth.change_address");
    NamesDoNotCollide();
    ChangeReturnsIff(
      TwoNameWallet(), PlainKernel(), PlainlyJammed(), OneKeySchnorr(), ZeroSponge(), FreePayment(), [OneNickNote()], 0,
      nonce, NoBazaar);
    WalletTransactionPays(
      TwoNameWallet(), PlainKernel(), PlainlyJammed(), OneKeySchnorr(), ZeroSponge(), FreePayment(), [OneNickNote()], 0,
      nonce, NoBazaar);
    PaidAuthorization(nonce);
    var payload := BuildPayloadWithWallet(
      TwoNameWallet(), PlainKernel(), PlainlyJammed(), OneKeySchnorr(), ZeroSponge(), FreePayment(), [OneNickNote()], 0,
      nonce, NoBazaar).value;
    OneNickOfChange(nonce, DecodeForSubmit(PlainlyJammed(), payload.payload).value.0);
  }

  lemma NamesDoNotCollide()
    ensures NoCollision(TwoNameWallet(), PlainKernel(), NO_HASH) && TwoNameWallet().payerPkhChain != NO_HASH
  {
    hide PkhFromPubkeyBytes;
  }

  lemma PaidAuthorization(nonce: Bytes32)
    requires
      BuildPayloadWithWallet(
        TwoNameWallet(), PlainKernel(), PlainlyJammed(), OneKeySchnorr(), ZeroSponge(), FreePayment(), [OneNickNote()], 0,
        nonce, NoBazaar).Ok?
    ensures
      var payload := BuildPayloadWithWallet(
        TwoNameWallet(), PlainKernel(), PlainlyJammed(), OneKeySchnorr(), ZeroSponge(), FreePayment(), [OneNickNote()], 0,
        nonce, NoBazaar).value;
      payload.payload.Decoded? && payload.payload.exact.authorization == WalletAuthorization(nonce)
  {
    hide Authorize, OneKeySchnorr, ZeroSponge, FreePayment, PlainlyJammed, NewAuthorization, OneNickNote, TwoNameWallet;
  }

  lemma OneNickOfChange(nonce: Bytes32, raw: RawTx)
    requires PaysAsAsked(TwoNameWallet(), PlainKernel(), FreePayment(), WalletAuthorization(nonce), raw)
    ensures |raw.spends| == 1 && raw.spends[0].spend.Witnessed?
    ensures |raw.spends[0].spend.spend1.seeds| == 2 && raw.spends[0].spend.spend1.seeds[1].gift == 1
  {
    hide ParseU64, ToDecimal, Base58.Encode, PkhFromPubkeyBytes, PaysTo, SignedByPayer, NamesNote, Pays;
    EmptyTextReads();
    var seeds := raw.spends[0].spend.spend1.seeds;
    TwoGifts(seeds);
  }

  lemma TwoGifts(seeds: seq<Seed>)
    requires 1 <= |seeds| <= 2
    ensures Gifts(seeds) == seeds[0].gift + if |seeds| == 2 then seeds[1].gift else 0
  {
    if |seeds| == 2 {
      assert Gifts(seeds[1..][1..]) == 0;
    }
  }

  lemma PrintsAnyKey(raw: RawTx)
    requires raw.version == V1 && |raw.spends| == 1 && raw.spends[0].spend.Witnessed?
    ensures PlainlyJammed().Print(raw).Ok?
  {
    var codec := PlainlyJammed();
    PrinterDomain(codec, raw);
    hide codec.Print;
  }
}
