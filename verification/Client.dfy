/** The client's payload builders, and what the facilitator makes of their payloads. */
module Client {
  import opened Base58
  import opened Bazaar
  import opened Catalog
  import opened Chain
  import opened Conservation
  import opened Crypto
  import opened Decimal
  import opened Envelope
  import opened Facilitator
  import opened HashText
  import opened Json
  import opened Notes
  import Packing
  import opened Payment
  import opened Replay
  import opened Runs
  import opened Scheme
  import opened Settlement
  import opened SignMessage
  import opened Surrogate
  import opened Wallet
  import opened Wrappers

  /** 32 random bytes, as drawn for nonces and for note names not yet known. */
  type Bytes32 = b: seq<byte> | |b| == 32 witness [
    0, 0, 0, 0, 0, 0, 0, 0, 0, 0, 0, 0, 0, 0, 0, 0, 0, 0, 0, 0, 0, 0, 0, 0, 0, 0, 0, 0, 0, 0, 0, 0]

  const GRACE: u64 := 5

  function MinFee(req: PaymentRequirements): string {
    match req.extra
    case Some(Object(fields)) =>
      if "minFee" in fields && fields["minFee"].Str? then fields["minFee"].text else "0"
    case _ => "0"
  }

  function NewAuthorization(from: string, req: PaymentRequirements, now: u64, nonce: Bytes32, notes: seq<NoteRef>)
    : Authorization
  {
    Authorization(
      from, req.payTo, req.maxAmountRequired, MinFee(req), Base58.Encode(nonce),
      SaturatingSub(now, GRACE), SaturatingAdd(now, req.maxTimeoutSeconds), notes, from)
  }

  function PlaceholderNote(req: PaymentRequirements, first: Bytes32, last: Bytes32): NoteRef {
    NoteRef(NoteName(Base58.Encode(first), Base58.Encode(last)), req.maxAmountRequired, NoteLock.SimplePkh)
  }

  function Wrap(req: PaymentRequirements, exact: ExactPayload, echo: BazaarField): PaymentPayload {
    PaymentPayload(2, req.scheme, req.network, Decoded(exact), echo)
  }

  /** Envelope only: one placeholder note, no transaction. */
  function BuildPayload(
    schnorr: Schnorr, tip5: HashText.Tip5, signer: NockchainSigner, req: PaymentRequirements,
    now: u64, nonce: Bytes32, first: Bytes32, last: Bytes32, echo: BazaarField)
    : Result<PaymentPayload, SignerError>
  {
    var auth := NewAuthorization(signer.pkh, req, now, nonce, [PlaceholderNote(req, first, last)]);
    var signature :- SignAuthorization(schnorr, tip5, signer, auth);
    Ok(Wrap(req, ExactPayload(signature, auth, None), echo))
  }

  /** With a wallet: its notes, its signature, and the transaction. */
  function BuildPayloadWithWallet(
    wallet: Wallet, kernel: Kernel, codec: Codec, schnorr: Schnorr, tip5: HashText.Tip5, req: PaymentRequirements,
    notes: seq<NoteRef>, now: u64, nonce: Bytes32, echo: BazaarField)
    : Result<PaymentPayload, WalletError>
  {
    var auth := NewAuthorization(wallet.payerPkhEnvelope, req, now, nonce, notes);
    var signed :- Authorize(wallet, kernel, codec, schnorr, tip5, auth);
    Ok(Wrap(req, ExactPayload(signed.envelopeSignature, auth, Some(signed.signedRawTx)), echo))
  }

  // ---------------------------------------------------------------------------
  // When the builder succeeds
  // ---------------------------------------------------------------------------

  lemma SingleNoteHashes(tip5: HashText.Tip5, note: NoteRef)
    requires DecodeHash(note.name.first, FIRST).Ok? && DecodeHash(note.name.last, LAST).Ok?
    ensures NotesHash(tip5, [note]).Ok?
  {
    hide DecodeHash, NameLe;
    assert SortNotes([note][1..]) == [];
    assert SortNotes([note]) == [note];
    assert Names([note]) == [note.name];
    assert Flatten([note.name][1..]) == Ok([]);
    assert DecodeName(note.name).Ok?;
  }

  lemma FieldsOkIff(tip5: HashText.Tip5, auth: Authorization)
    ensures MessageDigest(tip5, auth).Ok? <==>
            && DecodeHash(auth.from, "from").Ok? && DecodeHash(auth.to, "to").Ok?
            && ParseU64(auth.value).Some? && ParseU64(auth.fee).Some?
            && DecodeHash(auth.nonce, "nonce").Ok? && NotesHash(tip5, auth.notes).Ok?
            && DecodeHash(auth.changeAddress, "changeAddress").Ok?
  {
    hide DecodeHash, NotesHash, ParseU64, Layout;
  }

  /** The only things about a payment that can be wrong: the payee, the amount, the fee, or the signing itself. */
  lemma BuilderSucceedsIff(
    schnorr: Schnorr, tip5: HashText.Tip5, sk: nat, signer: NockchainSigner, req: PaymentRequirements,
    now: u64, nonce: Bytes32, first: Bytes32, last: Bytes32, echo: BazaarField)
    requires forall belts :: InField(tip5(belts))
    requires NewSigner(schnorr, tip5, sk) == Ok(signer)
    ensures
      var auth := NewAuthorization(signer.pkh, req, now, nonce, [PlaceholderNote(req, first, last)]);
      BuildPayload(schnorr, tip5, signer, req, now, nonce, first, last, echo).Ok? <==>
      && DecodeHash(req.payTo, "to").Ok? && ParseU64(req.maxAmountRequired).Some? && ParseU64(MinFee(req)).Some?
      && MessageDigest(tip5, auth).Ok? && SignDigest(schnorr, sk, MessageDigest(tip5, auth).value).Ok?
    ensures
      var auth := NewAuthorization(signer.pkh, req, now, nonce, [PlaceholderNote(req, first, last)]);
      MessageDigest(tip5, auth).Ok? <==>
      DecodeHash(req.payTo, "to").Ok? && ParseU64(req.maxAmountRequired).Some? && ParseU64(MinFee(req)).Some?
  {
    var note := PlaceholderNote(req, first, last);
    var auth := NewAuthorization(signer.pkh, req, now, nonce, [note]);
    OwnNameDecodes(schnorr, tip5, sk, "from");
    OwnNameDecodes(schnorr, tip5, sk, "changeAddress");
    ShortBytesFit(nonce, "nonce");
    ShortBytesFit(first, FIRST);
    ShortBytesFit(last, LAST);
    SingleNoteHashes(tip5, note);
    FieldsOkIff(tip5, auth);
    hide DecodeHash, NotesHash, MessageDigest, ParseU64, MinFee, Base58.Encode, SignDigest;
  }

  lemma OwnNameDecodes(schnorr: Schnorr, tip5: HashText.Tip5, sk: nat, field: string)
    requires NewSigner(schnorr, tip5, sk).Ok? && forall belts :: InField(tip5(belts))
    ensures DecodeHash(NewSigner(schnorr, tip5, sk).value.pkh, field).Ok?
    ensures NewSigner(schnorr, tip5, sk).value.sk == sk
  {
    hide DecodeHash, EncodeHash;
    var bytes := schnorr.pointBytes(schnorr.publicKey(sk)).value;
    HashRoundTrip(tip5(Packing.BytesToBelts(bytes)), field);
  }

  // ---------------------------------------------------------------------------
  // What a payload says
  // ---------------------------------------------------------------------------

  /** The fee asked for: the minimum fee among the extras when that is a text, otherwise nothing. */
  predicate AsksFee(req: PaymentRequirements, fee: string) {
    if req.extra.Some? && req.extra.value.Object? && "minFee" in req.extra.value.fields
       && req.extra.value.fields["minFee"].Str?
    then fee == req.extra.value.fields["minFee"].text
    else fee == "0"
  }

  /** The payload answers these requirements, from this payer, as of this clock reading, with these extensions. */
  predicate Responds(payload: PaymentPayload, req: PaymentRequirements, payer: string, now: u64, echo: BazaarField) {
    && payload.x402Version == 2 && payload.scheme == req.scheme && payload.network == req.network
    && payload.extensions == echo && payload.payload.Decoded?
    && var auth := payload.payload.exact.authorization;
    && auth.from == payer == auth.changeAddress && auth.to == req.payTo
    && auth.value == req.maxAmountRequired && AsksFee(req, auth.fee)
    && auth.validAfter == (if now < 5 then 0 else now - 5)
    && auth.validBefore == (if now + req.maxTimeoutSeconds > U64_MAX then U64_MAX else now + req.maxTimeoutSeconds)
  }

  lemma PayloadResponds(
    schnorr: Schnorr, tip5: HashText.Tip5, signer: NockchainSigner, req: PaymentRequirements,
    now: u64, nonce: Bytes32, first: Bytes32, last: Bytes32, echo: BazaarField)
    requires BuildPayload(schnorr, tip5, signer, req, now, nonce, first, last, echo).Ok?
    ensures
      var payload := BuildPayload(schnorr, tip5, signer, req, now, nonce, first, last, echo).value;
      && Responds(payload, req, signer.pkh, now, echo)
      && var exact := payload.payload.exact;
      && exact.signedRawTx == None && |exact.authorization.notes| == 1
      && exact.authorization.notes[0].assets == req.maxAmountRequired && exact.authorization.notes[0].lock.SimplePkh?
      && Base58.Decode(exact.authorization.nonce) == Some(nonce)
      && Base58.Decode(exact.authorization.notes[0].name.first) == Some(first)
      && Base58.Decode(exact.authorization.notes[0].name.last) == Some(last)
  {
    DecodeOfEncode(nonce);
    DecodeOfEncode(first);
    DecodeOfEncode(last);
    hide SignAuthorization, Base58.Encode, Base58.Decode;
  }

  lemma WalletPayloadResponds(
    wallet: Wallet, kernel: Kernel, codec: Codec, schnorr: Schnorr, tip5: HashText.Tip5, req: PaymentRequirements,
    notes: seq<NoteRef>, now: u64, nonce: Bytes32, echo: BazaarField)
    requires BuildPayloadWithWallet(wallet, kernel, codec, schnorr, tip5, req, notes, now, nonce, echo).Ok?
    ensures
      var payload := BuildPayloadWithWallet(wallet, kernel, codec, schnorr, tip5, req, notes, now, nonce, echo).value;
      && Responds(payload, req, wallet.payerPkhEnvelope, now, echo)
      && payload.payload.exact.signedRawTx.Some? && payload.payload.exact.authorization.notes == notes
      && Base58.Decode(payload.payload.exact.authorization.nonce) == Some(nonce)
  {
    DecodeOfEncode(nonce);
    hide Authorize, Base58.Encode, Base58.Decode;
  }

  // ---------------------------------------------------------------------------
  // What the facilitator makes of it
  // ---------------------------------------------------------------------------

  /** The request is resolved to the built-in handler, under one of its scheme names or another. */
  ghost predicate ToNockchain(config: Config, schnorr: Schnorr, tip5: HashText.Tip5, req: PaymentRequirements) {
    exists s :: HandlerFor(config.handlers, req.scheme, req.network) == Some(NockchainHandler(s, schnorr, tip5))
  }

  /** Under the default registry that is every exact or upto payment on a nockchain network. */
  lemma DefaultIsNockchain(config: Config, schnorr: Schnorr, tip5: HashText.Tip5, req: PaymentRequirements)
    requires config.handlers == DefaultHandlers(schnorr, tip5)
    requires req.scheme in {"exact", "upto"} && NETWORK_PREFIX <= req.network
    ensures ToNockchain(config, schnorr, tip5, req)
  {
    hide HandlerFor, DefaultHandlers, NockchainHandler;
    DefaultResolves(schnorr, tip5, req.scheme, req.network);
  }

  /** An amount equal to the cap is within it, as soon as it is a 64-bit number. */
  lemma OwnCapSuffices(auth: Authorization, req: PaymentRequirements)
    requires auth.value == req.maxAmountRequired && ParseU64(auth.value).Some?
    ensures CheckMaxAmount(auth, req).Ok?
  {
    CheckMaxAmountIff(auth, req);
    hide ParseU64, ParseUnsigned;
  }

  /** A signed authorization that pays what is asked is acceptable exactly when the asset is the native one. */
  lemma SignedIsAcceptable(
    config: Config, schnorr: Schnorr, tip5: HashText.Tip5, req: PaymentRequirements, exact: ExactPayload, echo: BazaarField)
    requires ToNockchain(config, schnorr, tip5, req)
    requires VerifyPayment(schnorr, tip5, exact.signature, exact.authorization).Ok?
    requires exact.authorization.to == req.payTo && exact.authorization.value == req.maxAmountRequired
    requires ParseU64(req.maxAmountRequired).Some?
    ensures Acceptable(config, Request(Wrap(req, exact, echo), req)) <==> req.asset == NATIVE_ASSET
    ensures Admission(config, Request(Wrap(req, exact, echo), req)) == Ok(exact.authorization)
  {
    OwnCapSuffices(exact.authorization, req);
    hide VerifyPayment, CheckMaxAmount, HandlerFor, ParseU64;
    var s :| HandlerFor(config.handlers, req.scheme, req.network) == Some(NockchainHandler(s, schnorr, tip5));
    var payload := Wrap(req, exact, echo);
    assert NockchainHandler(s, schnorr, tip5).verify(payload, req) == NockchainVerify(schnorr, tip5, payload, req);
    assert NockchainHandler(s, schnorr, tip5).extract(payload) == ExtractAuthorization(payload);
  }

  /** The clock readings at which an authorization made at `now` is inside its tolerated window. */
  predicate OnTime(config: Config, now: u64, timeout: u64, clock: u64) {
    now - GRACE - config.skew <= clock <= now + timeout + config.skew
  }

  lemma NewWindow(config: Config, from: string, req: PaymentRequirements, now: u64, nonce: Bytes32, notes: seq<NoteRef>, clock: u64)
    ensures InWindow(config, clock, NewAuthorization(from, req, now, nonce, notes)) <==>
            OnTime(config, now, req.maxTimeoutSeconds, clock)
  {
    hide MinFee, Base58.Encode;
  }

  /** A payload signed by the key its payer is named after is accepted exactly on time, once, and in NOCK. */
  lemma SignedAcceptedIff(
    config: Config, st: State, mode: ReplayMode, schnorr: Schnorr, tip5: HashText.Tip5, sk: nat, bytes: seq<byte>,
    req: PaymentRequirements, now: u64, nonce: Bytes32, notes: seq<NoteRef>, raw: Option<SignedRawTx>, echo: BazaarField)
    requires schnorr.Sound() && ToNockchain(config, schnorr, tip5, req)
    requires schnorr.pointBytes(schnorr.publicKey(sk)) == Some(bytes)
    requires
      var auth := NewAuthorization(PkhFromPubkeyBytes(tip5, bytes), req, now, nonce, notes);
      MessageDigest(tip5, auth).Ok? && SignDigest(schnorr, sk, MessageDigest(tip5, auth).value).Ok?
    ensures
      var auth := NewAuthorization(PkhFromPubkeyBytes(tip5, bytes), req, now, nonce, notes);
      var signature := SignDigest(schnorr, sk, MessageDigest(tip5, auth).value).value;
      var request := Request(Wrap(req, ExactPayload(signature, auth, raw), echo), req);
      CheckEnvelope(config, st, request, mode).0.Ok? <==>
      && req.asset == NATIVE_ASSET
      && OnTime(config, now, req.maxTimeoutSeconds, st.now)
      && (mode.Consume? ==> !Remembered(config, st.now, st.cache, Base58.Encode(nonce)))
  {
    var auth := NewAuthorization(PkhFromPubkeyBytes(tip5, bytes), req, now, nonce, notes);
    var signature := SignDigest(schnorr, sk, MessageDigest(tip5, auth).value).value;
    var exact := ExactPayload(signature, auth, raw);
    FieldsOkIff(tip5, auth);
    SignedVerifies(schnorr, tip5, sk, bytes, auth);
    SignedIsAcceptable(config, schnorr, tip5, req, exact, echo);
    EnvelopeAcceptsIff(config, st, Request(Wrap(req, exact, echo), req), mode);
    NewWindow(config, auth.from, req, now, nonce, notes, st.now);
    hide MessageDigest, SignDigest, VerifyPayment, CheckEnvelope, Acceptable, Admission, InWindow, OnTime, Remembered;
    hide PkhFromPubkeyBytes, Base58.Encode, MinFee, ToNockchain, ParseU64, DecodeHash, NotesHash;
  }

  /**
   An honest payment is accepted: whatever the builder returns, the facilitator's
   envelope check accepts exactly while its clock is between the client's clock less
   the grace and the skew and the client's clock plus the timeout and the skew, as
   long as the nonce is fresh and the asset is NOCK.
   */
  lemma HonestPaymentAcceptedIff(
    config: Config, st: State, mode: ReplayMode, schnorr: Schnorr, tip5: HashText.Tip5, sk: nat, signer: NockchainSigner,
    req: PaymentRequirements, now: u64, nonce: Bytes32, first: Bytes32, last: Bytes32, echo: BazaarField)
    requires schnorr.Sound() && ToNockchain(config, schnorr, tip5, req)
    requires NewSigner(schnorr, tip5, sk) == Ok(signer)
    requires BuildPayload(schnorr, tip5, signer, req, now, nonce, first, last, echo).Ok?
    ensures
      var payload := BuildPayload(schnorr, tip5, signer, req, now, nonce, first, last, echo).value;
      CheckEnvelope(config, st, Request(payload, req), mode).0.Ok? <==>
      && req.asset == NATIVE_ASSET
      && OnTime(config, now, req.maxTimeoutSeconds, st.now)
      && (mode.Consume? ==> !Remembered(config, st.now, st.cache, Base58.Encode(nonce)))
  {
    var notes := [PlaceholderNote(req, first, last)];
    hide MessageDigest, SignDigest, PkhFromPubkeyBytes, Base58.Encode, MinFee, ToNockchain, CheckEnvelope, OnTime, Remembered;
    var bytes := schnorr.pointBytes(schnorr.publicKey(sk)).value;
    SignedAcceptedIff(config, st, mode, schnorr, tip5, sk, bytes, req, now, nonce, notes, None, echo);
  }

  /**
   An honest payment that echoes an extension puts the resource into the catalog: when
   it is valid and the extension meets its own schema, the reply says so, and the
   listing for its kind, network and scheme shows it.
   */
  lemma HonestPaymentCataloged(
    config: Config, st: State, schnorr: Schnorr, tip5: HashText.Tip5, signer: NockchainSigner, req: PaymentRequirements,
    now: u64, nonce: Bytes32, first: Bytes32, last: Bytes32, ext: BazaarExtension, stamp: string, p: ListParams)
    requires BuildPayload(schnorr, tip5, signer, req, now, nonce, first, last, Echoed(ext)).Ok? && UniqueKeys(st.catalog)
    requires p.network == Some(req.network) && p.scheme == Some(req.scheme)
    requires p.kind == Some(if ext.info.input.Mcp? then "mcp" else "http")
    ensures
      var payload := BuildPayload(schnorr, tip5, signer, req, now, nonce, first, last, Echoed(ext)).value;
      var (reply, after) := HandleVerify(config, st, Request(payload, req), stamp);
      reply.body.Ok? && config.schemaCheck(ext) ==>
        reply.header == Some(Cataloged) && Listed(after.catalog, p, req, ext.info)
  {
    hide BuildPayload, HandleVerify, Listed, UniqueKeys;
    PayloadResponds(schnorr, tip5, signer, req, now, nonce, first, last, Echoed(ext));
    var request := Request(
      BuildPayload(schnorr, tip5, signer, req, now, nonce, first, last, Echoed(ext)).value, req);
    if HandleVerify(config, st, request, stamp).0.body.Ok? && config.schemaCheck(ext) {
      ValidIsListed(config, st, request, stamp, p);
    }
  }

  /**
   The same in every run of the facilitator: an honest payment is accepted exactly on
   time, in NOCK, and if nobody has passed with its nonce lately.
   */
  lemma HonestPaymentInRun(
    config: Config, events: seq<Event>, schnorr: Schnorr, tip5: HashText.Tip5, sk: nat, signer: NockchainSigner,
    req: PaymentRequirements, now: u64, nonce: Bytes32, first: Bytes32, last: Bytes32, echo: BazaarField)
    requires schnorr.Sound() && ToNockchain(config, schnorr, tip5, req)
    requires NewSigner(schnorr, tip5, sk) == Ok(signer)
    requires BuildPayload(schnorr, tip5, signer, req, now, nonce, first, last, echo).Ok?
    ensures
      var payload := BuildPayload(schnorr, tip5, signer, req, now, nonce, first, last, echo).value;
      var m := Run(config, INITIAL, events);
      CheckEnvelope(config, m.st, Request(payload, req), Consume).0.Ok? <==>
      && req.asset == NATIVE_ASSET
      && OnTime(config, now, req.maxTimeoutSeconds, m.st.now)
      && !PassedLately(config, m, Base58.Encode(nonce))
  {
    hide Run, BuildPayload, NewSigner, ToNockchain, CheckEnvelope, OnTime, PassedLately, Remembered, Base58.Encode;
    HonestPaymentAcceptedIff(
      config, Run(config, INITIAL, events).st, Consume, schnorr, tip5, sk, signer, req, now, nonce, first, last, echo);
    RememberedIff(config, events, Base58.Encode(nonce));
  }

  // ---------------------------------------------------------------------------
  // The wallet's payment, from end to end
  // ---------------------------------------------------------------------------

  /** The wallet's envelope name is the hash of its own key. */
  predicate OwnKey(wallet: Wallet, schnorr: Schnorr, tip5: HashText.Tip5) {
    var point := schnorr.pointBytes(schnorr.publicKey(KeyScalar(wallet.sk)));
    point.Some? && wallet.payerPkhEnvelope == PkhFromPubkeyBytes(tip5, point.value)
  }

  lemma AuthorizeParts(wallet: Wallet, kernel: Kernel, codec: Codec, schnorr: Schnorr, tip5: HashText.Tip5, auth: Authorization)
    requires Authorize(wallet, kernel, codec, schnorr, tip5, auth).Ok?
    ensures
      var signed := Authorize(wallet, kernel, codec, schnorr, tip5, auth).value;
      && MessageDigest(tip5, auth).Ok?
      && SignDigest(schnorr, KeyScalar(wallet.sk), MessageDigest(tip5, auth).value) == Ok(signed.envelopeSignature)
  {
    hide MessageDigest, SignDigest, KeyScalar, BuildRawTx;
    hide codec.Print;
  }

  /**
   The transaction spends exactly the payer's note: the requested amount to the payee,
   the fee asked for, and any change to the payer's envelope name. Whether the payer can
   spend that change is another matter: see ChangeReturnsIff.
   */
  ghost predicate PaysAsAsked(wallet: Wallet, kernel: Kernel, req: PaymentRequirements, auth: Authorization, raw: RawTx) {
    && SpendsNote(wallet, kernel, auth, raw)
    && var spend := raw.spends[0].spend.spend1;
    && ParseU64(req.maxAmountRequired) == Some(spend.seeds[0].gift)
    && PaysTo(kernel, spend.seeds[0], req.payTo, "auth.to")
    && ParseU64(MinFee(req)) == Some(spend.fee)
    && (|spend.seeds| == 2 ==> PaysTo(kernel, spend.seeds[1], wallet.payerPkhEnvelope, "auth.change_address"))
  }

  /** What comparing a transaction with its request would take: a gift of the amount, locked to the payee. */
  ghost predicate SomeGiftPays(kernel: Kernel, req: PaymentRequirements, raw: RawTx) {
    exists i, j ::
      && 0 <= i < |raw.spends| && raw.spends[i].spend.Witnessed? && 0 <= j < |raw.spends[i].spend.spend1.seeds|
      && ParseU64(req.maxAmountRequired) == Some(raw.spends[i].spend.spend1.seeds[j].gift)
      && PaysTo(kernel, raw.spends[i].spend.spend1.seeds[j], req.payTo, "auth.to")
  }

  /** A wallet's payload carries a transaction that pays as asked. */
  lemma WalletTransactionPays(
    wallet: Wallet, kernel: Kernel, codec: Codec, schnorr: Schnorr, tip5: HashText.Tip5, req: PaymentRequirements,
    notes: seq<NoteRef>, now: u64, nonce: Bytes32, echo: BazaarField)
    requires codec.Lawful() && kernel.InFieldOutputs() && InField(wallet.payerPkhChain)
    requires BuildPayloadWithWallet(wallet, kernel, codec, schnorr, tip5, req, notes, now, nonce, echo).Ok?
    ensures
      var payload := BuildPayloadWithWallet(wallet, kernel, codec, schnorr, tip5, req, notes, now, nonce, echo).value;
      && payload.payload.Decoded?
      && var raw := DecodeForSubmit(codec, payload.payload);
      && raw.Ok? && PaysAsAsked(wallet, kernel, req, payload.payload.exact.authorization, raw.value.0)
      && SomeGiftPays(kernel, req, raw.value.0) && kernel.txId(raw.value.0.spends) == Some(raw.value.0.id)
  {
    hide Authorize, Base58.Encode, MinFee, SpendsNote, PaysAsAsked, SomeGiftPays, InField;
    hide codec.Parse, codec.Lawful;
    var auth := NewAuthorization(wallet.payerPkhEnvelope, req, now, nonce, notes);
    ThroughTheWire(wallet, kernel, codec, schnorr, tip5, auth);
    var signed := Authorize(wallet, kernel, codec, schnorr, tip5, auth).value.signedRawTx;
    SpendingPays(wallet, kernel, req, auth, codec.Parse(signed).value);
  }

  lemma SpendingPays(wallet: Wallet, kernel: Kernel, req: PaymentRequirements, auth: Authorization, raw: RawTx)
    requires SpendsNote(wallet, kernel, auth, raw)
    requires auth.to == req.payTo && auth.value == req.maxAmountRequired && auth.fee == MinFee(req)
    requires auth.changeAddress == wallet.payerPkhEnvelope
    ensures PaysAsAsked(wallet, kernel, req, auth, raw) && SomeGiftPays(kernel, req, raw)
    ensures kernel.txId(raw.spends) == Some(raw.id)
  {
    hide MinFee, PaysTo, SignedByPayer, NamesNote, Gifts, ParseU64;
  }

  /** The lock root is that of a condition which the wallet's witness can present. */
  ghost predicate CanOpen(wallet: Wallet, kernel: Kernel, root: Hash) {
    exists lock: NoteLock :: kernel.lockHash(InputCondition(wallet.payerPkhChain, lock)) == Some(root)
  }

  /** The plain lock of this name has the hash of no other condition that the wallet can present. */
  ghost predicate NoCollision(wallet: Wallet, kernel: Kernel, name: Hash) {
    forall lock: NoteLock ::
      kernel.lockHash(Chain.SimplePkh(name)).Some?
      && kernel.lockHash(InputCondition(wallet.payerPkhChain, lock)) == kernel.lockHash(Chain.SimplePkh(name)) ==>
        InputCondition(wallet.payerPkhChain, lock) == Chain.SimplePkh(name)
  }

  /**
   When the change comes back: the builder sends it to the envelope name, while the
   wallet's witness opens locks of the chain name only. So the wallet can spend its own
   change if and only if the two names are one digest.
   */
  lemma ChangeReturnsIff(
    wallet: Wallet, kernel: Kernel, codec: Codec, schnorr: Schnorr, tip5: HashText.Tip5, req: PaymentRequirements,
    notes: seq<NoteRef>, now: u64, nonce: Bytes32, echo: BazaarField)
    requires codec.Lawful() && kernel.InFieldOutputs() && InField(wallet.payerPkhChain)
    requires BuildPayloadWithWallet(wallet, kernel, codec, schnorr, tip5, req, notes, now, nonce, echo).Ok?
    requires
      var name := DecodeHash(wallet.payerPkhEnvelope, "auth.change_address");
      name.Ok? ==> NoCollision(wallet, kernel, name.value)
    ensures
      var payload := BuildPayloadWithWallet(wallet, kernel, codec, schnorr, tip5, req, notes, now, nonce, echo).value;
      var raw := DecodeForSubmit(codec, payload.payload);
      && raw.Ok? && |raw.value.0.spends| == 1 && raw.value.0.spends[0].spend.Witnessed?
      && var seeds := raw.value.0.spends[0].spend.spend1.seeds;
      && (|seeds| == 2 ==>
            (CanOpen(wallet, kernel, seeds[1].lockRoot) <==>
             DecodeHash(wallet.payerPkhEnvelope, "auth.change_address") == Ok(wallet.payerPkhChain)))
  {
    WalletTransactionPays(wallet, kernel, codec, schnorr, tip5, req, notes, now, nonce, echo);
    var payload := BuildPayloadWithWallet(wallet, kernel, codec, schnorr, tip5, req, notes, now, nonce, echo).value;
    var raw := DecodeForSubmit(codec, payload.payload).value.0;
    hide BuildPayloadWithWallet, DecodeForSubmit, DecodeHash, SomeGiftPays, ParseU64, MinFee, Conserves, NamesNote;
    hide SignedByPayer, Pays, Gifts, InField;
    if |raw.spends[0].spend.spend1.seeds| == 2 {
      OpensIff(wallet, kernel, DecodeHash(wallet.payerPkhEnvelope, "auth.change_address").value,
               raw.spends[0].spend.spend1.seeds[1].lockRoot);
    }
  }

  lemma OpensIff(wallet: Wallet, kernel: Kernel, name: Hash, root: Hash)
    requires kernel.lockHash(Chain.SimplePkh(name)) == Some(root) && NoCollision(wallet, kernel, name)
    ensures CanOpen(wallet, kernel, root) <==> name == wallet.payerPkhChain
  {
    if name == wallet.payerPkhChain {
      assert InputCondition(wallet.payerPkhChain, NoteLock.SimplePkh) == Chain.SimplePkh(name);
    }
  }

  /** It is accepted exactly on time, with a fresh nonce and in NOCK. */
  lemma WalletPaymentAcceptedIff(
    config: Config, st: State, mode: ReplayMode, wallet: Wallet, kernel: Kernel, codec: Codec, schnorr: Schnorr,
    tip5: HashText.Tip5, req: PaymentRequirements, notes: seq<NoteRef>, now: u64, nonce: Bytes32, echo: BazaarField)
    requires schnorr.Sound() && ToNockchain(config, schnorr, tip5, req) && OwnKey(wallet, schnorr, tip5)
    requires BuildPayloadWithWallet(wallet, kernel, codec, schnorr, tip5, req, notes, now, nonce, echo).Ok?
    ensures
      var payload := BuildPayloadWithWallet(wallet, kernel, codec, schnorr, tip5, req, notes, now, nonce, echo).value;
      CheckEnvelope(config, st, Request(payload, req), mode).0.Ok? <==>
      && req.asset == NATIVE_ASSET
      && OnTime(config, now, req.maxTimeoutSeconds, st.now)
      && (mode.Consume? ==> !Remembered(config, st.now, st.cache, Base58.Encode(nonce)))
  {
    var auth := NewAuthorization(wallet.payerPkhEnvelope, req, now, nonce, notes);
    AuthorizeParts(wallet, kernel, codec, schnorr, tip5, auth);
    var bytes := schnorr.pointBytes(schnorr.publicKey(KeyScalar(wallet.sk))).value;
    hide Authorize, MessageDigest, SignDigest, KeyScalar, PkhFromPubkeyBytes, Base58.Encode, MinFee;
    hide ToNockchain, CheckEnvelope, OnTime, Remembered;
    var signed := Authorize(wallet, kernel, codec, schnorr, tip5, auth).value;
    SignedAcceptedIff(
      config, st, mode, schnorr, tip5, KeyScalar(wallet.sk), bytes, req, now, nonce, notes, Some(signed.signedRawTx), echo);
  }

  /**
   One wallet payment, followed through `/settle` to the node: on time and in NOCK,
   exactly one transaction is submitted, under the id the kernel gives it, it pays as asked, and the reply
   is the node's answer to it; otherwise nothing is submitted and the reply is an error.
   */
  lemma WalletPaymentEndToEnd(
    config: Config, st: State, wallet: Wallet, kernel: Kernel, schnorr: Schnorr, tip5: HashText.Tip5,
    req: PaymentRequirements, notes: seq<NoteRef>, now: u64, nonce: Bytes32, echo: BazaarField, stamp: string)
    requires schnorr.Sound() && ToNockchain(config, schnorr, tip5, req) && OwnKey(wallet, schnorr, tip5)
    requires config.chain.GrpcClient? && config.chain.codec.Lawful()
    requires kernel.InFieldOutputs() && InField(wallet.payerPkhChain)
    requires BuildPayloadWithWallet(wallet, kernel, config.chain.codec, schnorr, tip5, req, notes, now, nonce, echo).Ok?
    ensures
      var payload :=
        BuildPayloadWithWallet(wallet, kernel, config.chain.codec, schnorr, tip5, req, notes, now, nonce, echo).value;
      var sent := Submitted(config, st, Request(payload, req));
      var reply := HandleSettle(config, st, Request(payload, req), stamp).0.body;
      && payload.payload.Decoded?
      && if req.asset == NATIVE_ASSET && OnTime(config, now, req.maxTimeoutSeconds, st.now) then
           && |sent| == 1
           && PaysAsAsked(wallet, kernel, req, payload.payload.exact.authorization, sent[0])
           && kernel.txId(sent[0].spends) == Some(sent[0].id)
           && exists txId ::
                HashOf(txId, "tx_id") == Ok(sent[0].id) && AnsweredWith(config.chain.answer(sent[0], txId), txId, reply)
         else sent == [] && reply.Err?
  {
    var codec := config.chain.codec;
    var payload := BuildPayloadWithWallet(wallet, kernel, codec, schnorr, tip5, req, notes, now, nonce, echo).value;
    WalletTransactionPays(wallet, kernel, codec, schnorr, tip5, req, notes, now, nonce, echo);
    WalletPaymentAcceptedIff(config, st, Skip, wallet, kernel, codec, schnorr, tip5, req, notes, now, nonce, echo);
    SubmittedIdIsOwn(codec, payload.payload);
    SettleReply(config, st, Request(payload, req), stamp);
    hide BuildPayloadWithWallet, CheckEnvelope, HandleSettle, Submitted, OnTime, PaysAsAsked, SomeGiftPays, ToNockchain;
    hide DecodeForSubmit, OwnKey, InField;
  }
}
