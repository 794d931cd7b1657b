/** The facilitator: envelope check, replay cache, cataloging, and the two endpoints. */
module Facilitator {
  import opened Bazaar
  import opened Catalog
  import opened Chain
  import opened Crypto
  import opened Decimal
  import opened Envelope
  import opened HashText
  import opened Json
  import opened Payment
  import opened Scheme
  import opened Settlement
  import opened Stores
  import opened Wrappers

  datatype ReplayMode = Consume | Skip

  datatype SettleError = BadEnvelope(error: VerifyError) | HandlerGone | ChainFailed(chainError: ChainError)

  /** How the bazaar extension fared, as reported in the response header. */
  datatype BazaarOutcome = Cataloged | Declined

  /** What an operator configures, the schema validator, and the chain client. */
  datatype Config = Config(
    skew: u64,
    ttl: nat,
    handlers: seq<Handler>,
    schemaCheck: BazaarExtension -> bool,
    chain: ChainClient)

  /** Replay keys and when each was recorded. */
  type Cache = map<string, u64>

  datatype State = State(now: u64, cache: Cache, catalog: Rows)

  // ---------------------------------------------------------------------------
  // The envelope check
  // ---------------------------------------------------------------------------

  /** Everything before the window: version, scheme, network, registry, decode. */
  function Admission(config: Config, req: Request): Result<Authorization, VerifyError> {
    if req.payload.x402Version != 2 then Err(SpecCoded("invalid_version"))
    else if req.payload.scheme != req.requirements.scheme then Err(SpecCoded("invalid_scheme"))
    else if req.payload.network != req.requirements.network then Err(SpecCoded("invalid_network"))
    else
      match HandlerFor(config.handlers, req.requirements.scheme, req.requirements.network)
      case None => Err(UnknownScheme(req.requirements.scheme, req.requirements.network))
      case Some(handler) => handler.extract(req.payload)
  }

  function SaturatingAdd(a: u64, b: u64): u64 {
    if a + b > U64_MAX then U64_MAX else a + b
  }

  function SaturatingSub(a: u64, b: u64): u64 {
    if a < b then 0 else a - b
  }

  function CheckTimeWindow(config: Config, now: u64, auth: Authorization): Result<(), VerifyError> {
    if auth.validAfter > SaturatingAdd(now, config.skew) || auth.validBefore < SaturatingSub(now, config.skew) then
      Err(OutsideTimeWindow(now, auth.validAfter, auth.validBefore))
    else Ok(())
  }

  function ReplayKey(nonce: string): string {
    "x402-auth:" + nonce
  }

  /** The key is remembered and its lifetime is not over. */
  predicate Remembered(config: Config, now: u64, cache: Cache, nonce: string) {
    ReplayKey(nonce) in cache && now < cache[ReplayKey(nonce)] + config.ttl
  }

  /** The keys of payments are apart from those of sign-ins, which share the cache, and from one another. */
  lemma KeysAreApart(nonce: string, other: string)
    ensures ReplayKey(nonce) == "x402-auth:" + nonce
    ensures ReplayKey(nonce) != "siwn:" + other
    ensures ReplayKey(nonce) == ReplayKey(other) <==> nonce == other
  {
    assert ReplayKey(nonce)[0] == 'x' && ("siwn:" + other)[0] == 's';
    assert ReplayKey(nonce)[10..] == nonce && ReplayKey(other)[10..] == other;
  }

  function CheckReplay(config: Config, now: u64, cache: Cache, auth: Authorization): (Result<(), VerifyError>, Cache) {
    if Remembered(config, now, cache, auth.nonce) then (Err(NonceReplayed(auth.nonce)), cache)
    else (Ok(()), cache[ReplayKey(auth.nonce) := now])
  }

  function Dispatch(config: Config, req: Request): Result<(), VerifyError> {
    match HandlerFor(config.handlers, req.requirements.scheme, req.requirements.network)
    case None => Err(UnknownScheme(req.requirements.scheme, req.requirements.network))
    case Some(handler) => handler.verify(req.payload, req.requirements)
  }

  function CheckEnvelope(config: Config, st: State, req: Request, mode: ReplayMode): (Result<(), VerifyError>, State) {
    match Admission(config, req)
    case Err(e) => (Err(e), st)
    case Ok(auth) =>
      match CheckTimeWindow(config, st.now, auth)
      case Err(e) => (Err(e), st)
      case Ok(_) =>
        if mode.Skip? then (Dispatch(config, req), st)
        else
          var (unseen, cache) := CheckReplay(config, st.now, st.cache, auth);
          if unseen.Err? then (unseen, st) else (Dispatch(config, req), st.(cache := cache))
  }

  /** The tolerated window over unbounded integers. */
  predicate InWindow(config: Config, now: u64, auth: Authorization) {
    auth.validAfter <= now + config.skew && now <= auth.validBefore + config.skew
  }

  /** The saturating 64-bit edges decide exactly as unbounded integers do. */
  lemma WindowIff(config: Config, now: u64, auth: Authorization)
    ensures CheckTimeWindow(config, now, auth).Ok? <==> InWindow(config, now, auth)
    ensures CheckTimeWindow(config, now, auth).Err? ==>
              CheckTimeWindow(config, now, auth) == Err(OutsideTimeWindow(now, auth.validAfter, auth.validBefore))
  {
  }

  /** The request is well addressed and its own scheme handler is content with it. */
  predicate Acceptable(config: Config, req: Request) {
    Admission(config, req).Ok? && Dispatch(config, req).Ok?
  }

  /** When the envelope check accepts. */
  lemma EnvelopeAcceptsIff(config: Config, st: State, req: Request, mode: ReplayMode)
    ensures CheckEnvelope(config, st, req, mode).0.Ok? <==>
            && Acceptable(config, req)
            && InWindow(config, st.now, Admission(config, req).value)
            && (mode.Consume? ==> !Remembered(config, st.now, st.cache, Admission(config, req).value.nonce))
  {
    hide Admission, Dispatch, Remembered;
    if Admission(config, req).Ok? {
      WindowIff(config, st.now, Admission(config, req).value);
    }
  }

  /**
   The only change an envelope check can make: a fresh nonce, of an admitted
   request inside its window, is recorded now, whatever its handler then says.
   */
  lemma EnvelopeRecordsIff(config: Config, st: State, req: Request, mode: ReplayMode)
    ensures
      var admitted := Admission(config, req);
      var records := mode.Consume? && admitted.Ok? && InWindow(config, st.now, admitted.value)
                     && !Remembered(config, st.now, st.cache, admitted.value.nonce);
      && (records ==> CheckEnvelope(config, st, req, mode) ==
                      (Dispatch(config, req), st.(cache := st.cache[ReplayKey(admitted.value.nonce) := st.now])))
      && (!records ==> CheckEnvelope(config, st, req, mode).1 == st)
  {
    hide Admission, Dispatch, Remembered;
    if Admission(config, req).Ok? {
      WindowIff(config, st.now, Admission(config, req).value);
    }
  }

  /** A nonce that has just passed is turned away until its lifetime is over, and only until then. */
  lemma RecordedUntilExpiry(config: Config, now: u64, cache: Cache, auth: Authorization, later: u64)
    requires CheckReplay(config, now, cache, auth).0.Ok? && now <= later
    ensures CheckReplay(config, later, CheckReplay(config, now, cache, auth).1, auth).0.Ok? <==> now + config.ttl <= later
  {
  }

  /** Under the default registry, exact and upto are the same to the envelope check. */
  lemma RelabellingIsNeutral(
    config: Config, schnorr: Schnorr, tip5: Tip5, st: State, req: Request, mode: ReplayMode, a: string, b: string)
    requires config.handlers == DefaultHandlers(schnorr, tip5)
    requires {a, b} <= {"exact", "upto"}
    ensures
      var asA := Request(req.payload.(scheme := a), req.requirements.(scheme := a));
      var asB := Request(req.payload.(scheme := b), req.requirements.(scheme := b));
      && CheckEnvelope(config, st, asA, mode).1 == CheckEnvelope(config, st, asB, mode).1
      && (CheckEnvelope(config, st, asA, mode).0.Ok? <==> CheckEnvelope(config, st, asB, mode).0.Ok?)
      && (NETWORK_PREFIX <= req.requirements.network ==> CheckEnvelope(config, st, asA, mode) == CheckEnvelope(config, st, asB, mode))
  {
    forall s | s in {"exact", "upto"}
      ensures
        var labelled := Request(req.payload.(scheme := s), req.requirements.(scheme := s));
        && Admission(config, labelled) == NeutralAdmission(req, s)
        && (NETWORK_PREFIX <= req.requirements.network ==>
              Dispatch(config, labelled) == NockchainVerify(schnorr, tip5, req.payload, req.requirements))
    {
      DefaultResolves(schnorr, tip5, s, req.requirements.network);
      var labelled := Request(req.payload.(scheme := s), req.requirements.(scheme := s));
      SchemeIsNotSigned(schnorr, tip5, req, s);
    }
    hide Admission, Dispatch, CheckTimeWindow, CheckReplay, NockchainVerify;
  }

  function NeutralAdmission(req: Request, scheme: string): Result<Authorization, VerifyError> {
    if req.payload.x402Version != 2 then Err(SpecCoded("invalid_version"))
    else if req.payload.network != req.requirements.network then Err(SpecCoded("invalid_network"))
    else if NETWORK_PREFIX <= req.requirements.network then ExtractAuthorization(req.payload)
    else Err(UnknownScheme(scheme, req.requirements.network))
  }

  /** What the default registry resolves: both schemes, on every network under the prefix. */
  lemma DefaultResolves(schnorr: Schnorr, tip5: Tip5, scheme: string, network: string)
    ensures HandlerFor(DefaultHandlers(schnorr, tip5), scheme, network) ==
            if scheme in {"exact", "upto"} && "nockchain:" <= network
            then Some(NockchainHandler(scheme, schnorr, tip5)) else None
  {
    var hs := DefaultHandlers(schnorr, tip5);
    assert HandlerFor(hs[1..][1..], scheme, network) == None;
    assert hs[0].Claims(scheme, network) <==> scheme == "exact" && NETWORK_PREFIX <= network;
    assert hs[1..][0].Claims(scheme, network) <==> scheme == "upto" && NETWORK_PREFIX <= network;
  }

  lemma SchemeIsNotSigned(schnorr: Schnorr, tip5: Tip5, req: Request, s: string)
    ensures NockchainVerify(schnorr, tip5, req.payload.(scheme := s), req.requirements.(scheme := s)) ==
            NockchainVerify(schnorr, tip5, req.payload, req.requirements)
    ensures ExtractAuthorization(req.payload.(scheme := s)) == ExtractAuthorization(req.payload)
  {
    hide VerifyPayment, ParseUnsigned;
  }

  /** The verdict of the default handlers, apart from the clock and the cache. */
  lemma DefaultVerdict(config: Config, schnorr: Schnorr, tip5: Tip5, req: Request)
    requires config.handlers == DefaultHandlers(schnorr, tip5)
    ensures Acceptable(config, req) <==>
            && req.payload.x402Version == 2
            && req.payload.scheme == req.requirements.scheme && req.requirements.scheme in {"exact", "upto"}
            && req.payload.network == req.requirements.network && "nockchain:" <= req.requirements.network
            && req.payload.payload.Decoded?
            && req.payload.payload.exact.authorization.to == req.requirements.payTo
            && VerifyPayment(schnorr, tip5, req.payload.payload.exact.signature, req.payload.payload.exact.authorization).Ok?
            && WithinCap(req.payload.payload.exact.authorization.value, req.requirements.maxAmountRequired)
            && req.requirements.asset == "NOCK"
    ensures Acceptable(config, req) ==> Admission(config, req) == Ok(req.payload.payload.exact.authorization)
  {
    var scheme := req.requirements.scheme;
    DefaultResolves(schnorr, tip5, scheme, req.requirements.network);
    assert NockchainHandler(scheme, schnorr, tip5).extract(req.payload) == ExtractAuthorization(req.payload);
    assert NockchainHandler(scheme, schnorr, tip5).verify(req.payload, req.requirements)
        == NockchainVerify(schnorr, tip5, req.payload, req.requirements);
    if req.payload.payload.Decoded? {
      CheckMaxAmountIff(req.payload.payload.exact.authorization, req.requirements);
    }
    hide HandlerFor, VerifyPayment, ParseUnsigned, CheckMaxAmount, DefaultHandlers, NockchainHandler;
  }

  /**
   The whole acceptance rule of the default facilitator, in one place. A payment may
   be of any amount up to the cap, and no note is looked up.
   */
  lemma DefaultAcceptsIff(config: Config, schnorr: Schnorr, tip5: Tip5, st: State, req: Request, mode: ReplayMode)
    requires config.handlers == DefaultHandlers(schnorr, tip5)
    ensures CheckEnvelope(config, st, req, mode).0.Ok? <==>
            && req.payload.x402Version == 2
            && req.payload.scheme == req.requirements.scheme && req.requirements.scheme in {"exact", "upto"}
            && req.payload.network == req.requirements.network && "nockchain:" <= req.requirements.network
            && req.payload.payload.Decoded?
            && var auth := req.payload.payload.exact.authorization;
            && InWindow(config, st.now, auth)
            && (mode.Consume? ==> !Remembered(config, st.now, st.cache, auth.nonce))
            && auth.to == req.requirements.payTo
            && VerifyPayment(schnorr, tip5, req.payload.payload.exact.signature, auth).Ok?
            && WithinCap(auth.value, req.requirements.maxAmountRequired)
            && req.requirements.asset == "NOCK"
  {
    EnvelopeAcceptsIff(config, st, req, mode);
    DefaultVerdict(config, schnorr, tip5, req);
    hide CheckEnvelope, Acceptable, Admission, VerifyPayment, WithinCap, InWindow, Remembered, DefaultHandlers;
  }

  /**
   Of the amounts asked for, only the cap is held against a payment, and only from
   above; the minimum fee among the extras is not read.
   */
  lemma OnlyTheCapIsChecked(
    config: Config, schnorr: Schnorr, tip5: Tip5, st: State, req: Request, mode: ReplayMode, cap: string, extra: Option<Json>)
    requires config.handlers == DefaultHandlers(schnorr, tip5)
    requires CheckEnvelope(config, st, req, mode).0.Ok?
    ensures req.payload.payload.Decoded?
    ensures
      var other := req.(requirements := req.requirements.(maxAmountRequired := cap, extra := extra));
      CheckEnvelope(config, st, other, mode).0.Ok? <==> WithinCap(req.payload.payload.exact.authorization.value, cap)
  {
    hide CheckEnvelope, VerifyPayment, WithinCap, InWindow, Remembered, DefaultHandlers;
    DefaultAcceptsIff(config, schnorr, tip5, st, req, mode);
    var other := req.(requirements := req.requirements.(maxAmountRequired := cap, extra := extra));
    DefaultAcceptsIff(config, schnorr, tip5, st, other, mode);
  }

  // ---------------------------------------------------------------------------
  // Cataloging
  // ---------------------------------------------------------------------------

  function KindOf(input: DiscoveryInput): string {
    if input.Mcp? then "mcp" else "http"
  }

  function CatalogEntry(req: Request, ext: BazaarExtension, stamp: string): DiscoveryResource {
    DiscoveryResource(
      req.requirements.resource, KindOf(ext.info.input), req.payload.x402Version,
      [req.requirements], stamp, Some(InfoJson(ext.info)))
  }

  /** The entry that cataloging this request writes, if any. */
  function EntryFor(config: Config, req: Request, stamp: string): Option<DiscoveryResource> {
    if req.payload.extensions.Echoed? && config.schemaCheck(req.payload.extensions.ext)
    then Some(CatalogEntry(req, req.payload.extensions.ext, stamp)) else None
  }

  function Process(config: Config, st: State, req: Request, stamp: string): (Option<BazaarOutcome>, State) {
    match EntryFor(config, req, stamp)
    case Some(entry) => (Some(Cataloged), st.(catalog := Catalog.Put(st.catalog, entry)))
    case None => (if req.payload.extensions.NoBazaar? then None else Some(Declined), st)
  }

  /** What is true of an entry written for an accepted request, whoever wrote it. */
  predicate EntryOk(config: Config, r: DiscoveryResource) {
    && r.x402Version == 2
    && r.kind in {"http", "mcp"}
    && |r.accepts| == 1
    && r.accepts[0].resource == r.resource
    && HandlerFor(config.handlers, r.accepts[0].scheme, r.accepts[0].network).Some?
  }

  ghost predicate CatalogOk(config: Config, rows: Rows) {
    UniqueKeys(rows) && forall r :: r in rows ==> EntryOk(config, r)
  }

  lemma InputTag(input: DiscoveryInput)
    ensures InputJson(input).Object? && "type" in InputJson(input).fields
    ensures InputJson(input).fields["type"] == Str(KindOf(input))
  {
    hide ParamsJson, HeadersJson, TextJson, TransportJson;
    match input
    case Query(_, _, _) =>
    case Body(_, _, _, _, _) =>
    case Mcp(_, _, _, _, _) =>
  }

  /** An entry's kind is the type tag of the block stored with it. */
  lemma EntryKindIsItsTag(config: Config, req: Request, stamp: string)
    requires EntryFor(config, req, stamp).Some?
    ensures
      var r := EntryFor(config, req, stamp).value;
      && r.resource == req.requirements.resource && r.accepts == [req.requirements] && r.lastUpdated == stamp
      && r.metadata.Some? && r.metadata.value.Object? && "input" in r.metadata.value.fields
      && var input := r.metadata.value.fields["input"];
      && input.Object? && "type" in input.fields && input.fields["type"] == Str(r.kind)
  {
    hide InputJson, OutputJson, KindOf;
    InputTag(req.payload.extensions.ext.info.input);
  }

  /** Which listings show an entry: those for its kind, and for the network and scheme of its one requirement. */
  lemma EntryMeetsIff(config: Config, req: Request, stamp: string, p: ListParams)
    requires EntryFor(config, req, stamp).Some?
    ensures Meets(p, EntryFor(config, req, stamp).value) <==>
            && (p.kind.Some? ==> p.kind.value == if req.payload.extensions.ext.info.input.Mcp? then "mcp" else "http")
            && (p.network.Some? ==> p.network.value == req.requirements.network)
            && (p.scheme.Some? ==> p.scheme.value == req.requirements.scheme)
  {
    hide InfoJson;
    var r := EntryFor(config, req, stamp).value;
    assert r.accepts[0] == req.requirements;
  }

  lemma AdmittedEntryOk(config: Config, req: Request, stamp: string)
    requires Admission(config, req).Ok? && EntryFor(config, req, stamp).Some?
    ensures EntryOk(config, EntryFor(config, req, stamp).value)
  {
    hide HandlerFor;
  }

  // ---------------------------------------------------------------------------
  // The endpoints
  // ---------------------------------------------------------------------------

  datatype Reply<+T, +E> = Reply(body: Result<T, E>, header: Option<BazaarOutcome>)

  function HandleVerify(config: Config, st: State, req: Request, stamp: string): (Reply<(), VerifyError>, State) {
    var (result, checked) := CheckEnvelope(config, st, req, Consume);
    if result.Err? then (Reply(result, None), checked)
    else
      var (outcome, cataloged) := Process(config, checked, req, stamp);
      (Reply(Ok(()), outcome), cataloged)
  }

  function SubmitToChain(config: Config, req: Request): Result<ChainSettle, SettleError> {
    if HandlerFor(config.handlers, req.requirements.scheme, req.requirements.network).None? then Err(HandlerGone)
    else
      match SettleWith(config.chain, req.payload.payload)
      case Err(e) => Err(ChainFailed(e))
      case Ok(settled) => Ok(settled)
  }

  /** The transactions that `/settle` hands to the node for this request. */
  function Submitted(config: Config, st: State, req: Request): seq<RawTx> {
    if CheckEnvelope(config, st, req, Skip).0.Err? then []
    else if HandlerFor(config.handlers, req.requirements.scheme, req.requirements.network).None? then []
    else Submissions(config.chain, req.payload.payload)
  }

  function HandleSettle(config: Config, st: State, req: Request, stamp: string): (Reply<ChainSettle, SettleError>, State) {
    var (result, checked) := CheckEnvelope(config, st, req, Skip);
    if result.Err? then (Reply(Err(BadEnvelope(result.error)), None), checked)
    else
      var (outcome, cataloged) := Process(config, checked, req, stamp);
      (Reply(SubmitToChain(config, req), outcome), cataloged)
  }

  /**
   Why a request is refused: the first check that it fails, in the order version,
   scheme, network, registry, payload, window, nonce, handler.
   */
  predicate Refuses(config: Config, st: State, req: Request, mode: ReplayMode, e: VerifyError) {
    var handler := HandlerFor(config.handlers, req.requirements.scheme, req.requirements.network);
    if req.payload.x402Version != 2 then e == SpecCoded("invalid_version")
    else if req.payload.scheme != req.requirements.scheme then e == SpecCoded("invalid_scheme")
    else if req.payload.network != req.requirements.network then e == SpecCoded("invalid_network")
    else if handler.None? then e == UnknownScheme(req.requirements.scheme, req.requirements.network)
    else if handler.value.extract(req.payload).Err? then e == handler.value.extract(req.payload).error
    else
      var auth := handler.value.extract(req.payload).value;
      if !InWindow(config, st.now, auth) then e == OutsideTimeWindow(st.now, auth.validAfter, auth.validBefore)
      else if mode.Consume? && Remembered(config, st.now, st.cache, auth.nonce) then e == NonceReplayed(auth.nonce)
      else handler.value.verify(req.payload, req.requirements) == Err(e)
  }

  lemma RefusedIff(config: Config, st: State, req: Request, mode: ReplayMode, e: VerifyError)
    ensures CheckEnvelope(config, st, req, mode).0 == Err(e) <==> Refuses(config, st, req, mode, e)
  {
    if Admission(config, req).Ok? {
      WindowIff(config, st.now, Admission(config, req).value);
    }
    hide HandlerFor, InWindow, CheckTimeWindow, Remembered;
  }

  /** Why the default facilitator refuses, check by check. */
  predicate DefaultRefuses(
    config: Config, schnorr: Schnorr, tip5: Tip5, st: State, req: Request, mode: ReplayMode, e: VerifyError)
  {
    var scheme, network := req.requirements.scheme, req.requirements.network;
    if req.payload.x402Version != 2 then e == SpecCoded("invalid_version")
    else if req.payload.scheme != scheme then e == SpecCoded("invalid_scheme")
    else if req.payload.network != network then e == SpecCoded("invalid_network")
    else if scheme !in {"exact", "upto"} || !("nockchain:" <= network) then e == UnknownScheme(scheme, network)
    else if req.payload.payload.Undecodable? then e == SpecCoded("invalid_payload")
    else
      var auth := req.payload.payload.exact.authorization;
      if !InWindow(config, st.now, auth) then e == OutsideTimeWindow(st.now, auth.validAfter, auth.validBefore)
      else if mode.Consume? && Remembered(config, st.now, st.cache, auth.nonce) then e == NonceReplayed(auth.nonce)
      else Refused(schnorr, tip5, req.payload, req.requirements, e)
  }

  lemma DefaultRefusedIff(
    config: Config, schnorr: Schnorr, tip5: Tip5, st: State, req: Request, mode: ReplayMode, e: VerifyError)
    requires config.handlers == DefaultHandlers(schnorr, tip5)
    ensures CheckEnvelope(config, st, req, mode).0 == Err(e) <==> DefaultRefuses(config, schnorr, tip5, st, req, mode, e)
  {
    RefusedIff(config, st, req, mode, e);
    DefaultResolves(schnorr, tip5, req.requirements.scheme, req.requirements.network);
    NockchainRefusals(schnorr, tip5, req.payload, req.requirements, e);
    hide CheckEnvelope, HandlerFor, DefaultHandlers, NockchainVerify, Refused, InWindow, Remembered;
  }

  /** What the response header says of the bazaar extension of an accepted request. */
  predicate Reports(config: Config, req: Request, header: Option<BazaarOutcome>) {
    match req.payload.extensions
    case NoBazaar => header == None
    case MalformedBazaar => header == Some(Declined)
    case Echoed(ext) => header == Some(if config.schemaCheck(ext) then Cataloged else Declined)
  }

  /**
   What `/verify` replies. It says valid exactly of an acceptable request inside its
   window with a fresh nonce, otherwise it names the first check that fails; the header
   reports on the extension of a valid request only, and the catalog gains exactly the
   entry that the header reports.
   */
  lemma VerifyReply(config: Config, st: State, req: Request, stamp: string)
    ensures
      var (reply, after) := HandleVerify(config, st, req, stamp);
      && (reply.body.Ok? <==>
            && Acceptable(config, req)
            && InWindow(config, st.now, Admission(config, req).value)
            && !Remembered(config, st.now, st.cache, Admission(config, req).value.nonce))
      && (forall e :: reply.body == Err(e) <==> Refuses(config, st, req, Consume, e))
      && (if reply.body.Err? then reply.header == None else Reports(config, req, reply.header))
      && after.catalog == (if reply.header == Some(Cataloged)
                           then Catalog.Put(st.catalog, EntryFor(config, req, stamp).value) else st.catalog)
  {
    EnvelopeAcceptsIff(config, st, req, Consume);
    EnvelopeRecordsIff(config, st, req, Consume);
    forall e
      ensures CheckEnvelope(config, st, req, Consume).0 == Err(e) <==> Refuses(config, st, req, Consume, e)
    {
      RefusedIff(config, st, req, Consume, e);
    }
    hide CheckEnvelope, Acceptable, Admission, InWindow, Remembered, Refuses, Catalog.Put, CatalogEntry;
  }

  /** The catalog shows this resource, under these requirements, with this block, to whoever lists so. */
  ghost predicate Listed(rows: Rows, p: ListParams, req: PaymentRequirements, info: DiscoveryInfo) {
    exists r :: r in Matching(rows, p) && r.resource == req.resource && r.accepts == [req] && r.metadata == Some(InfoJson(info))
  }

  /** A valid request whose extension meets its own schema is listed for its kind, network and scheme. */
  lemma ValidIsListed(config: Config, st: State, req: Request, stamp: string, p: ListParams)
    requires UniqueKeys(st.catalog) && HandleVerify(config, st, req, stamp).0.body.Ok?
    requires req.payload.extensions.Echoed? && config.schemaCheck(req.payload.extensions.ext)
    requires p.kind.Some? ==> p.kind.value == if req.payload.extensions.ext.info.input.Mcp? then "mcp" else "http"
    requires p.network.Some? ==> p.network.value == req.requirements.network
    requires p.scheme.Some? ==> p.scheme.value == req.requirements.scheme
    ensures HandleVerify(config, st, req, stamp).0.header == Some(Cataloged)
    ensures Listed(HandleVerify(config, st, req, stamp).1.catalog, p, req.requirements, req.payload.extensions.ext.info)
  {
    hide HandleVerify, Refuses, Acceptable, Admission, InWindow, Remembered, InfoJson, Matching, Meets, Catalog.Put, UniqueKeys;
    VerifyReply(config, st, req, stamp);
    var r := EntryFor(config, req, stamp).value;
    EntryMeetsIff(config, req, stamp, p);
    PutKeeps(st.catalog, r);
    MatchingHas(Catalog.Put(st.catalog, r), p, r);
  }

  /** What `/settle` replies, as far as the envelope and the extension go. */
  lemma SettleEnvelopeReply(config: Config, st: State, req: Request, stamp: string)
    ensures
      var (reply, after) := HandleSettle(config, st, req, stamp);
      var accepted := Acceptable(config, req) && InWindow(config, st.now, Admission(config, req).value);
      && (accepted <==> !(reply.body.Err? && reply.body.error.BadEnvelope?))
      && (forall e :: reply.body == Err(BadEnvelope(e)) <==> Refuses(config, st, req, Skip, e))
      && (if accepted then Reports(config, req, reply.header) else reply.header == None)
      && after == (if reply.header == Some(Cataloged)
                   then st.(catalog := Catalog.Put(st.catalog, EntryFor(config, req, stamp).value)) else st)
  {
    EnvelopeAcceptsIff(config, st, req, Skip);
    EnvelopeRecordsIff(config, st, req, Skip);
    forall e
      ensures CheckEnvelope(config, st, req, Skip).0 == Err(e) <==> Refuses(config, st, req, Skip, e)
    {
      RefusedIff(config, st, req, Skip, e);
    }
    hide CheckEnvelope, Acceptable, Admission, InWindow, Remembered, Refuses, Catalog.Put, CatalogEntry, SettleWith, HandlerFor;
  }

  /** With the stub client, an accepted payment is settled at once under a name made of its nonce, and nothing is submitted. */
  lemma StubReply(config: Config, st: State, req: Request, stamp: string)
    requires config.chain.StubClient?
    ensures Submitted(config, st, req) == []
    ensures CheckEnvelope(config, st, req, Skip).0.Ok? ==>
              var reply := HandleSettle(config, st, req, stamp).0.body;
              && reply.Ok? && reply.value.status == Broadcast
              && reply.value.txId == "stub-tx-" + (if req.payload.payload.Decoded?
                                                   then req.payload.payload.exact.authorization.nonce else "unknown-nonce")
  {
    EnvelopeAcceptsIff(config, st, req, Skip);
    AdmittedResolves(config, req);
    hide CheckEnvelope, Admission, Dispatch, HandlerFor, Process;
  }

  /** A node's answer to a submission, as `/settle` replies it. */
  predicate AnsweredWith(answer: Result<bool, string>, txId: string, reply: Result<ChainSettle, SettleError>) {
    match answer
    case Err(m) => reply == Err(ChainFailed(Transport(m)))
    case Ok(inTime) =>
      && reply.Ok? && reply.value.txId == txId
      && reply.value.status == if inTime then ChainStatus.Accepted else Processing
  }

  /**
   Over gRPC, `/settle` submits one transaction and replies the node's answer to it, or
   submits nothing and says why: the envelope, no transaction, or one that cannot be read.
   */
  lemma SettleReply(config: Config, st: State, req: Request, stamp: string)
    requires config.chain.GrpcClient?
    ensures
      var codec, payload := config.chain.codec, req.payload.payload;
      var carried := if payload.Decoded? then payload.exact.signedRawTx else None;
      var reply := HandleSettle(config, st, req, stamp).0.body;
      if CheckEnvelope(config, st, req, Skip).0.Err? then
        Submitted(config, st, req) == [] && reply == Err(BadEnvelope(CheckEnvelope(config, st, req, Skip).0.error))
      else if carried.None? then
        Submitted(config, st, req) == [] && reply.Err? && reply.error.ChainFailed? && reply.error.chainError.TxConstructionUnavailable?
      else if codec.Parse(carried.value).Err? then
        Submitted(config, st, req) == [] && reply.Err? && reply.error.ChainFailed? && reply.error.chainError.Rejected?
      else
        var raw, txId := codec.Parse(carried.value).value, carried.value.txId;
        && Submitted(config, st, req) == [raw]
        && AnsweredWith(config.chain.answer(raw, txId), txId, reply)
        && DecodeForSubmit(codec, payload) == Ok((raw, txId))
  {
    EnvelopeAcceptsIff(config, st, req, Skip);
    AdmittedResolves(config, req);
    hide CheckEnvelope, Admission, Dispatch, HandlerFor, Process;
    hide config.chain.codec.Parse;
  }

  /**
   Settling never touches the replay cache; a rejected request never touches the
   catalog; and what either endpoint catalogs is in order.
   */
  lemma EndpointEffects(config: Config, st: State, req: Request, stamp: string)
    ensures HandleSettle(config, st, req, stamp).1.cache == st.cache
    ensures CheckEnvelope(config, st, req, Consume).0.Err? ==> HandleVerify(config, st, req, stamp).1.catalog == st.catalog
    ensures CheckEnvelope(config, st, req, Skip).0.Err? ==> HandleSettle(config, st, req, stamp).1 == st
    ensures CatalogOk(config, st.catalog) ==>
              && CatalogOk(config, HandleVerify(config, st, req, stamp).1.catalog)
              && CatalogOk(config, HandleSettle(config, st, req, stamp).1.catalog)
    ensures HandleSettle(config, st, req, stamp).0.body != Err(HandlerGone)
  {
    EnvelopeRecordsIff(config, st, req, Consume);
    EnvelopeRecordsIff(config, st, req, Skip);
    EnvelopeAcceptsIff(config, st, req, Consume);
    EnvelopeAcceptsIff(config, st, req, Skip);
    AdmittedResolves(config, req);
    if Admission(config, req).Ok? && EntryFor(config, req, stamp).Some? && CatalogOk(config, st.catalog) {
      AdmittedEntryOk(config, req, stamp);
      PutKeeps(st.catalog, EntryFor(config, req, stamp).value);
    }
    hide CheckEnvelope, EntryFor, EntryOk, UniqueKeys, Catalog.Put, Admission, HandlerFor, Dispatch, InWindow, Remembered;
  }

  lemma AdmittedResolves(config: Config, req: Request)
    ensures Admission(config, req).Ok? ==>
              HandlerFor(config.handlers, req.requirements.scheme, req.requirements.network).Some?
  {
    hide HandlerFor;
  }

  function WithTransaction(req: Request, raw: Option<SignedRawTx>): Request
    requires req.payload.payload.Decoded?
  {
    req.(payload := req.payload.(payload := Decoded(req.payload.payload.exact.(signedRawTx := raw))))
  }

  /** The envelope check of the default facilitator never reads the transaction that it is to submit. */
  lemma AcceptanceIgnoresTransaction(
    config: Config, schnorr: Schnorr, tip5: Tip5, st: State, req: Request, raw: Option<SignedRawTx>, mode: ReplayMode)
    requires config.handlers == DefaultHandlers(schnorr, tip5) && req.payload.payload.Decoded?
    ensures CheckEnvelope(config, st, WithTransaction(req, raw), mode) == CheckEnvelope(config, st, req, mode)
  {
    var scheme, other := req.requirements.scheme, WithTransaction(req, raw);
    DefaultResolves(schnorr, tip5, scheme, req.requirements.network);
    assert NockchainVerify(schnorr, tip5, other.payload, req.requirements)
        == NockchainVerify(schnorr, tip5, req.payload, req.requirements) by {
      hide VerifyPayment, ParseUnsigned;
    }
    hide HandlerFor, DefaultHandlers, NockchainVerify;
    assert Admission(config, other) == Admission(config, req) && Dispatch(config, other) == Dispatch(config, req);
    hide Admission, Dispatch, CheckTimeWindow, CheckReplay;
  }

  /** Whatever an accepted request carries and the codec parses is submitted. */
  lemma WhateverParsesIsSubmitted(
    config: Config, schnorr: Schnorr, tip5: Tip5, st: State, req: Request, signed: SignedRawTx)
    requires config.handlers == DefaultHandlers(schnorr, tip5) && config.chain.GrpcClient?
    requires req.payload.payload.Decoded? && CheckEnvelope(config, st, req, Skip).0.Ok?
    ensures
      var parsed := config.chain.codec.Parse(signed);
      Submitted(config, st, WithTransaction(req, Some(signed))) == if parsed.Ok? then [parsed.value] else []
  {
    AcceptanceIgnoresTransaction(config, schnorr, tip5, st, req, Some(signed), Skip);
    EnvelopeAcceptsIff(config, st, req, Skip);
    AdmittedResolves(config, req);
    hide CheckEnvelope, Admission, Dispatch, HandlerFor;
    hide config.chain.codec.Parse;
  }

  // ---------------------------------------------------------------------------
  // The running facilitator
  // ---------------------------------------------------------------------------

  class ReplayCache {
    var entries: Cache

    constructor ()
      ensures entries == map[]
    {
      entries := map[];
    }

    /** One atomic check-and-record. */
    method Seen(key: string, now: u64, ttl: nat) returns (seen: bool)
      modifies this
      ensures seen <==> key in old(entries) && now < old(entries)[key] + ttl
      ensures entries == if seen then old(entries) else old(entries)[key := now]
    {
      if key in entries && now < entries[key] + ttl {
        return true;
      }
      entries := entries[key := now];
      return false;
    }
  }

  class Facilitator {
    const config: Config
    const replayCache: ReplayCache
    const catalog: InMemoryCatalogStore
    const node: ChainNode
    var now: u64

    function View(): State
      reads this, replayCache, catalog
    {
      State(now, replayCache.entries, catalog.rows)
    }

    constructor (config: Config, now: u64)
      ensures View() == State(now, map[], []) && this.config == config
      ensures fresh(replayCache) && fresh(catalog) && fresh(node) && node.submitted == []
    {
      this.config := config;
      this.now := now;
      replayCache := new ReplayCache();
      catalog := new InMemoryCatalogStore();
      node := new ChainNode();
    }

    /** Time is monotone. */
    method AdvanceClock(time: u64)
      modifies `now
      ensures View() == old(View()).(now := if old(now) < time then time else old(now))
    {
      if now < time {
        now := time;
      }
    }

    method ConsumeNonce(auth: Authorization) returns (r: Result<(), VerifyError>)
      modifies replayCache
      ensures (r, View().cache) == CheckReplay(config, old(now), old(replayCache.entries), auth)
      ensures View() == old(View()).(cache := View().cache)
    {
      var seen := replayCache.Seen(ReplayKey(auth.nonce), now, config.ttl);
      if seen {
        return Err(NonceReplayed(auth.nonce));
      }
      return Ok(());
    }

    method VerifyEnvelopeInner(req: Request, mode: ReplayMode) returns (r: Result<(), VerifyError>)
      modifies replayCache
      ensures (r, View()) == CheckEnvelope(config, old(View()), req, mode)
    {
      hide HandlerFor, CheckTimeWindow, Remembered;
      if req.payload.x402Version != 2 {
        return Err(SpecCoded("invalid_version"));
      }
      if req.payload.scheme != req.requirements.scheme {
        return Err(SpecCoded("invalid_scheme"));
      }
      if req.payload.network != req.requirements.network {
        return Err(SpecCoded("invalid_network"));
      }
      var handler := HandlerFor(config.handlers, req.requirements.scheme, req.requirements.network);
      if handler.None? {
        return Err(UnknownScheme(req.requirements.scheme, req.requirements.network));
      }
      var auth := handler.value.extract(req.payload);
      if auth.Err? {
        return Err(auth.error);
      }
      r := CheckTimeWindow(config, now, auth.value);
      if r.Err? {
        return;
      }
      if mode.Consume? {
        r := ConsumeNonce(auth.value);
        if r.Err? {
          return;
        }
      }
      r := handler.value.verify(req.payload, req.requirements);
    }

    method ProcessBazaar(req: Request, stamp: string) returns (outcome: Option<BazaarOutcome>)
      modifies catalog
      ensures (outcome, View()) == Process(config, old(View()), req, stamp)
    {
      match req.payload.extensions
      case NoBazaar => return None;
      case MalformedBazaar => return Some(Declined);
      case Echoed(ext) =>
        if !config.schemaCheck(ext) {
          return Some(Declined);
        }
        catalog.Upsert(CatalogEntry(req, ext, stamp));
        return Some(Cataloged);
    }

    method Verify(req: Request, stamp: string) returns (reply: Reply<(), VerifyError>)
      modifies replayCache, catalog
      ensures (reply, View()) == HandleVerify(config, old(View()), req, stamp)
    {
      hide CheckEnvelope, Process;
      var result := VerifyEnvelopeInner(req, Consume);
      if result.Err? {
        return Reply(result, None);
      }
      var outcome := ProcessBazaar(req, stamp);
      return Reply(Ok(()), outcome);
    }

    method Settle(req: Request, stamp: string) returns (reply: Reply<ChainSettle, SettleError>)
      modifies replayCache, catalog, node
      ensures (reply, View()) == HandleSettle(config, old(View()), req, stamp)
      ensures node.submitted == old(node.submitted) + Submitted(config, old(View()), req)
    {
      hide CheckEnvelope, Process, HandlerFor, SettleWith, Submissions;
      var result := VerifyEnvelopeInner(req, Skip);
      if result.Err? {
        return Reply(Err(BadEnvelope(result.error)), None);
      }
      var outcome := ProcessBazaar(req, stamp);
      if HandlerFor(config.handlers, req.requirements.scheme, req.requirements.network).None? {
        return Reply(Err(HandlerGone), outcome);
      }
      var settled := SettleOnChain(config.chain, node, req.payload.payload);
      match settled
      case Err(e) => return Reply(Err(ChainFailed(e)), outcome);
      case Ok(s) => return Reply(Ok(s), outcome);
    }
  }
}
