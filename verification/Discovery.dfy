/** From a server's declaration to a listing: advertiser, client, facilitator and catalog together. */
module Discovery {
  import opened Advertiser
  import opened Bazaar
  import opened Catalog
  import opened Client
  import opened Crypto
  import opened Decimal
  import opened Envelope
  import opened Facilitator
  import HashText
  import opened Payment
  import opened Wrappers

  /** The facilitator checks an extension against its own schema. */
  ghost predicate ChecksSchemas(config: Config) {
    forall ext :: config.schemaCheck(ext) <==> SchemaCheck(ext)
  }

  /** The listing is for this request: its kind, its network and its scheme. */
  predicate AsksFor(p: ListParams, req: PaymentRequirements, input: DiscoveryInput) {
    && p.network == Some(req.network) && p.scheme == Some(req.scheme)
    && p.kind == Some(if input.Mcp? then "mcp" else "http")
  }

  /**
   A server declares an input, a client pays and echoes what it was told, and the payment
   is valid: the facilitator then catalogs the resource exactly when the declaration was
   passable, says so in its reply, and lists it, with the block as it came over the wire.
   */
  lemma DeclaredIsListedIff(
    config: Config, st: State, schnorr: Schnorr, tip5: HashText.Tip5, signer: NockchainSigner, req: PaymentRequirements,
    now: u64, nonce: Bytes32, first: Bytes32, last: Bytes32, input: DiscoveryInput, output: Option<DiscoveryOutput>,
    stamp: string, p: ListParams)
    requires ChecksSchemas(config) && UniqueKeys(st.catalog) && AsksFor(p, req, input)
    requires BuildPayload(schnorr, tip5, signer, req, now, nonce, first, last, Echoed(Received(Declared(input, output)))).Ok?
    ensures
      var echo := Echoed(Received(Declared(input, output)));
      var payload := BuildPayload(schnorr, tip5, signer, req, now, nonce, first, last, echo).value;
      var (reply, after) := HandleVerify(config, st, Request(payload, req), stamp);
      reply.body.Ok? ==>
        && reply.header == Some(if Passable(input) then Cataloged else Declined)
        && (Passable(input) ==> Listed(after.catalog, p, req, OverWire(Declared(input, output).info)))
        && (!Passable(input) ==> after.catalog == st.catalog)
  {
    hide HandleVerify, BuildPayload, Listed, UniqueKeys, SchemaCheck, Declared, Passable, OverWire, InfoJson;
    hide Catalog.Put, CatalogEntry, Refuses, Acceptable, Admission, InWindow, Remembered;
    ReceivedPassesIff(input, output);
    var ext := Received(Declared(input, output));
    PayloadResponds(schnorr, tip5, signer, req, now, nonce, first, last, Echoed(ext));
    var payload := BuildPayload(schnorr, tip5, signer, req, now, nonce, first, last, Echoed(ext)).value;
    VerifyReply(config, st, Request(payload, req), stamp);
    if HandleVerify(config, st, Request(payload, req), stamp).0.body.Ok? && Passable(input) {
      HonestPaymentCataloged(config, st, schnorr, tip5, signer, req, now, nonce, first, last, ext, stamp, p);
    }
  }
}
