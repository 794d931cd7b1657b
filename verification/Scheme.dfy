/** Scheme handlers and the registry that resolves them. */
module Scheme {
  import opened Crypto
  import opened Decimal
  import opened Envelope
  import opened HashText
  import opened Payment
  import opened Wrappers

  datatype Handler = Handler(
    scheme: string,
    networkPrefix: string,
    extract: PaymentPayload -> Result<Authorization, VerifyError>,
    verify: (PaymentPayload, PaymentRequirements) -> Result<(), VerifyError>)
  {
    /** Exact on the scheme, prefix on the network. */
    predicate Claims(scheme: string, network: string) {
      this.scheme == scheme && networkPrefix <= network
    }
  }

  // ---------------------------------------------------------------------------
  // The Nockchain handlers
  // ---------------------------------------------------------------------------

  const NATIVE_ASSET := "NOCK"
  const NETWORK_PREFIX := "nockchain:"

  function ExtractAuthorization(payload: PaymentPayload): Result<Authorization, VerifyError> {
    match payload.payload
    case Undecodable => Err(SpecCoded("invalid_payload"))
    case Decoded(exact) => Ok(exact.authorization)
  }

  function CheckMaxAmount(auth: Authorization, req: PaymentRequirements): Result<(), VerifyError> {
    match (ParseUnsigned(auth.value, U128_MAX), ParseUnsigned(req.maxAmountRequired, U128_MAX))
    case (Some(value), Some(cap)) =>
      if value > cap then Err(OverMaxAmount(auth.value, req.maxAmountRequired)) else Ok(())
    case _ => Err(SpecCoded("invalid_payload"))
  }

  function CheckAsset(req: PaymentRequirements): Result<(), VerifyError> {
    if req.asset != NATIVE_ASSET then Err(AssetMismatch(NATIVE_ASSET, req.asset)) else Ok(())
  }

  /** Payload, recipient, signature, amount, asset: the checks of both handlers, in their order. */
  function NockchainVerify(schnorr: Schnorr, tip5: Tip5, payload: PaymentPayload, req: PaymentRequirements)
    : Result<(), VerifyError>
  {
    match payload.payload
    case Undecodable => Err(SpecCoded("invalid_payload"))
    case Decoded(exact) =>
      if exact.authorization.to != req.payTo then Err(SpecCoded("invalid_recipient"))
      else if VerifyPayment(schnorr, tip5, exact.signature, exact.authorization).Err? then
        Err(SpecCoded("invalid_signature"))
      else
        var _ :- CheckMaxAmount(exact.authorization, req);
        CheckAsset(req)
  }

  function NockchainHandler(scheme: string, schnorr: Schnorr, tip5: Tip5): Handler {
    Handler(scheme, NETWORK_PREFIX, ExtractAuthorization,
            (payload: PaymentPayload, req: PaymentRequirements) => NockchainVerify(schnorr, tip5, payload, req))
  }

  function DefaultHandlers(schnorr: Schnorr, tip5: Tip5): seq<Handler> {
    [NockchainHandler("exact", schnorr, tip5), NockchainHandler("upto", schnorr, tip5)]
  }

  /** Both texts are numbers and the first is at most the second. */
  predicate WithinCap(value: string, cap: string) {
    && ParseUnsigned(value, U128_MAX).Some? && ParseUnsigned(cap, U128_MAX).Some?
    && ParseUnsigned(value, U128_MAX).value <= ParseUnsigned(cap, U128_MAX).value
  }

  lemma CheckMaxAmountIff(auth: Authorization, req: PaymentRequirements)
    ensures CheckMaxAmount(auth, req).Ok? <==> WithinCap(auth.value, req.maxAmountRequired)
  {
    hide ParseUnsigned;
  }

  /** Which refusal a payment earns from either handler: that of the first check it fails. */
  predicate Refused(schnorr: Schnorr, tip5: Tip5, payload: PaymentPayload, req: PaymentRequirements, e: VerifyError) {
    if payload.payload.Undecodable? then e == SpecCoded("invalid_payload")
    else
      var exact := payload.payload.exact;
      var value, cap := exact.authorization.value, req.maxAmountRequired;
      var numbers := ParseUnsigned(value, U128_MAX).Some? && ParseUnsigned(cap, U128_MAX).Some?;
      || (exact.authorization.to != req.payTo && e == SpecCoded("invalid_recipient"))
      || (exact.authorization.to == req.payTo
          && (|| (VerifyPayment(schnorr, tip5, exact.signature, exact.authorization).Err? && e == SpecCoded("invalid_signature"))
              || (VerifyPayment(schnorr, tip5, exact.signature, exact.authorization).Ok?
                  && (|| (!numbers && e == SpecCoded("invalid_payload"))
                      || (numbers && !WithinCap(value, cap) && e == OverMaxAmount(value, cap))
                      || (WithinCap(value, cap) && req.asset != "NOCK" && e == AssetMismatch("NOCK", req.asset))))))
  }

  lemma NockchainRefusals(schnorr: Schnorr, tip5: Tip5, payload: PaymentPayload, req: PaymentRequirements, e: VerifyError)
    ensures NockchainVerify(schnorr, tip5, payload, req) == Err(e) <==> Refused(schnorr, tip5, payload, req, e)
  {
    hide VerifyPayment, ParseUnsigned;
  }

  // ---------------------------------------------------------------------------
  // The registry
  // ---------------------------------------------------------------------------

  function HandlerFor(handlers: seq<Handler>, scheme: string, network: string): Option<Handler> {
    if handlers == [] then None
    else if handlers[0].Claims(scheme, network) then Some(handlers[0])
    else HandlerFor(handlers[1..], scheme, network)
  }

  /** The earliest registered claimant, if there is one. */
  lemma {:induction false} HandlerForIsFirst(handlers: seq<Handler>, scheme: string, network: string)
    ensures HandlerFor(handlers, scheme, network).None? <==>
            forall i :: 0 <= i < |handlers| ==> !handlers[i].Claims(scheme, network)
    ensures HandlerFor(handlers, scheme, network).Some? ==>
              exists i :: 0 <= i < |handlers|
                && handlers[i] == HandlerFor(handlers, scheme, network).value && handlers[i].Claims(scheme, network)
                && forall j :: 0 <= j < i ==> !handlers[j].Claims(scheme, network)
  {
    if handlers == [] {
    } else {
      var rest := handlers[1..];
      HandlerForIsFirst(rest, scheme, network);
      assert forall i :: 0 <= i < |rest| ==> rest[i] == handlers[i + 1];
      if handlers[0].Claims(scheme, network) {
        assert handlers[0] == HandlerFor(handlers, scheme, network).value;
      } else if HandlerFor(rest, scheme, network).Some? {
        var i :| 0 <= i < |rest| && rest[i] == HandlerFor(rest, scheme, network).value && rest[i].Claims(scheme, network)
          && forall j :: 0 <= j < i ==> !rest[j].Claims(scheme, network);
        assert handlers[i + 1] == rest[i];
        assert forall j :: 1 <= j < i + 1 ==> handlers[j] == rest[j - 1];
      } else {
        assert forall i :: 1 <= i < |handlers| ==> handlers[i] == rest[i - 1];
      }
    }
  }

  /** No later registrations change a pair that is already resolved. */
  lemma {:induction false} ResolutionIsStable(handlers: seq<Handler>, more: seq<Handler>, scheme: string, network: string)
    requires HandlerFor(handlers, scheme, network).Some?
    ensures HandlerFor(handlers + more, scheme, network) == HandlerFor(handlers, scheme, network)
  {
    assert (handlers + more)[0] == handlers[0];
    if handlers[0].Claims(scheme, network) {
    } else {
      assert (handlers + more)[1..] == handlers[1..] + more;
      ResolutionIsStable(handlers[1..], more, scheme, network);
    }
  }

  class SchemeHandlerRegistry {
    var handlers: seq<Handler>

    constructor ()
      ensures handlers == []
    {
      handlers := [];
    }

    method Register(handler: Handler)
      modifies this
      ensures handlers == old(handlers) + [handler]
      ensures forall scheme, network ::
                HandlerFor(old(handlers), scheme, network).Some? ==>
                  HandlerFor(handlers, scheme, network) == HandlerFor(old(handlers), scheme, network)
    {
      forall scheme, network | HandlerFor(handlers, scheme, network).Some?
        ensures HandlerFor(handlers + [handler], scheme, network) == HandlerFor(handlers, scheme, network)
      {
        ResolutionIsStable(handlers, [handler], scheme, network);
      }
      handlers := handlers + [handler];
    }
  }

  method WithDefaultHandlers(schnorr: Schnorr, tip5: Tip5) returns (registry: SchemeHandlerRegistry)
    ensures fresh(registry) && registry.handlers == DefaultHandlers(schnorr, tip5)
  {
    registry := new SchemeHandlerRegistry();
    registry.Register(NockchainHandler("exact", schnorr, tip5));
    registry.Register(NockchainHandler("upto", schnorr, tip5));
  }
}
