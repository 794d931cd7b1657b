/** Requests to the facilitator and the ways it turns them down. */
module Envelope {
  import opened Bazaar
  import opened Chain
  import opened Decimal
  import opened Payment
  import opened Wrappers

  datatype ExactPayload = ExactPayload(
    signature: SignatureJson, authorization: Authorization, signedRawTx: Option<SignedRawTx>)

  /** The scheme-specific part of a payload, which may not decode. */
  datatype PayloadValue = Undecodable | Decoded(exact: ExactPayload)

  /** The `bazaar` entry of the echoed extensions: absent, not of the right shape, or a block. */
  datatype BazaarField = NoBazaar | MalformedBazaar | Echoed(ext: BazaarExtension)

  datatype PaymentPayload = PaymentPayload(
    x402Version: nat, scheme: string, network: string, payload: PayloadValue, extensions: BazaarField)

  datatype Request = Request(payload: PaymentPayload, requirements: PaymentRequirements)

  datatype VerifyError =
    | OutsideTimeWindow(now: u64, validAfter: u64, validBefore: u64)
    | NonceReplayed(nonce: string)
    | OverMaxAmount(value: string, maxAmountRequired: string)
    | AssetMismatch(expected: string, actual: string)
    | UnknownScheme(scheme: string, network: string)
    | SpecCoded(code: string)
}
