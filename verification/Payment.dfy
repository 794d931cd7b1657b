/** The wire types of the payment protocol, with the fields that the modelled code reads. */
module Payment {
  import opened Decimal
  import opened Json
  import opened Wrappers

  datatype NoteLock = SimplePkh | CoinbasePkh(timelockMin: u64)

  datatype NoteName = NoteName(first: string, last: string)

  datatype NoteRef = NoteRef(name: NoteName, assets: string, lock: NoteLock)

  datatype Authorization = Authorization(
    from: string,
    to: string,
    value: string,
    fee: string,
    nonce: string,
    validAfter: u64,
    validBefore: u64,
    notes: seq<NoteRef>,
    changeAddress: string)

  datatype PaymentRequirements = PaymentRequirements(
    scheme: string,
    network: string,
    maxAmountRequired: string,
    resource: string,
    asset: string,
    payTo: string,
    maxTimeoutSeconds: u64,
    extra: Option<Json>)

  /** Public key and the two eight-element arrays of a Schnorr signature, all as text. */
  datatype SignatureJson = SignatureJson(pubkey: string, chal: seq<string>, sig: seq<string>)
}
