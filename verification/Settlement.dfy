/** Handing a verified payment to the chain: the stub client and the gRPC client. */
module Settlement {
  import opened Chain
  import opened Envelope
  import opened Surrogate
  import opened Wrappers

  datatype ChainStatus = Broadcast | Accepted | Processing

  datatype ChainSettle = ChainSettle(txId: string, status: ChainStatus)

  datatype ChainError = Transport(m: string) | Rejected(m: string) | TxConstructionUnavailable(m: string)

  /** What a node says to a submission: whether it was accepted in time, or that it failed. */
  type Answer = (RawTx, string) -> Result<bool, string>

  datatype ChainClient = StubClient | GrpcClient(codec: Codec, answer: Answer)

  /** The transaction in a payload and the id it claims. */
  function DecodeForSubmit(codec: Codec, payload: PayloadValue): Result<(RawTx, string), ChainError> {
    match payload
    case Undecodable => Err(TxConstructionUnavailable("signedRawTx missing"))
    case Decoded(exact) =>
      match exact.signedRawTx
      case None => Err(TxConstructionUnavailable("signedRawTx missing"))
      case Some(signed) =>
        match codec.Parse(signed)
        case Err(_) => Err(Rejected("decode SignedRawTx surrogate"))
        case Ok(raw) => Ok((raw, signed.txId))
  }

  /** The id that a transaction is submitted under is its own. */
  lemma SubmittedIdIsOwn(codec: Codec, payload: PayloadValue)
    requires DecodeForSubmit(codec, payload).Ok?
    ensures
      var (raw, txId) := DecodeForSubmit(codec, payload).value;
      HashOf(txId, "tx_id") == Ok(raw.id)
  {
    hide HashOf;
    hide codec.ParseEntry;
  }

  function StubTxId(payload: PayloadValue): string {
    match payload
    case Undecodable => "stub-tx-unknown-nonce"
    case Decoded(exact) => "stub-tx-" + exact.authorization.nonce
  }

  function SettleWith(client: ChainClient, payload: PayloadValue): Result<ChainSettle, ChainError> {
    match client
    case StubClient => Ok(ChainSettle(StubTxId(payload), Broadcast))
    case GrpcClient(codec, answer) =>
      var (raw, txId) :- DecodeForSubmit(codec, payload);
      match answer(raw, txId)
      case Err(m) => Err(Transport(m))
      case Ok(accepted) => Ok(ChainSettle(txId, if accepted then ChainStatus.Accepted else Processing))
  }

  /** The transactions that settling this payload hands to the node. */
  function Submissions(client: ChainClient, payload: PayloadValue): seq<RawTx> {
    if client.GrpcClient? && DecodeForSubmit(client.codec, payload).Ok?
    then [DecodeForSubmit(client.codec, payload).value.0] else []
  }

  /** The node, as far as the facilitator can tell: it has been handed transactions. */
  class ChainNode {
    var submitted: seq<RawTx>

    constructor ()
      ensures submitted == []
    {
      submitted := [];
    }

    method SubmitAndWait(answer: Answer, raw: RawTx, txId: string) returns (r: Result<bool, string>)
      modifies this
      ensures submitted == old(submitted) + [raw] && r == answer(raw, txId)
    {
      submitted := submitted + [raw];
      r := answer(raw, txId);
    }
  }

  method SettleOnChain(client: ChainClient, node: ChainNode, payload: PayloadValue)
    returns (r: Result<ChainSettle, ChainError>)
    modifies node
    ensures r == SettleWith(client, payload)
    ensures node.submitted == old(node.submitted) + Submissions(client, payload)
  {
    if client.StubClient? {
      return Ok(ChainSettle(StubTxId(payload), Broadcast));
    }
    if payload.Undecodable? || payload.exact.signedRawTx.None? {
      return Err(TxConstructionUnavailable("signedRawTx missing"));
    }
    var signed := payload.exact.signedRawTx.value;
    var raw := client.codec.RawTxFromSurrogate(signed);
    if raw.Err? {
      return Err(Rejected("decode SignedRawTx surrogate"));
    }
    var accepted := node.SubmitAndWait(client.answer, raw.value, signed.txId);
    if accepted.Err? {
      return Err(Transport(accepted.error));
    }
    return Ok(ChainSettle(signed.txId, if accepted.value then ChainStatus.Accepted else Processing));
  }
}
