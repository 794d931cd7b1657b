/** Signing and verifying an authorization, over an abstract Schnorr scheme. */
module Crypto {
  import opened Base58
  import opened Chain
  import opened HashText
  import Packing
  import opened Payment
  import Positional
  import opened SignMessage
  import opened Wrappers

  type Point = seq<Belt>

  /** Schnorr over the Cheetah curve, and the wire form of its signatures. */
  datatype Schnorr = Schnorr(
    validScalar: nat -> bool,
    publicKey: nat -> Point,
    pointBytes: Point -> Option<seq<byte>>,
    pointText: Point -> Option<string>,
    sign: (nat, Digest) -> Option<(Belts8, Belts8)>,
    verify: (Point, Digest, Belts8, Belts8) -> bool,
    encode: (Point, Belts8, Belts8) -> Option<SignatureJson>,
    decode: SignatureJson -> Option<(Point, Belts8, Belts8)>)
  {
    /** All that is assumed of the scheme: verify accepts what sign makes, and the codec round-trips. */
    ghost predicate Sound() {
      && (forall sk, d :: sign(sk, d).Some? ==> verify(publicKey(sk), d, sign(sk, d).value.0, sign(sk, d).value.1))
      && (forall p, c, s :: encode(p, c, s).Some? ==> decode(encode(p, c, s).value) == Some((p, c, s)))
    }
  }

  datatype SignerError =
    | PubkeyEncoding
    | SignerMessage(error: SignMessageError)
    | SigningFailed
    | SignatureEncoding

  datatype NockchainSigner = NockchainSigner(sk: nat, pk: Point, pkText: string, pkh: string)

  function NewSigner(schnorr: Schnorr, tip5: Tip5, sk: nat): Result<NockchainSigner, SignerError> {
    var pk := schnorr.publicKey(sk);
    match (schnorr.pointText(pk), schnorr.pointBytes(pk))
    case (Some(text), Some(bytes)) => Ok(NockchainSigner(sk, pk, text, PkhFromPubkeyBytes(tip5, bytes)))
    case _ => Err(PubkeyEncoding)
  }

  function SignDigest(schnorr: Schnorr, sk: nat, digest: Digest): Result<SignatureJson, SignerError> {
    match schnorr.sign(sk, digest)
    case None => Err(SigningFailed)
    case Some((chal, sig)) =>
      match schnorr.encode(schnorr.publicKey(sk), chal, sig)
      case None => Err(SignatureEncoding)
      case Some(json) => Ok(json)
  }

  function SignAuthorization(schnorr: Schnorr, tip5: Tip5, signer: NockchainSigner, auth: Authorization)
    : Result<SignatureJson, SignerError>
  {
    match MessageDigest(tip5, auth)
    case Err(e) => Err(SignerMessage(e))
    case Ok(digest) => SignDigest(schnorr, signer.sk, digest)
  }

  datatype PaymentError =
    | SignatureDecode
    | PubkeyBinding
    | BadMessage(error: SignMessageError)
    | SignatureInvalid

  function VerifyPayment(schnorr: Schnorr, tip5: Tip5, signature: SignatureJson, auth: Authorization)
    : Result<(), PaymentError>
  {
    match schnorr.decode(signature)
    case None => Err(SignatureDecode)
    case Some((pk, chal, sig)) =>
      match schnorr.pointBytes(pk)
      case None => Err(SignatureDecode)
      case Some(bytes) =>
        if PkhFromPubkeyBytes(tip5, bytes) != auth.from then Err(PubkeyBinding)
        else
          match MessageDigest(tip5, auth)
          case Err(e) => Err(BadMessage(e))
          case Ok(digest) => if schnorr.verify(pk, digest, chal, sig) then Ok(()) else Err(SignatureInvalid)
  }

  /** A key signs, under its own public-key hash, what the verifier accepts. */
  lemma SignedVerifies(schnorr: Schnorr, tip5: Tip5, sk: nat, bytes: seq<byte>, auth: Authorization)
    requires schnorr.Sound() && MessageDigest(tip5, auth).Ok?
    requires SignDigest(schnorr, sk, MessageDigest(tip5, auth).value).Ok?
    requires schnorr.pointBytes(schnorr.publicKey(sk)) == Some(bytes) && auth.from == PkhFromPubkeyBytes(tip5, bytes)
    ensures VerifyPayment(schnorr, tip5, SignDigest(schnorr, sk, MessageDigest(tip5, auth).value).value, auth) == Ok(())
  {
    hide MessageDigest, PkhFromPubkeyBytes;
    var digest := MessageDigest(tip5, auth).value;
    var signed := schnorr.sign(sk, digest).value;
    assert schnorr.verify(schnorr.publicKey(sk), digest, signed.0, signed.1);
    assert schnorr.encode(schnorr.publicKey(sk), signed.0, signed.1).Some?;
  }

  /**
   What acceptance proves: the payer's name is the hash of the very key that the
   signature verifies under, written without leading '1's.
   */
  lemma AcceptedBindsPayer(schnorr: Schnorr, tip5: Tip5, signature: SignatureJson, auth: Authorization)
    requires VerifyPayment(schnorr, tip5, signature, auth) == Ok(())
    ensures
      exists pk, chal, sig, bytes, digest ::
        && schnorr.decode(signature) == Some((pk, chal, sig)) && schnorr.pointBytes(pk) == Some(bytes)
        && auth.from == PkhFromPubkeyBytes(tip5, bytes)
        && MessageDigest(tip5, auth) == Ok(digest) && schnorr.verify(pk, digest, chal, sig)
    ensures StripOnes(auth.from) == auth.from
  {
    hide MessageDigest, StripOnes;
    var (pk, chal, sig) := schnorr.decode(signature).value;
    var bytes := schnorr.pointBytes(pk).value;
    assert auth.from == PkhFromPubkeyBytes(tip5, bytes);
    IntegerOfPrinted(Positional.LittleEndian(tip5(Packing.BytesToBelts(bytes)), PRIME));
  }

  /** Under this signature the scheme accepts one digest at most. */
  ghost predicate BindsOneDigest(schnorr: Schnorr, signature: SignatureJson) {
    schnorr.decode(signature).Some? ==>
      var (pk, chal, sig) := schnorr.decode(signature).value;
      forall d, e :: schnorr.verify(pk, d, chal, sig) && schnorr.verify(pk, e, chal, sig) ==> d == e
  }

  /**
   What one signature is good for: where the scheme binds a digest and the sponge
   separates the messages, a signature accepted for one authorization is accepted for
   another exactly when that is the same payment under the same name.
   */
  lemma OneSignatureOnePayment(schnorr: Schnorr, tip5: Tip5, signature: SignatureJson, a: Authorization, b: Authorization)
    requires VerifyPayment(schnorr, tip5, signature, a).Ok? && BindsOneDigest(schnorr, signature)
    requires MessageBelts(tip5, a).Ok? && MessageBelts(tip5, b).Ok? ==>
               Separates(tip5, MessageBelts(tip5, a).value, MessageBelts(tip5, b).value)
    ensures MessageBelts(tip5, a).Ok?
    ensures VerifyPayment(schnorr, tip5, signature, b).Ok? <==>
            a.from == b.from && MessageBelts(tip5, b).Ok? && SameMessage(tip5, a, b)
  {
    assert MessageBelts(tip5, a).Ok?;
    if MessageBelts(tip5, b).Ok? {
      DigestIdentifiesPayment(tip5, a, b);
    }
    hide MessageBelts, SameMessage, PkhFromPubkeyBytes;
  }

  /** Why a payment is refused: unreadable signature, other name, unreadable message, or a signature that does not verify. */
  lemma PaymentRefusals(schnorr: Schnorr, tip5: Tip5, signature: SignatureJson, auth: Authorization)
    ensures
      var r, decoded := VerifyPayment(schnorr, tip5, signature, auth), schnorr.decode(signature);
      var readable := decoded.Some? && schnorr.pointBytes(decoded.value.0).Some?;
      && (r == Err(SignatureDecode) <==> !readable)
      && (r == Err(PubkeyBinding) <==>
            readable && PkhFromPubkeyBytes(tip5, schnorr.pointBytes(decoded.value.0).value) != auth.from)
      && (forall e :: r == Err(BadMessage(e)) <==>
            && readable && PkhFromPubkeyBytes(tip5, schnorr.pointBytes(decoded.value.0).value) == auth.from
            && MessageBelts(tip5, auth) == Err(e))
      && (r == Err(SignatureInvalid) ==> readable && MessageBelts(tip5, auth).Ok?)
  {
    hide MessageBelts, PkhFromPubkeyBytes;
  }

  /** A signer is its key, and the two texts of its public key. */
  lemma NewSignerIs(schnorr: Schnorr, tip5: Tip5, sk: nat, signer: NockchainSigner)
    ensures NewSigner(schnorr, tip5, sk) == Ok(signer) <==>
            && signer.sk == sk && signer.pk == schnorr.publicKey(sk) && schnorr.pointText(signer.pk) == Some(signer.pkText)
            && schnorr.pointBytes(signer.pk).Some?
            && signer.pkh == PkhFromPubkeyBytes(tip5, schnorr.pointBytes(signer.pk).value)
  {
    hide PkhFromPubkeyBytes;
  }


  /** Why a signer refuses: an unreadable message first, then a failed signature, then one without a wire form. */
  lemma SigningRefusals(schnorr: Schnorr, tip5: Tip5, signer: NockchainSigner, auth: Authorization)
    ensures
      var r, digest := SignAuthorization(schnorr, tip5, signer, auth), MessageDigest(tip5, auth);
      && (forall e :: r == Err(SignerMessage(e)) <==> MessageBelts(tip5, auth) == Err(e))
      && (r == Err(SigningFailed) <==> digest.Ok? && schnorr.sign(signer.sk, digest.value).None?)
      && (r == Err(SignatureEncoding) <==>
            && digest.Ok? && schnorr.sign(signer.sk, digest.value).Some?
            && var (chal, sig) := schnorr.sign(signer.sk, digest.value).value;
            schnorr.encode(schnorr.publicKey(signer.sk), chal, sig).None?)
  {
    hide MessageBelts;
  }
}
