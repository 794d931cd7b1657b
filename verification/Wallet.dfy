/** The wallet: from an authorization to a signed transaction and its surrogate. */
module Wallet {
  import opened Chain
  import opened Crypto
  import opened Decimal
  import opened HashText
  import opened Payment
  import opened Positional
  import opened SignMessage
  import opened Surrogate
  import opened Wrappers

  const CHUNK: nat := 0x1_0000_0000

  /** What the wallet kernel and the chain libraries compute. */
  datatype Kernel = Kernel(
    lockHash: SpendCondition -> Option<Hash>,
    sigHash: (seq<Seed>, u64) -> Option<Hash>,
    txId: seq<SpendEntry> -> Option<Hash>,
    chainSign: (Belts8, Hash) -> Option<SchnorrSignature>)
  {
    /** Tip5 digests are field elements. */
    ghost predicate InFieldOutputs() {
      && (forall c :: lockHash(c).Some? ==> InField(lockHash(c).value))
      && (forall s :: txId(s).Some? ==> InField(txId(s).value))
    }
  }

  datatype WalletError = Other(what: string) | Unsupported(inputs: nat) | InsufficientFunds

  datatype Wallet = Wallet(payerPkhEnvelope: string, payerPkhChain: Hash, payerPubkey: Pubkey, sk: Belts8)

  datatype AuthorizedPayment = AuthorizedPayment(envelopeSignature: SignatureJson, signedRawTx: SignedRawTx)

  function ParseAmount(s: string, field: string): Result<u64, WalletError> {
    match ParseU64(s)
    case Some(v) => Ok(v)
    case None => Err(Other(field))
  }

  function HashField(s: string, field: string): (r: Result<Hash, WalletError>)
    ensures r.Ok? ==> InField(r.value)
  {
    match DecodeHash(s, field)
    case Ok(h) => Ok(h)
    case Err(_) => Err(Other(field))
  }

  function Lock(kernel: Kernel, condition: SpendCondition): Result<Hash, WalletError> {
    match kernel.lockHash(condition)
    case Some(h) => Ok(h)
    case None => Err(Other("lock hash"))
  }

  function InputCondition(payer: Hash, lock: NoteLock): SpendCondition {
    match lock
    case SimplePkh => Chain.SimplePkh(payer)
    case CoinbasePkh(t) => Chain.CoinbasePkh(payer, t)
  }

  // ---------------------------------------------------------------------------
  // Steps 1-3: who pays, and how the note is split
  // ---------------------------------------------------------------------------

  datatype Split = Split(value: u64, fee: u64, change: u64)

  function SplitNote(wallet: Wallet, auth: Authorization): Result<Split, WalletError> {
    if auth.from != wallet.payerPkhEnvelope then Err(Other("payer"))
    else if |auth.notes| != 1 then Err(Unsupported(|auth.notes|))
    else
      var value :- ParseAmount(auth.value, "auth.value");
      var fee :- ParseAmount(auth.fee, "auth.fee");
      var assets :- ParseAmount(auth.notes[0].assets, "assets");
      if value + fee > U64_MAX then Err(Other("overflow"))
      else if assets < value + fee then Err(InsufficientFunds)
      else Ok(Split(value, fee, assets - (value + fee)))
  }

  /** The split succeeds exactly for this payer, one note, and enough in it; it loses nothing. */
  lemma SplitNoteIff(wallet: Wallet, auth: Authorization)
    ensures SplitNote(wallet, auth).Ok? <==>
            && auth.from == wallet.payerPkhEnvelope && |auth.notes| == 1
            && ParseU64(auth.value).Some? && ParseU64(auth.fee).Some? && ParseU64(auth.notes[0].assets).Some?
            && ParseU64(auth.value).value + ParseU64(auth.fee).value <= ParseU64(auth.notes[0].assets).value
    ensures SplitNote(wallet, auth).Ok? ==>
              var s := SplitNote(wallet, auth).value;
              && s.value == ParseU64(auth.value).value && s.fee == ParseU64(auth.fee).value
              && s.value + s.fee + s.change == ParseU64(auth.notes[0].assets).value
  {
    hide ParseU64;
  }

  // ---------------------------------------------------------------------------
  // Steps 4-9: the transaction
  // ---------------------------------------------------------------------------

  function MakeSeed(lockRoot: Hash, gift: u64, parentHash: Hash): Seed {
    Seed(None, lockRoot, [], gift, parentHash)
  }

  function MakeSeeds(kernel: Kernel, auth: Authorization, split: Split, recipientRoot: Hash, parentHash: Hash)
    : Result<seq<Seed>, WalletError>
  {
    var payment := MakeSeed(recipientRoot, split.value, parentHash);
    if split.change > 0 then
      var changePkh :- HashField(auth.changeAddress, "auth.change_address");
      var changeRoot :- Lock(kernel, Chain.SimplePkh(changePkh));
      Ok([payment, MakeSeed(changeRoot, split.change, parentHash)])
    else Ok([payment])
  }

  function SignSpend(wallet: Wallet, kernel: Kernel, condition: SpendCondition, root: Hash, seeds: seq<Seed>, fee: u64)
    : Result<Spend1, WalletError>
  {
    match kernel.sigHash(seeds, fee)
    case None => Err(Other("%sig-hash"))
    case Some(sigHash) =>
      match kernel.chainSign(wallet.sk, sigHash)
      case None => Err(Other("sign"))
      case Some(signature) =>
        var entry := PkhSignatureEntry(wallet.payerPkhChain, wallet.payerPubkey, signature);
        Ok(Spend1(Witness(Full(condition, 1, root, []), [entry], [], 0), seeds, fee))
  }

  function BuildRawTx(wallet: Wallet, kernel: Kernel, auth: Authorization): Result<RawTx, WalletError> {
    var split :- SplitNote(wallet, auth);
    var note := auth.notes[0];
    var recipient :- HashField(auth.to, "auth.to");
    var last :- HashField(note.name.last, "name.last");
    var first :- HashField(note.name.first, "name.first");
    var recipientRoot :- Lock(kernel, Chain.SimplePkh(recipient));
    var condition := InputCondition(wallet.payerPkhChain, note.lock);
    var inputRoot :- Lock(kernel, condition);
    var seeds :- MakeSeeds(kernel, auth, split, recipientRoot, last);
    var spend :- SignSpend(wallet, kernel, condition, inputRoot, seeds, split.fee);
    var spends := [SpendEntry(Name(first, last), Witnessed(spend))];
    match kernel.txId(spends)
    case None => Err(Other("%tx-id"))
    case Some(id) => Ok(RawTx(V1, id, spends))
  }

  // ---------------------------------------------------------------------------
  // Steps 10-12: surrogate and envelope signature
  // ---------------------------------------------------------------------------

  function KeyScalar(sk: Belts8): nat {
    LittleEndian(sk, CHUNK)
  }

  function SignEnvelope(wallet: Wallet, schnorr: Schnorr, tip5: Tip5, auth: Authorization)
    : Result<SignatureJson, WalletError>
  {
    match MessageDigest(tip5, auth)
    case Err(_) => Err(Other("sign_message"))
    case Ok(digest) =>
      if !schnorr.validScalar(KeyScalar(wallet.sk)) then Err(Other("scalar"))
      else
        match SignDigest(schnorr, KeyScalar(wallet.sk), digest)
        case Err(_) => Err(Other("envelope"))
        case Ok(json) => Ok(json)
  }

  function Authorize(wallet: Wallet, kernel: Kernel, codec: Codec, schnorr: Schnorr, tip5: Tip5, auth: Authorization)
    : Result<AuthorizedPayment, WalletError>
  {
    var raw :- BuildRawTx(wallet, kernel, auth);
    match codec.Print(raw)
    case Err(_) => Err(Other("surrogate"))
    case Ok(surrogate) =>
      var signature :- SignEnvelope(wallet, schnorr, tip5, auth);
      Ok(AuthorizedPayment(signature, surrogate))
  }

  method CryptoSecretKey(sk: Belts8) returns (scalar: nat)
    ensures scalar == KeyScalar(sk)
  {
    scalar := 0;
    ghost var chunks: seq<nat> := sk;
    for i := 0 to 8
      invariant scalar == LittleEndian(chunks[..i], CHUNK)
    {
      LittleEndianPush(chunks[..i], chunks[i], CHUNK);
      assert chunks[..i + 1] == chunks[..i] + [chunks[i]];
      scalar := scalar + sk[i] * Pow(CHUNK, i);
    }
    assert chunks[..8] == chunks;
  }

  method AuthorizeAndSign(
    wallet: Wallet, kernel: Kernel, codec: Codec, schnorr: Schnorr, tip5: Tip5, auth: Authorization)
    returns (r: Result<AuthorizedPayment, WalletError>)
    ensures r == Authorize(wallet, kernel, codec, schnorr, tip5, auth)
  {
    hide HashField, Lock, ParseAmount, MessageDigest, KeyScalar;
    hide codec.Print;
    var split := SplitNote(wallet, auth);
    if split.Err? {
      return Err(split.error);
    }
    var note, change := auth.notes[0], split.value.change;
    var recipient := HashField(auth.to, "auth.to");
    if recipient.Err? {
      return Err(recipient.error);
    }
    var last := HashField(note.name.last, "name.last");
    if last.Err? {
      return Err(last.error);
    }
    var first := HashField(note.name.first, "name.first");
    if first.Err? {
      return Err(first.error);
    }
    var recipientRoot := Lock(kernel, Chain.SimplePkh(recipient.value));
    if recipientRoot.Err? {
      return Err(recipientRoot.error);
    }
    var condition := InputCondition(wallet.payerPkhChain, note.lock);
    var inputRoot := Lock(kernel, condition);
    if inputRoot.Err? {
      return Err(inputRoot.error);
    }
    var payment := MakeSeed(recipientRoot.value, split.value.value, last.value);
    var seedVec := [payment];
    if change > 0 {
      var changePkh := HashField(auth.changeAddress, "auth.change_address");
      if changePkh.Err? {
        return Err(changePkh.error);
      }
      var changeRoot := Lock(kernel, Chain.SimplePkh(changePkh.value));
      if changeRoot.Err? {
        return Err(changeRoot.error);
      }
      var changeSeed := MakeSeed(changeRoot.value, change, last.value);
      seedVec := seedVec + [changeSeed];
      assert seedVec == [payment, changeSeed];
    }
    assert MakeSeeds(kernel, auth, split.value, recipientRoot.value, last.value) == Ok(seedVec);
    var spend := SignSpend(wallet, kernel, condition, inputRoot.value, seedVec, split.value.fee);
    if spend.Err? {
      return Err(spend.error);
    }
    var spends := [SpendEntry(Name(first.value, last.value), Witnessed(spend.value))];
    var id := kernel.txId(spends);
    if id.None? {
      return Err(Other("%tx-id"));
    }
    var raw := RawTx(V1, id.value, spends);
    assert BuildRawTx(wallet, kernel, auth) == Ok(raw);
    var surrogate := codec.SurrogateFromRawTx(raw);
    if surrogate.Err? {
      return Err(Other("surrogate"));
    }
    var signature := SignEnvelope(wallet, schnorr, tip5, auth);
    if signature.Err? {
      return Err(signature.error);
    }
    return Ok(AuthorizedPayment(signature.value, surrogate.value));
  }

  /** Why a note is not split: another payer, another number of notes, an unreadable number, an overflow, or too little. */
  lemma SplitRefusals(wallet: Wallet, auth: Authorization)
    ensures
      var r := SplitNote(wallet, auth);
      var mine := auth.from == wallet.payerPkhEnvelope;
      var numbers := |auth.notes| == 1 && ParseU64(auth.value).Some? && ParseU64(auth.fee).Some?
                     && ParseU64(auth.notes[0].assets).Some?;
      var needed := if numbers then ParseU64(auth.value).value + ParseU64(auth.fee).value else 0;
      && (!mine ==> r == Err(Other("payer")))
      && (r == Err(Unsupported(|auth.notes|)) <==> mine && |auth.notes| != 1)
      && (r == Err(InsufficientFunds) <==>
            mine && numbers && needed <= 0xFFFF_FFFF_FFFF_FFFF && ParseU64(auth.notes[0].assets).value < needed)
      && (mine && numbers && needed > 0xFFFF_FFFF_FFFF_FFFF ==> r == Err(Other("overflow")))
      && (mine && |auth.notes| == 1 && !numbers ==>
            r == Err(Other(if ParseU64(auth.value).None? then "auth.value"
                           else if ParseU64(auth.fee).None? then "auth.fee" else "assets")))
  {
    hide ParseU64;
  }


  /** Nothing is built for a note that cannot be split, nor with a name that cannot be read: payee, last name, first name. */
  lemma BuildRefusals(wallet: Wallet, kernel: Kernel, auth: Authorization)
    ensures
      var r, split := BuildRawTx(wallet, kernel, auth), SplitNote(wallet, auth);
      if split.Err? then r == Err(split.error)
      else
        && |auth.notes| == 1
        && var name := auth.notes[0].name;
        if DecodeHash(auth.to, "").Err? then r == Err(Other("auth.to"))
        else if DecodeHash(name.last, "").Err? then r == Err(Other("name.last"))
        else DecodeHash(name.first, "").Err? ==> r == Err(Other("name.first"))
  {
    SplitNoteIff(wallet, auth);
    if |auth.notes| == 1 {
      ReadIgnoresField(auth.to, "auth.to");
      ReadIgnoresField(auth.notes[0].name.last, "name.last");
      ReadIgnoresField(auth.notes[0].name.first, "name.first");
    }
    hide SplitNote, DecodeHash, Lock, MakeSeeds, SignSpend, ParseU64, InputCondition;
  }

  lemma ReadIgnoresField(s: string, field: string)
    ensures DecodeHash(s, field).Ok? <==> DecodeHash(s, "").Ok?
  {
    hide Base58.Decode, FiveDigits;
  }

  /** No envelope is signed for a transaction that cannot be built or printed; then the message and the key decide. */
  lemma AuthorizeRefusals(wallet: Wallet, kernel: Kernel, codec: Codec, schnorr: Schnorr, tip5: Tip5, auth: Authorization)
    ensures
      var r, raw := Authorize(wallet, kernel, codec, schnorr, tip5, auth), BuildRawTx(wallet, kernel, auth);
      if raw.Err? then r == Err(raw.error)
      else if codec.Print(raw.value).Err? then r == Err(Other("surrogate"))
      else if MessageDigest(tip5, auth).Err? then r == Err(Other("sign_message"))
      else !schnorr.validScalar(KeyScalar(wallet.sk)) ==> r == Err(Other("scalar"))
  {
    hide BuildRawTx, MessageDigest, KeyScalar, SignDigest;
    hide codec.Print;
  }
}
