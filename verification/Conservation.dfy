/** What the facilitator decodes is what the payer owned: conservation through the wire. */
module Conservation {
  import opened Chain
  import opened Crypto
  import opened Decimal
  import opened HashText
  import opened Payment
  import opened Positional
  import opened RoundTrip
  import opened SignMessage
  import opened Surrogate
  import opened Wallet
  import opened Wrappers

  function Gifts(seeds: seq<Seed>): nat {
    if seeds == [] then 0 else seeds[0].gift + Gifts(seeds[1..])
  }

  /**
   The transaction spends the one note of the authorization, entirely: the payment
   first, the change second if there is any, the rest as the fee. Its id is the one that
   the kernel gives these spends.
   */
  ghost predicate SpendsNote(wallet: Wallet, kernel: Kernel, auth: Authorization, raw: RawTx) {
    && raw.version == V1 && |raw.spends| == 1 && raw.spends[0].spend.Witnessed?
    && kernel.txId(raw.spends) == Some(raw.id)
    && |auth.notes| == 1
    && NamesNote(auth.notes[0].name, raw.spends[0].name)
    && Conserves(auth, raw.spends[0].spend.spend1)
    && Pays(kernel, auth, raw.spends[0].spend.spend1, raw.spends[0].name.last)
    && SignedByPayer(wallet, kernel, auth.notes[0], raw.spends[0].spend.spend1)
  }

  predicate NamesNote(text: NoteName, name: Name) {
    && DecodeHash(text.first, "name.first") == Ok(name.first)
    && DecodeHash(text.last, "name.last") == Ok(name.last)
  }

  /** Gifts and fee add up to the note's assets; the first gift is the value authorized. */
  predicate Conserves(auth: Authorization, spend: Spend1)
    requires |auth.notes| == 1
  {
    && ParseU64(auth.fee) == Some(spend.fee)
    && ParseU64(auth.notes[0].assets) == Some(Gifts(spend.seeds) + spend.fee)
    && 1 <= |spend.seeds| <= 2
    && ParseU64(auth.value) == Some(spend.seeds[0].gift)
    && (|spend.seeds| == 2 <==> Gifts(spend.seeds) > spend.seeds[0].gift)
  }

  /** The payment goes to the payee, any change to the change address, all out of this note. */
  ghost predicate Pays(kernel: Kernel, auth: Authorization, spend: Spend1, parent: Hash) {
    && 1 <= |spend.seeds| <= 2
    && PaysTo(kernel, spend.seeds[0], auth.to, "auth.to")
    && (|spend.seeds| == 2 ==> PaysTo(kernel, spend.seeds[1], auth.changeAddress, "auth.change_address"))
    && forall i :: 0 <= i < |spend.seeds| ==>
         spend.seeds[i].parentHash == parent && spend.seeds[i].outputSource == None && spend.seeds[i].noteData == []
  }

  /** The seed is locked to the plain public-key hash that the text names. */
  ghost predicate PaysTo(kernel: Kernel, seed: Seed, pkh: string, field: string) {
    && DecodeHash(pkh, field).Ok?
    && kernel.lockHash(Chain.SimplePkh(DecodeHash(pkh, field).value)) == Some(seed.lockRoot)
  }

  /** One signature, by the payer's key over these seeds and fee, against the note's own lock. */
  ghost predicate SignedByPayer(wallet: Wallet, kernel: Kernel, note: NoteRef, spend: Spend1) {
    && |spend.wit.pkhSignature| == 1
    && var entry := spend.wit.pkhSignature[0];
    && entry.hash == wallet.payerPkhChain && entry.pubkey == wallet.payerPubkey
    && kernel.sigHash(spend.seeds, spend.fee).Some?
    && kernel.chainSign(wallet.sk, kernel.sigHash(spend.seeds, spend.fee).value) == Some(entry.signature)
    && spend.wit.lockMerkleProof.Full?
    && spend.wit.lockMerkleProof.condition == (match note.lock
                                               case SimplePkh => Chain.SimplePkh(wallet.payerPkhChain)
                                               case CoinbasePkh(t) => Chain.CoinbasePkh(wallet.payerPkhChain, t))
    && kernel.lockHash(spend.wit.lockMerkleProof.condition) == Some(spend.wit.lockMerkleProof.root)
    && spend.wit.lockMerkleProof.axis == 1 && spend.wit.lockMerkleProof.path == [] && spend.wit.hax == [] && spend.wit.tim == 0
  }

  lemma SeedsConserve(kernel: Kernel, auth: Authorization, split: Split, root: Hash, parent: Hash)
    requires MakeSeeds(kernel, auth, split, root, parent).Ok?
    ensures
      var seeds := MakeSeeds(kernel, auth, split, root, parent).value;
      && Gifts(seeds) == split.value + split.change
      && 1 <= |seeds| <= 2 && (|seeds| == 2 <==> split.change > 0)
      && seeds[0] == MakeSeed(root, split.value, parent)
      && (|seeds| == 2 ==> seeds[1].outputSource == None && seeds[1].noteData == [])
      && (|seeds| == 2 ==> seeds[1].parentHash == parent && PaysTo(kernel, seeds[1], auth.changeAddress, "auth.change_address"))
  {
    hide DecodeHash;
    var seeds := MakeSeeds(kernel, auth, split, root, parent).value;
    assert Gifts(seeds[1..]) == if |seeds| == 2 then seeds[1].gift + Gifts(seeds[1..][1..]) else 0;
  }

  lemma SpendIsSigned(wallet: Wallet, kernel: Kernel, note: NoteRef, root: Hash, seeds: seq<Seed>, fee: u64)
    requires Lock(kernel, InputCondition(wallet.payerPkhChain, note.lock)) == Ok(root)
    requires SignSpend(wallet, kernel, InputCondition(wallet.payerPkhChain, note.lock), root, seeds, fee).Ok?
    ensures
      var spend := SignSpend(wallet, kernel, InputCondition(wallet.payerPkhChain, note.lock), root, seeds, fee).value;
      spend.seeds == seeds && spend.fee == fee && SignedByPayer(wallet, kernel, note, spend)
  {
  }

  /** The pieces that the transaction is put together from. */
  lemma RawTxParts(wallet: Wallet, kernel: Kernel, auth: Authorization)
    returns (split: Split, recipient: Hash, root: Hash, inputRoot: Hash, parent: Hash, spend: Spend1)
    requires BuildRawTx(wallet, kernel, auth).Ok?
    ensures SplitNote(wallet, auth) == Ok(split) && |auth.notes| == 1
    ensures HashField(auth.to, "auth.to") == Ok(recipient) && Lock(kernel, Chain.SimplePkh(recipient)) == Ok(root)
    ensures HashField(auth.notes[0].name.last, "name.last") == Ok(parent)
    ensures HashField(auth.notes[0].name.first, "name.first").Ok?
    ensures
      var condition := InputCondition(wallet.payerPkhChain, auth.notes[0].lock);
      && Lock(kernel, condition) == Ok(inputRoot)
      && MakeSeeds(kernel, auth, split, root, parent) == Ok(spend.seeds)
      && SignSpend(wallet, kernel, condition, inputRoot, spend.seeds, split.fee) == Ok(spend)
    ensures
      var raw := BuildRawTx(wallet, kernel, auth).value;
      && raw.version == V1 && kernel.txId(raw.spends) == Some(raw.id)
      && raw.spends == [SpendEntry(Name(HashField(auth.notes[0].name.first, "name.first").value, parent), Witnessed(spend))]
  {
    SplitNoteIff(wallet, auth);
    hide HashField, Lock, MakeSeeds, SplitNote;
    split := SplitNote(wallet, auth).value;
    recipient := HashField(auth.to, "auth.to").value;
    root := Lock(kernel, Chain.SimplePkh(recipient)).value;
    inputRoot := Lock(kernel, InputCondition(wallet.payerPkhChain, auth.notes[0].lock)).value;
    parent := HashField(auth.notes[0].name.last, "name.last").value;
    spend := BuildRawTx(wallet, kernel, auth).value.spends[0].spend.spend1;
  }

  lemma SeedsPay(kernel: Kernel, auth: Authorization, split: Split, recipient: Hash, root: Hash, parent: Hash, spend: Spend1)
    requires MakeSeeds(kernel, auth, split, root, parent) == Ok(spend.seeds)
    requires HashField(auth.to, "auth.to") == Ok(recipient) && Lock(kernel, Chain.SimplePkh(recipient)) == Ok(root)
    ensures Pays(kernel, auth, spend, parent)
  {
    hide DecodeHash, MakeSeeds, Gifts;
    SeedsConserve(kernel, auth, split, root, parent);
  }

  lemma RawTxConserves(wallet: Wallet, kernel: Kernel, auth: Authorization, split: Split, root: Hash, parent: Hash, spend: Spend1)
    requires SplitNote(wallet, auth) == Ok(split) && |auth.notes| == 1 && spend.fee == split.fee
    requires MakeSeeds(kernel, auth, split, root, parent) == Ok(spend.seeds)
    ensures Conserves(auth, spend)
  {
    hide DecodeHash, MakeSeeds, Gifts, ParseU64, SplitNote;
    SplitNoteIff(wallet, auth);
    SeedsConserve(kernel, auth, split, root, parent);
  }

  lemma RawTxSpendsNote(wallet: Wallet, kernel: Kernel, auth: Authorization)
    requires BuildRawTx(wallet, kernel, auth).Ok?
    ensures SpendsNote(wallet, kernel, auth, BuildRawTx(wallet, kernel, auth).value)
  {
    hide BuildRawTx, DecodeHash, SplitNote, MakeSeeds, SignSpend, HashField, Lock, InputCondition;
    hide Conserves, Pays, SignedByPayer;
    var split, recipient, root, inputRoot, parent, spend := RawTxParts(wallet, kernel, auth);
    HashFieldIs(auth.notes[0].name.first, "name.first");
    HashFieldIs(auth.notes[0].name.last, "name.last");
    SpendIsSigned(wallet, kernel, auth.notes[0], inputRoot, spend.seeds, split.fee);
    RawTxConserves(wallet, kernel, auth, split, root, parent, spend);
    SeedsPay(kernel, auth, split, recipient, root, parent, spend);
  }

  lemma HashFieldIs(s: string, field: string)
    requires HashField(s, field).Ok?
    ensures DecodeHash(s, field).Ok? && DecodeHash(s, field).value == HashField(s, field).value
  {
    hide DecodeHash;
  }

  lemma RawTxInField(wallet: Wallet, kernel: Kernel, auth: Authorization)
    requires BuildRawTx(wallet, kernel, auth).Ok?
    requires kernel.InFieldOutputs() && InField(wallet.payerPkhChain)
    ensures TxInField(BuildRawTx(wallet, kernel, auth).value)
  {
    hide DecodeHash, ParseU64, SplitNote, InField;
  }

  /**
   Whenever the wallet authorizes a payment, the surrogate it ships decodes, at
   the facilitator, to a transaction that spends exactly the note authorized.
   */
  lemma ThroughTheWire(
    wallet: Wallet, kernel: Kernel, codec: Codec, schnorr: Schnorr, tip5: HashText.Tip5, auth: Authorization)
    requires codec.Lawful() && kernel.InFieldOutputs() && InField(wallet.payerPkhChain)
    requires Authorize(wallet, kernel, codec, schnorr, tip5, auth).Ok?
    ensures
      var decoded := codec.Parse(Authorize(wallet, kernel, codec, schnorr, tip5, auth).value.signedRawTx);
      decoded.Ok? && SpendsNote(wallet, kernel, auth, decoded.value)
  {
    hide BuildRawTx, SpendsNote, TxInField, SignEnvelope;
    hide codec.Print, codec.Parse;
    var raw := BuildRawTx(wallet, kernel, auth).value;
    RawTxSpendsNote(wallet, kernel, auth);
    RawTxInField(wallet, kernel, auth);
    TxTrip(codec, raw);
  }

  // ---------------------------------------------------------------------------
  // When the wallet authorizes
  // ---------------------------------------------------------------------------

  /** Every name that the transaction needs can be read, and every lock hashed. */
  predicate LocksReadable(wallet: Wallet, kernel: Kernel, auth: Authorization, change: nat)
    requires |auth.notes| == 1
  {
    && DecodeHash(auth.to, "").Ok? && kernel.lockHash(Chain.SimplePkh(DecodeHash(auth.to, "").value)).Some?
    && DecodeHash(auth.notes[0].name.first, "").Ok? && DecodeHash(auth.notes[0].name.last, "").Ok?
    && kernel.lockHash(InputCondition(wallet.payerPkhChain, auth.notes[0].lock)).Some?
    && (change > 0 ==>
          && DecodeHash(auth.changeAddress, "").Ok?
          && kernel.lockHash(Chain.SimplePkh(DecodeHash(auth.changeAddress, "").value)).Some?)
  }

  lemma HashFieldReads(s: string, field: string)
    ensures HashField(s, field).Ok? <==> DecodeHash(s, "").Ok?
    ensures HashField(s, field).Ok? ==> HashField(s, field).value == DecodeHash(s, "").value
  {
    hide Base58.Decode, FiveDigits;
  }

  lemma SeedsOkIff(kernel: Kernel, auth: Authorization, split: Split, root: Hash, parent: Hash)
    ensures MakeSeeds(kernel, auth, split, root, parent).Ok? <==>
            (split.change > 0 ==>
               && DecodeHash(auth.changeAddress, "").Ok?
               && kernel.lockHash(Chain.SimplePkh(DecodeHash(auth.changeAddress, "").value)).Some?)
  {
    HashFieldReads(auth.changeAddress, "auth.change_address");
    hide HashField, DecodeHash;
  }

  /** The kernel and the chain key answer every question. */
  ghost predicate Responsive(kernel: Kernel, sk: Belts8) {
    && (forall seeds, fee :: kernel.sigHash(seeds, fee).Some?)
    && (forall h :: kernel.chainSign(sk, h).Some?)
    && (forall spends :: kernel.txId(spends).Some?)
  }

  /** With a kernel that answers, the transaction is built exactly when the note can be split and the locks read. */
  lemma BuildsIff(wallet: Wallet, kernel: Kernel, auth: Authorization)
    requires Responsive(kernel, wallet.sk)
    ensures BuildRawTx(wallet, kernel, auth).Ok? <==>
            && SplitNote(wallet, auth).Ok? && |auth.notes| == 1
            && LocksReadable(wallet, kernel, auth, SplitNote(wallet, auth).value.change)
  {
    if BuildRawTx(wallet, kernel, auth).Ok? {
      BuiltIsReadable(wallet, kernel, auth);
    }
    SplitNoteIff(wallet, auth);
    if SplitNote(wallet, auth).Ok? && LocksReadable(wallet, kernel, auth, SplitNote(wallet, auth).value.change) {
      ReadableIsBuilt(wallet, kernel, auth);
    }
    hide BuildRawTx, SplitNote, LocksReadable, ParseU64;
  }

  lemma BuiltIsReadable(wallet: Wallet, kernel: Kernel, auth: Authorization)
    requires BuildRawTx(wallet, kernel, auth).Ok?
    ensures SplitNote(wallet, auth).Ok? && |auth.notes| == 1
    ensures LocksReadable(wallet, kernel, auth, SplitNote(wallet, auth).value.change)
  {
    hide BuildRawTx, SplitNote, HashField, DecodeHash, MakeSeeds, SignSpend, InputCondition;
    var split, recipient, root, inputRoot, parent, spend := RawTxParts(wallet, kernel, auth);
    HashFieldReads(auth.to, "auth.to");
    HashFieldReads(auth.notes[0].name.last, "name.last");
    HashFieldReads(auth.notes[0].name.first, "name.first");
    SeedsOkIff(kernel, auth, split, root, parent);
  }

  lemma ReadableIsBuilt(wallet: Wallet, kernel: Kernel, auth: Authorization)
    requires SplitNote(wallet, auth).Ok? && |auth.notes| == 1 && Responsive(kernel, wallet.sk)
    requires LocksReadable(wallet, kernel, auth, SplitNote(wallet, auth).value.change)
    ensures BuildRawTx(wallet, kernel, auth).Ok?
  {
    hide SplitNote, HashField, DecodeHash, MakeSeeds, InputCondition;
    HashFieldReads(auth.to, "auth.to");
    HashFieldReads(auth.notes[0].name.last, "name.last");
    HashFieldReads(auth.notes[0].name.first, "name.first");
    var root := kernel.lockHash(Chain.SimplePkh(HashField(auth.to, "auth.to").value)).value;
    SeedsOkIff(kernel, auth, SplitNote(wallet, auth).value, root, HashField(auth.notes[0].name.last, "name.last").value);
  }

  /** And the wallet authorizes exactly when besides the surrogate can be printed and the envelope signed. */
  lemma AuthorizesIff(wallet: Wallet, kernel: Kernel, codec: Codec, schnorr: Schnorr, tip5: HashText.Tip5, auth: Authorization)
    ensures Authorize(wallet, kernel, codec, schnorr, tip5, auth).Ok? <==>
            && BuildRawTx(wallet, kernel, auth).Ok? && codec.Print(BuildRawTx(wallet, kernel, auth).value).Ok?
            && MessageDigest(tip5, auth).Ok? && schnorr.validScalar(KeyScalar(wallet.sk))
            && SignDigest(schnorr, KeyScalar(wallet.sk), MessageDigest(tip5, auth).value).Ok?
  {
    hide BuildRawTx, MessageDigest, KeyScalar, SignDigest;
    hide codec.Print;
  }

  // ---------------------------------------------------------------------------
  // The key
  // ---------------------------------------------------------------------------

  predicate KeyChunks(sk: Belts8) {
    forall i :: 0 <= i < 8 ==> sk[i] < CHUNK
  }

  lemma {:induction false} LowDigitAt(n: nat, base: nat, k: nat, i: nat)
    requires base > 0 && i < k
    ensures LowDigits(n, base, k)[i] == Quotient(n, base, i) % base
    decreases k
  {
    LowDigitsPush(n, base, k - 1);
    if i == k - 1 {
    } else {
      LowDigitAt(n, base, k - 1, i);
    }
  }

  lemma QuotientIsShift(n: nat, base: nat, k: nat)
    requires base > 0
    ensures Pow(base, k) > 0 && Quotient(n, base, k) == n / Pow(base, k)
  {
    PowPositive(base, k);
    LowDigitsSplit(n, base, k);
    LittleEndianBound(LowDigits(n, base, k), base);
    DivModOf(Pow(base, k), Quotient(n, base, k), LittleEndian(LowDigits(n, base, k), base));
  }

  /** The scalar is below 2^256 and each chunk is recovered by shifting and masking. */
  lemma ScalarChunks(sk: Belts8, i: nat)
    requires KeyChunks(sk) && i < 8
    ensures KeyScalar(sk) < Pow(0x1_0000_0000, 8)
    ensures Pow(0x1_0000_0000, i) > 0 && KeyScalar(sk) / Pow(0x1_0000_0000, i) % 0x1_0000_0000 == sk[i]
  {
    LittleEndianBound(sk, CHUNK);
    LowDigitsOfValue(sk, CHUNK);
    LowDigitAt(KeyScalar(sk), CHUNK, 8, i);
    QuotientIsShift(KeyScalar(sk), CHUNK, i);
  }

  /** Keys with 32-bit chunks have distinct scalars. */
  lemma ScalarInjective(a: Belts8, b: Belts8)
    requires KeyChunks(a) && KeyChunks(b)
    ensures KeyScalar(a) == KeyScalar(b) <==> a == b
  {
    if KeyScalar(a) == KeyScalar(b) {
      LittleEndianInjective(a, b, CHUNK);
    }
  }

  /** A chunk of 2^32 or more stands for the same scalar as one with its overflow carried up. */
  lemma WideChunkCollides(a: Belts8)
    requires a[0] >= CHUNK && a[1] < U64_MAX
    ensures
      var b: Belts8 := a[0 := a[0] - CHUNK][1 := a[1] + 1];
      b != a && KeyScalar(b) == KeyScalar(a)
  {
    var b := a[0 := a[0] - CHUNK][1 := a[1] + 1];
    assert b[1..][1..] == a[1..][1..];
    assert LittleEndian(b[1..], CHUNK) == LittleEndian(a[1..], CHUNK) + 1;
  }
}
