/** Chain-typed transactions, and the JSON surrogate that carries them in a payment. */
module Chain {
  import opened Base58
  import opened Decimal
  import opened HashText
  import opened Wrappers

  type Hash = Digest
  type Belts8 = bs: seq<Belt> | |bs| == 8 witness [0, 0, 0, 0, 0, 0, 0, 0]
  type Text8 = ts: seq<string> | |ts| == 8 witness ["", "", "", "", "", "", "", ""]

  datatype Version = V0 | V1 | V2

  datatype SpendCondition =
    | SimplePkh(pkh: Hash)
    | CoinbasePkh(pkh: Hash, timelockMin: u64)

  datatype LockMerkleProof =
    | Full(condition: SpendCondition, axis: u64, root: Hash, path: seq<Hash>)
    | Stub(blob: seq<byte>)

  datatype Source = Source(hash: Hash, isCoinbase: bool)
  datatype NoteEntry = NoteEntry(key: string, blob: seq<byte>)
  type NoteData = seq<NoteEntry>

  datatype Pubkey = Pubkey(coordinates: seq<Belt>)
  datatype SchnorrSignature = SchnorrSignature(chal: Belts8, sig: Belts8)

  datatype PkhSignatureEntry = PkhSignatureEntry(hash: Hash, pubkey: Pubkey, signature: SchnorrSignature)
  datatype HaxPreimage = HaxPreimage(hash: Hash, value: seq<byte>)
  datatype Witness = Witness(
    lockMerkleProof: LockMerkleProof, pkhSignature: seq<PkhSignatureEntry>, hax: seq<HaxPreimage>, tim: u64)

  datatype Seed = Seed(
    outputSource: Option<Source>, lockRoot: Hash, noteData: NoteData, gift: u64, parentHash: Hash)

  datatype Spend1 = Spend1(wit: Witness, seeds: seq<Seed>, fee: u64)
  datatype Spend = Legacy(blob: seq<byte>) | Witnessed(spend1: Spend1)
  datatype Name = Name(first: Hash, last: Hash)
  datatype SpendEntry = SpendEntry(name: Name, spend: Spend)
  datatype RawTx = RawTx(version: Version, id: Hash, spends: seq<SpendEntry>)

  // ---------------------------------------------------------------------------
  // The JSON surrogate
  // ---------------------------------------------------------------------------

  datatype SignedAtoms = SignedAtoms(chal: Text8, sig: Text8)
  datatype SignedPkhEntry = SignedPkhEntry(hash: string, pubkey: string, signature: SignedAtoms)
  datatype SignedHax = SignedHax(hash: string, valueNoun: string)
  datatype SignedWitness = SignedWitness(
    lockMerkleProofNoun: string, pkhSignature: seq<SignedPkhEntry>, hax: seq<SignedHax>, tim: u64)
  datatype SignedSeed = SignedSeed(
    outputSourceNoun: Option<string>, lockRoot: string, noteDataNoun: Option<string>, gift: string, parentHash: string)
  datatype SignedSpend = SignedSpend(wit: SignedWitness, seeds: seq<SignedSeed>, fee: string)
  datatype SignedSpendEntry = SignedSpendEntry(first: string, last: string, spend: SignedSpend)
  datatype SignedRawTx = SignedRawTx(version: string, txId: string, spends: seq<SignedSpendEntry>)
}
