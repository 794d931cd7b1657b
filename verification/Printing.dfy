/** What the surrogate printer writes, text by text, said without its encoders. */
module Printing {
  import Base58
  import Base64
  import opened Chain
  import opened Decimal
  import opened HashText
  import Positional
  import opened Surrogate
  import opened Wrappers

  // ---------------------------------------------------------------------------
  // Single texts
  // ---------------------------------------------------------------------------

  /** The one base58 text without leading '1's for the base-PRIME integer of the digest. */
  predicate HashPrinted(h: Hash, text: string) {
    Base58.IntegerOf(text) == Some(Positional.LittleEndian(h, PRIME)) && Base58.StripOnes(text) == text
  }

  lemma HashPrintedIff(h: Hash, text: string)
    ensures EncodeHash(h) == text <==> HashPrinted(h, text)
  {
    hide Base58.Encode, Base58.IntegerOf, Base58.StripOnes;
    Base58.IntegerOfPrinted(Positional.LittleEndian(h, PRIME));
    if HashPrinted(h, text) {
      Base58.SameInteger(text, EncodeHash(h));
    }
  }

  /** The one text of decimal digits for the number that has no zero in front. */
  predicate NumberPrinted(n: nat, text: string) {
    Denotes(text, n) && (text[0] == '0' ==> text == "0")
  }

  lemma NumberPrintedIff(n: nat, text: string)
    ensures ToDecimal(n) == text <==> NumberPrinted(n, text)
  {
    hide ToDecimal, Denotes;
    PrintedIsPlain(n);
    if NumberPrinted(n, text) {
      PlainIsPrinted(text, n);
    }
  }

  /** The one canonical base64 text of the bytes. */
  predicate BytesPrinted(bytes: seq<Base58.byte>, text: string) {
    Base64.Decode(text) == Some(bytes)
  }

  lemma BytesPrintedIff(bytes: seq<Base58.byte>, text: string)
    ensures Base64.Encode(bytes) == text <==> BytesPrinted(bytes, text)
  {
    hide Base64.Encode, Base64.Decode;
    Base64.DecodeOfEncode(bytes);
    if BytesPrinted(bytes, text) {
      Base64.EncodeOfDecode(text);
    }
  }

  // ---------------------------------------------------------------------------
  // Parts
  // ---------------------------------------------------------------------------

  predicate SeedPrinted(c: Codec, seed: Seed, s: SignedSeed) {
    && (seed.outputSource.Some? <==> s.outputSourceNoun.Some?)
    && (seed.outputSource.Some? ==> BytesPrinted(c.jamSource(seed.outputSource.value), s.outputSourceNoun.value))
    && (seed.noteData != [] <==> s.noteDataNoun.Some?)
    && (seed.noteData != [] ==> BytesPrinted(c.jamNotes(seed.noteData), s.noteDataNoun.value))
    && HashPrinted(seed.lockRoot, s.lockRoot) && HashPrinted(seed.parentHash, s.parentHash) && NumberPrinted(seed.gift, s.gift)
  }

  predicate BeltsPrinted(belts: Belts8, texts: Text8) {
    forall i :: 0 <= i < 8 ==> NumberPrinted(belts[i], texts[i])
  }

  predicate PkhPrinted(c: Codec, entry: PkhSignatureEntry, e: SignedPkhEntry) {
    && HashPrinted(entry.hash, e.hash) && c.pubkeyText(entry.pubkey) == Some(e.pubkey)
    && BeltsPrinted(entry.signature.chal, e.signature.chal) && BeltsPrinted(entry.signature.sig, e.signature.sig)
  }

  predicate HaxPrinted(hax: HaxPreimage, h: SignedHax) {
    HashPrinted(hax.hash, h.hash) && BytesPrinted(hax.value, h.valueNoun)
  }

  predicate WitnessPrinted(c: Codec, w: Witness, s: SignedWitness) {
    && BytesPrinted(c.jamProof(w.lockMerkleProof), s.lockMerkleProofNoun) && s.tim == w.tim
    && |s.pkhSignature| == |w.pkhSignature| && |s.hax| == |w.hax|
    && (forall i :: 0 <= i < |w.pkhSignature| ==> PkhPrinted(c, w.pkhSignature[i], s.pkhSignature[i]))
    && (forall i :: 0 <= i < |w.hax| ==> HaxPrinted(w.hax[i], s.hax[i]))
  }

  predicate SpendPrinted(c: Codec, spend: Spend1, s: SignedSpend) {
    && WitnessPrinted(c, spend.wit, s.wit) && NumberPrinted(spend.fee, s.fee)
    && |s.seeds| == |spend.seeds| && forall i :: 0 <= i < |spend.seeds| ==> SeedPrinted(c, spend.seeds[i], s.seeds[i])
  }

  predicate EntryPrinted(c: Codec, e: SpendEntry, s: SignedSpendEntry) {
    && HashPrinted(e.name.first, s.first) && HashPrinted(e.name.last, s.last)
    && e.spend.Witnessed? && SpendPrinted(c, e.spend.spend1, s.spend)
  }

  predicate TxPrinted(c: Codec, raw: RawTx, s: SignedRawTx) {
    && raw.version == V1 && s.version == "v1" && HashPrinted(raw.id, s.txId)
    && |s.spends| == |raw.spends| && forall i :: 0 <= i < |raw.spends| ==> EntryPrinted(c, raw.spends[i], s.spends[i])
  }

  // ---------------------------------------------------------------------------
  // Each part is printed as its own text
  // ---------------------------------------------------------------------------

  lemma SeedPrintedIff(c: Codec, seed: Seed, s: SignedSeed)
    ensures c.PrintSeed(seed) == Ok(s) <==> SeedPrinted(c, seed, s)
  {
    hide EncodeHash, ToDecimal, Base64.Encode, HashPrinted, NumberPrinted, BytesPrinted;
    HashPrintedIff(seed.lockRoot, s.lockRoot);
    HashPrintedIff(seed.parentHash, s.parentHash);
    NumberPrintedIff(seed.gift, s.gift);
    if seed.outputSource.Some? && s.outputSourceNoun.Some? {
      BytesPrintedIff(c.jamSource(seed.outputSource.value), s.outputSourceNoun.value);
    }
    if s.noteDataNoun.Some? {
      BytesPrintedIff(c.jamNotes(seed.noteData), s.noteDataNoun.value);
    }
  }

  lemma BeltsPrintedIff(c: Codec, belts: Belts8, texts: Text8)
    ensures c.PrintBelts(belts) == texts <==> BeltsPrinted(belts, texts)
  {
    hide ToDecimal, NumberPrinted;
    forall i | 0 <= i < 8
      ensures ToDecimal(belts[i]) == texts[i] <==> NumberPrinted(belts[i], texts[i])
    {
      NumberPrintedIff(belts[i], texts[i]);
    }
    assert c.PrintBelts(belts) == texts <==> forall i :: 0 <= i < 8 ==> c.PrintBelts(belts)[i] == texts[i];
  }

  lemma PkhPrintedIff(c: Codec, entry: PkhSignatureEntry, e: SignedPkhEntry)
    ensures c.PrintPkhEntry(entry) == Ok(e) <==> PkhPrinted(c, entry, e)
  {
    hide EncodeHash, HashPrinted, BeltsPrinted, c.PrintBelts;
    HashPrintedIff(entry.hash, e.hash);
    BeltsPrintedIff(c, entry.signature.chal, e.signature.chal);
    BeltsPrintedIff(c, entry.signature.sig, e.signature.sig);
  }

  lemma HaxPrintedIff(c: Codec, hax: HaxPreimage, h: SignedHax)
    ensures c.PrintHax(hax) == Ok(h) <==> HaxPrinted(hax, h)
  {
    hide EncodeHash, Base64.Encode, HashPrinted, BytesPrinted;
    HashPrintedIff(hax.hash, h.hash);
    BytesPrintedIff(hax.value, h.valueNoun);
  }

  lemma WitnessPrintedIff(c: Codec, w: Witness, s: SignedWitness)
    ensures c.PrintWitness(w) == Ok(s) <==> WitnessPrinted(c, w, s)
  {
    hide MapResult, Base64.Encode, BytesPrinted, PkhPrinted, HaxPrinted, c.PrintPkhEntry, c.PrintHax;
    BytesPrintedIff(c.jamProof(w.lockMerkleProof), s.lockMerkleProofNoun);
    MapResultIff(c.PrintPkhEntry, w.pkhSignature, s.pkhSignature);
    MapResultIff(c.PrintHax, w.hax, s.hax);
    forall i | 0 <= i < |w.pkhSignature| && |s.pkhSignature| == |w.pkhSignature|
      ensures c.PrintPkhEntry(w.pkhSignature[i]) == Ok(s.pkhSignature[i]) <==> PkhPrinted(c, w.pkhSignature[i], s.pkhSignature[i])
    {
      PkhPrintedIff(c, w.pkhSignature[i], s.pkhSignature[i]);
    }
    forall i | 0 <= i < |w.hax| && |s.hax| == |w.hax|
      ensures c.PrintHax(w.hax[i]) == Ok(s.hax[i]) <==> HaxPrinted(w.hax[i], s.hax[i])
    {
      HaxPrintedIff(c, w.hax[i], s.hax[i]);
    }
  }

  lemma SpendPrintedIff(c: Codec, spend: Spend1, s: SignedSpend)
    ensures c.PrintSpend(spend) == Ok(s) <==> SpendPrinted(c, spend, s)
  {
    hide MapResult, ToDecimal, NumberPrinted, WitnessPrinted, SeedPrinted, c.PrintWitness, c.PrintSeed;
    WitnessPrintedIff(c, spend.wit, s.wit);
    NumberPrintedIff(spend.fee, s.fee);
    MapResultIff(c.PrintSeed, spend.seeds, s.seeds);
    forall i | 0 <= i < |spend.seeds| && |s.seeds| == |spend.seeds|
      ensures c.PrintSeed(spend.seeds[i]) == Ok(s.seeds[i]) <==> SeedPrinted(c, spend.seeds[i], s.seeds[i])
    {
      SeedPrintedIff(c, spend.seeds[i], s.seeds[i]);
    }
  }

  lemma EntryPrintedIff(c: Codec, e: SpendEntry, s: SignedSpendEntry)
    ensures c.PrintEntry(e) == Ok(s) <==> EntryPrinted(c, e, s)
  {
    hide EncodeHash, HashPrinted, SpendPrinted, c.PrintSpend;
    HashPrintedIff(e.name.first, s.first);
    HashPrintedIff(e.name.last, s.last);
    if e.spend.Witnessed? {
      SpendPrintedIff(c, e.spend.spend1, s.spend);
    }
  }

  /** What the printer makes of a transaction: the surrogate each text of which is the canonical one of its own part. */
  lemma PrintsToIff(c: Codec, raw: RawTx, signed: SignedRawTx)
    ensures c.Print(raw) == Ok(signed) <==> TxPrinted(c, raw, signed)
  {
    hide MapResult, EncodeHash, HashPrinted, EntryPrinted, c.PrintEntry;
    HashPrintedIff(raw.id, signed.txId);
    MapResultIff(c.PrintEntry, raw.spends, signed.spends);
    forall i | 0 <= i < |raw.spends| && |signed.spends| == |raw.spends|
      ensures c.PrintEntry(raw.spends[i]) == Ok(signed.spends[i]) <==> EntryPrinted(c, raw.spends[i], signed.spends[i])
    {
      EntryPrintedIff(c, raw.spends[i], signed.spends[i]);
    }
  }
}
