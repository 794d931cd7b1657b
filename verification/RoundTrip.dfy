/** Printing a transaction as its surrogate and parsing that gives the transaction back. */
module RoundTrip {
  import Base58
  import Base64
  import opened Chain
  import opened Decimal
  import opened HashText
  import opened Surrogate
  import opened Wrappers

  // ---------------------------------------------------------------------------
  // Which transactions are in the field
  // ---------------------------------------------------------------------------

  predicate SeedInField(s: Seed) {
    InField(s.lockRoot) && InField(s.parentHash)
  }

  predicate WitnessInField(w: Witness) {
    && (forall i :: 0 <= i < |w.pkhSignature| ==> InField(w.pkhSignature[i].hash))
    && (forall i :: 0 <= i < |w.hax| ==> InField(w.hax[i].hash))
  }

  predicate SpendInField(s: Spend1) {
    WitnessInField(s.wit) && forall i :: 0 <= i < |s.seeds| ==> SeedInField(s.seeds[i])
  }

  predicate EntryInField(e: SpendEntry) {
    InField(e.name.first) && InField(e.name.last) && (e.spend.Witnessed? ==> SpendInField(e.spend.spend1))
  }

  predicate TxInField(raw: RawTx) {
    InField(raw.id) && forall i :: 0 <= i < |raw.spends| ==> EntryInField(raw.spends[i])
  }

  // ---------------------------------------------------------------------------
  // Leaves
  // ---------------------------------------------------------------------------

  lemma SeedTrip(c: Codec, seed: Seed)
    requires c.Lawful()
    ensures c.ParseSeed(c.PrintSeed(seed).value) == Ok(seed) <==> SeedInField(seed)
  {
    if seed.outputSource.Some? {
      BytesTrip(c.jamSource(seed.outputSource.value), "output_source");
    }
    if seed.noteData != [] {
      BytesTrip(c.jamNotes(seed.noteData), "note_data");
    }
    HashTrip(seed.lockRoot, "lock_root");
    HashTrip(seed.parentHash, "parent_hash");
    NumberTrip(seed.gift, "gift");
    hide HashOf, NumberOf, BytesOf;
  }

  lemma BeltsTrip(c: Codec, belts: Belts8)
    ensures c.ParseBelts(c.PrintBelts(belts)) == Ok(belts)
  {
    var texts := c.PrintBelts(belts);
    forall i | 0 <= i < 8
      ensures c.ParseBelt(texts[i]) == Ok(belts[i])
    {
      NumberTrip(belts[i], "belt");
    }
    hide NumberOf;
    MapResultOk(c.ParseBelt, texts);
    assert MapResult(c.ParseBelt, texts).value == belts;
  }

  lemma PkhEntryTrip(c: Codec, entry: PkhSignatureEntry)
    requires c.Lawful() && c.PrintPkhEntry(entry).Ok?
    ensures c.ParsePkhEntry(c.PrintPkhEntry(entry).value) == Ok(entry) <==> InField(entry.hash)
  {
    HashTrip(entry.hash, "pkh");
    BeltsTrip(c, entry.signature.chal);
    BeltsTrip(c, entry.signature.sig);
    hide HashOf, c.ParseBelts, c.PrintBelts;
  }

  lemma HaxTrip(c: Codec, hax: HaxPreimage)
    ensures c.ParseHax(c.PrintHax(hax).value) == Ok(hax) <==> InField(hax.hash)
  {
    HashTrip(hax.hash, "hax");
    BytesTrip(hax.value, "hax");
    hide HashOf, BytesOf;
  }

  // ---------------------------------------------------------------------------
  // Collections
  // ---------------------------------------------------------------------------

  lemma WitnessTrip(c: Codec, w: Witness)
    requires c.Lawful() && c.PrintWitness(w).Ok?
    ensures c.ParseWitness(c.PrintWitness(w).value) == Ok(w) <==> WitnessInField(w)
  {
    hide BytesOf, c.PrintPkhEntry, c.ParsePkhEntry, c.PrintHax, c.ParseHax, MapResult;
    BytesTrip(c.jamProof(w.lockMerkleProof), "lock_merkle_proof");
    MapResultRoundTrip(c.PrintPkhEntry, c.ParsePkhEntry, w.pkhSignature);
    forall i | 0 <= i < |w.pkhSignature|
      ensures c.ParsePkhEntry(c.PrintPkhEntry(w.pkhSignature[i]).value) == Ok(w.pkhSignature[i])
              <==> InField(w.pkhSignature[i].hash)
    {
      PkhEntryTrip(c, w.pkhSignature[i]);
    }
    MapResultRoundTrip(c.PrintHax, c.ParseHax, w.hax);
    forall i | 0 <= i < |w.hax|
      ensures c.ParseHax(c.PrintHax(w.hax[i]).value) == Ok(w.hax[i]) <==> InField(w.hax[i].hash)
    {
      HaxTrip(c, w.hax[i]);
    }
  }

  lemma SpendTrip(c: Codec, s: Spend1)
    requires c.Lawful() && c.PrintSpend(s).Ok?
    ensures c.ParseSpend(c.PrintSpend(s).value) == Ok(s) <==> SpendInField(s)
  {
    hide NumberOf, c.PrintSeed, c.ParseSeed, c.PrintWitness, c.ParseWitness, MapResult;
    WitnessTrip(c, s.wit);
    MapResultRoundTrip(c.PrintSeed, c.ParseSeed, s.seeds);
    forall i | 0 <= i < |s.seeds|
      ensures c.ParseSeed(c.PrintSeed(s.seeds[i]).value) == Ok(s.seeds[i]) <==> SeedInField(s.seeds[i])
    {
      SeedTrip(c, s.seeds[i]);
    }
    NumberTrip(s.fee, "fee");
  }

  lemma EntryTrip(c: Codec, e: SpendEntry)
    requires c.Lawful() && c.PrintEntry(e).Ok?
    ensures c.ParseEntry(c.PrintEntry(e).value) == Ok(e) <==> EntryInField(e)
  {
    hide HashOf, c.PrintSpend, c.ParseSpend;
    HashTrip(e.name.first, "name.first");
    HashTrip(e.name.last, "name.last");
    SpendTrip(c, e.spend.spend1);
  }

  // ---------------------------------------------------------------------------
  // Whole transactions
  // ---------------------------------------------------------------------------

  /** Whatever the printer accepts comes back exactly when all its hashes are in the field. */
  lemma TxTrip(c: Codec, raw: RawTx)
    requires c.Lawful() && c.Print(raw).Ok?
    ensures c.Parse(c.Print(raw).value) == Ok(raw) <==> TxInField(raw)
  {
    hide HashOf, c.PrintEntry, c.ParseEntry, MapResult;
    HashTrip(raw.id, "tx_id");
    MapResultRoundTrip(c.PrintEntry, c.ParseEntry, raw.spends);
    forall i | 0 <= i < |raw.spends|
      ensures c.ParseEntry(c.PrintEntry(raw.spends[i]).value) == Ok(raw.spends[i]) <==> EntryInField(raw.spends[i])
    {
      EntryTrip(c, raw.spends[i]);
    }
  }

  /** A witness spend all of whose public keys have a text form. */
  predicate Printable(c: Codec, e: SpendEntry) {
    && e.spend.Witnessed?
    && forall i :: 0 <= i < |e.spend.spend1.wit.pkhSignature| ==>
         c.pubkeyText(e.spend.spend1.wit.pkhSignature[i].pubkey).Some?
  }

  lemma EntryPrintable(c: Codec, e: SpendEntry)
    ensures c.PrintEntry(e).Ok? <==> Printable(c, e)
  {
    if e.spend.Witnessed? {
      var s := e.spend.spend1;
      MapResultOk(c.PrintPkhEntry, s.wit.pkhSignature);
      MapResultOk(c.PrintHax, s.wit.hax);
      MapResultOk(c.PrintSeed, s.seeds);
      hide MapResult, c.PrintBelts;
    }
  }

  /** The printer accepts exactly the V1 transactions of printable witness spends. */
  lemma PrinterDomain(c: Codec, raw: RawTx)
    ensures c.Print(raw).Ok? <==>
            raw.version == V1 && forall i :: 0 <= i < |raw.spends| ==> Printable(c, raw.spends[i])
  {
    MapResultOk(c.PrintEntry, raw.spends);
    forall i | 0 <= i < |raw.spends|
      ensures c.PrintEntry(raw.spends[i]).Ok? <==> Printable(c, raw.spends[i])
    {
      EntryPrintable(c, raw.spends[i]);
    }
    hide MapResult, c.PrintEntry, Printable;
  }

  // ---------------------------------------------------------------------------
  // What the parser can produce
  // ---------------------------------------------------------------------------

  lemma ParsedSpendInField(c: Codec, s: SignedSpend)
    requires c.ParseSpend(s).Ok?
    ensures SpendInField(c.ParseSpend(s).value)
  {
    MapResultOk(c.ParsePkhEntry, s.wit.pkhSignature);
    MapResultOk(c.ParseHax, s.wit.hax);
    MapResultOk(c.ParseSeed, s.seeds);
    hide MapResult, c.ParseProof, c.ParseBelts, NumberOf, BytesOf, DecodeHash;
  }

  lemma ParsedEntryInField(c: Codec, entry: SignedSpendEntry)
    requires c.ParseEntry(entry).Ok?
    ensures EntryInField(c.ParseEntry(entry).value) && c.ParseEntry(entry).value.spend.Witnessed?
  {
    ParsedSpendInField(c, entry.spend);
    hide c.ParseSpend, DecodeHash, SpendInField;
  }

  /** Every surrogate that parses gives a V1 transaction of witness spends with all hashes in the field. */
  lemma ParsedTxInField(c: Codec, signed: SignedRawTx)
    requires c.Parse(signed).Ok?
    ensures
      var raw := c.Parse(signed).value;
      && raw.version == V1 && |raw.spends| == |signed.spends| && TxInField(raw)
      && forall i :: 0 <= i < |raw.spends| ==> raw.spends[i].spend.Witnessed?
  {
    MapResultOk(c.ParseEntry, signed.spends);
    forall i | 0 <= i < |signed.spends|
      ensures c.ParseEntry(signed.spends[i]).Ok? && EntryInField(c.ParseEntry(signed.spends[i]).value)
      ensures c.ParseEntry(signed.spends[i]).value.spend.Witnessed?
    {
      ParsedEntryInField(c, signed.spends[i]);
    }
    hide MapResult, c.ParseEntry, DecodeHash, EntryInField;
  }

  /** Printing what was parsed gives a surrogate that parses to the same transaction. */
  lemma ParsePrintParse(c: Codec, signed: SignedRawTx)
    requires c.Lawful() && c.Parse(signed).Ok? && c.Print(c.Parse(signed).value).Ok?
    ensures c.Parse(c.Print(c.Parse(signed).value).value) == c.Parse(signed)
  {
    ParsedTxInField(c, signed);
    TxTrip(c, c.Parse(signed).value);
  }

  // ---------------------------------------------------------------------------
  // What the parser accepts, and what it reads
  // ---------------------------------------------------------------------------

  // Each text is read by itself: hashes from base58, numbers from decimals, nouns from
  // base64 and cue. These relations say what a part of a surrogate is read as.

  predicate HashReads(text: string, h: Hash) {
    DecodeHash(text, "") == Ok(h)
  }

  predicate NounReads<T(==)>(text: string, cue: seq<Base58.byte> -> Option<T>, v: T) {
    Base64.Decode(text).Some? && cue(Base64.Decode(text).value) == Some(v)
  }

  predicate SourceReads(c: Codec, noun: Option<string>, source: Option<Source>) {
    if noun.None? then source.None? else source.Some? && NounReads(noun.value, c.cueSource, source.value)
  }

  predicate NotesRead(c: Codec, noun: Option<string>, notes: NoteData) {
    if noun.None? then notes == [] else NounReads(noun.value, c.cueNotes, notes)
  }

  predicate SeedReads(c: Codec, s: SignedSeed, seed: Seed) {
    && SourceReads(c, s.outputSourceNoun, seed.outputSource) && NotesRead(c, s.noteDataNoun, seed.noteData)
    && HashReads(s.lockRoot, seed.lockRoot) && HashReads(s.parentHash, seed.parentHash)
    && ParseU64(s.gift) == Some(seed.gift)
  }

  predicate BeltsRead(texts: Text8, belts: Belts8) {
    forall i :: 0 <= i < 8 ==> ParseU64(texts[i]) == Some(belts[i])
  }

  predicate PkhReads(c: Codec, e: SignedPkhEntry, entry: PkhSignatureEntry) {
    && HashReads(e.hash, entry.hash) && c.pubkeyOf(e.pubkey) == Some(entry.pubkey)
    && BeltsRead(e.signature.chal, entry.signature.chal) && BeltsRead(e.signature.sig, entry.signature.sig)
  }

  predicate HaxReads(h: SignedHax, hax: HaxPreimage) {
    HashReads(h.hash, hax.hash) && Base64.Decode(h.valueNoun) == Some(hax.value)
  }

  predicate WitnessReads(c: Codec, s: SignedWitness, w: Witness) {
    && NounReads(s.lockMerkleProofNoun, c.cueProof, w.lockMerkleProof) && w.tim == s.tim
    && |w.pkhSignature| == |s.pkhSignature| && |w.hax| == |s.hax|
    && (forall i :: 0 <= i < |s.pkhSignature| ==> PkhReads(c, s.pkhSignature[i], w.pkhSignature[i]))
    && (forall i :: 0 <= i < |s.hax| ==> HaxReads(s.hax[i], w.hax[i]))
  }

  predicate SpendReads(c: Codec, s: SignedSpend, spend: Spend1) {
    && WitnessReads(c, s.wit, spend.wit) && ParseU64(s.fee) == Some(spend.fee)
    && |spend.seeds| == |s.seeds| && forall i :: 0 <= i < |s.seeds| ==> SeedReads(c, s.seeds[i], spend.seeds[i])
  }

  predicate EntryReads(c: Codec, s: SignedSpendEntry, e: SpendEntry) {
    && HashReads(s.first, e.name.first) && HashReads(s.last, e.name.last)
    && e.spend.Witnessed? && SpendReads(c, s.spend, e.spend.spend1)
  }

  predicate TxReads(c: Codec, s: SignedRawTx, raw: RawTx) {
    && s.version == "v1" && raw.version == V1 && HashReads(s.txId, raw.id)
    && |raw.spends| == |s.spends| && forall i :: 0 <= i < |s.spends| ==> EntryReads(c, s.spends[i], raw.spends[i])
  }

  lemma LeavesRead(text: string, field: string, h: Hash, v: u64, bytes: seq<Base58.byte>)
    ensures HashOf(text, field) == Ok(h) <==> HashReads(text, h)
    ensures NumberOf(text, field) == Ok(v) <==> ParseU64(text) == Some(v)
    ensures BytesOf(text, field) == Ok(bytes) <==> Base64.Decode(text) == Some(bytes)
  {
    hide ParseU64, Base64.Decode, Base58.Decode, FiveDigits;
  }

  lemma NounsRead(c: Codec, noun: Option<string>, text: string)
    ensures forall p :: c.ParseProof(text) == Ok(p) <==> NounReads(text, c.cueProof, p)
    ensures forall s :: c.ParseSource(noun) == Ok(s) <==> SourceReads(c, noun, s)
    ensures forall n :: c.ParseNotes(noun) == Ok(n) <==> NotesRead(c, noun, n)
  {
    hide Base64.Decode;
  }

  lemma SeedReadsIff(c: Codec, s: SignedSeed, seed: Seed)
    ensures c.ParseSeed(s) == Ok(seed) <==> SeedReads(c, s, seed)
  {
    NounsRead(c, s.outputSourceNoun, "");
    NounsRead(c, s.noteDataNoun, "");
    LeavesRead(s.lockRoot, "lock_root", seed.lockRoot, 0, []);
    LeavesRead(s.parentHash, "parent_hash", seed.parentHash, 0, []);
    LeavesRead(s.gift, "gift", seed.lockRoot, seed.gift, []);
    hide HashOf, NumberOf, HashReads, ParseU64, SourceReads, NotesRead;
    hide c.ParseSource, c.ParseNotes;
  }

  lemma BeltsReadIff(c: Codec, texts: Text8, belts: Belts8)
    ensures c.ParseBelts(texts) == Ok(belts) <==> BeltsRead(texts, belts)
  {
    MapResultIff(c.ParseBelt, texts, belts);
    forall i | 0 <= i < 8
      ensures c.ParseBelt(texts[i]) == Ok(belts[i]) <==> ParseU64(texts[i]) == Some(belts[i])
    {
      LeavesRead(texts[i], "belt", [0, 0, 0, 0, 0], belts[i], []);
      hide NumberOf, ParseU64;
    }
    hide MapResult, c.ParseBelt, ParseU64;
  }

  lemma PkhReadsIff(c: Codec, e: SignedPkhEntry, entry: PkhSignatureEntry)
    ensures c.ParsePkhEntry(e) == Ok(entry) <==> PkhReads(c, e, entry)
  {
    hide HashOf, HashReads, BeltsRead, c.ParseBelts, NumberOf, BytesOf, ParseU64, Base64.Decode;
    LeavesRead(e.hash, "pkh", entry.hash, 0, []);
    BeltsReadIff(c, e.signature.chal, entry.signature.chal);
    BeltsReadIff(c, e.signature.sig, entry.signature.sig);
  }

  lemma HaxReadsIff(c: Codec, h: SignedHax, hax: HaxPreimage)
    ensures c.ParseHax(h) == Ok(hax) <==> HaxReads(h, hax)
  {
    LeavesRead(h.hash, "hax", hax.hash, 0, []);
    LeavesRead(h.valueNoun, "hax", hax.hash, 0, hax.value);
    hide HashOf, BytesOf, HashReads, Base64.Decode;
  }

  lemma WitnessReadsIff(c: Codec, s: SignedWitness, w: Witness)
    ensures c.ParseWitness(s) == Ok(w) <==> WitnessReads(c, s, w)
  {
    hide MapResult, HaxReads, PkhReads, NounReads, c.ParseProof, c.ParsePkhEntry, c.ParseHax;
    NounsRead(c, None, s.lockMerkleProofNoun);
    MapResultIff(c.ParsePkhEntry, s.pkhSignature, w.pkhSignature);
    MapResultIff(c.ParseHax, s.hax, w.hax);
    forall i | 0 <= i < |s.pkhSignature| && |w.pkhSignature| == |s.pkhSignature|
      ensures c.ParsePkhEntry(s.pkhSignature[i]) == Ok(w.pkhSignature[i]) <==> PkhReads(c, s.pkhSignature[i], w.pkhSignature[i])
    {
      PkhReadsIff(c, s.pkhSignature[i], w.pkhSignature[i]);
    }
    forall i | 0 <= i < |s.hax| && |w.hax| == |s.hax|
      ensures c.ParseHax(s.hax[i]) == Ok(w.hax[i]) <==> HaxReads(s.hax[i], w.hax[i])
    {
      HaxReadsIff(c, s.hax[i], w.hax[i]);
    }
  }

  lemma SpendReadsIff(c: Codec, s: SignedSpend, spend: Spend1)
    ensures c.ParseSpend(s) == Ok(spend) <==> SpendReads(c, s, spend)
  {
    hide MapResult, WitnessReads, SeedReads, NumberOf, ParseU64, HashReads, c.ParseWitness, c.ParseSeed;
    WitnessReadsIff(c, s.wit, spend.wit);
    LeavesRead(s.fee, "fee", [0, 0, 0, 0, 0], spend.fee, []);
    MapResultIff(c.ParseSeed, s.seeds, spend.seeds);
    forall i | 0 <= i < |s.seeds| && |spend.seeds| == |s.seeds|
      ensures c.ParseSeed(s.seeds[i]) == Ok(spend.seeds[i]) <==> SeedReads(c, s.seeds[i], spend.seeds[i])
    {
      SeedReadsIff(c, s.seeds[i], spend.seeds[i]);
    }
  }

  lemma EntryReadsIff(c: Codec, s: SignedSpendEntry, e: SpendEntry)
    ensures c.ParseEntry(s) == Ok(e) <==> EntryReads(c, s, e)
  {
    hide HashOf, HashReads, SpendReads, c.ParseSpend;
    LeavesRead(s.first, "name.first", e.name.first, 0, []);
    LeavesRead(s.last, "name.last", e.name.last, 0, []);
    if e.spend.Witnessed? {
      SpendReadsIff(c, s.spend, e.spend.spend1);
    }
  }

  /** What the parser makes of a surrogate: the transaction each part of which is the reading of its own text. */
  lemma ParsesToIff(c: Codec, signed: SignedRawTx, raw: RawTx)
    ensures c.Parse(signed) == Ok(raw) <==> TxReads(c, signed, raw)
  {
    hide MapResult, HashOf, HashReads, EntryReads, c.ParseEntry;
    LeavesRead(signed.txId, "tx_id", raw.id, 0, []);
    MapResultIff(c.ParseEntry, signed.spends, raw.spends);
    forall i | 0 <= i < |signed.spends| && |raw.spends| == |signed.spends|
      ensures c.ParseEntry(signed.spends[i]) == Ok(raw.spends[i]) <==> EntryReads(c, signed.spends[i], raw.spends[i])
    {
      EntryReadsIff(c, signed.spends[i], raw.spends[i]);
    }
  }

  // The domain of the parser, spelt out.

  predicate NounReadable<T>(text: string, cue: seq<Base58.byte> -> Option<T>) {
    Base64.Decode(text).Some? && cue(Base64.Decode(text).value).Some?
  }

  predicate SeedReadable(c: Codec, s: SignedSeed) {
    && (s.outputSourceNoun.Some? ==> NounReadable(s.outputSourceNoun.value, c.cueSource))
    && (s.noteDataNoun.Some? ==> NounReadable(s.noteDataNoun.value, c.cueNotes))
    && DecodeHash(s.lockRoot, "").Ok? && DecodeHash(s.parentHash, "").Ok? && ParseU64(s.gift).Some?
  }

  predicate BeltsReadable(texts: Text8) {
    forall i :: 0 <= i < 8 ==> ParseU64(texts[i]).Some?
  }

  predicate PkhReadable(c: Codec, e: SignedPkhEntry) {
    && DecodeHash(e.hash, "").Ok? && c.pubkeyOf(e.pubkey).Some?
    && BeltsReadable(e.signature.chal) && BeltsReadable(e.signature.sig)
  }

  predicate HaxReadable(h: SignedHax) {
    DecodeHash(h.hash, "").Ok? && Base64.Decode(h.valueNoun).Some?
  }

  predicate WitnessReadable(c: Codec, s: SignedWitness) {
    && NounReadable(s.lockMerkleProofNoun, c.cueProof)
    && (forall i :: 0 <= i < |s.pkhSignature| ==> PkhReadable(c, s.pkhSignature[i]))
    && (forall i :: 0 <= i < |s.hax| ==> HaxReadable(s.hax[i]))
  }

  predicate EntryReadable(c: Codec, s: SignedSpendEntry) {
    && DecodeHash(s.first, "").Ok? && DecodeHash(s.last, "").Ok?
    && WitnessReadable(c, s.spend.wit) && ParseU64(s.spend.fee).Some?
    && forall i :: 0 <= i < |s.spend.seeds| ==> SeedReadable(c, s.spend.seeds[i])
  }

  predicate TxReadable(c: Codec, s: SignedRawTx) {
    s.version == "v1" && DecodeHash(s.txId, "").Ok? && forall i :: 0 <= i < |s.spends| ==> EntryReadable(c, s.spends[i])
  }

  lemma LeavesReadable(text: string, field: string)
    ensures HashOf(text, field).Ok? <==> DecodeHash(text, "").Ok?
    ensures NumberOf(text, field).Ok? <==> ParseU64(text).Some?
    ensures BytesOf(text, field).Ok? <==> Base64.Decode(text).Some?
  {
    hide ParseU64, Base64.Decode, Base58.Decode, FiveDigits;
  }

  lemma SeedReadableIff(c: Codec, s: SignedSeed)
    ensures c.ParseSeed(s).Ok? <==> SeedReadable(c, s)
  {
    LeavesReadable(s.lockRoot, "lock_root");
    LeavesReadable(s.parentHash, "parent_hash");
    LeavesReadable(s.gift, "gift");
    hide HashOf, NumberOf, ParseU64, DecodeHash, Base64.Decode;
  }

  lemma BeltsReadableIff(c: Codec, texts: Text8)
    ensures c.ParseBelts(texts).Ok? <==> BeltsReadable(texts)
  {
    MapResultOk(c.ParseBelt, texts);
    forall i | 0 <= i < 8
      ensures c.ParseBelt(texts[i]).Ok? <==> ParseU64(texts[i]).Some?
    {
      LeavesReadable(texts[i], "belt");
      hide NumberOf, ParseU64;
    }
    hide MapResult, c.ParseBelt, ParseU64;
  }

  lemma PkhReadableIff(c: Codec, e: SignedPkhEntry)
    ensures c.ParsePkhEntry(e).Ok? <==> PkhReadable(c, e)
  {
    LeavesReadable(e.hash, "pkh");
    BeltsReadableIff(c, e.signature.chal);
    BeltsReadableIff(c, e.signature.sig);
    hide HashOf, DecodeHash, BeltsReadable, c.ParseBelts;
  }

  lemma HaxReadableIff(c: Codec, h: SignedHax)
    ensures c.ParseHax(h).Ok? <==> HaxReadable(h)
  {
    LeavesReadable(h.hash, "hax");
    LeavesReadable(h.valueNoun, "hax");
    hide HashOf, BytesOf, DecodeHash, Base64.Decode;
  }

  lemma WitnessReadableIff(c: Codec, s: SignedWitness)
    ensures c.ParseWitness(s).Ok? <==> WitnessReadable(c, s)
  {
    hide MapResult, HaxReadable, PkhReadable, Base64.Decode, c.ParsePkhEntry, c.ParseHax;
    MapResultOk(c.ParsePkhEntry, s.pkhSignature);
    MapResultOk(c.ParseHax, s.hax);
    forall i | 0 <= i < |s.pkhSignature|
      ensures c.ParsePkhEntry(s.pkhSignature[i]).Ok? <==> PkhReadable(c, s.pkhSignature[i])
    {
      PkhReadableIff(c, s.pkhSignature[i]);
    }
    forall i | 0 <= i < |s.hax|
      ensures c.ParseHax(s.hax[i]).Ok? <==> HaxReadable(s.hax[i])
    {
      HaxReadableIff(c, s.hax[i]);
    }
  }

  lemma EntryReadableIff(c: Codec, s: SignedSpendEntry)
    ensures c.ParseEntry(s).Ok? <==> EntryReadable(c, s)
  {
    hide MapResult, HashOf, NumberOf, DecodeHash, ParseU64, WitnessReadable, SeedReadable, c.ParseWitness, c.ParseSeed;
    LeavesReadable(s.first, "name.first");
    LeavesReadable(s.last, "name.last");
    LeavesReadable(s.spend.fee, "fee");
    WitnessReadableIff(c, s.spend.wit);
    MapResultOk(c.ParseSeed, s.spend.seeds);
    forall i | 0 <= i < |s.spend.seeds|
      ensures c.ParseSeed(s.spend.seeds[i]).Ok? <==> SeedReadable(c, s.spend.seeds[i])
    {
      SeedReadableIff(c, s.spend.seeds[i]);
    }
  }

  /** The parser accepts exactly the v1 surrogates all of whose texts can be read. */
  lemma ParserDomain(c: Codec, signed: SignedRawTx)
    ensures c.Parse(signed).Ok? <==> TxReadable(c, signed)
  {
    hide MapResult, HashOf, DecodeHash, EntryReadable, c.ParseEntry;
    LeavesReadable(signed.txId, "tx_id");
    MapResultOk(c.ParseEntry, signed.spends);
    forall i | 0 <= i < |signed.spends|
      ensures c.ParseEntry(signed.spends[i]).Ok? <==> EntryReadable(c, signed.spends[i])
    {
      EntryReadableIff(c, signed.spends[i]);
    }
  }
}
