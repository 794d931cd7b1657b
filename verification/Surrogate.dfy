/** Both directions between a transaction and its JSON surrogate. */
module Surrogate {
  import opened Base58
  import Base64
  import opened Chain
  import opened Decimal
  import opened HashText
  import opened Wrappers

  datatype SurrogateError =
    | UnsupportedVersion
    | LegacySpend
    | PubkeyEncoding
    | BadHash(field: string)
    | BadPubkey
    | BadNumber(field: string)
    | BadBase64(field: string)
    | BadNoun(field: string)

  function HashOf(text: string, field: string): Result<Hash, SurrogateError> {
    match DecodeHash(text, field)
    case Ok(h) => Ok(h)
    case Err(_) => Err(BadHash(field))
  }

  function NumberOf(text: string, field: string): Result<u64, SurrogateError> {
    match ParseU64(text)
    case Some(v) => Ok(v)
    case None => Err(BadNumber(field))
  }

  function BytesOf(text: string, field: string): Result<seq<byte>, SurrogateError> {
    match Base64.Decode(text)
    case Some(bytes) => Ok(bytes)
    case None => Err(BadBase64(field))
  }

  lemma HashTrip(h: Hash, field: string)
    ensures HashOf(EncodeHash(h), field) == Ok(h) <==> InField(h)
  {
    HashRoundTrip(h, field);
  }

  lemma NumberTrip(v: u64, field: string)
    ensures NumberOf(ToDecimal(v), field) == Ok(v)
  {
    ParsePrinted(v, U64_MAX);
  }

  lemma BytesTrip(bytes: seq<byte>, field: string)
    ensures BytesOf(Base64.Encode(bytes), field) == Ok(bytes)
  {
    Base64.DecodeOfEncode(bytes);
  }

  /**
   The encoders that live outside this repository: jamming and cueing of the three
   kinds of noun, and the text form of a public key.
   */
  datatype Codec = Codec(
    jamProof: LockMerkleProof -> seq<byte>,
    cueProof: seq<byte> -> Option<LockMerkleProof>,
    jamSource: Source -> seq<byte>,
    cueSource: seq<byte> -> Option<Source>,
    jamNotes: NoteData -> seq<byte>,
    cueNotes: seq<byte> -> Option<NoteData>,
    pubkeyText: Pubkey -> Option<string>,
    pubkeyOf: string -> Option<Pubkey>)
  {
    /** Each decoder undoes its encoder. */
    ghost predicate Lawful() {
      && (forall p :: cueProof(jamProof(p)) == Some(p))
      && (forall s :: cueSource(jamSource(s)) == Some(s))
      && (forall n :: cueNotes(jamNotes(n)) == Some(n))
      && (forall k :: pubkeyText(k).Some? ==> pubkeyOf(pubkeyText(k).value) == Some(k))
    }

    // -------------------------------------------------------------------------
    // Transaction to surrogate
    // -------------------------------------------------------------------------

    function PrintSeed(seed: Seed): Result<SignedSeed, SurrogateError> {
      var source := match seed.outputSource
                    case Some(s) => Some(Base64.Encode(jamSource(s)))
                    case None => None;
      var notes := if seed.noteData == [] then None else Some(Base64.Encode(jamNotes(seed.noteData)));
      Ok(SignedSeed(source, EncodeHash(seed.lockRoot), notes, ToDecimal(seed.gift), EncodeHash(seed.parentHash)))
    }

    function PrintBelts(belts: Belts8): Text8 {
      seq(8, i requires 0 <= i < 8 => ToDecimal(belts[i]))
    }

    function PrintPkhEntry(entry: PkhSignatureEntry): Result<SignedPkhEntry, SurrogateError> {
      match pubkeyText(entry.pubkey)
      case None => Err(PubkeyEncoding)
      case Some(text) =>
        Ok(SignedPkhEntry(EncodeHash(entry.hash), text,
                          SignedAtoms(PrintBelts(entry.signature.chal), PrintBelts(entry.signature.sig))))
    }

    function PrintHax(hax: HaxPreimage): Result<SignedHax, SurrogateError> {
      Ok(SignedHax(EncodeHash(hax.hash), Base64.Encode(hax.value)))
    }

    function PrintWitness(w: Witness): Result<SignedWitness, SurrogateError> {
      var pkh :- MapResult(PrintPkhEntry, w.pkhSignature);
      var hax :- MapResult(PrintHax, w.hax);
      Ok(SignedWitness(Base64.Encode(jamProof(w.lockMerkleProof)), pkh, hax, w.tim))
    }

    function PrintSpend(spend: Spend1): Result<SignedSpend, SurrogateError> {
      var wit :- PrintWitness(spend.wit);
      var seeds :- MapResult(PrintSeed, spend.seeds);
      Ok(SignedSpend(wit, seeds, ToDecimal(spend.fee)))
    }

    function PrintEntry(entry: SpendEntry): Result<SignedSpendEntry, SurrogateError> {
      match entry.spend
      case Legacy(_) => Err(LegacySpend)
      case Witnessed(spend1) =>
        var spend :- PrintSpend(spend1);
        Ok(SignedSpendEntry(EncodeHash(entry.name.first), EncodeHash(entry.name.last), spend))
    }

    function Print(raw: RawTx): Result<SignedRawTx, SurrogateError> {
      if raw.version != V1 then Err(UnsupportedVersion)
      else
        var spends :- MapResult(PrintEntry, raw.spends);
        Ok(SignedRawTx("v1", EncodeHash(raw.id), spends))
    }

    method SurrogateFromRawTx(raw: RawTx) returns (r: Result<SignedRawTx, SurrogateError>)
      ensures r == Print(raw)
    {
      if raw.version != V1 {
        return Err(UnsupportedVersion);
      }
      hide PrintEntry;
      var spends: seq<SignedSpendEntry> := [];
      assert raw.spends[0..] == raw.spends;
      AfterNothing(MapResult(PrintEntry, raw.spends));
      for i := 0 to |raw.spends|
        invariant MapResult(PrintEntry, raw.spends) == After(spends, MapResult(PrintEntry, raw.spends[i..]))
      {
        MapResultStep(PrintEntry, raw.spends, i, spends);
        var entry := PrintEntry(raw.spends[i]);
        if entry.Err? {
          return Err(entry.error);
        }
        spends := spends + [entry.value];
      }
      assert raw.spends[|raw.spends|..] == [] && spends + [] == spends;
      return Ok(SignedRawTx("v1", EncodeHash(raw.id), spends));
    }

    // -------------------------------------------------------------------------
    // Surrogate to transaction
    // -------------------------------------------------------------------------

    function ParseSource(noun: Option<string>): Result<Option<Source>, SurrogateError> {
      match noun
      case None => Ok(None)
      case Some(text) =>
        var bytes :- BytesOf(text, "output_source");
        (match cueSource(bytes)
         case Some(s) => Ok(Some(s))
         case None => Err(BadNoun("output_source")))
    }

    function ParseNotes(noun: Option<string>): Result<NoteData, SurrogateError> {
      match noun
      case None => Ok([])
      case Some(text) =>
        var bytes :- BytesOf(text, "note_data");
        (match cueNotes(bytes)
         case Some(n) => Ok(n)
         case None => Err(BadNoun("note_data")))
    }

    function ParseProof(text: string): Result<LockMerkleProof, SurrogateError> {
      var bytes :- BytesOf(text, "lock_merkle_proof");
      match cueProof(bytes)
      case Some(p) => Ok(p)
      case None => Err(BadNoun("lock_merkle_proof"))
    }

    function ParseSeed(s: SignedSeed): Result<Seed, SurrogateError> {
      var source :- ParseSource(s.outputSourceNoun);
      var lockRoot :- HashOf(s.lockRoot, "lock_root");
      var notes :- ParseNotes(s.noteDataNoun);
      var gift :- NumberOf(s.gift, "gift");
      var parentHash :- HashOf(s.parentHash, "parent_hash");
      Ok(Seed(source, lockRoot, notes, gift, parentHash))
    }

    function ParseBelt(text: string): Result<Belt, SurrogateError> {
      NumberOf(text, "belt")
    }

    function ParseBelts(texts: Text8): (r: Result<Belts8, SurrogateError>) {
      var belts :- MapResult(ParseBelt, texts);
      MapResultOk(ParseBelt, texts);
      Ok(belts)
    }

    method ParseBeltArray(texts: Text8) returns (r: Result<Belts8, SurrogateError>)
      ensures r == ParseBelts(texts)
    {
      hide ParseBelt;
      var out := new Belt[8](_ => 0);
      assert texts[0..] == texts;
      AfterNothing(MapResult(ParseBelt, texts));
      for i := 0 to 8
        invariant MapResult(ParseBelt, texts) == After(out[..i], MapResult(ParseBelt, texts[i..]))
      {
        MapResultStep(ParseBelt, texts, i, out[..i]);
        var v := ParseBelt(texts[i]);
        if v.Err? {
          return Err(v.error);
        }
        out[i] := v.value;
        assert out[..i + 1] == out[..i] + [v.value];
      }
      assert texts[8..] == [] && out[..8] + [] == out[..8] == out[..];
      return Ok(out[..]);
    }

    function ParsePkhEntry(e: SignedPkhEntry): Result<PkhSignatureEntry, SurrogateError> {
      var hash :- HashOf(e.hash, "pkh");
      match pubkeyOf(e.pubkey)
      case None => Err(BadPubkey)
      case Some(pubkey) =>
        var chal :- ParseBelts(e.signature.chal);
        var sig :- ParseBelts(e.signature.sig);
        Ok(PkhSignatureEntry(hash, pubkey, SchnorrSignature(chal, sig)))
    }

    function ParseHax(h: SignedHax): Result<HaxPreimage, SurrogateError> {
      var hash :- HashOf(h.hash, "hax");
      var value :- BytesOf(h.valueNoun, "hax");
      Ok(HaxPreimage(hash, value))
    }

    function ParseWitness(w: SignedWitness): Result<Witness, SurrogateError> {
      var proof :- ParseProof(w.lockMerkleProofNoun);
      var pkh :- MapResult(ParsePkhEntry, w.pkhSignature);
      var hax :- MapResult(ParseHax, w.hax);
      Ok(Witness(proof, pkh, hax, w.tim))
    }

    method WitnessFromSurrogate(w: SignedWitness) returns (r: Result<Witness, SurrogateError>)
      ensures r == ParseWitness(w)
    {
      hide ParseProof, ParsePkhEntry, ParseHax;
      var proof := ParseProof(w.lockMerkleProofNoun);
      if proof.Err? {
        return Err(proof.error);
      }
      var pkh: seq<PkhSignatureEntry> := [];
      assert w.pkhSignature[0..] == w.pkhSignature;
      AfterNothing(MapResult(ParsePkhEntry, w.pkhSignature));
      for i := 0 to |w.pkhSignature|
        invariant MapResult(ParsePkhEntry, w.pkhSignature) == After(pkh, MapResult(ParsePkhEntry, w.pkhSignature[i..]))
      {
        MapResultStep(ParsePkhEntry, w.pkhSignature, i, pkh);
        var entry := ParsePkhEntry(w.pkhSignature[i]);
        if entry.Err? {
          return Err(entry.error);
        }
        pkh := pkh + [entry.value];
      }
      assert w.pkhSignature[|w.pkhSignature|..] == [] && pkh + [] == pkh;
      var hax: seq<HaxPreimage> := [];
      assert w.hax[0..] == w.hax;
      AfterNothing(MapResult(ParseHax, w.hax));
      for i := 0 to |w.hax|
        invariant MapResult(ParseHax, w.hax) == After(hax, MapResult(ParseHax, w.hax[i..]))
      {
        MapResultStep(ParseHax, w.hax, i, hax);
        var entry := ParseHax(w.hax[i]);
        if entry.Err? {
          return Err(entry.error);
        }
        hax := hax + [entry.value];
      }
      assert w.hax[|w.hax|..] == [] && hax + [] == hax;
      return Ok(Witness(proof.value, pkh, hax, w.tim));
    }

    function ParseSpend(s: SignedSpend): Result<Spend1, SurrogateError> {
      var wit :- ParseWitness(s.wit);
      var seeds :- MapResult(ParseSeed, s.seeds);
      var fee :- NumberOf(s.fee, "fee");
      Ok(Spend1(wit, seeds, fee))
    }

    method Spend1FromSurrogate(s: SignedSpend) returns (r: Result<Spend1, SurrogateError>)
      ensures r == ParseSpend(s)
    {
      hide ParseWitness, ParseSeed, NumberOf;
      var wit := WitnessFromSurrogate(s.wit);
      if wit.Err? {
        return Err(wit.error);
      }
      var seeds: seq<Seed> := [];
      assert s.seeds[0..] == s.seeds;
      AfterNothing(MapResult(ParseSeed, s.seeds));
      for i := 0 to |s.seeds|
        invariant MapResult(ParseSeed, s.seeds) == After(seeds, MapResult(ParseSeed, s.seeds[i..]))
      {
        MapResultStep(ParseSeed, s.seeds, i, seeds);
        var seed := ParseSeed(s.seeds[i]);
        if seed.Err? {
          return Err(seed.error);
        }
        seeds := seeds + [seed.value];
      }
      assert s.seeds[|s.seeds|..] == [] && seeds + [] == seeds;
      var fee := NumberOf(s.fee, "fee");
      if fee.Err? {
        return Err(fee.error);
      }
      return Ok(Spend1(wit.value, seeds, fee.value));
    }

    function ParseEntry(e: SignedSpendEntry): Result<SpendEntry, SurrogateError> {
      var first :- HashOf(e.first, "name.first");
      var last :- HashOf(e.last, "name.last");
      var spend :- ParseSpend(e.spend);
      Ok(SpendEntry(Name(first, last), Witnessed(spend)))
    }

    function Parse(signed: SignedRawTx): Result<RawTx, SurrogateError> {
      if signed.version != "v1" then Err(UnsupportedVersion)
      else
        var id :- HashOf(signed.txId, "tx_id");
        var spends :- MapResult(ParseEntry, signed.spends);
        Ok(RawTx(V1, id, spends))
    }

    method RawTxFromSurrogate(signed: SignedRawTx) returns (r: Result<RawTx, SurrogateError>)
      ensures r == Parse(signed)
    {
      if signed.version != "v1" {
        return Err(UnsupportedVersion);
      }
      hide HashOf, ParseSpend;
      var id := HashOf(signed.txId, "tx_id");
      if id.Err? {
        return Err(id.error);
      }
      var spends: seq<SpendEntry> := [];
      assert signed.spends[0..] == signed.spends;
      AfterNothing(MapResult(ParseEntry, signed.spends));
      for i := 0 to |signed.spends|
        invariant MapResult(ParseEntry, signed.spends) == After(spends, MapResult(ParseEntry, signed.spends[i..]))
      {
        MapResultStep(ParseEntry, signed.spends, i, spends);
        var e := signed.spends[i];
        var first, last := HashOf(e.first, "name.first"), HashOf(e.last, "name.last");
        if first.Err? {
          return Err(first.error);
        }
        if last.Err? {
          return Err(last.error);
        }
        var spend := Spend1FromSurrogate(e.spend);
        if spend.Err? {
          return Err(spend.error);
        }
        spends := spends + [SpendEntry(Name(first.value, last.value), Witnessed(spend.value))];
      }
      assert signed.spends[|signed.spends|..] == [] && spends + [] == spends;
      return Ok(RawTx(V1, id.value, spends));
    }
  }
}
