/** The Belt sequence that an authorization is signed as, and its digest. */
module SignMessage {
  import opened Base58
  import opened Decimal
  import opened HashText
  import opened Notes
  import opened Packing
  import opened Payment
  import opened Positional
  import opened Wrappers

  const DOMAIN_SEPARATOR := "x402-nockchain-v2"

  /** The UTF-8 bytes of an ASCII string. */
  function AsciiBytes(s: string): (bytes: seq<byte>)
    requires forall i :: 0 <= i < |s| ==> s[i] as int < 128
    ensures |bytes| == |s|
  {
    seq(|s|, i requires 0 <= i < |s| => s[i] as int)
  }

  function Domain(): (belts: seq<Belt>)
    ensures |belts| == 3 && InField(belts)
  {
    PackedShape(AsciiBytes(DOMAIN_SEPARATOR));
    BytesToBelts(AsciiBytes(DOMAIN_SEPARATOR))
  }

  function U64ToBelt(v: u64): (b: Belt)
    ensures b < PRIME && b == if v < PRIME then v else v - PRIME
  {
    v % PRIME
  }

  function DecimalToBelt(s: string, field: string): (r: Result<Belt, SignMessageError>)
    ensures r.Err? <==> ParseUnsigned(s, U64_MAX).None?
    ensures r.Err? ==> r.error == DecimalError(field, s)
    ensures r.Ok? ==>
              var v := ParseUnsigned(s, U64_MAX).value;
              r.value < PRIME && r.value == if v < PRIME then v else v - PRIME
  {
    match ParseU64(s)
    case None => Err(DecimalError(field, s))
    case Some(v) => Ok(U64ToBelt(v))
  }

  /** The fields of an authorization as Belts. */
  datatype Message = Message(
    from: Digest, to: Digest, value: Belt, fee: Belt, nonce: Digest,
    validAfter: Belt, validBefore: Belt, notes: Digest, change: Digest)

  function Layout(m: Message): seq<Belt> {
    Domain() + m.from + m.to + [m.value] + [m.fee] + m.nonce
    + [m.validAfter] + [m.validBefore] + m.notes + m.change
  }

  function Fields(tip5: Tip5, auth: Authorization): Result<Message, SignMessageError> {
    var from :- DecodeHash(auth.from, "from");
    var to :- DecodeHash(auth.to, "to");
    var value :- DecimalToBelt(auth.value, "value");
    var fee :- DecimalToBelt(auth.fee, "fee");
    var nonce :- DecodeHash(auth.nonce, "nonce");
    var notes :- NotesHash(tip5, auth.notes);
    var change :- DecodeHash(auth.changeAddress, "changeAddress");
    Ok(Message(from, to, value, fee, nonce, U64ToBelt(auth.validAfter), U64ToBelt(auth.validBefore), notes, change))
  }

  function MessageBelts(tip5: Tip5, auth: Authorization): Result<seq<Belt>, SignMessageError> {
    var m :- Fields(tip5, auth);
    Ok(Layout(m))
  }

  function MessageDigest(tip5: Tip5, auth: Authorization): Result<Digest, SignMessageError> {
    var belts :- MessageBelts(tip5, auth);
    Ok(tip5(belts))
  }

  /** The public-key hash that an authorization names its payer by. */
  function PkhFromPubkeyBytes(tip5: Tip5, pubkey: seq<byte>): string {
    EncodeHash(tip5(BytesToBelts(pubkey)))
  }

  method SignMessageBelts(tip5: Tip5, auth: Authorization) returns (r: Result<seq<Belt>, SignMessageError>)
    ensures r == MessageBelts(tip5, auth)
  {
    var out := PackBytes(AsciiBytes(DOMAIN_SEPARATOR));
    assert out == Domain();
    hide DecodeHash, NotesHash, DecimalToBelt, Domain, BytesToBelts;
    var from := Base58ToBelts(auth.from, "from");
    if from.Err? {
      return Err(from.error);
    }
    out := out + from.value;
    var to := Base58ToBelts(auth.to, "to");
    if to.Err? {
      return Err(to.error);
    }
    out := out + to.value;
    var value := DecimalToBelt(auth.value, "value");
    if value.Err? {
      return Err(value.error);
    }
    out := out + [value.value];
    var fee := DecimalToBelt(auth.fee, "fee");
    if fee.Err? {
      return Err(fee.error);
    }
    out := out + [fee.value];
    var nonce := Base58ToBelts(auth.nonce, "nonce");
    if nonce.Err? {
      return Err(nonce.error);
    }
    out := out + nonce.value;
    out := out + [U64ToBelt(auth.validAfter)];
    out := out + [U64ToBelt(auth.validBefore)];
    var notes := ComputeNotesHash(tip5, auth.notes);
    if notes.Err? {
      return Err(notes.error);
    }
    out := out + notes.value;
    var change := Base58ToBelts(auth.changeAddress, "changeAddress");
    if change.Err? {
      return Err(change.error);
    }
    out := out + change.value;
    return Ok(out);
  }

  /** The digest of everything but the notes' order and the notes' other fields. */
  lemma DigestIgnoresNoteOrder(tip5: Tip5, a: Authorization, notes: seq<NoteRef>)
    requires multiset(Names(a.notes)) == multiset(Names(notes))
    ensures MessageBelts(tip5, a.(notes := notes)) == MessageBelts(tip5, a)
    ensures MessageDigest(tip5, a.(notes := notes)) == MessageDigest(tip5, a)
  {
    hide DecodeHash, DecimalToBelt, Layout, NotesHash, Preimage, U64ToBelt, Names;
    PreimageOfNames(a.notes, notes);
    assert NotesHash(tip5, notes) == NotesHash(tip5, a.notes);
    assert Fields(tip5, a.(notes := notes)) == Fields(tip5, a);
    hide Fields;
  }

  /** Where each field sits in the 32 Belts. */
  lemma LayoutSlices(m: Message)
    ensures
      var out := Layout(m);
      && |out| == 32 && out[..3] == Domain() && out[3..8] == m.from && out[8..13] == m.to
      && out[13] == m.value && out[14] == m.fee && out[15..20] == m.nonce
      && out[20] == m.validAfter && out[21] == m.validBefore && out[22..27] == m.notes && out[27..] == m.change
  {
    hide Domain;
  }

  /** The sequence has 32 elements, every one in the field when the sponge's output is. */
  lemma MessageShape(tip5: Tip5, auth: Authorization)
    requires MessageBelts(tip5, auth).Ok?
    requires forall belts :: InField(tip5(belts))
    ensures |MessageBelts(tip5, auth).value| == 32 && InField(MessageBelts(tip5, auth).value)
  {
    var m := Fields(tip5, auth).value;
    FieldsInField(tip5, auth);
    hide Fields;
    LayoutInField(m);
    LayoutSlices(m);
  }

  lemma LayoutInField(m: Message)
    requires InField(m.from) && InField(m.to) && InField(m.nonce) && InField(m.notes) && InField(m.change)
    requires m.value < PRIME && m.fee < PRIME && m.validAfter < PRIME && m.validBefore < PRIME
    ensures InField(Layout(m))
  {
    hide Domain;
  }

  lemma FieldsInField(tip5: Tip5, auth: Authorization)
    requires Fields(tip5, auth).Ok?
    requires forall belts :: InField(tip5(belts))
    ensures
      var m := Fields(tip5, auth).value;
      && InField(m.from) && InField(m.to) && InField(m.nonce) && InField(m.notes) && InField(m.change)
      && m.value < PRIME && m.fee < PRIME && m.validAfter < PRIME && m.validBefore < PRIME
  {
    hide DecodeHash, DecimalToBelt, Preimage, U64ToBelt;
  }

  lemma LayoutInjective(a: Message, b: Message)
    ensures Layout(a) == Layout(b) <==> a == b
  {
    LayoutSlices(a);
    LayoutSlices(b);
    hide Layout;
  }

  /** The same payment: text fields up to leading '1's, numbers as field elements, and one notes hash. */
  predicate SameMessage(tip5: Tip5, a: Authorization, b: Authorization) {
    && StripOnes(a.from) == StripOnes(b.from)
    && StripOnes(a.to) == StripOnes(b.to)
    && StripOnes(a.nonce) == StripOnes(b.nonce)
    && StripOnes(a.changeAddress) == StripOnes(b.changeAddress)
    && DecimalToBelt(a.value, "value") == DecimalToBelt(b.value, "value")
    && DecimalToBelt(a.fee, "fee") == DecimalToBelt(b.fee, "fee")
    && U64ToBelt(a.validAfter) == U64ToBelt(b.validAfter)
    && U64ToBelt(a.validBefore) == U64ToBelt(b.validBefore)
    && NotesHash(tip5, a.notes) == NotesHash(tip5, b.notes)
  }

  lemma FieldsAre(tip5: Tip5, auth: Authorization)
    requires Fields(tip5, auth).Ok?
    ensures
      var m := Fields(tip5, auth).value;
      && DecodeHash(auth.from, "from") == Ok(m.from) && DecodeHash(auth.to, "to") == Ok(m.to)
      && DecimalToBelt(auth.value, "value") == Ok(m.value) && DecimalToBelt(auth.fee, "fee") == Ok(m.fee)
      && DecodeHash(auth.nonce, "nonce") == Ok(m.nonce)
      && U64ToBelt(auth.validAfter) == m.validAfter && U64ToBelt(auth.validBefore) == m.validBefore
      && NotesHash(tip5, auth.notes) == Ok(m.notes)
      && DecodeHash(auth.changeAddress, "changeAddress") == Ok(m.change)
  {
    hide DecimalToBelt, NotesHash, U64ToBelt, DecodeHash;
  }

  lemma SameFieldsSamePayment(tip5: Tip5, a: Authorization, b: Authorization)
    requires Fields(tip5, a).Ok? && Fields(tip5, b).Ok?
    ensures Fields(tip5, a) == Fields(tip5, b) <==> SameMessage(tip5, a, b)
  {
    hide DecimalToBelt, NotesHash, U64ToBelt, DecodeHash, StripOnes, Fields;
    FieldsAre(tip5, a);
    FieldsAre(tip5, b);
    SameHash(a.from, b.from, "from", "from");
    SameHash(a.to, b.to, "to", "to");
    SameHash(a.nonce, b.nonce, "nonce", "nonce");
    SameHash(a.changeAddress, b.changeAddress, "changeAddress", "changeAddress");
  }

  /** The Belt sequence is a faithful image of the payment: equal sequences, equal payments, and back. */
  lemma SameBeltsSamePayment(tip5: Tip5, a: Authorization, b: Authorization)
    requires MessageBelts(tip5, a).Ok? && MessageBelts(tip5, b).Ok?
    ensures MessageBelts(tip5, a) == MessageBelts(tip5, b) <==> SameMessage(tip5, a, b)
  {
    hide Fields, SameMessage, Layout;
    LayoutInjective(Fields(tip5, a).value, Fields(tip5, b).value);
    SameFieldsSamePayment(tip5, a, b);
  }

  /** Below PRIME the numbers themselves are pinned. */
  lemma SameBeltsSameNumbers(tip5: Tip5, a: Authorization, b: Authorization)
    requires MessageBelts(tip5, a).Ok? && MessageBelts(tip5, a) == MessageBelts(tip5, b)
    ensures ParseU64(a.value).Some? && ParseU64(b.value).Some? && ParseU64(a.fee).Some? && ParseU64(b.fee).Some?
    ensures ParseU64(a.value).value < PRIME && ParseU64(b.value).value < PRIME ==> ParseU64(a.value) == ParseU64(b.value)
    ensures ParseU64(a.fee).value < PRIME && ParseU64(b.fee).value < PRIME ==> ParseU64(a.fee) == ParseU64(b.fee)
    ensures a.validAfter < PRIME && b.validAfter < PRIME ==> a.validAfter == b.validAfter
    ensures a.validBefore < PRIME && b.validBefore < PRIME ==> a.validBefore == b.validBefore
  {
    SameBeltsSamePayment(tip5, a, b);
    hide DecodeHash, NotesHash, ParseU64, Layout;
  }

  // ---------------------------------------------------------------------------
  // The digest and the errors
  // ---------------------------------------------------------------------------

  /** What is signed is the payment: as far as the sponge separates two messages, equal digests are equal payments. */
  lemma DigestIdentifiesPayment(tip5: Tip5, a: Authorization, b: Authorization)
    requires MessageBelts(tip5, a).Ok? && MessageBelts(tip5, b).Ok?
    requires Separates(tip5, MessageBelts(tip5, a).value, MessageBelts(tip5, b).value)
    ensures MessageDigest(tip5, a).Ok? && MessageDigest(tip5, b).Ok?
    ensures MessageDigest(tip5, a) == MessageDigest(tip5, b) <==> SameMessage(tip5, a, b)
  {
    hide MessageBelts, SameMessage;
    SameBeltsSamePayment(tip5, a, b);
  }

  function ErrorOf<T>(r: Result<T, SignMessageError>): Option<SignMessageError> {
    if r.Err? then Some(r.error) else None
  }

  /** What is wrong with each field, in the order the fields are signed in. */
  function FieldErrors(tip5: Tip5, auth: Authorization): seq<Option<SignMessageError>> {
    [ErrorOf(DecodeHash(auth.from, "from")), ErrorOf(DecodeHash(auth.to, "to")),
     ErrorOf(DecimalToBelt(auth.value, "value")), ErrorOf(DecimalToBelt(auth.fee, "fee")),
     ErrorOf(DecodeHash(auth.nonce, "nonce")), ErrorOf(NotesHash(tip5, auth.notes)),
     ErrorOf(DecodeHash(auth.changeAddress, "changeAddress"))]
  }

  /** Messages and digests fail exactly when some field does, with the error of the first that does. */
  lemma FirstBadField(tip5: Tip5, auth: Authorization, e: SignMessageError)
    ensures MessageBelts(tip5, auth) == Err(e) <==>
            exists i :: 0 <= i < 7 && FieldErrors(tip5, auth)[i] == Some(e) && forall j :: 0 <= j < i ==> FieldErrors(tip5, auth)[j].None?
    ensures MessageDigest(tip5, auth) == Err(e) <==> MessageBelts(tip5, auth) == Err(e)
  {
    hide DecodeHash, DecimalToBelt, NotesHash, Layout, U64ToBelt;
    var errors := FieldErrors(tip5, auth);
    if MessageBelts(tip5, auth) == Err(e) {
      var i := if errors[0].Some? then 0 else if errors[1].Some? then 1 else if errors[2].Some? then 2
        else if errors[3].Some? then 3 else if errors[4].Some? then 4 else if errors[5].Some? then 5 else 6;
      assert errors[i] == Some(e) && forall j :: 0 <= j < i ==> errors[j].None?;
    }
    if i :| 0 <= i < 7 && errors[i] == Some(e) && forall j :: 0 <= j < i ==> errors[j].None? {
      assert i > 0 ==> errors[0].None?;
      assert i > 1 ==> errors[1].None?;
      assert i > 2 ==> errors[2].None?;
      assert i > 3 ==> errors[3].None?;
      assert i > 4 ==> errors[4].None?;
      assert i > 5 ==> errors[5].None?;
    }
  }

  /** The payer's name identifies the key, as far as the sponge separates the two keys. */
  lemma PkhIdentifiesKey(tip5: Tip5, a: seq<byte>, b: seq<byte>)
    requires forall belts :: InField(tip5(belts))
    requires |a| == |b| && Separates(tip5, BytesToBelts(a), BytesToBelts(b))
    ensures PkhFromPubkeyBytes(tip5, a) == PkhFromPubkeyBytes(tip5, b) <==> a == b
  {
    HashRoundTrip(tip5(BytesToBelts(a)), "from");
    HashRoundTrip(tip5(BytesToBelts(b)), "from");
    hide EncodeHash, DecodeHash, BytesToBelts;
    if PkhFromPubkeyBytes(tip5, a) == PkhFromPubkeyBytes(tip5, b) {
      PackingInjective(a, b);
    }
  }

  /** The domain separator as it is signed. */
  lemma DomainIs()
    ensures Domain() == [31364862809486456, 31078114522262371, 3307053]
  {
    hide BytesToBelts, Pack, AsciiBytes, LittleEndian;
    DomainChunks();
    DomainBytes();
    var p: seq<byte>, q: seq<byte>, r: seq<byte> :=
      [120, 52, 48, 50, 45, 110, 111], [99, 107, 99, 104, 97, 105, 110], [45, 118, 50];
    PackMore(p, q + r);
    PackMore(q, r);
    PackLast(r);
  }

  lemma DomainBytes()
    ensures AsciiBytes(DOMAIN_SEPARATOR) ==
            [120, 52, 48, 50, 45, 110, 111] + ([99, 107, 99, 104, 97, 105, 110] + [45, 118, 50])
  {
  }

  lemma PackMore(chunk: seq<byte>, rest: seq<byte>)
    requires |chunk| == 7
    ensures BytesToBelts(chunk + rest) == [Pack(chunk)] + BytesToBelts(rest)
  {
    assert (chunk + rest)[..7] == chunk && (chunk + rest)[7..] == rest;
    hide Pack;
  }

  lemma PackLast(chunk: seq<byte>)
    requires |chunk| < 7
    ensures BytesToBelts(chunk) == [Pack(chunk)]
  {
    hide Pack;
  }

  lemma DomainChunks()
    ensures Pack([120, 52, 48, 50, 45, 110, 111]) == 31364862809486456
    ensures Pack([99, 107, 99, 104, 97, 105, 110]) == 31078114522262371
    ensures Pack([45, 118, 50]) == 3307053
  {
    SevenBytes(120, 52, 48, 50, 45, 110, 111);
    SevenBytes(99, 107, 99, 104, 97, 105, 110);
    SevenBytes(45, 118, 50, 0, 0, 0, 0);
    LittleEndianZeros([45, 118, 50], 4, 256);
    assert [45, 118, 50] + Zeros(4) == [45, 118, 50, 0, 0, 0, 0];
    hide LittleEndian;
  }

  lemma SevenBytes(a: byte, b: byte, c: byte, d: byte, e: byte, f: byte, g: byte)
    ensures LittleEndian([a, b, c, d, e, f, g], 256) ==
            a + 256 * (b + 256 * (c + 256 * (d + 256 * (e + 256 * (f + 256 * g)))))
  {
    assert [a, b, c, d, e, f, g][1..] == [b, c, d, e, f, g] && [b, c, d, e, f, g][1..] == [c, d, e, f, g];
    assert [c, d, e, f, g][1..] == [d, e, f, g] && [d, e, f, g][1..] == [e, f, g];
    assert [e, f, g][1..] == [f, g] && [f, g][1..] == [g] && [g][1..] == [];
    assert LittleEndian([g], 256) == g;
    assert LittleEndian([f, g], 256) == f + 256 * g;
    assert LittleEndian([e, f, g], 256) == e + 256 * (f + 256 * g);
    assert LittleEndian([d, e, f, g], 256) == d + 256 * (e + 256 * (f + 256 * g));
    assert LittleEndian([c, d, e, f, g], 256) == c + 256 * (d + 256 * (e + 256 * (f + 256 * g)));
  }


  /** The name is read back as the sponge's output on the packed key. */
  lemma PkhReadsBack(tip5: Tip5, pubkey: seq<byte>, field: string)
    requires InField(tip5(BytesToBelts(pubkey)))
    ensures DecodeHash(PkhFromPubkeyBytes(tip5, pubkey), field) == Ok(tip5(BytesToBelts(pubkey)))
    ensures StripOnes(PkhFromPubkeyBytes(tip5, pubkey)) == PkhFromPubkeyBytes(tip5, pubkey)
  {
    HashRoundTrip(tip5(BytesToBelts(pubkey)), field);
    HashTextRoundTrip(PkhFromPubkeyBytes(tip5, pubkey), field);
    hide EncodeHash, DecodeHash, BytesToBelts;
  }
}
