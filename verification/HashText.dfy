/**
 Tip5 digests as text: five field elements ("Belts") as the base-PRIME digits of an
 integer that is written in base58. The Tip5 sponge itself is a parameter.
 */
module HashText {
  import opened Base58
  import opened Decimal
  import opened Positional
  import opened Wrappers

  /** The Goldilocks prime, 2^64 - 2^32 + 1. */
  const PRIME: u64 := 0xFFFF_FFFF_0000_0001
  /** PRIME^5: what five Belts can hold. */
  const CAPACITY: nat := PRIME * PRIME * PRIME * PRIME * PRIME
  /** 2^56: what seven packed bytes can hold. */
  const SEVEN_BYTES: nat := 0x100_0000_0000_0000

  type Belt = u64
  type Digest = ds: seq<Belt> | |ds| == 5 witness [0, 0, 0, 0, 0]
  type Tip5 = seq<Belt> -> Digest

  datatype SignMessageError =
    | Base58Error(field: string)
    | DecimalError(field: string, value: string)
    | OverflowError(field: string)

  predicate InField(belts: seq<Belt>) {
    forall i :: 0 <= i < |belts| ==> belts[i] < PRIME
  }

  lemma CapacityIsPow()
    ensures Pow(PRIME, 5) == CAPACITY && Pow(256, 32) < CAPACITY && Pow(256, 7) == SEVEN_BYTES
    ensures PRIME == 0x1_0000_0000_0000_0000 - 0x1_0000_0000 + 1
  {
    assert Pow(PRIME, 5) == PRIME * (PRIME * (PRIME * (PRIME * (PRIME * Pow(PRIME, 0)))));
    assert Pow(256, 4) == 0x1_0000_0000;
    assert Pow(256, 7) == 0x100_0000 * Pow(256, 4);
    assert Pow(256, 8) == 256 * Pow(256, 7);
    assert Pow(256, 12) == 0x1_0000_0000 * Pow(256, 8);
    assert Pow(256, 16) == 0x1_0000_0000 * Pow(256, 12);
    assert Pow(256, 20) == 0x1_0000_0000 * Pow(256, 16);
    assert Pow(256, 24) == 0x1_0000_0000 * Pow(256, 20);
    assert Pow(256, 28) == 0x1_0000_0000 * Pow(256, 24);
    assert Pow(256, 32) == 0x1_0000_0000 * Pow(256, 28);
  }

  // ---------------------------------------------------------------------------
  // Digests as text
  // ---------------------------------------------------------------------------

  function EncodeHash(d: Digest): string {
    Base58.Encode(ToBytes(LittleEndian(d, PRIME)))
  }

  function DecodeHash(b58: string, field: string): (r: Result<Digest, SignMessageError>)
    ensures r.Ok? ==> InField(r.value)
  {
    match Base58.Decode(b58)
    case None => Err(Base58Error(field))
    case Some(bytes) =>
      var n := FromBytes(bytes);
      if n >= CAPACITY then Err(OverflowError(field)) else Ok(FiveDigits(n))
  }

  function FiveDigits(n: nat): (d: Digest)
    ensures InField(d)
  {
    var ds := LowDigits(n, PRIME, 5);
    assert forall i :: 0 <= i < |ds| ==> ds[i] < PRIME;
    seq(5, i requires 0 <= i < 5 => ds[i])
  }

  lemma FiveDigitsAre(n: nat)
    ensures FiveDigits(n) == LowDigits(n, PRIME, 5)
    ensures n < CAPACITY ==> LittleEndian(FiveDigits(n), PRIME) == n
  {
    assert FiveDigits(n) == LowDigits(n, PRIME, 5);
    CapacityIsPow();
    QuotientZeroIff(n, PRIME, 5);
  }

  method PkhBeltsToBase58(belts: Digest) returns (s: string)
    ensures s == EncodeHash(belts)
  {
    var value, power := 0, 1;
    for i := 0 to 5
      invariant value == LittleEndian(belts[..i], PRIME) && power == Pow(PRIME, i)
    {
      LittleEndianPush(belts[..i], belts[i], PRIME);
      assert belts[..i + 1] == belts[..i] + [belts[i]];
      value := value + belts[i] * power;
      power := power * PRIME;
    }
    assert belts[..5] == belts;
    s := Base58.Encode(ToBytes(value));
  }

  /** The remainder goes through text; the parse cannot fail, as a remainder is below 2^64. */
  method RemainderBelt(value: nat) returns (belt: Belt)
    ensures belt == value % PRIME
  {
    ParsePrinted(value % PRIME, U64_MAX);
    var parsed := ParseU64(ToDecimal(value % PRIME));
    belt := parsed.value;
  }

  method Base58ToBelts(b58: string, field: string) returns (r: Result<Digest, SignMessageError>)
    ensures r == DecodeHash(b58, field)
  {
    var decoded := Base58.Decode(b58);
    if decoded.None? {
      return Err(Base58Error(field));
    }
    var n := FromBytes(decoded.value);
    var value := n;
    var belts := new Belt[5](_ => 0);
    assert Quotient(n, PRIME, 0) == n && LowDigits(n, PRIME, 0) == [];
    QuotientZeroIff(n, PRIME, 5);
    CapacityIsPow();
    FiveDigitsAre(n);
    hide Quotient, LowDigits, FiveDigits, Pow, FromBytes, LittleEndian, Base58.Decode;
    for i := 0 to 5
      invariant value == Quotient(n, PRIME, i)
      invariant belts[..i] == LowDigits(n, PRIME, i)
    {
      LowDigitsPush(n, PRIME, i);
      belts[i] := RemainderBelt(value);
      value := value / PRIME;
      assert belts[..i + 1] == belts[..i] + [belts[i]];
    }
    if value > 0 {
      return Err(OverflowError(field));
    }
    assert belts[..] == belts[..5];
    return Ok(belts[..]);
  }

  /** What decoding means: the integer the string denotes, in base PRIME, when it fits. */
  lemma DecodeHashMeaning(s: string, field: string)
    ensures DecodeHash(s, field) == Err(Base58Error(field)) <==> IntegerOf(s).None?
    ensures DecodeHash(s, field) == Err(OverflowError(field)) <==> IntegerOf(s).Some? && IntegerOf(s).value >= CAPACITY
    ensures DecodeHash(s, field).Ok? <==> IntegerOf(s).Some? && IntegerOf(s).value < CAPACITY
    ensures DecodeHash(s, field).Ok? ==> LittleEndian(DecodeHash(s, field).value, PRIME) == IntegerOf(s).value
  {
    DecodedInteger(s);
    if IntegerOf(s).Some? {
      FiveDigitsAre(IntegerOf(s).value);
    }
  }

  /** Printing then decoding gives a digest back if and only if all its Belts are in the field. */
  lemma HashRoundTrip(d: Digest, field: string)
    ensures DecodeHash(EncodeHash(d), field) == Ok(d) <==> InField(d)
  {
    var n := LittleEndian(d, PRIME);
    IntegerOfPrinted(n);
    DecodeHashMeaning(EncodeHash(d), field);
    if InField(d) {
      LittleEndianBound(d, PRIME);
      CapacityIsPow();
      LittleEndianInjective(d, DecodeHash(EncodeHash(d), field).value, PRIME);
    }
  }

  /** Decoding then printing loses exactly the leading '1's. */
  lemma HashTextRoundTrip(s: string, field: string)
    requires DecodeHash(s, field).Ok?
    ensures EncodeHash(DecodeHash(s, field).value) == StripOnes(s)
  {
    DecodeHashMeaning(s, field);
    PrintedInteger(s);
  }

  /** Two texts decode to the same digest if and only if they agree up to leading '1's. */
  lemma SameHash(s: string, t: string, f: string, g: string)
    requires DecodeHash(s, f).Ok? && DecodeHash(t, g).Ok?
    ensures DecodeHash(s, f).value == DecodeHash(t, g).value <==> StripOnes(s) == StripOnes(t)
  {
    DecodeHashMeaning(s, f);
    DecodeHashMeaning(t, g);
    SameInteger(s, t);
    if StripOnes(s) == StripOnes(t) {
      LittleEndianInjective(DecodeHash(s, f).value, DecodeHash(t, g).value, PRIME);
    }
  }

  /** Any string of at most 32 encoded bytes decodes, which the nonce generator relies on. */
  lemma ShortBytesFit(bytes: seq<byte>, field: string)
    requires |bytes| <= 32
    ensures DecodeHash(Base58.Encode(bytes), field).Ok?
  {
    DecodeOfEncode(bytes);
    BigEndianBound(bytes, 256);
    PowMonotone(256, |bytes|, 32);
    CapacityIsPow();
  }

  /** The sponge does not send these two inputs to one digest. */
  predicate Separates(tip5: Tip5, x: seq<Belt>, y: seq<Belt>) {
    tip5(x) == tip5(y) ==> x == y
  }
}
