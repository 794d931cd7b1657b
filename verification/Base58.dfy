/**
 Base58 with the Bitcoin alphabet. A byte string is written as one '1' for each
 leading zero byte, followed by the rest as a base-58 integer.
 */
module Base58 {
  import opened Alphabet
  import opened Positional
  import opened Wrappers

  type byte = n: nat | n < 256

  /** '1'..'9', 'A'..'Z' without I and O, 'a'..'z' without l. */
  function Symbol(d: nat): char {
    if d < 9 then (49 + d) as char
    else if d < 17 then (65 + d - 9) as char
    else if d < 22 then (74 + d - 17) as char
    else if d < 33 then (80 + d - 22) as char
    else if d < 44 then (97 + d - 33) as char
    else if d < 58 then (109 + d - 44) as char
    else '?'
  }

  function Digit(c: char): Option<nat> {
    if '1' <= c <= '9' then Some(c as int - 49)
    else if 'A' <= c <= 'H' then Some(c as int - 65 + 9)
    else if 'J' <= c <= 'N' then Some(c as int - 74 + 17)
    else if 'P' <= c <= 'Z' then Some(c as int - 80 + 22)
    else if 'a' <= c <= 'k' then Some(c as int - 97 + 33)
    else if 'm' <= c <= 'z' then Some(c as int - 109 + 44)
    else None
  }

  lemma DigitOfSymbol(d: nat)
    requires d < 58
    ensures Digit(Symbol(d)) == Some(d)
  {
  }

  lemma SymbolOfDigit(c: char)
    requires Digit(c).Some?
    ensures Digit(c).value < 58 && Symbol(Digit(c).value) == c
  {
  }

  lemma Base58Spelling()
    ensures Spelling(Symbol, Digit, 58)
  {
    forall d: nat | d < 58
      ensures Digit(Symbol(d)) == Some(d)
    {
      DigitOfSymbol(d);
    }
    forall c: char | Digit(c).Some?
      ensures Digit(c).value < 58 && Symbol(Digit(c).value) == c
    {
      SymbolOfDigit(c);
    }
  }

  /** The bytes of an integer, most significant first; none for zero. */
  function ToBytes(n: nat): (bytes: seq<byte>)
    ensures bytes == Numeral(n, 256)
  {
    NumeralShape(n, 256);
    var ds := Numeral(n, 256);
    seq(|ds|, i requires 0 <= i < |ds| => ds[i])
  }

  function FromBytes(bytes: seq<byte>): nat {
    BigEndian(bytes, 256)
  }

  /** The integer a base58 string denotes, or None when a character is not in the alphabet. */
  function IntegerOf(s: string): Option<nat> {
    match Read(s, Digit)
    case None => None
    case Some(ds) => Some(BigEndian(ds, 58))
  }

  function Encode(bytes: seq<byte>): string {
    var k := LeadingZeros(bytes);
    Spell(Zeros(k) + Numeral(FromBytes(bytes), 58), Symbol)
  }

  function Decode(s: string): Option<seq<byte>> {
    match Read(s, Digit)
    case None => None
    case Some(ds) =>
      var zeros: seq<byte> := Zeros(LeadingZeros(ds));
      Some(zeros + ToBytes(BigEndian(ds, 58)))
  }

  /** The string without its leading '1's. */
  function StripOnes(s: string): (t: string)
    ensures t == [] || t[0] != '1'
  {
    if s != [] && s[0] == '1' then StripOnes(s[1..]) else s
  }

  lemma {:induction false} StripOnesSpelling(ds: seq<nat>)
    requires Digits(ds, 58)
    ensures StripOnes(Spell(ds, Symbol)) == Spell(ds[LeadingZeros(ds)..], Symbol)
  {
    if ds != [] && ds[0] == 0 {
      assert Spell(ds, Symbol)[0] == '1' && Spell(ds, Symbol)[1..] == Spell(ds[1..], Symbol);
      assert ds[1..][LeadingZeros(ds[1..])..] == ds[LeadingZeros(ds)..];
      StripOnesSpelling(ds[1..]);
    } else {
      assert ds[0..] == ds;
      if ds != [] {
        Base58Spelling();
        assert Digit(Symbol(ds[0])) == Some(ds[0]) && Digit('1') == Some(0);
      }
    }
  }

  /** A digit string of leading zeros and a numeral, re-read in another base, keeps both parts. */
  lemma ZerosAndNumeral(k: nat, n: nat, base: nat)
    requires base >= 2
    ensures BigEndian(Zeros(k) + Numeral(n, base), base) == n
    ensures LeadingZeros(Zeros(k) + Numeral(n, base)) == k
    ensures Digits(Zeros(k) + Numeral(n, base), base)
  {
    NumeralShape(n, base);
    BigEndianOfNumeral(n, base);
    BigEndianZeros(k, Numeral(n, base), base);
    LeadingZerosOf(k, Numeral(n, base));
  }

  lemma SplitBack(ds: seq<nat>, base: nat)
    requires base >= 2 && Digits(ds, base)
    ensures Zeros(LeadingZeros(ds)) + Numeral(BigEndian(ds, base), base) == ds
  {
    LeadingZerosSplit(ds);
    NumeralDropsLeadingZeros(ds, base);
  }

  lemma DecodeOfEncode(bytes: seq<byte>)
    ensures Decode(Encode(bytes)) == Some(bytes)
  {
    Base58Spelling();
    var k, n := LeadingZeros(bytes), FromBytes(bytes);
    ZerosAndNumeral(k, n, 58);
    ReadOfSpell(Zeros(k) + Numeral(n, 58), Symbol, Digit, 58);
    SplitBack(bytes, 256);
  }

  lemma EncodeOfDecode(s: string)
    requires Decode(s).Some?
    ensures Encode(Decode(s).value) == s
  {
    Base58Spelling();
    SpellOfRead(s, Symbol, Digit, 58);
    var ds := Read(s, Digit).value;
    var k, n := LeadingZeros(ds), BigEndian(ds, 58);
    ZerosAndNumeral(k, n, 256);
    SplitBack(ds, 58);
  }

  /** Decoding to bytes and reading those as an integer gives the base-58 integer. */
  lemma DecodedInteger(s: string)
    ensures Decode(s).Some? <==> IntegerOf(s).Some?
    ensures Decode(s).Some? ==> FromBytes(Decode(s).value) == IntegerOf(s).value
  {
    if Read(s, Digit).Some? {
      var ds := Read(s, Digit).value;
      ZerosAndNumeral(LeadingZeros(ds), BigEndian(ds, 58), 256);
    }
  }

  lemma PrintedForm(n: nat)
    ensures Encode(ToBytes(n)) == Spell(Numeral(n, 58), Symbol)
  {
    BigEndianOfNumeral(n, 256);
    NumeralShape(n, 256);
    assert LeadingZeros(ToBytes(n)) == 0;
    assert Zeros(0) + Numeral(n, 58) == Numeral(n, 58);
  }

  /** Printing the bytes of an integer gives a string with no leading '1' that denotes it. */
  lemma IntegerOfPrinted(n: nat)
    ensures IntegerOf(Encode(ToBytes(n))) == Some(n)
    ensures StripOnes(Encode(ToBytes(n))) == Encode(ToBytes(n))
  {
    PrintedForm(n);
    Base58Spelling();
    var ds := Numeral(n, 58);
    NumeralShape(n, 58);
    BigEndianOfNumeral(n, 58);
    ReadOfSpell(ds, Symbol, Digit, 58);
    StripOnesSpelling(ds);
    assert LeadingZeros(ds) == 0 && ds[0..] == ds;
  }

  /** Decoding to an integer and printing that loses exactly the leading '1's. */
  lemma PrintedInteger(s: string)
    requires IntegerOf(s).Some?
    ensures Encode(ToBytes(IntegerOf(s).value)) == StripOnes(s)
  {
    Base58Spelling();
    SpellOfRead(s, Symbol, Digit, 58);
    var ds := Read(s, Digit).value;
    PrintedForm(BigEndian(ds, 58));
    NumeralDropsLeadingZeros(ds, 58);
    StripOnesSpelling(ds);
  }

  /** Two strings denote the same integer if and only if they differ in leading '1's only. */
  lemma SameInteger(s: string, t: string)
    requires IntegerOf(s).Some? && IntegerOf(t).Some?
    ensures IntegerOf(s) == IntegerOf(t) <==> StripOnes(s) == StripOnes(t)
  {
    PrintedInteger(s);
    PrintedInteger(t);
    IntegerOfPrinted(IntegerOf(s).value);
    IntegerOfPrinted(IntegerOf(t).value);
  }

  /** The Bitcoin alphabet: digits and letters in ascending order, without zero, O, I and l. */
  lemma BitcoinAlphabet(c: char, d: char)
    ensures Digit(c).Some? <==>
            ('0' <= c <= '9' || 'A' <= c <= 'Z' || 'a' <= c <= 'z') && c != '0' && c != 'O' && c != 'I' && c != 'l'
    ensures Digit(c).Some? && Digit(d).Some? ==> (c < d <==> Digit(c).value < Digit(d).value)
  {
  }
}
