/** Decimal strings as Rust's integer `to_string` and `parse` read and write them. */
module Decimal {
  import opened Alphabet
  import opened Positional
  import opened Wrappers

  const U64_MAX: nat := 0xFFFF_FFFF_FFFF_FFFF
  const U128_MAX: nat := 0xFFFF_FFFF_FFFF_FFFF_FFFF_FFFF_FFFF_FFFF

  type u64 = n: nat | n <= U64_MAX

  function Symbol(d: nat): char {
    if d < 10 then (48 + d) as char else '?'
  }

  function Digit(c: char): Option<nat> {
    if '0' <= c <= '9' then Some(c as int - 48) else None
  }

  function ToDecimal(n: nat): string {
    if n == 0 then "0" else Spell(Numeral(n, 10), Symbol)
  }

  /** One optional plus sign, at least one digit, leading zeros allowed, at most max. */
  function ParseUnsigned(s: string, max: nat): Option<nat> {
    var body := if |s| > 0 && s[0] == '+' then s[1..] else s;
    match Read(body, Digit)
    case None => None
    case Some(ds) =>
      if ds == [] || BigEndian(ds, 10) > max then None else Some(BigEndian(ds, 10))
  }

  function ParseU64(s: string): (r: Option<u64>)
    ensures r.Some? ==> ParseUnsigned(s, U128_MAX) == r
  {
    ParseUnsigned(s, U64_MAX)
  }

  lemma DecimalSpelling()
    ensures Spelling(Symbol, Digit, 10)
  {
  }

  /** Printing then parsing gives the number back exactly when it fits the type. */
  lemma ParsePrinted(n: nat, max: nat)
    ensures ParseUnsigned(ToDecimal(n), max) == if n <= max then Some(n) else None
  {
    var s := ToDecimal(n);
    DecimalSpelling();
    NumeralShape(n, 10);
    BigEndianOfNumeral(n, 10);
    if n == 0 {
      assert BigEndian([0], 10) == 10 * BigEndian([0][..0], 10) + [0][0];
      assert Read(s, Digit).value == [0];
    } else {
      ReadOfSpell(Numeral(n, 10), Symbol, Digit, 10);
      assert Digit(s[0]) == Some(Numeral(n, 10)[0]);
      assert s[0] != '+';
    }
  }

  /** The number that a text of decimal digits denotes. */
  predicate Denotes(body: string, n: nat) {
    && body != ""
    && (forall i :: 0 <= i < |body| ==> '0' <= body[i] <= '9')
    && n == BigEndian(seq(|body|, i requires 0 <= i < |body| => (body[i] as int - '0' as int) as nat), 10)
  }

  lemma {:induction false} DigitsRead(body: string)
    ensures Read(body, Digit).Some? <==> forall i :: 0 <= i < |body| ==> '0' <= body[i] <= '9'
    ensures Read(body, Digit).Some? ==>
              |Read(body, Digit).value| == |body|
              && forall i :: 0 <= i < |body| ==> Read(body, Digit).value[i] == body[i] as int - '0' as int
  {
    if exists i :: 0 <= i < |body| && !('0' <= body[i] <= '9') {
      var i :| 0 <= i < |body| && !('0' <= body[i] <= '9');
      assert Digit(body[i]).None?;
    }
  }

  /** What parses as what: digits, at most one plus sign before them, and nothing above the type. */
  lemma ParsesIff(s: string, max: nat, n: nat)
    ensures ParseUnsigned(s, max) == Some(n) <==>
            n <= max && (Denotes(s, n) || (s != "" && s[0] == '+' && Denotes(s[1..], n)))
  {
    var body := if |s| > 0 && s[0] == '+' then s[1..] else s;
    DigitsRead(body);
    if Read(body, Digit).Some? {
      assert Read(body, Digit).value
          == seq(|body|, i requires 0 <= i < |body| => (body[i] as int - '0' as int) as nat);
    }
  }

  /** Neither the empty text nor a lone sign is a number, and a minus sign never is. */
  lemma NotNumbers(max: nat, s: string)
    ensures ParseUnsigned("", max) == None == ParseUnsigned("+", max)
    ensures s != "" && s[0] == '-' ==> ParseUnsigned(s, max) == None
  {
    if s != "" && s[0] == '-' {
      DigitsRead(s);
    }
  }

  /** A printed number is digits alone, with no zero in front. */
  lemma PrintedIsPlain(n: nat)
    ensures Denotes(ToDecimal(n), n) && (ToDecimal(n)[0] == '0' ==> ToDecimal(n) == "0" && n == 0)
  {
    NumeralShape(n, 10);
    DecimalSpelling();
    if n == 0 {
      assert ToDecimal(n) == "0";
      ParsePrinted(0, 0);
      ParsesIff("0", 0, 0);
    } else {
      var ds := Numeral(n, 10);
      ParsePrinted(n, n);
      ParsesIff(ToDecimal(n), n, n);
      assert Digit(Symbol(ds[0])) == Some(ds[0]);
      assert ToDecimal(n)[0] != '0' && ToDecimal(n)[0] != '+';
    }
  }


  /** Such a text is the printed one. */
  lemma PlainIsPrinted(text: string, n: nat)
    requires Denotes(text, n) && (text[0] == '0' ==> text == "0")
    ensures ToDecimal(n) == text
  {
    var ds: seq<nat> := seq(|text|, i requires 0 <= i < |text| => (text[i] as int - '0' as int) as nat);
    if text == "0" {
      assert BigEndian([0], 10) == 10 * BigEndian([0][..0], 10) + [0][0];
      assert ds == [0];
    } else {
      assert ds[0] != 0 && Digits(ds, 10);
      NumeralOfBigEndian(ds, 10);
      BigEndianPositive(ds, 10);
      assert Spell(ds, Symbol) == text;
    }
  }


  /** The largest numbers of the two integer types. */
  lemma Widths()
    ensures U64_MAX == Pow(2, 64) - 1 && U128_MAX == Pow(2, 128) - 1
  {
    assert Pow(2, 4) == 16;
    PowSplits(2, 4, 4);
    PowSplits(2, 8, 8);
    PowSplits(2, 16, 16);
    PowSplits(2, 32, 32);
    PowSplits(2, 64, 64);
    hide Pow;
    assert Pow(2, 8) == 0x100;
    assert Pow(2, 16) == 0x1_0000;
    assert Pow(2, 32) == 0x1_0000_0000;
    assert Pow(2, 64) == 0x1_0000_0000_0000_0000;
  }

  lemma {:induction false} PowSplits(base: nat, a: nat, b: nat)
    ensures Pow(base, a + b) == Pow(base, a) * Pow(base, b)
  {
    if a == 0 {
    } else {
      PowSplits(base, a - 1, b);
      assert base * (Pow(base, a - 1) * Pow(base, b)) == base * Pow(base, a - 1) * Pow(base, b);
    }
  }
}
