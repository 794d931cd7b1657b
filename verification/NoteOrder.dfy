/**
 The order that notes are sorted in, which is that of the texts as written, against the
 order of the bytes that the texts stand for.
 */
module NoteOrder {
  import opened Alphabet
  import opened Base58
  import opened HashText
  import opened Notes
  import opened Payment
  import opened Positional
  import opened Wrappers

  // ---------------------------------------------------------------------------
  // Lexicographic order on digits
  // ---------------------------------------------------------------------------

  predicate Lex(a: seq<nat>, b: seq<nat>) {
    a == [] || (b != [] && (a[0] < b[0] || (a[0] == b[0] && Lex(a[1..], b[1..]))))
  }

  /** The order of byte strings. */
  predicate BytesLe(a: seq<byte>, b: seq<byte>) {
    Lex(a, b)
  }

  lemma {:induction false} LexTotal(a: seq<nat>, b: seq<nat>)
    ensures Lex(a, b) || Lex(b, a)
    ensures Lex(a, b) && Lex(b, a) ==> a == b
    ensures Lex(a, a)
  {
    if a == [] {
    } else {
      LexTotal(a[1..], a[1..]);
      if b != [] && a[0] == b[0] {
        LexTotal(a[1..], b[1..]);
        assert a == [a[0]] + a[1..] && b == [b[0]] + b[1..];
      }
    }
  }

  /** At one length, the last digit decides when all before it agree, and otherwise does not matter. */
  lemma {:induction false} LexPush(a: seq<nat>, b: seq<nat>, x: nat, y: nat)
    requires |a| == |b|
    ensures Lex(a + [x], b + [y]) <==> if a == b then x <= y else Lex(a, b)
  {
    if a == [] {
      assert a + [x] == [x] && b + [y] == [y] && [x][1..] == [] == [y][1..];
    } else {
      LexPush(a[1..], b[1..], x, y);
      assert (a + [x])[1..] == a[1..] + [x] && (b + [y])[1..] == b[1..] + [y];
      assert a == [a[0]] + a[1..] && b == [b[0]] + b[1..];
    }
  }

  /** What lies beyond the shorter string's length does not matter. */
  lemma {:induction false} LexPrefix(a: seq<nat>, b: seq<nat>)
    requires |a| <= |b|
    ensures Lex(a, b) <==> Lex(a, b[..|a|])
  {
    if a == [] {
    } else {
      LexPrefix(a[1..], b[1..]);
      assert b[..|a|][1..] == b[1..][..|a[1..]|];
    }
  }

  lemma MulAddLe(base: nat, p: nat, x: nat, q: nat, y: nat)
    requires x < base && y < base
    ensures base * p + x <= base * q + y <==> p < q || (p == q && x <= y)
  {
    if p < q {
      MulMonotone(base, p + 1, q);
    } else if q < p {
      MulMonotone(base, q + 1, p);
    }
  }

  lemma BigEndianPush(ds: seq<nat>, base: nat)
    requires ds != [] && Digits(ds, base)
    ensures
      var n := |ds| - 1;
      && ds == ds[..n] + [ds[n]] && Digits(ds[..n], base) && ds[n] < base
      && BigEndian(ds, base) == base * BigEndian(ds[..n], base) + ds[n]
  {
  }

  /** At one length, lexicographic order is the order of the integers. */
  lemma {:induction false} LexIsLe(a: seq<nat>, b: seq<nat>, base: nat)
    requires |a| == |b| && Digits(a, base) && Digits(b, base)
    ensures Lex(a, b) <==> BigEndian(a, base) <= BigEndian(b, base)
    ensures BigEndian(a, base) == BigEndian(b, base) ==> a == b
  {
    if |a| == 0 {
      assert a == [] == b;
    } else {
      BigEndianPush(a, base);
      BigEndianPush(b, base);
      hide BigEndian, Lex, Digits;
      var n := |a| - 1;
      var p, q, x, y := a[..n], b[..n], a[n], b[n];
      LexIsLe(p, q, base);
      LexPush(p, q, x, y);
      MulAddLe(base, BigEndian(p, base), x, BigEndian(q, base), y);
      MulAddLe(base, BigEndian(q, base), y, BigEndian(p, base), x);
    }
  }

  /** Dropping the last k digits divides k times by the base. */
  lemma {:induction false} BigEndianPrefix(ds: seq<nat>, base: nat, k: nat)
    requires base > 0 && Digits(ds, base) && k <= |ds|
    ensures Quotient(BigEndian(ds, base), base, k) == BigEndian(ds[..|ds| - k], base)
    decreases k
  {
    if k == 0 {
      assert ds[..|ds|] == ds;
    } else {
      var init := ds[..|ds| - 1];
      DivModOf(base, BigEndian(init, base), ds[|ds| - 1]);
      BigEndianPrefix(init, base, k - 1);
      assert init[..|init| - (k - 1)] == ds[..|ds| - k];
    }
  }

  /** Compare two integers of a and b digits, the longer one cut to the length of the shorter. */
  predicate AlignedLe(m: nat, a: nat, n: nat, b: nat, base: nat)
    requires base > 0
  {
    if a <= b then m <= Quotient(n, base, b - a) else Quotient(m, base, a - b) < n
  }

  lemma LexIff(a: seq<nat>, b: seq<nat>, base: nat)
    requires base > 0 && Digits(a, base) && Digits(b, base)
    ensures Lex(a, b) <==> AlignedLe(BigEndian(a, base), |a|, BigEndian(b, base), |b|, base)
  {
    if |a| <= |b| {
      assert Digits(b[..|a|], base);
      LexPrefix(a, b);
      BigEndianPrefix(b, base, |b| - |a|);
      LexIsLe(a, b[..|a|], base);
    } else {
      assert Digits(a[..|b|], base);
      LexTotal(a, b);
      LexPrefix(b, a);
      BigEndianPrefix(a, base, |a| - |b|);
      LexIsLe(b, a[..|b|], base);
    }
    hide Lex, BigEndian, Quotient, Digits;
  }

  // ---------------------------------------------------------------------------
  // Texts and bytes
  // ---------------------------------------------------------------------------

  lemma {:induction false} TextIsLex(s: string, t: string)
    requires Read(s, Base58.Digit).Some? && Read(t, Base58.Digit).Some?
    ensures TextLe(s, t) <==> Lex(Read(s, Base58.Digit).value, Read(t, Base58.Digit).value)
  {
    if s == "" || t == "" {
    } else {
      assert forall i :: 0 <= i < |s[1..]| ==> s[1..][i] == s[i + 1];
      assert forall i :: 0 <= i < |t[1..]| ==> t[1..][i] == t[i + 1];
      assert Read(s[1..], Base58.Digit).value == Read(s, Base58.Digit).value[1..];
      assert Read(t[1..], Base58.Digit).value == Read(t, Base58.Digit).value[1..];
      BitcoinAlphabet(s[0], t[0]);
      BitcoinAlphabet(t[0], s[0]);
      hide Base58.Digit;
      TextIsLex(s[1..], t[1..]);
    }
  }

  /**
   What each order compares: the same two integers, aligned at their leading digits in
   base 58 for the texts, and in base 256 for the bytes.
   */
  lemma WhatTheOrdersCompare(s: string, t: string)
    requires Decode(s).Some? && Decode(t).Some?
    ensures IntegerOf(s).Some? && IntegerOf(t).Some?
    ensures TextLe(s, t) <==> AlignedLe(IntegerOf(s).value, |s|, IntegerOf(t).value, |t|, 58)
    ensures BytesLe(Decode(s).value, Decode(t).value) <==>
            AlignedLe(IntegerOf(s).value, |Decode(s).value|, IntegerOf(t).value, |Decode(t).value|, 256)
  {
    Base58Spelling();
    SpellOfRead(s, Base58.Symbol, Base58.Digit, 58);
    SpellOfRead(t, Base58.Symbol, Base58.Digit, 58);
    TextIsLex(s, t);
    LexIff(Read(s, Base58.Digit).value, Read(t, Base58.Digit).value, 58);
    DecodedInteger(s);
    DecodedInteger(t);
    hide Decode, Base58.Digit, AlignedLe, Lex;
    LexIff(Decode(s).value, Decode(t).value, 256);
  }

  /** Texts of one length are ordered as their integers, and as their bytes too when those have one length. */
  lemma OneLengthOrders(s: string, t: string)
    requires Decode(s).Some? && Decode(t).Some? && |s| == |t|
    ensures IntegerOf(s).Some? && IntegerOf(t).Some?
    ensures TextLe(s, t) <==> IntegerOf(s).value <= IntegerOf(t).value
    ensures |Decode(s).value| == |Decode(t).value| ==> (TextLe(s, t) <==> BytesLe(Decode(s).value, Decode(t).value))
    ensures IntegerOf(s) == IntegerOf(t) ==> s == t
  {
    WhatTheOrdersCompare(s, t);
    WhatTheOrdersCompare(t, s);
    TextLeTotal(s, t);
    hide Decode, IntegerOf, BytesLe, TextLe;
  }

  /**
   The exact condition, for texts of one length: the orders disagree just when cutting
   the longer byte string to the length of the shorter moves one integer past the other.
   */
  lemma OrdersDisagreeIff(s: string, t: string)
    requires Decode(s).Some? && Decode(t).Some? && |s| == |t|
    ensures IntegerOf(s).Some? && IntegerOf(t).Some?
    ensures
      var m, n := IntegerOf(s).value, IntegerOf(t).value;
      var a, b := |Decode(s).value|, |Decode(t).value|;
      (TextLe(s, t) <==> BytesLe(Decode(s).value, Decode(t).value)) <==>
      if a <= b then !(Quotient(n, 256, b - a) < m <= n) else !(Quotient(m, 256, a - b) < n < m)
  {
    hide *;
    WhatTheOrdersCompare(s, t);
    OneLengthOrders(s, t);
    ShiftedOrder(
      IntegerOf(s).value, |Decode(s).value|, IntegerOf(t).value, |Decode(t).value|,
      BytesLe(Decode(s).value, Decode(t).value));
  }

  lemma ShiftedOrder(m: nat, a: nat, n: nat, b: nat, bytesLe: bool)
    requires bytesLe <==> AlignedLe(m, a, n, b, 256)
    requires m == n ==> a == b
    ensures (m <= n <==> bytesLe) <==>
            if a <= b then !(Quotient(n, 256, b - a) < m <= n) else !(Quotient(m, 256, a - b) < n < m)
  {
    hide Quotient;
    if a <= b {
      QuotientLe(n, 256, b - a);
    } else {
      QuotientLe(m, 256, a - b);
    }
  }

  lemma {:induction false} QuotientLe(n: nat, base: nat, k: nat)
    requires base > 0
    ensures Quotient(n, base, k) <= n
    decreases k
  {
    if k == 0 {
    } else {
      DivMod(n, base);
      MulMonotone(n / base, 1, base);
      QuotientLe(n / base, base, k - 1);
    }
  }

  // ---------------------------------------------------------------------------
  // Inputs
  // ---------------------------------------------------------------------------

  lemma OneByteTexts()
    ensures Encode([57]) == "z" && Encode([58]) == "21"
  {
    assert Numeral(57, 58) == [57] && Numeral(58, 58) == [1, 0];
    assert FromBytes([57]) == 57 && FromBytes([58]) == 58;
    assert Encode([57]) == Spell([57], Base58.Symbol);
    assert Encode([58]) == Spell([1, 0], Base58.Symbol);
  }

  /** Text order is not byte order. */
  lemma TextOrderIsNotByteOrder()
    ensures Encode([57]) == "z" && Encode([58]) == "21"
    ensures BytesLe([57], [58]) && !BytesLe([58], [57])
    ensures TextLe("21", "z") && !TextLe("z", "21")
  {
    OneByteTexts();
  }

  /** Byte strings of different lengths may well be ordered as their texts: equal lengths suffice, but are not needed. */
  lemma OrdersMayAgreeAcrossLengths()
    ensures Decode("12") == Some([0, 1]) && Decode("21") == Some([58])
    ensures TextLe("12", "21") && BytesLe([0, 1], [58])
    ensures !TextLe("21", "12") && !BytesLe([58], [0, 1])
  {
    OneByteTexts();
    DecodeOfEncode([58]);
    ZeroOneText();
    DecodeOfEncode([0, 1]);
    hide Encode, Decode;
  }

  lemma ZeroOneText()
    ensures Encode([0, 1]) == "12"
  {
    assert Numeral(1, 58) == [1];
    assert [0, 1][..1] == [0] && [0][..0] == [];
    assert BigEndian([0], 256) == 256 * BigEndian([0][..0], 256) + 0;
    assert FromBytes([0, 1]) == 256 * BigEndian([0, 1][..1], 256) + 1 == 1;
    assert [0, 1][1..] == [1];
    assert LeadingZeros([0, 1]) == 1 + LeadingZeros([1]);
    hide Numeral, FromBytes, BigEndian, LeadingZeros;
    assert Zeros(1) + [1] == [0, 1];
    assert Encode([0, 1]) == Spell([0, 1], Base58.Symbol);
  }

  function NamedNote(first: string): NoteRef {
    NoteRef(NoteName(first, "2"), "0", SimplePkh)
  }

  /**
   The same two notes under two spellings: each name decodes to the same digests, and
   yet the lists are sorted differently and give different preimages.
   */
  lemma SpellingChangesPreimage()
    ensures
      var a, b := [NamedNote("2"), NamedNote("3")], [NamedNote("2"), NamedNote("13")];
      && (forall i :: 0 <= i < 2 ==> DecodeName(a[i].name).Ok? && DecodeName(a[i].name) == DecodeName(b[i].name))
      && Preimage(a).Ok? && Preimage(b).Ok? && Preimage(a) != Preimage(b)
  {
    var two, three, respelt := NamedNote("2"), NamedNote("3"), NamedNote("13");
    var a, b := [two, three], [two, respelt];
    ShortTextsDecode();
    SortedSpellings();
    assert StripOnes("3") == "3" && StripOnes("2") == "2";
    assert Stripped(two.name) != Stripped(respelt.name);
    hide DecodeHash, SortNotes, StripOnes, Flatten, NameLe, Stripped;
    TwoNamesDecode(two, three);
    TwoNamesDecode(respelt, two);
    assert Names(SortNotes(a))[0] == two.name && Names(SortNotes(b))[0] == respelt.name;
    SamePreimage(a, b);
  }

  lemma SortedSpellings()
    ensures SortNotes([NamedNote("2"), NamedNote("3")]) == [NamedNote("2"), NamedNote("3")]
    ensures SortNotes([NamedNote("2"), NamedNote("13")]) == [NamedNote("13"), NamedNote("2")]
    ensures StripOnes("13") == "3"
  {
    forall first: string | true
      ensures SortNotes([NamedNote("2"), NamedNote(first)]) == Insert(NamedNote("2"), [NamedNote(first)])
    {
      var notes := [NamedNote("2"), NamedNote(first)];
      assert notes[1..] == [NamedNote(first)] && notes[1..][1..] == [];
      assert SortNotes(notes[1..][1..]) == [];
      assert SortNotes(notes[1..]) == [NamedNote(first)];
    }
    assert [NamedNote("13")][1..] == [];
    assert "13"[1..] == "3";
    assert !NameLe(NamedNote("2").name, NamedNote("13").name);
    assert NameLe(NamedNote("2").name, NamedNote("3").name);
  }

  lemma ShortInteger(c: char, d: nat)
    requires Base58.Digit(c) == Some(d)
    ensures IntegerOf([c]) == Some(d) == IntegerOf("1" + [c])
  {
    assert Read([c], Base58.Digit).value == [d];
    assert [d][..0] == [] && BigEndian([d], 58) == 58 * BigEndian([d][..0], 58) + d;
    var t := "1" + [c];
    assert Read(t, Base58.Digit).value == [0, d];
    assert Zeros(1) + [d] == [0, d];
    BigEndianZeros(1, [d], 58);
  }

  lemma ShortTextsDecode()
    ensures forall s, field :: s in {"2", "3", "13"} ==> DecodeHash(s, field).Ok?
    ensures DecodeHash("13", FIRST) == DecodeHash("3", FIRST)
  {
    ShortInteger('2', 1);
    ShortInteger('3', 2);
    assert "1" + ['3'] == "13" && ['2'] == "2" && ['3'] == "3";
    hide IntegerOf, DecodeHash;
    forall s, field | s in {"2", "3", "13"}
      ensures DecodeHash(s, field).Ok?
    {
      DecodeHashMeaning(s, field);
    }
    DecodeHashMeaning("3", FIRST);
    DecodeHashMeaning("13", FIRST);
    LittleEndianInjective(DecodeHash("3", FIRST).value, DecodeHash("13", FIRST).value, PRIME);
  }

  lemma TwoNamesDecode(a: NoteRef, b: NoteRef)
    requires DecodeName(a.name).Ok? && DecodeName(b.name).Ok?
    ensures Flatten(Names([a, b])).Ok?
  {
    var names := Names([a, b]);
    assert names == [a.name, b.name] && names[1..] == [b.name] && names[1..][1..] == [];
    hide DecodeName;
    assert Flatten(names[1..][1..]) == Ok([]);
    assert Flatten(names[1..]).Ok?;
  }
}
