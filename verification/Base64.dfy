/**
 Base64 with the standard alphabet and mandatory padding, RFC 4648 section 4. The
 decoder is strict: missing padding and non-zero spare bits are errors.
 */
module Base64 {
  import opened Base58
  import opened Wrappers

  function Symbol(d: nat): char {
    if d < 26 then (65 + d) as char
    else if d < 52 then (97 + d - 26) as char
    else if d < 62 then (48 + d - 52) as char
    else if d == 62 then '+'
    else '/'
  }

  function Sextet(c: char): (r: Option<nat>)
    ensures r.Some? ==> r.value < 64 && Symbol(r.value) == c
  {
    if 'A' <= c <= 'Z' then Some(c as int - 65)
    else if 'a' <= c <= 'z' then Some(c as int - 97 + 26)
    else if '0' <= c <= '9' then Some(c as int - 48 + 52)
    else if c == '+' then Some(62)
    else if c == '/' then Some(63)
    else None
  }

  function Encode(bytes: seq<byte>): string {
    if bytes == [] then ""
    else if |bytes| == 1 then
      [Symbol(bytes[0] / 4), Symbol(bytes[0] % 4 * 16), '=', '=']
    else if |bytes| == 2 then
      [Symbol(bytes[0] / 4), Symbol(bytes[0] % 4 * 16 + bytes[1] / 16), Symbol(bytes[1] % 16 * 4), '=']
    else
      [Symbol(bytes[0] / 4), Symbol(bytes[0] % 4 * 16 + bytes[1] / 16),
       Symbol(bytes[1] % 16 * 4 + bytes[2] / 64), Symbol(bytes[2] % 64)] + Encode(bytes[3..])
  }

  /** Two, three or four sextets as one, two or three bytes; spare bits must be zero. */
  function One(a: nat, b: nat): Option<seq<byte>>
    requires a < 64 && b < 64
  {
    if b % 16 == 0 then Some([a * 4 + b / 16]) else None
  }

  function Two(a: nat, b: nat, c: nat): Option<seq<byte>>
    requires a < 64 && b < 64 && c < 64
  {
    if c % 4 == 0 then Some([a * 4 + b / 16, b % 16 * 16 + c / 4]) else None
  }

  function Three(a: nat, b: nat, c: nat, d: nat): seq<byte>
    requires a < 64 && b < 64 && c < 64 && d < 64
  {
    [a * 4 + b / 16, b % 16 * 16 + c / 4, c % 4 * 64 + d]
  }

  function Decode(s: string): Option<seq<byte>> {
    if s == "" then Some([])
    else if |s| < 4 then None
    else
      match (Sextet(s[0]), Sextet(s[1]), Sextet(s[2]), Sextet(s[3]))
      case (Some(a), Some(b), Some(c), Some(d)) =>
        (match Decode(s[4..])
         case None => None
         case Some(rest) => Some(Three(a, b, c, d) + rest))
      case (Some(a), Some(b), Some(c), None) =>
        if s[3..] == "=" then Two(a, b, c) else None
      case (Some(a), Some(b), None, _) =>
        if s[2..] == "==" then One(a, b) else None
      case _ => None
  }

  lemma SextetOfSymbol(d: nat)
    requires d < 64
    ensures Sextet(Symbol(d)) == Some(d)
  {
  }

  lemma ThreeOfBytes(x: byte, y: byte, z: byte)
    ensures Three(x / 4, x % 4 * 16 + y / 16, y % 16 * 4 + z / 64, z % 64) == [x, y, z]
  {
    var r, h, l, m := x % 4, y / 16, y % 16, z / 64;
    assert (r * 16 + h) / 16 == r && (r * 16 + h) % 16 == h;
    assert (l * 4 + m) / 4 == l && (l * 4 + m) % 4 == m;
  }

  lemma OneOfByte(x: byte)
    ensures One(x / 4, x % 4 * 16) == Some([x])
  {
  }

  lemma TwoOfBytes(x: byte, y: byte)
    ensures Two(x / 4, x % 4 * 16 + y / 16, y % 16 * 4) == Some([x, y])
  {
    var r, h, l := x % 4, y / 16, y % 16;
    assert (r * 16 + h) / 16 == r && (r * 16 + h) % 16 == h;
    assert l * 4 % 4 == 0 && l * 4 / 4 == l;
  }

  lemma BytesOfOne(a: nat, b: nat)
    requires a < 64 && b < 64 && One(a, b).Some?
    ensures Encode(One(a, b).value) == [Symbol(a), Symbol(b), '=', '=']
  {
    var x := One(a, b).value[0];
    assert x / 4 == a && x % 4 * 16 == b;
  }

  lemma BytesOfTwo(a: nat, b: nat, c: nat)
    requires a < 64 && b < 64 && c < 64 && Two(a, b, c).Some?
    ensures Encode(Two(a, b, c).value) == [Symbol(a), Symbol(b), Symbol(c), '=']
  {
    var x, y := Two(a, b, c).value[0], Two(a, b, c).value[1];
    assert x / 4 == a && x % 4 * 16 + y / 16 == b && y % 16 * 4 == c;
  }

  lemma BytesOfThree(a: nat, b: nat, c: nat, d: nat)
    requires a < 64 && b < 64 && c < 64 && d < 64
    ensures
      var t := Three(a, b, c, d);
      && t[0] / 4 == a && t[0] % 4 * 16 + t[1] / 16 == b
      && t[1] % 16 * 4 + t[2] / 64 == c && t[2] % 64 == d
  {
  }

  lemma DecodeFullQuad(a: nat, b: nat, c: nat, d: nat, t: string)
    requires a < 64 && b < 64 && c < 64 && d < 64 && Decode(t).Some?
    ensures Decode([Symbol(a), Symbol(b), Symbol(c), Symbol(d)] + t) == Some(Three(a, b, c, d) + Decode(t).value)
  {
    SextetOfSymbol(a);
    SextetOfSymbol(b);
    SextetOfSymbol(c);
    SextetOfSymbol(d);
    assert ([Symbol(a), Symbol(b), Symbol(c), Symbol(d)] + t)[4..] == t;
  }

  lemma DecodePaddedQuad(a: nat, b: nat, c: nat)
    requires a < 64 && b < 64 && c < 64
    ensures Decode([Symbol(a), Symbol(b), '=', '=']) == One(a, b)
    ensures Decode([Symbol(a), Symbol(b), Symbol(c), '=']) == Two(a, b, c)
  {
    SextetOfSymbol(a);
    SextetOfSymbol(b);
    SextetOfSymbol(c);
    assert [Symbol(a), Symbol(b), '=', '='][2..] == "==";
    assert [Symbol(a), Symbol(b), Symbol(c), '='][3..] == "=";
  }

  lemma DecodeOfEncodeOne(x: byte)
    ensures Decode(Encode([x])) == Some([x])
  {
    OneOfByte(x);
    DecodePaddedQuad(x / 4, x % 4 * 16, 0);
  }

  lemma DecodeOfEncodeTwo(x: byte, y: byte)
    ensures Decode(Encode([x, y])) == Some([x, y])
  {
    TwoOfBytes(x, y);
    DecodePaddedQuad(x / 4, x % 4 * 16 + y / 16, y % 16 * 4);
  }

  lemma DecodeOfEncodeTriple(x: byte, y: byte, z: byte, rest: seq<byte>)
    requires Decode(Encode(rest)) == Some(rest)
    ensures Decode(Encode([x, y, z] + rest)) == Some([x, y, z] + rest)
  {
    hide Symbol, Sextet, Three, Decode;
    ThreeOfBytes(x, y, z);
    DecodeFullQuad(x / 4, x % 4 * 16 + y / 16, y % 16 * 4 + z / 64, z % 64, Encode(rest));
    assert ([x, y, z] + rest)[3..] == rest;
  }

  lemma {:induction false} DecodeOfEncode(bytes: seq<byte>)
    ensures Decode(Encode(bytes)) == Some(bytes)
  {
    if |bytes| > 2 {
      DecodeOfEncode(bytes[3..]);
      DecodeOfEncodeTriple(bytes[0], bytes[1], bytes[2], bytes[3..]);
      assert bytes == [bytes[0], bytes[1], bytes[2]] + bytes[3..];
    } else if |bytes| == 2 {
      DecodeOfEncodeTwo(bytes[0], bytes[1]);
      assert bytes == [bytes[0], bytes[1]];
    } else if |bytes| == 1 {
      DecodeOfEncodeOne(bytes[0]);
      assert bytes == [bytes[0]];
    }
  }

  lemma EncodeOfFullQuad(a: nat, b: nat, c: nat, d: nat, rest: seq<byte>)
    requires a < 64 && b < 64 && c < 64 && d < 64
    ensures Encode(Three(a, b, c, d) + rest) == [Symbol(a), Symbol(b), Symbol(c), Symbol(d)] + Encode(rest)
  {
    BytesOfThree(a, b, c, d);
    var bytes := Three(a, b, c, d) + rest;
    assert bytes[3..] == rest;
  }

  /** The last quad of a string the decoder accepts, when it is padded. */
  lemma PaddedQuad(s: string)
    requires Decode(s).Some? && |s| >= 4 && (Sextet(s[2]).None? || Sextet(s[3]).None?)
    ensures Sextet(s[0]).Some? && Sextet(s[1]).Some?
    ensures Sextet(s[2]).None? ==>
              s[2..] == "==" && Decode(s) == One(Sextet(s[0]).value, Sextet(s[1]).value)
    ensures Sextet(s[2]).Some? ==>
              s[3..] == "=" && Decode(s) == Two(Sextet(s[0]).value, Sextet(s[1]).value, Sextet(s[2]).value)
  {
  }

  lemma EncodeOfPadded(s: string)
    requires Decode(s).Some? && |s| >= 4 && (Sextet(s[2]).None? || Sextet(s[3]).None?)
    ensures Encode(Decode(s).value) == s
  {
    PaddedQuad(s);
    var a, b := Sextet(s[0]).value, Sextet(s[1]).value;
    if Sextet(s[2]).None? {
      BytesOfOne(a, b);
      assert s == [s[0], s[1]] + s[2..];
    } else {
      BytesOfTwo(a, b, Sextet(s[2]).value);
      assert s == [s[0], s[1], s[2]] + s[3..];
    }
  }

  lemma EncodeOfFull(a: nat, b: nat, c: nat, d: nat, t: string)
    requires a < 64 && b < 64 && c < 64 && d < 64
    requires Decode(t).Some? && Encode(Decode(t).value) == t
    ensures
      var s := [Symbol(a), Symbol(b), Symbol(c), Symbol(d)] + t;
      Decode(s).Some? && Encode(Decode(s).value) == s
  {
    DecodeFullQuad(a, b, c, d, t);
    EncodeOfFullQuad(a, b, c, d, Decode(t).value);
  }

  /** A string the decoder accepts that starts with a full quad. */
  lemma FullQuad(s: string)
    requires Decode(s).Some? && s != "" && Sextet(s[2]).Some? && Sextet(s[3]).Some?
    ensures |s| >= 4 && Sextet(s[0]).Some? && Sextet(s[1]).Some? && Decode(s[4..]).Some?
    ensures s == [s[0], s[1], s[2], s[3]] + s[4..]
  {
    assert |s| >= 4 && Sextet(s[0]).Some? && Sextet(s[1]).Some? && Decode(s[4..]).Some?;
    hide Decode, Sextet;
    SplitQuad(s);
  }

  lemma SplitQuad(s: string)
    requires |s| >= 4
    ensures s == [s[0], s[1], s[2], s[3]] + s[4..]
  {
  }

  /** The decoder accepts nothing but what the encoder writes. */
  lemma {:induction false} EncodeOfDecode(s: string)
    requires Decode(s).Some?
    ensures Encode(Decode(s).value) == s
  {
    if s == "" {
      assert Decode(s).value == [];
    } else if Sextet(s[2]).None? || Sextet(s[3]).None? {
      EncodeOfPadded(s);
    } else {
      FullQuad(s);
      EncodeOfDecode(s[4..]);
      EncodeOfFull(Sextet(s[0]).value, Sextet(s[1]).value, Sextet(s[2]).value, Sextet(s[3]).value, s[4..]);
    }
  }

  /** The alphabet of RFC 4648 section 4: capitals, small letters, digits, plus and slash. */
  lemma StandardAlphabet(d: nat)
    requires d < 64
    ensures d < 26 ==> Symbol(d) as int == 'A' as int + d
    ensures 26 <= d < 52 ==> Symbol(d) as int == 'a' as int + d - 26
    ensures 52 <= d < 62 ==> Symbol(d) as int == '0' as int + d - 52
    ensures d == 62 ==> Symbol(d) == '+'
    ensures d == 63 ==> Symbol(d) == '/'
  {
  }

  lemma StandardExamples()
    ensures Encode([102]) == "Zg==" && Encode([102, 111]) == "Zm8=" && Encode([102, 111, 111]) == "Zm9v"
  {
    assert [102, 111, 111][3..] == [] && Encode([]) == "";
    assert Encode([102, 111, 111]) == "Zm9v" + "";
  }
}
