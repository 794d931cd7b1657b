/** Digit strings: how a sequence of digits is spelt with one character each. */
module Alphabet {
  import opened Positional
  import opened Wrappers

  function Spell(ds: seq<nat>, symbol: nat -> char): (s: string)
    ensures |s| == |ds| && forall i :: 0 <= i < |ds| ==> s[i] == symbol(ds[i])
  {
    seq(|ds|, i requires 0 <= i < |ds| => symbol(ds[i]))
  }

  function Read(s: string, digit: char -> Option<nat>): Option<seq<nat>> {
    if exists i :: 0 <= i < |s| && digit(s[i]).None? then None
    else Some(seq(|s|, i requires 0 <= i < |s| => digit(s[i]).value))
  }

  /** symbol and digit are inverse to each other on the digits of the base. */
  ghost predicate Spelling(symbol: nat -> char, digit: char -> Option<nat>, base: nat) {
    && (forall d :: 0 <= d < base ==> digit(symbol(d)) == Some(d))
    && (forall c :: digit(c).Some? ==> digit(c).value < base && symbol(digit(c).value) == c)
  }

  lemma ReadOfSpell(ds: seq<nat>, symbol: nat -> char, digit: char -> Option<nat>, base: nat)
    requires Spelling(symbol, digit, base) && Digits(ds, base)
    ensures Read(Spell(ds, symbol), digit) == Some(ds)
  {
    var s := Spell(ds, symbol);
    forall i | 0 <= i < |s|
      ensures digit(s[i]) == Some(ds[i])
    {
    }
    assert Read(s, digit).value == ds;
  }

  lemma SpellOfRead(s: string, symbol: nat -> char, digit: char -> Option<nat>, base: nat)
    requires Spelling(symbol, digit, base) && Read(s, digit).Some?
    ensures Spell(Read(s, digit).value, symbol) == s && Digits(Read(s, digit).value, base)
  {
    var ds := Read(s, digit).value;
    forall i | 0 <= i < |s|
      ensures ds[i] < base && symbol(ds[i]) == s[i]
    {
      assert digit(s[i]).Some?;
    }
  }
}
