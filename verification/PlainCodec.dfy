/** One codec that keeps the law assumed of jam and cue: nouns as lists of numbers, numbers as tallies. */
module PlainCodec {
  import opened Base58
  import opened Chain
  import opened Surrogate
  import opened Wrappers

  // ---------------------------------------------------------------------------
  // Lists of numbers as bytes
  // ---------------------------------------------------------------------------

  function Tally(n: nat): (bytes: seq<byte>)
    ensures |bytes| == n + 1 && bytes[n] == 0 && forall i :: 0 <= i < n ==> bytes[i] == 1
  {
    seq(n, _ => 1) + [0]
  }

  function Tallies(ns: seq<nat>): seq<byte> {
    if ns == [] then [] else Tally(ns[0]) + Tallies(ns[1..])
  }

  lemma TallyAt(n: nat, rest: seq<byte>, i: nat)
    requires i <= n
    ensures (Tally(n) + rest)[i] == if i < n then 1 else 0
  {
  }

  lemma TallySplits(m: nat, a: seq<byte>, n: nat, b: seq<byte>)
    requires Tally(m) + a == Tally(n) + b
    ensures m == n && a == b
  {
    TallyAt(m, a, m);
    TallyAt(n, b, n);
    if m < n {
      TallyAt(n, b, m);
    } else if n < m {
      TallyAt(m, a, n);
    } else {
      assert a == (Tally(m) + a)[m + 1..] && b == (Tally(n) + b)[n + 1..];
    }
  }

  lemma {:induction false} TalliesInjective(a: seq<nat>, b: seq<nat>)
    requires Tallies(a) == Tallies(b)
    ensures a == b
  {
    if a == [] || b == [] {
    } else {
      TallySplits(a[0], Tallies(a[1..]), b[0], Tallies(b[1..]));
      TalliesInjective(a[1..], b[1..]);
      assert a == [a[0]] + a[1..] && b == [b[0]] + b[1..];
    }
  }

  // ---------------------------------------------------------------------------
  // Lists of lists as one list
  // ---------------------------------------------------------------------------

  type Lists = seq<seq<nat>>

  function Flat(ls: Lists): seq<nat> {
    if ls == [] then [] else [|ls[0]|] + ls[0] + Flat(ls[1..])
  }

  lemma {:induction false} FlatInjective(a: Lists, b: Lists)
    requires Flat(a) == Flat(b)
    ensures a == b
  {
    if a == [] || b == [] {
    } else {
      var n := Flat(a)[0];
      assert Flat(a)[1..] == a[0] + Flat(a[1..]) && Flat(b)[1..] == b[0] + Flat(b[1..]);
      assert a[0] == Flat(a)[1..][..n] && b[0] == Flat(b)[1..][..n];
      assert Flat(a[1..]) == Flat(a)[1..][n..] && Flat(b[1..]) == Flat(b)[1..][n..];
      FlatInjective(a[1..], b[1..]);
      assert a == [a[0]] + a[1..] && b == [b[0]] + b[1..];
    }
  }

  function Jam(ls: Lists): seq<byte> {
    Tallies(Flat(ls))
  }

  lemma JamInjective(a: Lists, b: Lists)
    ensures Jam(a) == Jam(b) <==> a == b
  {
    if Jam(a) == Jam(b) {
      TalliesInjective(Flat(a), Flat(b));
      FlatInjective(a, b);
    }
  }

  // ---------------------------------------------------------------------------
  // The nouns
  // ---------------------------------------------------------------------------

  function ProofLists(p: LockMerkleProof): Lists {
    match p
    case Stub(blob) => [[0], blob]
    case Full(SimplePkh(pkh), axis, root, path) => [[1, axis], pkh, root] + path
    case Full(CoinbasePkh(pkh, t), axis, root, path) => [[2, axis, t], pkh, root] + path
  }

  lemma ProofListsInjective(p: LockMerkleProof, q: LockMerkleProof)
    requires ProofLists(p) == ProofLists(q)
    ensures p == q
  {
    var a, b := ProofLists(p), ProofLists(q);
    assert a[0] == b[0] && a[0][0] == b[0][0] && a[1] == b[1];
    if p.Full? {
      assert a[0][1] == b[0][1] && a[2] == b[2];
      assert p.path == a[3..] && q.path == b[3..];
    }
  }

  function SourceLists(s: Source): Lists {
    [[if s.isCoinbase then 1 else 0], s.hash]
  }

  lemma SourceListsInjective(s: Source, t: Source)
    requires SourceLists(s) == SourceLists(t)
    ensures s == t
  {
    assert SourceLists(s)[0][0] == SourceLists(t)[0][0] && SourceLists(s)[1] == SourceLists(t)[1];
  }

  function TextNumbers(s: string): (ns: seq<nat>)
    ensures |ns| == |s| && forall i :: 0 <= i < |s| ==> ns[i] == s[i] as nat
  {
    seq(|s|, i requires 0 <= i < |s| => s[i] as nat)
  }

  lemma TextNumbersInjective(s: string, t: string)
    requires TextNumbers(s) == TextNumbers(t)
    ensures s == t
  {
    forall i | 0 <= i < |s|
      ensures s[i] == t[i]
    {
      assert TextNumbers(s)[i] == TextNumbers(t)[i];
    }
  }

  function NoteLists(notes: NoteData): Lists {
    if notes == [] then [] else [TextNumbers(notes[0].key), notes[0].blob] + NoteLists(notes[1..])
  }

  lemma {:induction false} NoteListsInjective(m: NoteData, n: NoteData)
    requires NoteLists(m) == NoteLists(n)
    ensures m == n
  {
    if m == [] || n == [] {
    } else {
      var a, b := NoteLists(m), NoteLists(n);
      assert a[0] == b[0] && a[1] == b[1];
      TextNumbersInjective(m[0].key, n[0].key);
      assert NoteLists(m[1..]) == a[2..] && NoteLists(n[1..]) == b[2..];
      NoteListsInjective(m[1..], n[1..]);
      assert m == [m[0]] + m[1..] && n == [n[0]] + n[1..];
    }
  }

  function Marks(bytes: seq<byte>): (s: string)
    ensures |s| == |bytes| && forall i :: 0 <= i < |bytes| ==> s[i] == bytes[i] as char
  {
    seq(|bytes|, i requires 0 <= i < |bytes| => bytes[i] as char)
  }

  lemma MarksInjective(a: seq<byte>, b: seq<byte>)
    requires Marks(a) == Marks(b)
    ensures a == b
  {
    forall i | 0 <= i < |a|
      ensures a[i] == b[i]
    {
      assert Marks(a)[i] == Marks(b)[i];
    }
  }

  // ---------------------------------------------------------------------------
  // Decoding finds what was encoded
  // ---------------------------------------------------------------------------

  ghost function FindProof(bytes: seq<byte>): Option<LockMerkleProof> {
    if p: LockMerkleProof :| Jam(ProofLists(p)) == bytes then Some(p) else None
  }

  ghost function FindSource(bytes: seq<byte>): Option<Source> {
    if s: Source :| Jam(SourceLists(s)) == bytes then Some(s) else None
  }

  ghost function FindNotes(bytes: seq<byte>): Option<NoteData> {
    if n: NoteData :| Jam(NoteLists(n)) == bytes then Some(n) else None
  }

  ghost function FindPubkey(text: string): Option<Pubkey> {
    if k: Pubkey :| Marks(Tallies(k.coordinates)) == text then Some(k) else None
  }

  ghost function PlainlyJammed(): Codec {
    Codec(
      (p: LockMerkleProof) => Jam(ProofLists(p)), FindProof,
      (s: Source) => Jam(SourceLists(s)), FindSource,
      (n: NoteData) => Jam(NoteLists(n)), FindNotes,
      (k: Pubkey) => Some(Marks(Tallies(k.coordinates))), FindPubkey)
  }

  lemma FindsProof(p: LockMerkleProof)
    ensures FindProof(Jam(ProofLists(p))) == Some(p)
  {
    hide Jam, ProofLists;
    var q := FindProof(Jam(ProofLists(p))).value;
    JamInjective(ProofLists(q), ProofLists(p));
    ProofListsInjective(q, p);
  }

  lemma FindsSource(s: Source)
    ensures FindSource(Jam(SourceLists(s))) == Some(s)
  {
    hide Jam, SourceLists;
    var t := FindSource(Jam(SourceLists(s))).value;
    JamInjective(SourceLists(t), SourceLists(s));
    SourceListsInjective(t, s);
  }

  lemma FindsNotes(n: NoteData)
    ensures FindNotes(Jam(NoteLists(n))) == Some(n)
  {
    hide Jam, NoteLists;
    var m := FindNotes(Jam(NoteLists(n))).value;
    JamInjective(NoteLists(m), NoteLists(n));
    NoteListsInjective(m, n);
  }

  lemma FindsPubkey(k: Pubkey)
    ensures FindPubkey(Marks(Tallies(k.coordinates))) == Some(k)
  {
    hide Marks, Tallies;
    var l := FindPubkey(Marks(Tallies(k.coordinates))).value;
    MarksInjective(Tallies(l.coordinates), Tallies(k.coordinates));
    TalliesInjective(l.coordinates, k.coordinates);
  }

  /** The law assumed of the codec can be kept. */
  lemma PlainlyJammedIsLawful()
    ensures PlainlyJammed().Lawful()
  {
    hide Jam, ProofLists, SourceLists, NoteLists, Tallies, Marks, FindProof, FindSource, FindNotes, FindPubkey;
    forall p: LockMerkleProof
      ensures FindProof(Jam(ProofLists(p))) == Some(p)
    {
      FindsProof(p);
    }
    forall s: Source
      ensures FindSource(Jam(SourceLists(s))) == Some(s)
    {
      FindsSource(s);
    }
    forall n: NoteData
      ensures FindNotes(Jam(NoteLists(n))) == Some(n)
    {
      FindsNotes(n);
    }
    forall k: Pubkey
      ensures FindPubkey(Marks(Tallies(k.coordinates))) == Some(k)
    {
      FindsPubkey(k);
    }
  }
}
