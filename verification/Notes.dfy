/** The notes part of the signed message: sorted by name, decoded and flattened. */
module Notes {
  import opened Base58
  import opened HashText
  import opened Payment
  import opened Wrappers

  // ---------------------------------------------------------------------------
  // The sort order
  // ---------------------------------------------------------------------------

  /** Lexicographic order on strings. */
  predicate TextLe(a: string, b: string) {
    a == [] || (b != [] && (a[0] < b[0] || (a[0] == b[0] && TextLe(a[1..], b[1..]))))
  }

  predicate NameLe(a: NoteName, b: NoteName) {
    if a.first == b.first then TextLe(a.last, b.last) else TextLe(a.first, b.first)
  }

  lemma {:induction false} TextLeTotal(a: string, b: string)
    ensures TextLe(a, b) || TextLe(b, a)
    ensures TextLe(a, b) && TextLe(b, a) ==> a == b
  {
    if a == [] || b == [] || a[0] != b[0] {
    } else {
      TextLeTotal(a[1..], b[1..]);
      assert a == [a[0]] + a[1..] && b == [b[0]] + b[1..];
    }
  }

  lemma {:induction false} TextLeTransitive(a: string, b: string, c: string)
    requires TextLe(a, b) && TextLe(b, c)
    ensures TextLe(a, c)
  {
    if a == [] || !(a[0] == b[0] == c[0]) {
    } else {
      TextLeTransitive(a[1..], b[1..], c[1..]);
    }
  }

  lemma NameLeTotal(a: NoteName, b: NoteName)
    ensures NameLe(a, b) || NameLe(b, a)
    ensures NameLe(a, b) && NameLe(b, a) ==> a == b
  {
    TextLeTotal(a.first, b.first);
    TextLeTotal(a.last, b.last);
  }

  lemma NameLeTransitive(a: NoteName, b: NoteName, c: NoteName)
    requires NameLe(a, b) && NameLe(b, c)
    ensures NameLe(a, c)
  {
    TextLeTotal(a.first, b.first);
    if a.first == b.first == c.first {
      TextLeTransitive(a.last, b.last, c.last);
    } else {
      TextLeTotal(b.first, c.first);
      if a.first != b.first && b.first != c.first {
        TextLeTransitive(a.first, b.first, c.first);
      }
      TextLeTotal(a.first, c.first);
    }
  }

  ghost predicate Sorted(names: seq<NoteName>) {
    names == [] || ((forall n :: n in names[1..] ==> NameLe(names[0], n)) && Sorted(names[1..]))
  }

  function Names(notes: seq<NoteRef>): (names: seq<NoteName>)
    ensures |names| == |notes| && forall i :: 0 <= i < |notes| ==> names[i] == notes[i].name
  {
    seq(|notes|, i requires 0 <= i < |notes| => notes[i].name)
  }

  // ---------------------------------------------------------------------------
  // A stable sort of the notes by name
  // ---------------------------------------------------------------------------

  function Insert(note: NoteRef, sorted: seq<NoteRef>): seq<NoteRef> {
    if sorted == [] || NameLe(note.name, sorted[0].name) then [note] + sorted
    else [sorted[0]] + Insert(note, sorted[1..])
  }

  function SortNotes(notes: seq<NoteRef>): seq<NoteRef> {
    if notes == [] then [] else Insert(notes[0], SortNotes(notes[1..]))
  }

  lemma {:induction false} InsertKeepsNames(note: NoteRef, sorted: seq<NoteRef>)
    ensures multiset(Names(Insert(note, sorted))) == multiset(Names(sorted)) + multiset{note.name}
  {
    hide TextLe, NameLe;
    if sorted == [] || NameLe(note.name, sorted[0].name) {
      assert Names([note] + sorted) == [note.name] + Names(sorted);
    } else {
      InsertKeepsNames(note, sorted[1..]);
      var rest := Insert(note, sorted[1..]);
      assert Names([sorted[0]] + rest) == [sorted[0].name] + Names(rest);
      assert Names(sorted) == [sorted[0].name] + Names(sorted[1..]);
    }
  }

  lemma {:induction false} InsertSorts(note: NoteRef, sorted: seq<NoteRef>)
    requires Sorted(Names(sorted))
    ensures Sorted(Names(Insert(note, sorted)))
  {
    hide TextLe, NameLe;
    var names := Names(sorted);
    if sorted == [] || NameLe(note.name, sorted[0].name) {
      assert Names([note] + sorted)[1..] == names;
      forall n | n in names
        ensures NameLe(note.name, n)
      {
        HeadIsLeast(names, n);
        NameLeTransitive(note.name, names[0], n);
      }
    } else {
      var rest := Insert(note, sorted[1..]);
      assert Names(sorted[1..]) == names[1..];
      InsertSorts(note, sorted[1..]);
      NameLeTotal(note.name, sorted[0].name);
      assert Names([sorted[0]] + rest)[1..] == Names(rest);
      forall n | n in Names(rest)
        ensures NameLe(sorted[0].name, n)
      {
        InsertKeepsNames(note, sorted[1..]);
        assert n in multiset(Names(rest));
      }
    }
  }

  lemma HeadIsLeast(names: seq<NoteName>, n: NoteName)
    requires Sorted(names) && n in names
    ensures NameLe(names[0], n)
  {
    hide TextLe, NameLe;
    NameLeTotal(n, n);
    if n != names[0] {
      assert n in names[1..];
    }
  }

  lemma {:induction false} SortNotesSorts(notes: seq<NoteRef>)
    ensures Sorted(Names(SortNotes(notes)))
    ensures multiset(Names(SortNotes(notes))) == multiset(Names(notes))
  {
    hide TextLe, NameLe, Insert;
    if notes == [] {
    } else {
      SortNotesSorts(notes[1..]);
      InsertSorts(notes[0], SortNotes(notes[1..]));
      InsertKeepsNames(notes[0], SortNotes(notes[1..]));
      assert Names(notes) == [notes[0].name] + Names(notes[1..]);
    }
  }

  lemma SameHead(a: seq<NoteName>, b: seq<NoteName>)
    requires Sorted(a) && Sorted(b) && multiset(a) == multiset(b) && a != []
    ensures b != [] && a[0] == b[0]
  {
    hide TextLe, NameLe, Sorted;
    assert a[0] in multiset(b) && |multiset(a)| == |multiset(b)|;
    assert b[0] in multiset(a);
    HeadIsLeast(a, b[0]);
    HeadIsLeast(b, a[0]);
    NameLeTotal(a[0], b[0]);
  }

  lemma TailMultiset(a: seq<NoteName>)
    requires a != []
    ensures multiset(a[1..]) == multiset(a) - multiset{a[0]}
  {
    assert a == [a[0]] + a[1..];
  }

  /** There is only one sorted arrangement of a multiset of names, whatever the sort does with ties. */
  lemma {:induction false} SortedUnique(a: seq<NoteName>, b: seq<NoteName>)
    requires Sorted(a) && Sorted(b) && multiset(a) == multiset(b)
    ensures a == b
  {
    hide TextLe, NameLe;
    if a == [] {
      assert |multiset(b)| == 0;
    } else {
      SameHead(a, b);
      TailMultiset(a);
      TailMultiset(b);
      SortedUnique(a[1..], b[1..]);
      assert a == [a[0]] + a[1..] && b == [b[0]] + b[1..];
    }
  }

  // ---------------------------------------------------------------------------
  // Decoding and flattening
  // ---------------------------------------------------------------------------

  const FIRST := "notes[i].name.first"
  const LAST := "notes[i].name.last"

  function DecodeName(name: NoteName): (r: Result<seq<Belt>, SignMessageError>)
    ensures r.Ok? ==> |r.value| == 10
  {
    var first :- DecodeHash(name.first, FIRST);
    var last :- DecodeHash(name.last, LAST);
    Ok(first + last)
  }

  function Flatten(names: seq<NoteName>): Result<seq<Belt>, SignMessageError> {
    if names == [] then Ok([])
    else
      var head :- DecodeName(names[0]);
      var rest :- Flatten(names[1..]);
      Ok(head + rest)
  }

  /** What the inner sponge absorbs: one zero Belt when there are no notes. */
  function Preimage(notes: seq<NoteRef>): Result<seq<Belt>, SignMessageError> {
    var belts :- Flatten(Names(SortNotes(notes)));
    Ok(if belts == [] then [0] else belts)
  }

  function NotesHash(tip5: Tip5, notes: seq<NoteRef>): Result<Digest, SignMessageError> {
    var belts :- Preimage(notes);
    Ok(tip5(belts))
  }

  /** One turn of the push loop. */
  lemma FlattenStep(names: seq<NoteName>, i: nat, belts: seq<Belt>)
    requires i < |names|
    ensures
      var here, rest := DecodeName(names[i]), Flatten(names[i + 1..]);
      After(belts, Flatten(names[i..])) == if here.Err? then Err(here.error) else After(belts + here.value, rest)
  {
    assert names[i..][0] == names[i] && names[i..][1..] == names[i + 1..];
    var here, rest := DecodeName(names[i]), Flatten(names[i + 1..]);
    if here.Ok? && rest.Ok? {
      assert belts + (here.value + rest.value) == (belts + here.value) + rest.value;
    }
  }

  method NameToBelts(name: NoteName) returns (r: Result<seq<Belt>, SignMessageError>)
    ensures r == DecodeName(name)
  {
    var first := Base58ToBelts(name.first, FIRST);
    if first.Err? {
      return Err(first.error);
    }
    var last := Base58ToBelts(name.last, LAST);
    if last.Err? {
      return Err(last.error);
    }
    var belts: seq<Belt> := first.value;
    belts := belts + last.value;
    return Ok(belts);
  }

  method FlattenNotes(sorted: seq<NoteRef>) returns (r: Result<seq<Belt>, SignMessageError>)
    ensures r == Flatten(Names(sorted))
  {
    var belts: seq<Belt> := [];
    assert Names(sorted)[0..] == Names(sorted);
    AfterNothing(Flatten(Names(sorted)));
    for i := 0 to |sorted|
      invariant Flatten(Names(sorted)) == After(belts, Flatten(Names(sorted)[i..]))
    {
      FlattenStep(Names(sorted), i, belts);
      var name := NameToBelts(sorted[i].name);
      if name.Err? {
        return Err(name.error);
      }
      belts := belts + name.value;
    }
    assert Names(sorted)[|sorted|..] == [] && belts + [] == belts;
    return Ok(belts);
  }

  method ComputeNotesHash(tip5: Tip5, notes: seq<NoteRef>) returns (r: Result<Digest, SignMessageError>)
    ensures r == NotesHash(tip5, notes)
  {
    var sorted := SortNotes(notes);
    var flat := FlattenNotes(sorted);
    if flat.Err? {
      return Err(flat.error);
    }
    var belts := flat.value;
    if belts == [] {
      belts := belts + [0];
      assert belts == [0];
    }
    return Ok(tip5(belts));
  }

  // ---------------------------------------------------------------------------
  // What the preimage depends on
  // ---------------------------------------------------------------------------

  /** Neither the order of the notes nor anything but their names matters, errors included. */
  lemma PreimageOfNames(a: seq<NoteRef>, b: seq<NoteRef>)
    requires multiset(Names(a)) == multiset(Names(b))
    ensures Preimage(a) == Preimage(b)
    ensures forall tip5: Tip5 :: NotesHash(tip5, a) == NotesHash(tip5, b)
  {
    SortNotesSorts(a);
    SortNotesSorts(b);
    SortedUnique(Names(SortNotes(a)), Names(SortNotes(b)));
  }

  function Stripped(name: NoteName): NoteName {
    NoteName(StripOnes(name.first), StripOnes(name.last))
  }

  lemma SameDecodedName(a: NoteName, b: NoteName)
    requires DecodeName(a).Ok? && DecodeName(b).Ok?
    ensures DecodeName(a) == DecodeName(b) <==> Stripped(a) == Stripped(b)
  {
    SameHash(a.first, b.first, FIRST, FIRST);
    SameHash(a.last, b.last, LAST, LAST);
    var x, y := DecodeName(a).value, DecodeName(b).value;
    assert x[..5] == DecodeHash(a.first, FIRST).value && x[5..] == DecodeHash(a.last, LAST).value;
    assert y[..5] == DecodeHash(b.first, FIRST).value && y[5..] == DecodeHash(b.last, LAST).value;
  }

  lemma {:induction false} FlattenShape(names: seq<NoteName>)
    requires Flatten(names).Ok?
    ensures |Flatten(names).value| == 10 * |names|
    ensures InField(Flatten(names).value)
  {
    hide DecodeHash;
    if names == [] {
    } else {
      FlattenShape(names[1..]);
    }
  }

  /** Sorted name lists flatten alike if and only if they are alike up to leading '1's. */
  lemma {:induction false} SameFlatten(a: seq<NoteName>, b: seq<NoteName>)
    requires Flatten(a).Ok? && Flatten(b).Ok?
    ensures Flatten(a) == Flatten(b) <==>
            |a| == |b| && forall i :: 0 <= i < |a| ==> Stripped(a[i]) == Stripped(b[i])
  {
    hide DecodeName, Stripped;
    FlattenShape(a);
    FlattenShape(b);
    if a == [] || b == [] {
    } else {
      SameDecodedName(a[0], b[0]);
      SameFlatten(a[1..], b[1..]);
      var x, y := Flatten(a).value, Flatten(b).value;
      assert x[..10] == DecodeName(a[0]).value && x[10..] == Flatten(a[1..]).value;
      assert y[..10] == DecodeName(b[0]).value && y[10..] == Flatten(b[1..]).value;
      assert forall i :: 1 <= i < |a| ==> a[i] == a[1..][i - 1];
      assert forall i :: 1 <= i < |b| ==> b[i] == b[1..][i - 1];
      assert forall i :: 0 <= i < |a[1..]| ==> a[1..][i] == a[i + 1];
      assert forall i :: 0 <= i < |b[1..]| ==> b[1..][i] == b[i + 1];
    }
  }

  /**
   For all notes: the preimages agree if and only if the names, sorted as written,
   agree one by one up to leading '1's.
   */
  lemma SamePreimage(a: seq<NoteRef>, b: seq<NoteRef>)
    requires Preimage(a).Ok? && Preimage(b).Ok?
    ensures
      var x, y := Names(SortNotes(a)), Names(SortNotes(b));
      Preimage(a) == Preimage(b) <==> |x| == |y| && forall i :: 0 <= i < |x| ==> Stripped(x[i]) == Stripped(y[i])
  {
    hide DecodeName, Stripped, SortNotes;
    var x, y := Names(SortNotes(a)), Names(SortNotes(b));
    FlattenShape(x);
    FlattenShape(y);
    SameFlatten(x, y);
  }

  predicate Canonical(notes: seq<NoteRef>) {
    forall n :: n in notes ==> Stripped(n.name) == n.name
  }

  /** Canonical names: the preimage identifies the multiset of names. */
  lemma PreimageIdentifiesNames(a: seq<NoteRef>, b: seq<NoteRef>)
    requires Preimage(a).Ok? && Preimage(b).Ok? && Canonical(a) && Canonical(b)
    ensures Preimage(a) == Preimage(b) <==> multiset(Names(a)) == multiset(Names(b))
  {
    SamePreimage(a, b);
    SortNotesSorts(a);
    SortNotesSorts(b);
    var x, y := Names(SortNotes(a)), Names(SortNotes(b));
    CanonicalSorted(a);
    CanonicalSorted(b);
    if Preimage(a) == Preimage(b) {
      assert x == y;
    } else if multiset(Names(a)) == multiset(Names(b)) {
      SortedUnique(x, y);
    }
  }

  lemma CanonicalSorted(notes: seq<NoteRef>)
    requires Canonical(notes)
    ensures forall n :: n in Names(SortNotes(notes)) ==> Stripped(n) == n
  {
    SortNotesSorts(notes);
    forall n | n in Names(SortNotes(notes))
      ensures Stripped(n) == n
    {
      assert n in multiset(Names(notes));
      var i :| 0 <= i < |notes| && Names(notes)[i] == n;
      assert notes[i] in notes;
    }
  }

  /** The hash is that of the preimage: as far as the sponge separates preimages, so does the hash, errors included. */
  lemma HashIdentifiesPreimage(tip5: Tip5, a: seq<NoteRef>, b: seq<NoteRef>)
    requires Preimage(a).Ok? && Preimage(b).Ok? && Separates(tip5, Preimage(a).value, Preimage(b).value)
    ensures NotesHash(tip5, a).Ok? && NotesHash(tip5, b).Ok?
    ensures NotesHash(tip5, a) == NotesHash(tip5, b) <==> Preimage(a) == Preimage(b)
  {
    hide Preimage;
  }

  /** Notes that cannot be read fail as their preimage does; no notes at all are hashed as one zero Belt. */
  lemma NotesHashEdges(tip5: Tip5, notes: seq<NoteRef>)
    ensures Preimage(notes).Err? <==> NotesHash(tip5, notes).Err?
    ensures Preimage(notes).Err? ==> NotesHash(tip5, notes).error == Preimage(notes).error
    ensures NotesHash(tip5, []) == Ok(tip5([0]))
  {
    assert SortNotes([]) == [] && Names([]) == [] && Flatten([]) == Ok([]);
    hide SortNotes, Flatten;
  }

  /** What the sorted order is: by first names, and by last names among equal first names. */
  lemma {:induction false} SortedMeans(names: seq<NoteName>, i: nat, j: nat)
    requires Sorted(names) && i < j < |names|
    ensures TextLe(names[i].first, names[j].first)
    ensures names[i].first == names[j].first ==> TextLe(names[i].last, names[j].last)
  {
    if i == 0 {
      assert names[j] == names[1..][j - 1] && names[1..][j - 1] in names[1..];
      TextLeTotal(names[i].first, names[i].first);
    } else {
      SortedMeans(names[1..], i - 1, j - 1);
    }
  }


  /** These ten Belts are the two texts of the name, the first before the last. */
  predicate NameAt(belts: seq<Belt>, at: nat, name: NoteName) {
    && at + 10 <= |belts|
    && DecodeHash(name.first, FIRST).Ok? && DecodeHash(name.first, FIRST).value == belts[at..at + 5]
    && DecodeHash(name.last, LAST).Ok? && DecodeHash(name.last, LAST).value == belts[at + 5..at + 10]
  }

  /** Where each name sits: ten Belts a name, in order. */
  lemma {:induction false} FlattenSlices(names: seq<NoteName>, i: nat)
    requires Flatten(names).Ok? && i < |names|
    ensures |Flatten(names).value| == 10 * |names|
    ensures NameAt(Flatten(names).value, 10 * i, names[i])
  {
    hide *;
    FlattenLength(names);
    FirstSlice(names);
    if i == 0 {
    } else {
      FlattenSlices(names[1..], i - 1);
      NameAfter(names, 10 * (i - 1), names[1..][i - 1]);
    }
  }

  lemma FlattenLength(names: seq<NoteName>)
    requires Flatten(names).Ok?
    ensures |Flatten(names).value| == 10 * |names|
  {
    FlattenShape(names);
  }

  lemma FirstSlice(names: seq<NoteName>)
    requires Flatten(names).Ok? && names != []
    ensures Flatten(names[1..]).Ok? && NameAt(Flatten(names).value, 0, names[0])
  {
    hide DecodeHash;
    var head, rest := DecodeName(names[0]).value, Flatten(names[1..]).value;
    assert Flatten(names).value == head + rest;
    assert head[..5] == DecodeHash(names[0].first, FIRST).value && head[5..] == DecodeHash(names[0].last, LAST).value;
    assert (head + rest)[0..5] == head[..5] && (head + rest)[5..10] == head[5..];
  }

  lemma NameAfter(names: seq<NoteName>, at: nat, name: NoteName)
    requires Flatten(names).Ok? && names != [] && NameAt(Flatten(names[1..]).value, at, name)
    ensures NameAt(Flatten(names).value, at + 10, name)
  {
    hide DecodeHash, DecodeName;
    var head, rest := DecodeName(names[0]).value, Flatten(names[1..]).value;
    assert Flatten(names).value == head + rest;
    hide Flatten;
    SliceAfter(head, rest, at);
  }

  lemma SliceAfter(head: seq<Belt>, rest: seq<Belt>, at: nat)
    requires |head| == 10 && at + 10 <= |rest|
    ensures (head + rest)[at + 10..at + 15] == rest[at..at + 5]
    ensures (head + rest)[at + 15..at + 20] == rest[at + 5..at + 10]
  {
  }


  /** The preimage of some notes: the names in sorted order, ten Belts each. */
  lemma PreimageSlices(notes: seq<NoteRef>, i: nat)
    requires Preimage(notes).Ok? && i < |notes|
    ensures |Names(SortNotes(notes))| == |notes| && |Preimage(notes).value| == 10 * |notes|
    ensures NameAt(Preimage(notes).value, 10 * i, Names(SortNotes(notes))[i])
  {
    SortNotesSorts(notes);
    assert |multiset(Names(SortNotes(notes)))| == |multiset(Names(notes))|;
    hide Flatten, NameAt, SortNotes, DecodeName;
    FlattenSlices(Names(SortNotes(notes)), i);
  }
}
