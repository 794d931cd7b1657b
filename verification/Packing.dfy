/** Bytes packed into Belts, seven to a Belt, least significant byte first. */
module Packing {
  import opened Base58
  import opened Positional
  import opened HashText

  /** At most seven bytes as one Belt. */
  function Pack(chunk: seq<byte>): (b: Belt)
    requires |chunk| <= 7
    ensures b < SEVEN_BYTES
  {
    LittleEndianBound(chunk, 256);
    PowMonotone(256, |chunk|, 7);
    CapacityIsPow();
    LittleEndian(chunk, 256)
  }

  /** Full chunks first; then one last Belt, zero when the length is a multiple of seven. */
  function BytesToBelts(bytes: seq<byte>): seq<Belt> {
    if |bytes| < 7 then [Pack(bytes)] else [Pack(bytes[..7])] + BytesToBelts(bytes[7..])
  }

  /** Copy a chunk into a zeroed eight-byte buffer and read that as a little-endian u64. */
  method PackChunk(chunk: seq<byte>) returns (b: Belt)
    requires |chunk| <= 7
    ensures b == Pack(chunk)
  {
    var buf := new byte[8](_ => 0);
    for j := 0 to |chunk|
      invariant buf[..j] == chunk[..j]
      invariant forall k :: j <= k < 8 ==> buf[k] == 0
    {
      buf[j] := chunk[j];
    }
    assert buf[..] == chunk + Zeros(8 - |chunk|);
    LittleEndianZeros(chunk, 8 - |chunk|, 256);
    assert LittleEndian(buf[..], 256) == Pack(chunk);
    b := LittleEndian(buf[..], 256);
  }

  /** One turn of the chunk loop, and the zero Belt when the length is a multiple of seven. */
  lemma PackStep(bytes: seq<byte>, i: nat, out: seq<Belt>)
    requires i < |bytes|
    ensures i + 7 <= |bytes| ==>
              out + BytesToBelts(bytes[i..]) == out + [Pack(bytes[i..i + 7])] + BytesToBelts(bytes[i + 7..])
    ensures i + 7 > |bytes| ==> out + BytesToBelts(bytes[i..]) == out + [Pack(bytes[i..])]
  {
    if i + 7 <= |bytes| {
      assert bytes[i..][..7] == bytes[i..i + 7] && bytes[i..][7..] == bytes[i + 7..];
    }
    hide Pack;
  }

  method PackBytes(bytes: seq<byte>) returns (out: seq<Belt>)
    ensures out == BytesToBelts(bytes)
  {
    out := [];
    var i := 0;
    assert bytes[|bytes|..] == [] && BytesToBelts([]) == [0];
    assert bytes[0..] == bytes && [] + BytesToBelts(bytes) == BytesToBelts(bytes);
    hide BytesToBelts, Pack;
    while i < |bytes|
      invariant 0 <= i <= |bytes|
      invariant i % 7 == 0 || i == |bytes|
      invariant i % 7 == 0 ==> BytesToBelts(bytes) == out + BytesToBelts(bytes[i..])
      invariant i % 7 != 0 ==> BytesToBelts(bytes) == out
    {
      var end := if i + 7 <= |bytes| then i + 7 else |bytes|;
      PackStep(bytes, i, out);
      var belt := PackChunk(bytes[i..end]);
      assert bytes[i..|bytes|] == bytes[i..];
      out := out + [belt];
      i := end;
    }
    if |bytes| % 7 == 0 {
      out := out + [0];
    }
  }

  lemma {:induction false} PackedShape(bytes: seq<byte>)
    ensures |BytesToBelts(bytes)| == |bytes| / 7 + 1
    ensures forall i :: 0 <= i < |BytesToBelts(bytes)| ==> BytesToBelts(bytes)[i] < SEVEN_BYTES
  {
    if |bytes| < 7 {
    } else {
      PackedShape(bytes[7..]);
    }
  }

  /** The bytes with zeros up to the next multiple of seven that exceeds the length. */
  function Padded(bytes: seq<byte>): (p: seq<byte>)
    ensures |p| == 7 * (|bytes| / 7 + 1)
  {
    bytes + seq(7 - |bytes| % 7, _ => 0)
  }

  lemma PaddedAt(bytes: seq<byte>)
    ensures forall i :: 0 <= i < |bytes| ==> Padded(bytes)[i] == bytes[i]
    ensures forall i :: |bytes| <= i < |Padded(bytes)| ==> Padded(bytes)[i] == 0
  {
  }

  lemma PaddingOverlap(a: seq<byte>, b: seq<byte>)
    requires Padded(a) == Padded(b) && |a| < |b|
    ensures b[|a|] == 0
  {
    PaddedAt(a);
    PaddedAt(b);
    assert Padded(b)[|a|] == b[|a|];
  }

  lemma PackSame(a: seq<byte>, b: seq<byte>)
    requires |a| <= 7 && |b| <= 7
    ensures Pack(a) == Pack(b) <==> a + Zeros(7 - |a|) == b + Zeros(7 - |b|)
  {
    var pa: seq<byte>, pb: seq<byte> := a + Zeros(7 - |a|), b + Zeros(7 - |b|);
    LittleEndianZeros(a, 7 - |a|, 256);
    LittleEndianZeros(b, 7 - |b|, 256);
    if Pack(a) == Pack(b) {
      LittleEndianInjective(pa, pb, 256);
    }
  }

  lemma PaddedSplit(bytes: seq<byte>)
    requires |bytes| >= 7
    ensures Padded(bytes) == bytes[..7] + Padded(bytes[7..])
    ensures Padded(bytes)[..7] == bytes[..7] && Padded(bytes)[7..] == Padded(bytes[7..])
  {
    assert Padded(bytes) == bytes[..7] + Padded(bytes[7..]);
  }

  lemma PackedSplit(bytes: seq<byte>)
    requires |bytes| >= 7
    ensures BytesToBelts(bytes)[0] == Pack(bytes[..7]) && BytesToBelts(bytes)[1..] == BytesToBelts(bytes[7..])
    ensures BytesToBelts(bytes) == [Pack(bytes[..7])] + BytesToBelts(bytes[7..])
  {
  }

  /** Two byte strings pack alike if and only if they agree once padded with zeros. */
  lemma {:induction false} SamePacking(a: seq<byte>, b: seq<byte>)
    ensures BytesToBelts(a) == BytesToBelts(b) <==> Padded(a) == Padded(b)
    decreases |a| + |b|
  {
    PackedShape(a);
    PackedShape(b);
    if |a| / 7 == |b| / 7 {
      if |a| < 7 {
        PackSame(a, b);
        assert Padded(a) == a + Zeros(7 - |a|) && Padded(b) == b + Zeros(7 - |b|);
      } else {
        SamePacking(a[7..], b[7..]);
        PackedSplit(a);
        PackedSplit(b);
        hide BytesToBelts, Padded;
        PackSame(a[..7], b[..7]);
        assert a[..7] + Zeros(0) == a[..7] && b[..7] + Zeros(0) == b[..7];
        PaddedSplit(a);
        PaddedSplit(b);
      }
    }
  }

  /** Packing loses nothing on byte strings of one length, and nothing on zero-free ones. */
  lemma PackingInjective(a: seq<byte>, b: seq<byte>)
    requires BytesToBelts(a) == BytesToBelts(b)
    requires |a| == |b| || (0 !in a && 0 !in b)
    ensures a == b
  {
    SamePacking(a, b);
    PaddedAt(a);
    PaddedAt(b);
    if |a| < |b| {
      PaddingOverlap(a, b);
    } else if |b| < |a| {
      PaddingOverlap(b, a);
    } else {
      assert a == Padded(a)[..|a|] && b == Padded(b)[..|b|];
    }
  }
}
