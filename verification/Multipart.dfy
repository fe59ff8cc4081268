/** How MultipartUpload of internal/s3/client.go cuts an object into parts. Part numbers count from 1. */
module Multipart {
  import opened Streams
  import opened Readers

  function NumParts(size: nat, partSize: nat): nat
    requires partSize > 0
  {
    (size + partSize - 1) / partSize
  }

  function Offset(partSize: nat, part: nat): nat
    requires part >= 1
  {
    (part - 1) * partSize
  }

  function Length(size: nat, partSize: nat, part: nat): int
    requires part >= 1
  {
    var offset := Offset(partSize, part);
    if offset + partSize > size then size - offset else partSize
  }

  function End(size: nat, partSize: nat, part: nat): int
    requires part >= 1
  {
    Offset(partSize, part) + Length(size, partSize, part)
  }

  lemma NumPartsBounds(size: nat, partSize: nat)
    requires partSize > 0
    ensures var n := NumParts(size, partSize);
            (n == 0 <==> size == 0) && (n > 0 ==> (n - 1) * partSize < size <= n * partSize)
  {
    var n := NumParts(size, partSize);
    assert size + partSize - 1 == n * partSize + (size + partSize - 1) % partSize;
    if n > 0 {
      assert n * partSize == (n - 1) * partSize + partSize;
    }
  }

  lemma OffsetMonotone(partSize: nat, j: nat, k: nat)
    requires 1 <= j <= k
    ensures Offset(partSize, j) + (k - j) * partSize == Offset(partSize, k)
    ensures Offset(partSize, j) <= Offset(partSize, k)
  {
  }

  /**
   The parts partition [0, size): they follow each other without gap or overlap from 0 to size,
   every length is positive, and all but the last are partSize.
   */
  lemma PartsPartition(size: nat, partSize: nat, part: nat)
    requires partSize > 0 && 1 <= part <= NumParts(size, partSize)
    ensures part == 1 ==> Offset(partSize, part) == 0
    ensures 0 < Length(size, partSize, part) <= partSize
    ensures part < NumParts(size, partSize) ==>
              && Length(size, partSize, part) == partSize
              && End(size, partSize, part) == Offset(partSize, part + 1)
    ensures part == NumParts(size, partSize) ==> End(size, partSize, part) == size
    ensures Offset(partSize, part) < End(size, partSize, part) <= size
    ensures Offset(partSize, part) == 0 ==> part == 1
  {
    var n := NumParts(size, partSize);
    NumPartsBounds(size, partSize);
    OffsetMonotone(partSize, part, n);
    assert Offset(partSize, part + 1) == Offset(partSize, part) + partSize;
    if part < n {
      OffsetMonotone(partSize, part + 1, n);
    }
    if part > 1 {
      OffsetMonotone(partSize, 2, part);
    }
  }

  predicate Covers(size: nat, partSize: nat, part: nat, index: nat)
    requires part >= 1
  {
    Offset(partSize, part) <= index < End(size, partSize, part)
  }

  lemma {:induction false} PartOfByte(size: nat, partSize: nat, k: nat, index: nat) returns (q: nat)
    requires partSize > 0 && 1 <= k <= NumParts(size, partSize) && index < End(size, partSize, k)
    ensures 1 <= q <= k && Covers(size, partSize, q, index)
  {
    if index >= Offset(partSize, k) {
      q := k;
    } else {
      PartsPartition(size, partSize, k);
      PartsPartition(size, partSize, k - 1);
      q := PartOfByte(size, partSize, k - 1, index);
    }
  }

  lemma CoveredOnce(size: nat, partSize: nat, p: nat, q: nat, index: nat)
    requires partSize > 0 && 1 <= p <= NumParts(size, partSize) && 1 <= q <= NumParts(size, partSize)
    requires Covers(size, partSize, p, index) && Covers(size, partSize, q, index)
    ensures p == q
  {
    PartsPartition(size, partSize, p);
    PartsPartition(size, partSize, q);
    if p < q {
      OffsetMonotone(partSize, p + 1, q);
    } else if q < p {
      OffsetMonotone(partSize, q + 1, p);
    }
  }

  /** Every byte of the object lies in exactly one part. */
  lemma EveryByteInExactlyOnePart(size: nat, partSize: nat, index: nat) returns (q: nat)
    requires partSize > 0 && index < size
    ensures 1 <= q <= NumParts(size, partSize)
    ensures forall part :: 1 <= part <= NumParts(size, partSize) ==>
              (Covers(size, partSize, part, index) <==> part == q)
  {
    var n := NumParts(size, partSize);
    NumPartsBounds(size, partSize);
    PartsPartition(size, partSize, n);
    q := PartOfByte(size, partSize, n, index);
    forall part | 1 <= part <= n && Covers(size, partSize, part, index)
      ensures part == q
    {
      CoveredOnce(size, partSize, part, q, index);
    }
  }

  /** Sum of the lengths of parts 1, ..., k. */
  function TotalLength(size: nat, partSize: nat, k: nat): int
  {
    if k == 0 then 0 else TotalLength(size, partSize, k - 1) + Length(size, partSize, k)
  }

  lemma {:induction false} LengthsAddUp(size: nat, partSize: nat, k: nat)
    requires partSize > 0 && k <= NumParts(size, partSize)
    ensures k > 0 ==> TotalLength(size, partSize, k) == End(size, partSize, k)
    ensures k == NumParts(size, partSize) ==> TotalLength(size, partSize, k) == size
  {
    NumPartsBounds(size, partSize);
    if k > 0 {
      LengthsAddUp(size, partSize, k - 1);
      PartsPartition(size, partSize, k);
      if k > 1 {
        PartsPartition(size, partSize, k - 1);
      }
    }
  }

  /** No part offset is refused or clamped by either reader, wherever the cursor stands. */
  lemma OffsetsAreReachable(kind: Kind, size: nat, partSize: nat, part: nat, position: nat)
    requires ValidSize(size) && partSize > 0 && 1 <= part <= NumParts(size, partSize) && position <= size
    ensures Offset(partSize, part) < TWO_63
    ensures Destination(kind, size, position, Offset(partSize, part), SeekStart) == Moved(Offset(partSize, part))
  {
    PartsPartition(size, partSize, part);
  }

  /** The parts of a stream, each read skew[p - 1] bytes too early. */
  function SkewedParts(f: Stream, size: nat, partSize: nat, skew: seq<nat>): (parts: seq<seq<byte>>)
    requires partSize > 0 && |skew| <= NumParts(size, partSize)
    requires forall i :: 0 <= i < |skew| ==> skew[i] <= Offset(partSize, i + 1)
    ensures |parts| == |skew|
  {
    seq(|skew|, i requires 0 <= i < |skew| =>
      SkewedPart(f, size, partSize, i + 1, skew[i]))
  }

  function SkewedPart(f: Stream, size: nat, partSize: nat, part: nat, skew: nat): (s: seq<byte>)
    requires partSize > 0 && 1 <= part <= NumParts(size, partSize) && skew <= Offset(partSize, part)
    ensures |s| == Length(size, partSize, part)
  {
    PartsPartition(size, partSize, part);
    Slice(f, Offset(partSize, part) - skew, End(size, partSize, part) - skew)
  }

  /** Byte sequences with the lengths of the first parts. */
  predicate HaveLengths(size: nat, partSize: nat, parts: seq<seq<byte>>)
    requires partSize > 0
  {
    && |parts| <= NumParts(size, partSize)
    && forall i :: 0 <= i < |parts| ==> |parts[i]| == Length(size, partSize, i + 1)
  }

  lemma {:induction false} ConcatenationLength(size: nat, partSize: nat, parts: seq<seq<byte>>)
    requires partSize > 0 && HaveLengths(size, partSize, parts)
    ensures |Flatten(parts)| == TotalLength(size, partSize, |parts|)
  {
    if parts != [] {
      ConcatenationLength(size, partSize, parts[..|parts| - 1]);
    }
  }

  lemma BytesBefore(size: nat, partSize: nat, part: nat)
    requires partSize > 0 && 1 <= part <= NumParts(size, partSize)
    ensures TotalLength(size, partSize, part - 1) == Offset(partSize, part)
  {
    LengthsAddUp(size, partSize, part - 1);
    if part > 1 {
      PartsPartition(size, partSize, part - 1);
    }
  }

  lemma LastPartAt(size: nat, partSize: nat, parts: seq<seq<byte>>, index: nat)
    requires partSize > 0 && parts != [] && HaveLengths(size, partSize, parts) && Covers(size, partSize, |parts|, index)
    ensures index < |Flatten(parts)|
    ensures Flatten(parts)[index] == parts[|parts| - 1][index - Offset(partSize, |parts|)]
  {
    ConcatenationLength(size, partSize, parts[..|parts| - 1]);
    BytesBefore(size, partSize, |parts|);
  }

  /** Byte i of part p ends up at the part's offset plus i of the concatenation. */
  lemma {:induction false} ConcatenationAt(size: nat, partSize: nat, parts: seq<seq<byte>>, part: nat, index: nat)
    requires partSize > 0 && HaveLengths(size, partSize, parts)
    requires 1 <= part <= |parts| && Covers(size, partSize, part, index)
    ensures index < |Flatten(parts)|
    ensures Flatten(parts)[index] == parts[part - 1][index - Offset(partSize, part)]
    decreases |parts|
  {
    if part < |parts| {
      ConcatenationAt(size, partSize, parts[..|parts| - 1], part, index);
    } else {
      LastPartAt(size, partSize, parts, index);
    }
  }

  /** All parts together have the size of the object. */
  lemma WholeLength(size: nat, partSize: nat, parts: seq<seq<byte>>)
    requires partSize > 0 && HaveLengths(size, partSize, parts) && |parts| == NumParts(size, partSize)
    ensures |Flatten(parts)| == size
  {
    ConcatenationLength(size, partSize, parts);
    LengthsAddUp(size, partSize, |parts|);
  }

  /** In an object of skewed parts every byte comes from as far back as its part is skewed. */
  lemma AssembledAt(f: Stream, size: nat, partSize: nat, skew: seq<nat>, part: nat, index: nat)
    requires partSize > 0 && 1 <= part <= |skew| <= NumParts(size, partSize)
    requires forall i :: 0 <= i < |skew| ==> skew[i] <= Offset(partSize, i + 1)
    requires Covers(size, partSize, part, index)
    ensures var whole := Flatten(SkewedParts(f, size, partSize, skew));
            index < |whole| && whole[index] == f(index - skew[part - 1])
  {
    ConcatenationAt(size, partSize, SkewedParts(f, size, partSize, skew), part, index);
  }

  /** Parts read where they should be concatenate to the object. */
  lemma UnskewedPartsAssemble(f: Stream, size: nat, partSize: nat, skew: seq<nat>)
    requires partSize > 0 && |skew| == NumParts(size, partSize)
    requires forall i :: 0 <= i < |skew| ==> skew[i] == 0
    ensures Flatten(SkewedParts(f, size, partSize, skew)) == Slice(f, 0, size)
  {
    var whole := Flatten(SkewedParts(f, size, partSize, skew));
    WholeLength(size, partSize, SkewedParts(f, size, partSize, skew));
    forall index: nat | index < size ensures whole[index] == f(index) {
      var q := EveryByteInExactlyOnePart(size, partSize, index);
      AssembledAt(f, size, partSize, skew, q, index);
    }
  }

  /** One misread part is enough to spoil the object for some stream. */
  lemma SkewedPartsSpoil(size: nat, partSize: nat, skew: seq<nat>, part: nat)
    requires partSize > 0 && |skew| == NumParts(size, partSize) && 1 <= part <= |skew|
    requires forall i :: 0 <= i < |skew| ==> skew[i] <= Offset(partSize, i + 1)
    requires skew[part - 1] > 0
    ensures var f := Marker(Offset(partSize, part));
            Flatten(SkewedParts(f, size, partSize, skew)) != Slice(f, 0, size)
  {
    var f := Marker(Offset(partSize, part));
    PartsPartition(size, partSize, part);
    AssembledAt(f, size, partSize, skew, part, Offset(partSize, part));
    assert Slice(f, 0, size)[Offset(partSize, part)] == 1;
  }

  /** Exactly when the assembled object is right whatever the stream. */
  lemma AssembledRightIff(size: nat, partSize: nat, skew: seq<nat>)
    requires partSize > 0 && |skew| == NumParts(size, partSize)
    requires forall i :: 0 <= i < |skew| ==> skew[i] <= Offset(partSize, i + 1)
    ensures (forall f: Stream :: Flatten(SkewedParts(f, size, partSize, skew)) == Slice(f, 0, size))
            <==> (forall i :: 0 <= i < |skew| ==> skew[i] == 0)
  {
    if i :| 0 <= i < |skew| && skew[i] != 0 {
      SkewedPartsSpoil(size, partSize, skew, i + 1);
    } else {
      forall f: Stream ensures Flatten(SkewedParts(f, size, partSize, skew)) == Slice(f, 0, size) {
        UnskewedPartsAssemble(f, size, partSize, skew);
      }
    }
  }
}
