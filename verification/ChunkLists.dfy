/** The list of Classes5/linked_buffer: chunks of at most four bytes, and the flat string they stand for. */
module ChunkLists {
  import opened ByteStrings

  const INTERNAL_SIZE := 4

  /** "xxx&" */
  const CLEAR_COMMAND: seq<Byte> := [120, 120, 120, 38]

  datatype Chunk = Chunk(length: nat, contents: seq<Byte>)

  predicate ValidChunk(c: Chunk) {
    1 <= c.length <= INTERNAL_SIZE == |c.contents|
  }

  predicate ValidList(list: seq<Chunk>) {
    forall i :: 0 <= i < |list| ==> ValidChunk(list[i])
  }

  function Bytes(c: Chunk): seq<Byte>
    requires ValidChunk(c)
  {
    c.contents[..c.length]
  }

  function Flat(list: seq<Chunk>): seq<Byte>
    requires ValidList(list)
  {
    if list == [] then [] else Bytes(list[0]) + Flat(list[1..])
  }

  lemma {:induction false} FlatConcat(a: seq<Chunk>, b: seq<Chunk>)
    requires ValidList(a) && ValidList(b)
    ensures Flat(a + b) == Flat(a) + Flat(b)
  {
    if a == [] {
      assert a + b == b;
    } else {
      assert (a + b)[1..] == a[1..] + b;
      FlatConcat(a[1..], b);
    }
  }

  // ---------- Boundaries ----------

  /** Where chunk `i` begins in the flat string. */
  function Offset(list: seq<Chunk>, i: nat): nat
    requires ValidList(list) && i <= |list|
  {
    |Flat(list[..i])|
  }

  lemma OffsetNext(list: seq<Chunk>, i: nat)
    requires ValidList(list) && i < |list|
    ensures Flat(list[..i + 1]) == Flat(list[..i]) + Bytes(list[i])
    ensures Offset(list, i + 1) == Offset(list, i) + list[i].length
  {
    assert list[..i + 1] == list[..i] + [list[i]];
    FlatConcat(list[..i], [list[i]]);
    assert Flat([list[i]]) == Bytes(list[i]) + Flat([]);
  }

  lemma {:induction false} OffsetsGrow(list: seq<Chunk>, i: nat, j: nat)
    requires ValidList(list) && i <= j <= |list|
    ensures Offset(list, i) + (j - i) <= Offset(list, j)
    decreases j
  {
    if i == j {
    } else {
      OffsetsGrow(list, i, j - 1);
      OffsetNext(list, j - 1);
    }
  }

  lemma {:induction false} OffsetEnds(list: seq<Chunk>)
    requires ValidList(list)
    ensures Offset(list, 0) == 0 && Offset(list, |list|) == |Flat(list)|
  {
    assert list[..|list|] == list;
  }

  /** The flat string up to a boundary is a prefix of the whole. */
  lemma {:induction false} FlatPrefix(list: seq<Chunk>, i: nat)
    requires ValidList(list) && i <= |list|
    ensures Offset(list, i) <= |Flat(list)|
    ensures Flat(list)[..Offset(list, i)] == Flat(list[..i])
  {
    assert list == list[..i] + list[i..];
    FlatConcat(list[..i], list[i..]);
  }

  /** The flat string up to the end of chunk i. */
  lemma {:induction false} FlatUpTo(list: seq<Chunk>, i: nat)
    requires ValidList(list) && i < |list|
    ensures Offset(list, i) + list[i].length <= |Flat(list)|
    ensures Flat(list)[..Offset(list, i) + list[i].length] == Flat(list[..i]) + Bytes(list[i])
  {
    OffsetNext(list, i);
    FlatPrefix(list, i + 1);
  }

  ghost predicate IsBoundary(list: seq<Chunk>, x: nat)
    requires ValidList(list)
  {
    exists i :: 0 <= i <= |list| && Offset(list, i) == x
  }

  /** The least chunk boundary at or after a position. */
  function Ceil(list: seq<Chunk>, x: nat): (b: nat)
    requires ValidList(list)
  {
    if x == 0 || list == [] then 0
    else list[0].length + Ceil(list[1..], if x <= list[0].length then 0 else x - list[0].length)
  }

  /** Finding the chunk that begins at the ceiling. */
  lemma {:induction false} CeilAt(list: seq<Chunk>, x: nat, i: nat)
    requires ValidList(list) && i <= |list|
    requires x <= Offset(list, i)
    requires i > 0 ==> Offset(list, i - 1) < x
    ensures Ceil(list, x) == Offset(list, i)
  {
    if i == 0 {
      OffsetEnds(list);
    } else {
      var rest, first := list[1..], list[0].length;
      OffsetOfTail(list, i);
      if i == 1 {
        OffsetEnds(rest);
        OffsetEnds(list);
        CeilAt(rest, 0, 0);
      } else {
        OffsetOfTail(list, i - 1);
        CeilAt(rest, x - first, i - 1);
      }
    }
  }

  lemma OffsetOfTail(list: seq<Chunk>, i: nat)
    requires ValidList(list) && 0 < i <= |list|
    ensures Offset(list, i) == list[0].length + Offset(list[1..], i - 1)
  {
    assert list[..i][1..] == list[1..][..i - 1];
  }

  /** Every position inside the string has a chunk that begins at its ceiling. */
  lemma {:induction false} FindCeil(list: seq<Chunk>, x: nat, from: nat) returns (i: nat)
    requires ValidList(list) && from <= |list| && x <= |Flat(list)|
    requires from > 0 ==> Offset(list, from - 1) < x
    ensures from <= i <= |list| && x <= Offset(list, i) && (i > 0 ==> Offset(list, i - 1) < x)
    ensures Ceil(list, x) == Offset(list, i)
    decreases |list| - from
  {
    OffsetEnds(list);
    if x <= Offset(list, from) {
      i := from;
      CeilAt(list, x, i);
    } else {
      i := FindCeil(list, x, from + 1);
    }
  }

  /** Ceil is what its name says: the least boundary not before x, which is at most three bytes away. */
  lemma {:induction false} CeilIsLeastBoundary(list: seq<Chunk>, x: nat)
    requires ValidList(list) && x <= |Flat(list)|
    ensures IsBoundary(list, Ceil(list, x))
    ensures x <= Ceil(list, x) <= |Flat(list)| && Ceil(list, x) < x + INTERNAL_SIZE
    ensures forall b: nat :: IsBoundary(list, b) && x <= b ==> Ceil(list, x) <= b
    ensures IsBoundary(list, x) <==> Ceil(list, x) == x
  {
    var i := FindCeil(list, x, 0);
    OffsetEnds(list);
    OffsetsGrow(list, i, |list|);
    if i > 0 {
      OffsetNext(list, i - 1);
    }
    forall j: nat | j <= |list| && x <= Offset(list, j) ensures Offset(list, i) <= Offset(list, j) {
      if j < i {
        OffsetsGrow(list, j, i - 1);
      } else {
        OffsetsGrow(list, i, j);
      }
    }
  }

  /** Appending does not move a ceiling. */
  lemma {:induction false} CeilOfLonger(list: seq<Chunk>, more: seq<Chunk>, x: nat)
    requires ValidList(list) && ValidList(more) && x <= |Flat(list)|
    ensures Ceil(list + more, x) == Ceil(list, x)
  {
    var i := FindCeil(list, x, 0);
    assert (list + more)[..i] == list[..i];
    if i > 0 {
      assert (list + more)[..i - 1] == list[..i - 1];
    }
    CeilAt(list + more, x, i);
  }

  // ---------- Cutting bytes into chunks ----------

  /** A zero-filled cell whose first bytes are copied in. */
  function MakeChunk(bytes: seq<Byte>): (c: Chunk)
    requires 1 <= |bytes| <= INTERNAL_SIZE
    ensures ValidChunk(c) && Bytes(c) == bytes
  {
    Chunk(|bytes|, bytes + seq(INTERNAL_SIZE - |bytes|, _ => 0))
  }

  function Chunking(bytes: seq<Byte>): (list: seq<Chunk>)
    ensures ValidList(list)
  {
    if bytes == [] then [] else
      var n := Min(INTERNAL_SIZE, |bytes|);
      [MakeChunk(bytes[..n])] + Chunking(bytes[n..])
  }

  lemma {:induction false} ChunkingIsFlat(bytes: seq<Byte>)
    ensures Flat(Chunking(bytes)) == bytes
  {
    if bytes == [] {
    } else {
      var n := Min(INTERNAL_SIZE, |bytes|);
      ChunkingIsFlat(bytes[n..]);
      assert Chunking(bytes)[1..] == Chunking(bytes[n..]);
      assert bytes == bytes[..n] + bytes[n..];
    }
  }

  /** A position where a chunk begins. */
  predicate Aligned(i: nat) {
    i == 0 || (i >= INTERNAL_SIZE && Aligned(i - INTERNAL_SIZE))
  }

  lemma {:induction false} AlignedMeansMultiple(i: nat)
    ensures Aligned(i) <==> i % INTERNAL_SIZE == 0
  {
    if i < INTERNAL_SIZE {
    } else {
      AlignedMeansMultiple(i - INTERNAL_SIZE);
    }
  }

  /** No chunk begins inside another. */
  lemma {:induction false} AlignedApart(i: nat, j: nat)
    requires Aligned(i) && Aligned(j) && i <= j < i + INTERNAL_SIZE
    ensures i == j
  {
    if i == 0 {
    } else {
      AlignedApart(i - INTERNAL_SIZE, j - INTERNAL_SIZE);
    }
  }

  /** The first chunk of a prefix, and the rest of it. */
  lemma {:induction false} ChunkingPeels(bytes: seq<Byte>, k: nat)
    requires INTERNAL_SIZE <= k <= |bytes|
    ensures Chunking(bytes[..k]) == [MakeChunk(bytes[..4])] + Chunking(bytes[4..][..k - 4])
  {
    assert bytes[..k][..4] == bytes[..4];
    assert bytes[..k][4..] == bytes[4..][..k - 4];
  }

  /** Chunking goes on where a whole number of chunks ended. */
  lemma {:induction false} ChunkingStep(bytes: seq<Byte>, i: nat)
    requires Aligned(i) && i < |bytes|
    ensures var n := Min(INTERNAL_SIZE, |bytes| - i);
            Chunking(bytes[..i + n]) == Chunking(bytes[..i]) + [MakeChunk(bytes[i..i + n])]
  {
    var n := Min(INTERNAL_SIZE, |bytes| - i);
    if i == 0 {
      assert bytes[..n][..n] == bytes[0..n] && bytes[..n][n..] == [];
    } else {
      var rest, first, last := bytes[4..], MakeChunk(bytes[..4]), MakeChunk(bytes[i..i + n]);
      SliceOfTail(bytes, 4, i - 4, i - 4 + n);
      ChunkingStep(rest, i - 4);
      ChunkingPeels(bytes, i + n);
      ChunkingPeels(bytes, i);
      Associates([first], Chunking(rest[..i - 4]), [last]);
    }
  }

  /** Whether position i of the input holds the clear command. */
  predicate ClearAt(bytes: seq<Byte>, i: nat) {
    i + INTERNAL_SIZE <= |bytes| && bytes[i..i + INTERNAL_SIZE] == CLEAR_COMMAND
  }

  /** The clear command is in the input where linked_write looks for it, at some chunk-aligned position. */
  ghost predicate HasCommand(bytes: seq<Byte>) {
    exists i: nat :: ClearAt(bytes, i) && Aligned(i)
  }

  /** Comparing a chunk's four cells finds the command exactly where the input has it. */
  lemma ChunkTellsClear(bytes: seq<Byte>, i: nat)
    requires i < |bytes|
    ensures var n := Min(INTERNAL_SIZE, |bytes| - i);
            MakeChunk(bytes[i..i + n]).contents == CLEAR_COMMAND <==> ClearAt(bytes, i)
  {
    var n := Min(INTERNAL_SIZE, |bytes| - i);
    var c := MakeChunk(bytes[i..i + n]);
    if n < INTERNAL_SIZE {
      assert c.contents[3] == 0 != CLEAR_COMMAND[3];
    }
  }
}
