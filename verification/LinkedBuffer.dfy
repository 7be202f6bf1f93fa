/** Classes5/linked_buffer/mutex/linked_buffer.c, one call at a time. */
module LinkedBuffer {
  import opened ByteStrings
  import opened ChunkLists

  /** What can go wrong while one chunk is written, in the order in which the code would notice. */
  datatype Fault = Fine | NoMemory | BadAddress | Interrupted

  const ENOMEM := 12
  const EINTR := 4

  // ---------- What a read returns ----------

  datatype ReadResult = Copied(bytes: seq<Byte>, newPos: nat) | Failed(errno: int)

  /**
   A read of `count` bytes at `fPos` seen on the flat string: it begins at the first boundary not before fPos, and
   the cursor moves by whole chunks. A read of 0 bytes still moves past one chunk.
   */
  function FlatRead(list: seq<Chunk>, fPos: nat, count: nat): ReadResult
    requires ValidList(list) && fPos <= |Flat(list)|
  {
    CeilIsLeastBoundary(list, fPos);
    var flat, begin := Flat(list), Ceil(list, fPos);
    var end := Min(begin + count, |flat|);
    var reach := if count > 0 then end else Min(begin + 1, |flat|);
    CeilIsLeastBoundary(list, reach);
    Copied(flat[begin..end], fPos + Ceil(list, reach) - begin)
  }

  /** From a boundary, a read of at least one byte is a plain substring and skips at most three bytes. */
  lemma {:induction false} ReadFromBoundary(list: seq<Chunk>, fPos: nat, count: nat)
    requires ValidList(list) && IsBoundary(list, fPos) && fPos <= |Flat(list)| && count > 0
    ensures var r, end := FlatRead(list, fPos, count), Min(fPos + count, |Flat(list)|);
            && r.bytes == Flat(list)[fPos..end]
            && end <= r.newPos < end + INTERNAL_SIZE
            && IsBoundary(list, r.newPos) && r.newPos <= |Flat(list)|
            && (forall b: nat :: IsBoundary(list, b) && end <= b ==> r.newPos <= b)
            && (r.newPos == end <==> IsBoundary(list, end))
  {
    CeilIsLeastBoundary(list, fPos);
    CeilIsLeastBoundary(list, Min(fPos + count, |Flat(list)|));
  }

  /**
   From inside a chunk a read begins at the next boundary. The cursor moves as far as it would from there, so that it
   stays as far behind as it was.
   */
  lemma {:induction false} ReadFromInside(list: seq<Chunk>, fPos: nat, count: nat)
    requires ValidList(list) && fPos <= |Flat(list)|
    ensures Ceil(list, fPos) <= |Flat(list)| && IsBoundary(list, Ceil(list, fPos))
    ensures var r, fromBoundary := FlatRead(list, fPos, count), FlatRead(list, Ceil(list, fPos), count);
            r.bytes == fromBoundary.bytes && r.newPos - fPos == fromBoundary.newPos - Ceil(list, fPos)
  {
    CeilIsLeastBoundary(list, fPos);
    CeilIsLeastBoundary(list, Ceil(list, fPos));
  }

  /** The boundary after a position just inside chunk i is the chunk's end. */
  lemma {:induction false} CeilInside(list: seq<Chunk>, i: nat)
    requires ValidList(list) && i < |list|
    ensures Offset(list, i) + list[i].length <= |Flat(list)|
    ensures Ceil(list, Offset(list, i) + 1) == Offset(list, i) + list[i].length
  {
    OffsetNext(list, i);
    FlatPrefix(list, i + 1);
    CeilAt(list, Offset(list, i) + 1, i + 1);
  }

  /**
   A read of 0 bytes returns nothing and yet takes the cursor past the chunk it looks at. It leaves the cursor alone
   exactly if there is no such chunk.
   */
  lemma {:induction false} ReadOfNothing(list: seq<Chunk>, fPos: nat)
    requires ValidList(list) && fPos <= |Flat(list)|
    ensures FlatRead(list, fPos, 0).bytes == []
    ensures FlatRead(list, fPos, 0).newPos == fPos <==> Ceil(list, fPos) == |Flat(list)|
    ensures forall i :: 0 <= i < |list| && Offset(list, i) == Ceil(list, fPos) ==>
              FlatRead(list, fPos, 0).newPos == fPos + list[i].length
  {
    CeilIsLeastBoundary(list, fPos);
    CeilIsLeastBoundary(list, Min(Ceil(list, fPos) + 1, |Flat(list)|));
    forall i | 0 <= i < |list| && Offset(list, i) == Ceil(list, fPos)
      ensures FlatRead(list, fPos, 0).newPos == fPos + list[i].length
    {
      CeilInside(list, i);
    }
  }

  /** linked_read returns nothing at once if the cursor is beyond total_length, whatever the list holds. */
  function GuardedRead(list: seq<Chunk>, totalLength: nat, fPos: nat, count: nat): ReadResult
    requires ValidList(list) && totalLength <= |Flat(list)|
  {
    if fPos > totalLength then Copied([], fPos) else FlatRead(list, fPos, count)
  }

  /**
   What a total that lags behind does to readers: from a boundary, a read finds nothing although the list goes on
   there exactly if the cursor is beyond the total.
   */
  lemma {:induction false} LaggingTotalHidesBytes(list: seq<Chunk>, totalLength: nat, fPos: nat, count: nat)
    requires ValidList(list) && totalLength <= |Flat(list)|
    requires IsBoundary(list, fPos) && fPos < |Flat(list)| && count > 0
    ensures GuardedRead(list, totalLength, fPos, count) == Copied([], fPos) <==> fPos > totalLength
  {
    if fPos <= totalLength {
      ReadFromBoundary(list, fPos, count);
    }
  }

  /** Reading what has been appended from where the list ended before. */
  lemma {:induction false} ReadOfAppended(list: seq<Chunk>, more: seq<Chunk>, count: nat)
    requires ValidList(list) && ValidList(more) && count > 0
    ensures |Flat(list)| + |Flat(more)| == |Flat(list + more)|
    ensures FlatRead(list + more, |Flat(list)|, count).bytes == Flat(more)[..Min(count, |Flat(more)|)]
  {
    var all, end := list + more, |Flat(list)|;
    FlatConcat(list, more);
    OffsetEnds(list);
    assert all[..|list|] == list && Offset(all, |list|) == end;
    ReadFromBoundary(all, end, count);
    SliceAfterPrefix(Flat(all), Flat(list), Flat(more), Min(count, |Flat(more)|));
  }

  lemma {:induction false} FlatIsNotEmpty(list: seq<Chunk>)
    requires ValidList(list) && list != []
    ensures Flat(list) != []
  {
    assert ValidChunk(list[0]) && |Bytes(list[0])| >= 1;
  }

  /**
   A reader that has read everything while `lost` bytes were missing from the total sees what is appended next
   exactly if that is at least as much as was lost, however correctly it is counted.
   */
  lemma {:induction false} CaughtUpReaderWaitsForLoss(list: seq<Chunk>, lost: nat, more: seq<Chunk>, count: nat)
    requires ValidList(list) && ValidList(more) && lost <= |Flat(list)| && more != [] && count > 0
    ensures |Flat(list)| - lost + |Flat(more)| <= |Flat(list + more)|
    ensures var r := GuardedRead(list + more, |Flat(list)| - lost + |Flat(more)|, |Flat(list)|, count);
            if |Flat(more)| < lost then r == Copied([], |Flat(list)|)
            else r.Copied? && r.bytes != [] && r.bytes == Flat(more)[..Min(count, |Flat(more)|)]
  {
    ReadOfAppended(list, more, count);
    FlatIsNotEmpty(more);
  }

  /** A reader's successive reads: all the bytes it got, and its cursor afterwards. */
  function FlatReads(list: seq<Chunk>, fPos: nat, counts: seq<nat>): (seq<Byte>, nat)
    requires ValidList(list) && IsBoundary(list, fPos) && fPos <= |Flat(list)|
    requires forall k :: 0 <= k < |counts| ==> counts[k] > 0
    decreases |counts|
  {
    if counts == [] then ([], fPos) else
      ReadFromBoundary(list, fPos, counts[0]);
      var first := FlatRead(list, fPos, counts[0]);
      var rest := FlatReads(list, first.newPos, counts[1..]);
      (first.bytes + rest.0, rest.1)
  }

  function Total(counts: seq<nat>): nat {
    if counts == [] then 0 else counts[0] + Total(counts[1..])
  }

  /** The ends that reads of these sizes would have, laid end to end from fPos, are all chunk boundaries. */
  ghost predicate AllStopOnBoundaries(list: seq<Chunk>, fPos: nat, counts: seq<nat>)
    requires ValidList(list)
  {
    forall k :: 0 <= k <= |counts| ==> StopsOnBoundary(list, fPos, counts, k)
  }

  /** The first k reads, laid end to end, stop on a boundary. */
  ghost predicate StopsOnBoundary(list: seq<Chunk>, fPos: nat, counts: seq<nat>, k: nat)
    requires ValidList(list) && k <= |counts|
  {
    IsBoundary(list, Min(fPos + Total(counts[..k]), |Flat(list)|))
  }

  /** The first read stops on a boundary, and so do the others laid out from there. */
  lemma {:induction false} StopsAfterFirst(list: seq<Chunk>, fPos: nat, counts: seq<nat>)
    requires ValidList(list) && IsBoundary(list, fPos) && fPos <= |Flat(list)| && counts != []
    ensures var end := Min(fPos + counts[0], |Flat(list)|);
            AllStopOnBoundaries(list, fPos, counts) <==>
              IsBoundary(list, end) && AllStopOnBoundaries(list, end, counts[1..])
  {
    var end, rest := Min(fPos + counts[0], |Flat(list)|), counts[1..];
    assert StopsOnBoundary(list, fPos, counts, 0);
    forall k | 0 <= k <= |rest|
      ensures StopsOnBoundary(list, end, rest, k) <==> StopsOnBoundary(list, fPos, counts, k + 1)
    {
      assert counts[..k + 1][1..] == rest[..k];
    }
    if AllStopOnBoundaries(list, fPos, counts) {
      assert counts[..1][1..] == [] && Total(counts[..1]) == counts[0];
      assert StopsOnBoundary(list, fPos, counts, 1);
      forall k | 0 <= k <= |rest| ensures StopsOnBoundary(list, end, rest, k) {
        assert StopsOnBoundary(list, fPos, counts, k + 1);
      }
    } else {
      var k :| 0 <= k <= |counts| && !StopsOnBoundary(list, fPos, counts, k);
      assert !StopsOnBoundary(list, end, rest, k - 1);
    }
  }

  lemma {:induction false} ReadsMove(list: seq<Chunk>, fPos: nat, counts: seq<nat>)
    requires ValidList(list) && IsBoundary(list, fPos) && fPos <= |Flat(list)|
    requires forall k :: 0 <= k < |counts| ==> counts[k] > 0
    ensures var (bytes, newPos) := FlatReads(list, fPos, counts);
            && fPos + |bytes| <= newPos <= |Flat(list)|
            && newPos <= fPos + |bytes| + 3 * |counts|
            && (newPos == fPos + |bytes| <==> AllStopOnBoundaries(list, fPos, counts))
    decreases |counts|
  {
    if counts == [] {
    } else {
      ReadFromBoundary(list, fPos, counts[0]);
      StopsAfterFirst(list, fPos, counts);
      ReadsMove(list, FlatRead(list, fPos, counts[0]).newPos, counts[1..]);
    }
  }

  lemma {:induction false} ReadsWithoutGaps(list: seq<Chunk>, fPos: nat, counts: seq<nat>)
    requires ValidList(list) && IsBoundary(list, fPos) && fPos <= |Flat(list)|
    requires forall k :: 0 <= k < |counts| ==> counts[k] > 0
    requires AllStopOnBoundaries(list, fPos, counts)
    ensures var (bytes, newPos) := FlatReads(list, fPos, counts);
            fPos <= newPos <= |Flat(list)| && bytes == Flat(list)[fPos..newPos]
    decreases |counts|
  {
    if counts == [] {
    } else {
      ReadFromBoundary(list, fPos, counts[0]);
      StopsAfterFirst(list, fPos, counts);
      var mid := FlatRead(list, fPos, counts[0]).newPos;
      ReadsWithoutGaps(list, mid, counts[1..]);
      Slices(Flat(list), fPos, mid, FlatReads(list, mid, counts[1..]).1);
    }
  }

  /**
   A series of reads gives back the string without gaps exactly if every read stops on a boundary; otherwise it
   misses at most three bytes a read.
   */
  lemma {:induction false} ReadsConcatenate(list: seq<Chunk>, fPos: nat, counts: seq<nat>)
    requires ValidList(list) && IsBoundary(list, fPos) && fPos <= |Flat(list)|
    requires forall k :: 0 <= k < |counts| ==> counts[k] > 0
    ensures var (bytes, newPos) := FlatReads(list, fPos, counts);
            && fPos + |bytes| <= newPos <= |Flat(list)|
            && newPos <= fPos + |bytes| + 3 * |counts|
            && (bytes == Flat(list)[fPos..newPos] <==> AllStopOnBoundaries(list, fPos, counts))
  {
    ReadsMove(list, fPos, counts);
    if AllStopOnBoundaries(list, fPos, counts) {
      ReadsWithoutGaps(list, fPos, counts);
    }
  }

  // ---------- How the traversal gets there ----------

  /** The traversal is about to look at chunk i, and `user` has been copied so far. */
  ghost predicate Traversed(list: seq<Chunk>, fPos: nat, count: nat, i: nat, user: seq<Byte>)
    requires ValidList(list) && fPos <= |Flat(list)|
  {
    && i <= |list|
    && Offset(list, i) <= |Flat(list)|
    && if Offset(list, i) < fPos then user == []
       else && Ceil(list, fPos) <= Offset(list, i)
            && user == Flat(list)[Ceil(list, fPos)..Offset(list, i)]
            && (user != [] ==> |user| < count)
  }

  lemma {:induction false} TraversalBegins(list: seq<Chunk>, fPos: nat, count: nat)
    requires ValidList(list) && fPos <= |Flat(list)|
    ensures Traversed(list, fPos, count, 0, [])
  {
    OffsetEnds(list);
    if fPos == 0 {
      CeilAt(list, fPos, 0);
    }
  }

  lemma {:induction false} SkipChunk(list: seq<Chunk>, fPos: nat, count: nat, i: nat, user: seq<Byte>)
    requires ValidList(list) && fPos <= |Flat(list)| && Traversed(list, fPos, count, i, user)
    requires i < |list| && Offset(list, i) < fPos
    ensures Traversed(list, fPos, count, i + 1, user)
    ensures Offset(list, i + 1) == Offset(list, i) + list[i].length
  {
    OffsetNext(list, i);
    FlatPrefix(list, i + 1);
    if fPos <= Offset(list, i + 1) {
      CeilAt(list, fPos, i + 1);
    }
  }

  /** The first bytes of chunk i, appended to the string up to where the chunk begins. */
  lemma {:induction false} CopyExtends(list: seq<Chunk>, begin: nat, i: nat, n: nat)
    requires ValidList(list) && i < |list| && begin <= Offset(list, i) && n <= list[i].length
    ensures Offset(list, i) + n <= |Flat(list)|
    ensures Flat(list)[begin..Offset(list, i)] + list[i].contents[..n] == Flat(list)[begin..Offset(list, i) + n]
  {
    FlatUpTo(list, i);
    SliceAfterPrefix(Flat(list), Flat(list[..i]), Bytes(list[i]), n);
    Slices(Flat(list), begin, Offset(list, i), Offset(list, i) + n);
    assert Bytes(list[i])[..n] == list[i].contents[..n];
  }

  /** Where a read that stops inside or at the end of chunk i leaves the cursor. */
  lemma {:induction false} ReadStopsIn(list: seq<Chunk>, fPos: nat, count: nat, i: nat)
    requires ValidList(list) && i < |list| && fPos <= |Flat(list)|
    requires var begin := Ceil(list, fPos);
             && begin <= Offset(list, i) < begin + (if count > 0 then count else 1)
             && begin + count <= Offset(list, i) + list[i].length
    ensures Ceil(list, fPos) + count <= |Flat(list)|
    ensures FlatRead(list, fPos, count) ==
              var begin := Ceil(list, fPos);
              Copied(Flat(list)[begin..begin + count], fPos + Offset(list, i) + list[i].length - begin)
  {
    var begin := Ceil(list, fPos);
    OffsetNext(list, i);
    FlatPrefix(list, i + 1);
    CeilAt(list, if count > 0 then begin + count else begin + 1, i + 1);
  }

  /** Copying from a chunk either leaves the traversal under way or makes the read complete. */
  lemma CopyChunk(list: seq<Chunk>, fPos: nat, count: nat, i: nat, user: seq<Byte>)
    requires ValidList(list) && fPos <= |Flat(list)| && Traversed(list, fPos, count, i, user)
    requires i < |list| && fPos <= Offset(list, i) && |user| <= count
    ensures Offset(list, i + 1) == Offset(list, i) + list[i].length
    ensures var user' := user + list[i].contents[..Min(list[i].length, count - |user|)];
            if |user'| < count
            then Traversed(list, fPos, count, i + 1, user') && |user'| == |user| + list[i].length
            else FlatRead(list, fPos, count) == Copied(user', fPos + |user| + list[i].length)
  {
    var begin := Ceil(list, fPos);
    var n := Min(list[i].length, count - |user|);
    CopyExtends(list, begin, i, n);
    OffsetNext(list, i);
    assert user + list[i].contents[..n] == Flat(list)[begin..Offset(list, i) + n];
    if |user| + n >= count {
      ReadStopsIn(list, fPos, count, i);
    } else {
      FlatPrefix(list, i + 1);
    }
  }

  /** Running out of chunks makes the read complete too. */
  lemma {:induction false} TraversalEnds(list: seq<Chunk>, fPos: nat, count: nat, user: seq<Byte>)
    requires ValidList(list) && fPos <= |Flat(list)| && Traversed(list, fPos, count, |list|, user)
    ensures FlatRead(list, fPos, count) == Copied(user, fPos + |user|)
  {
    OffsetEnds(list);
    CeilIsLeastBoundary(list, |Flat(list)|);
    CeilIsLeastBoundary(list, Ceil(list, fPos));
  }

  /** Chunk i is one of those a read of `count` bytes copies from when it begins at a boundary. */
  predicate Visited(list: seq<Chunk>, begin: nat, count: nat, i: nat)
    requires ValidList(list) && i < |list|
  {
    begin <= Offset(list, i) && (Offset(list, i) < begin + count || Offset(list, i) == begin)
  }

  /** Copying from one of the first n chunks fails. */
  ghost predicate FaultBefore(list: seq<Chunk>, begin: nat, count: nat, fault: nat -> bool, n: nat)
    requires ValidList(list) && n <= |list|
  {
    exists i :: 0 <= i < n && Visited(list, begin, count, i) && fault(i)
  }

  ghost predicate FaultOnTheWay(list: seq<Chunk>, begin: nat, count: nat, fault: nat -> bool)
    requires ValidList(list)
  {
    FaultBefore(list, begin, count, fault, |list|)
  }

  /**
   The traversal copies from chunk i exactly if it has got to fPos there. So it fails at chunk i, having not failed
   before, exactly if it has and the copy fails.
   */
  lemma {:induction false} FaultAt(list: seq<Chunk>, fPos: nat, count: nat, fault: nat -> bool, i: nat,
                                   user: seq<Byte>)
    requires ValidList(list) && fPos <= |Flat(list)| && Traversed(list, fPos, count, i, user) && i < |list|
    requires !FaultBefore(list, Ceil(list, fPos), count, fault, i)
    ensures FaultBefore(list, Ceil(list, fPos), count, fault, i + 1) <==> fPos <= Offset(list, i) && fault(i)
    ensures fPos <= Offset(list, i) && fault(i) ==> FaultOnTheWay(list, Ceil(list, fPos), count, fault)
  {
    var begin := Ceil(list, fPos);
    CeilIsLeastBoundary(list, fPos);
    assert Visited(list, begin, count, i) <==> fPos <= Offset(list, i);
    if FaultBefore(list, begin, count, fault, i + 1) {
      var j :| 0 <= j < i + 1 && Visited(list, begin, count, j) && fault(j);
      assert j == i;
    }
  }

  lemma NoFaultBeyond(list: seq<Chunk>, begin: nat, count: nat, fault: nat -> bool, i: nat)
    requires ValidList(list) && i <= |list| && begin + count <= Offset(list, i) && begin < Offset(list, i)
    ensures FaultOnTheWay(list, begin, count, fault) ==> FaultBefore(list, begin, count, fault, i)
  {
    forall j | i <= j < |list| ensures !Visited(list, begin, count, j) {
      OffsetsGrow(list, i, j);
    }
  }

  // ---------- What a write does ----------

  /** The write does not get past position i. */
  predicate StopsAt(user: seq<Byte>, fault: nat -> Fault, i: nat) {
    fault(i) != Fine || ClearAt(user, i)
  }

  /** The write stops because it has found the clear command; failing to allocate or to copy comes first. */
  predicate Clears(user: seq<Byte>, i: nat, fault: Fault) {
    ClearAt(user, i) && fault != NoMemory && fault != BadAddress
  }

  /** The first chunk-aligned position, from i on, that stops the write; the end of the input if none does. */
  function Stop(user: seq<Byte>, fault: nat -> Fault, i: nat): (stop: nat)
    ensures Min(i, |user|) <= stop <= |user|
    decreases |user| - i
  {
    if i >= |user| then |user|
    else if StopsAt(user, fault, i) then i
    else Stop(user, fault, i + INTERNAL_SIZE)
  }

  lemma {:induction false} StopIsFirst(user: seq<Byte>, fault: nat -> Fault, i: nat)
    requires Aligned(i)
    ensures var stop := Stop(user, fault, i);
            && (stop < |user| ==> Aligned(stop) && StopsAt(user, fault, stop))
            && forall j :: i <= j < stop && Aligned(j) ==> !StopsAt(user, fault, j)
    decreases |user| - i
  {
    if i >= |user| || StopsAt(user, fault, i) {
    } else {
      StopIsFirst(user, fault, i + INTERNAL_SIZE);
      forall j | i <= j < i + INTERNAL_SIZE && Aligned(j) ensures j == i {
        AlignedApart(i, j);
      }
    }
  }

  function Errno(fault: Fault): int {
    match fault
    case Fine => 0
    case NoMemory => ENOMEM
    case BadAddress => EFAULT
    case Interrupted => EINTR
  }

  /** The chunk that is cut off at position i of the input. */
  function ChunkAt(user: seq<Byte>, i: nat): Chunk
    requires i < |user|
  {
    MakeChunk(user[i..i + Min(INTERNAL_SIZE, |user| - i)])
  }

  /** What a write leaves of a list: all of it and the chunks that came before the write stopped, or nothing. */
  function ListAfter(before: seq<Chunk>, user: seq<Byte>, fault: nat -> Fault): seq<Chunk> {
    var stop := Stop(user, fault, 0);
    if stop < |user| && Clears(user, stop, fault(stop)) then [] else before + Chunking(user[..stop])
  }

  /** The list after `before`, to which the first n bytes of the input have been added in chunks. */
  ghost predicate Written(before: seq<Chunk>, user: seq<Byte>, n: nat, list: seq<Chunk>) {
    n <= |user| && list == before + Chunking(user[..n])
  }

  lemma {:induction false} WriteStep(before: seq<Chunk>, user: seq<Byte>, i: nat, list: seq<Chunk>)
    requires Aligned(i) && i < |user| && Written(before, user, i, list)
    ensures Written(before, user, Min(i + INTERNAL_SIZE, |user|), list + [ChunkAt(user, i)])
  {
    ChunkingStep(user, i);
  }

  /** What the rest of a write, from position i on, leaves of the list it has got so far. */
  function ListFrom(list: seq<Chunk>, user: seq<Byte>, fault: nat -> Fault, i: nat): seq<Chunk>
    decreases |user| - i
  {
    if i >= |user| then list
    else if !StopsAt(user, fault, i) then ListFrom(list + [ChunkAt(user, i)], user, fault, i + INTERNAL_SIZE)
    else if Clears(user, i, fault(i)) then [] else list
  }

  lemma {:induction false} ListFromIsListAfter(before: seq<Chunk>, user: seq<Byte>, fault: nat -> Fault, i: nat,
                                               list: seq<Chunk>)
    requires Aligned(i) && Written(before, user, Min(i, |user|), list)
    requires Stop(user, fault, i) == Stop(user, fault, 0)
    ensures ListFrom(list, user, fault, i) == ListAfter(before, user, fault)
    decreases |user| - i
  {
    if i >= |user| || StopsAt(user, fault, i) {
    } else {
      WriteStep(before, user, i, list);
      ListFromIsListAfter(before, user, fault, i + INTERNAL_SIZE, list + [ChunkAt(user, i)]);
    }
  }

  /** A write that no command stops leaves the string followed by as much of the input as it got through. */
  lemma {:induction false} StoppedWriteKeepsPrefix(user: seq<Byte>, before: seq<Chunk>, fault: nat -> Fault)
    requires ValidList(before)
    ensures var stop := Stop(user, fault, 0);
            if stop < |user| && Clears(user, stop, fault(stop)) then ListAfter(before, user, fault) == []
            else && ValidList(ListAfter(before, user, fault))
                 && Flat(ListAfter(before, user, fault)) == Flat(before) + user[..stop]
  {
    var done := user[..Stop(user, fault, 0)];
    ChunkingIsFlat(done);
    FlatConcat(before, Chunking(done));
  }

  /**
   One round of linked_read's loop: skip chunk i, or copy from it, in which case the read may be complete. What is
   carried from round to round is the position, the bytes copied, and the lengths of the chunks copied from.
   */
  method Visit(list: seq<Chunk>, fPos: nat, count: nat, i: nat, pos: nat, user: seq<Byte>)
      returns (complete: bool, pos': nat, user': seq<Byte>, reached: nat)
    requires ValidList(list) && fPos <= |Flat(list)| && Traversed(list, fPos, count, i, user)
    requires i < |list| && pos == Offset(list, i) && |user| <= count
    ensures complete ==> fPos <= pos && FlatRead(list, fPos, count) == Copied(user', fPos + |user| + reached)
    ensures complete ==> Ceil(list, fPos) < Offset(list, i + 1) && Ceil(list, fPos) + count <= Offset(list, i + 1)
    ensures !complete ==> Traversed(list, fPos, count, i + 1, user') && pos' == Offset(list, i + 1)
    ensures !complete ==> |user| + reached == |user'| <= count
    ensures !complete ==> if pos < fPos then pos < pos' && user' == user else |user| < |user'|
  {
    var data := list[i];
    var toCopy := Min(data.length, count - |user|);
    if pos < fPos {
      SkipChunk(list, fPos, count, i, user);
      return false, pos + data.length, user, 0;
    }
    CopyChunk(list, fPos, count, i, user);
    user' := user + data.contents[..toCopy];
    pos' := pos + toCopy;
    reached := data.length;
    complete := |user'| >= count;
  }

  class Buffer {
    var chunks: seq<Chunk>
    var totalLength: nat
    var readCount: nat
    var writeCount: nat

    /** What holds after every call, whether it succeeded or not. */
    ghost predicate Valid()
      reads this
    {
      ValidList(chunks) && totalLength == |Flat(chunks)|
    }

    constructor ()
      ensures Valid() && chunks == [] && totalLength == readCount == writeCount == 0
    {
      chunks, totalLength, readCount, writeCount := [], 0, 0, 0;
    }

    /** clean_list */
    method CleanList()
      modifies this
      ensures Valid() && chunks == []
      ensures readCount == old(readCount) && writeCount == old(writeCount)
    {
      while chunks != []
        invariant readCount == old(readCount) && writeCount == old(writeCount)
        decreases |chunks|
      {
        chunks := chunks[1..];
      }
      totalLength := 0;
    }

    /** list_add_tail, and the count of the new chunk's bytes. */
    method AddChunk(data: Chunk)
      requires Valid() && ValidChunk(data)
      modifies this
      ensures Valid() && chunks == old(chunks) + [data]
      ensures readCount == old(readCount) && writeCount == old(writeCount)
    {
      FlatConcat(chunks, [data]);
      assert Flat([data]) == Bytes(data) + Flat([]);
      chunks := chunks + [data];
      totalLength := totalLength + data.length;
    }

    /** linked_read's loop over the list; `fault(i)` tells whether copying from chunk i to the user fails. */
    method Traverse(fPos: nat, count: nat, fault: nat -> bool) returns (ok: bool, user: seq<Byte>, realLength: nat)
      requires Valid() && fPos <= totalLength
      ensures ok <==> !FaultOnTheWay(chunks, Ceil(chunks, fPos), count, fault)
      ensures ok ==> FlatRead(chunks, fPos, count) == Copied(user, fPos + realLength)
    {
      var list := chunks;
      ghost var begin := Ceil(list, fPos);
      CeilIsLeastBoundary(list, fPos);
      TraversalBegins(list, fPos, count);
      OffsetEnds(list);
      user, realLength := [], 0;
      var i, pos := 0, 0;
      while i < |list|
        invariant Traversed(list, fPos, count, i, user)
        invariant pos == Offset(list, i) && realLength == |user| <= count
        invariant !FaultBefore(list, begin, count, fault, i)
      {
        FaultAt(list, fPos, count, fault, i, user);
        if fPos <= pos && fault(i) {
          return false, user, realLength;
        }
        var complete, reached;
        complete, pos, user, reached := Visit(list, fPos, count, i, pos, user);
        realLength := realLength + reached;
        if complete {
          NoFaultBeyond(list, begin, count, fault, i + 1);
          return true, user, realLength;
        }
        i := i + 1;
      }
      TraversalEnds(list, fPos, count, user);
      return true, user, realLength;
    }

    /** linked_read; `interrupted` tells whether a signal comes before the lock. */
    method Read(fPos: nat, count: nat, interrupted: bool, fault: nat -> bool) returns (result: ReadResult)
      requires Valid()
      modifies this
      ensures chunks == old(chunks) && totalLength == old(totalLength) && writeCount == old(writeCount)
      ensures result ==
                if fPos <= totalLength && interrupted then Failed(EINTR)
                else if fPos <= totalLength && FaultOnTheWay(chunks, Ceil(chunks, fPos), count, fault)
                then Failed(EFAULT)
                else GuardedRead(chunks, totalLength, fPos, count)
      ensures readCount == old(readCount) + if fPos <= totalLength && result.Copied? then 1 else 0
    {
      if fPos > totalLength {
        return Copied([], fPos);
      }
      if interrupted {
        return Failed(EINTR);
      }
      var ok, user, realLength := Traverse(fPos, count, fault);
      if !ok {
        return Failed(EFAULT);
      }
      readCount := readCount + 1;
      return Copied(user, fPos + realLength);
    }

    /** One round of linked_write's loop, at position i of the input. */
    method WriteAt(user: seq<Byte>, i: nat, fault: Fault) returns (goesOn: bool, result: int)
      requires Valid() && i < |user|
      modifies this
      ensures Valid() && readCount == old(readCount) && writeCount == old(writeCount)
      ensures goesOn <==> fault == Fine && !ClearAt(user, i)
      ensures goesOn ==> chunks == old(chunks) + [ChunkAt(user, i)]
      ensures fault == NoMemory ==> chunks == old(chunks) && result == -ENOMEM
      ensures fault == BadAddress ==> chunks == old(chunks) && result == -EFAULT
      ensures fault == Interrupted && !ClearAt(user, i) ==> chunks == old(chunks) && result == -EINTR
      ensures (fault == Interrupted || fault == Fine) && ClearAt(user, i) ==> chunks == [] && result == |user|
    {
      var toCopy := Min(INTERNAL_SIZE, |user| - i);
      if fault == NoMemory {
        return false, -ENOMEM;
      }
      if fault == BadAddress {
        return false, -EFAULT;
      }
      var data := MakeChunk(user[i..i + toCopy]);
      ChunkTellsClear(user, i);
      if data.contents == CLEAR_COMMAND {
        CleanList();
        return false, |user|;
      }
      if fault == Interrupted {
        return false, -EINTR;
      }
      AddChunk(data);
      return true, 0;
    }

    /**
     linked_write; `fault(i)` is what goes wrong at position i of the input. Whatever was cut off before the write
     stopped has been appended; a clear command empties the list and drops the rest of the input.
     */
    method Write(user: seq<Byte>, fPos: nat, fault: nat -> Fault) returns (result: int, newPos: nat)
      requires Valid()
      modifies this
      ensures Valid() && readCount == old(readCount)
      ensures var stop := Stop(user, fault, 0);
              && newPos == fPos + stop
              && chunks == ListAfter(old(chunks), user, fault)
              && result == (if stop < |user| && !Clears(user, stop, fault(stop)) then -Errno(fault(stop)) else |user|)
              && writeCount == old(writeCount) + if stop == |user| then 1 else 0
    {
      newPos := fPos;
      ListFromIsListAfter(chunks, user, fault, 0, chunks);
      var i := 0;
      while i < |user|
        invariant newPos == fPos + Min(i, |user|)
        invariant Valid() && readCount == old(readCount) && writeCount == old(writeCount)
        invariant Stop(user, fault, i) == Stop(user, fault, 0)
        invariant ListFrom(chunks, user, fault, i) == ListAfter(old(chunks), user, fault)
      {
        var goesOn;
        goesOn, result := WriteAt(user, i, fault(i));
        if !goesOn {
          return;
        }
        newPos := newPos + Min(INTERNAL_SIZE, |user| - i);
        i := i + INTERNAL_SIZE;
      }
      writeCount := writeCount + 1;
      return |user|, newPos;
    }
  }

  // ---------- Writes and reads together ----------

  function AllFine(i: nat): Fault {
    Fine
  }

  /** With nothing going wrong, a write stops early exactly if some aligned four bytes are the command. */
  lemma {:induction false} StopsOnlyForCommand(user: seq<Byte>)
    ensures var stop := Stop(user, AllFine, 0);
            && (stop < |user| <==> HasCommand(user))
            && (stop < |user| ==> Clears(user, stop, Fine))
  {
    StopIsFirst(user, AllFine, 0);
    var stop := Stop(user, AllFine, 0);
    if stop < |user| {
      assert ClearAt(user, stop);
    } else {
      forall i: nat | Aligned(i) ensures !ClearAt(user, i) {
        assert i < stop ==> !StopsAt(user, AllFine, i);
      }
    }
  }

  /** The buffer after a write in which nothing goes wrong: emptied by an aligned command, or grown by the input. */
  lemma {:induction false} WriteIsTwoCase(user: seq<Byte>, before: seq<Chunk>)
    requires ValidList(before)
    ensures ValidList(ListAfter(before, user, AllFine))
    ensures if HasCommand(user) then ListAfter(before, user, AllFine) == []
            else && ListAfter(before, user, AllFine) == before + Chunking(user)
                 && Flat(ListAfter(before, user, AllFine)) == Flat(before) + user
  {
    StopsOnlyForCommand(user);
    if !HasCommand(user) {
      assert user[..|user|] == user;
      ChunkingIsFlat(user);
      FlatConcat(before, Chunking(user));
    }
  }

  /** Four bytes empty the buffer exactly if they are "xxx&". */
  lemma {:induction false} CommandIsXxxAmpersand(user: seq<Byte>, before: seq<Chunk>)
    requires ValidList(before) && |user| == 4
    ensures ListAfter(before, user, AllFine) == [] <==> user == [120, 120, 120, 38]
  {
    WriteIsTwoCase(user, before);
    assert user[0..4] == user;
    if user == [120, 120, 120, 38] {
      assert ClearAt(user, 0);
    }
  }

  /**
   One long enough read after a write to an empty buffer gives back what was written, or nothing if an aligned
   command was in it.
   */
  lemma WriteThenRead(user: seq<Byte>, count: nat)
    requires count >= |user|
    ensures ValidList(ListAfter([], user, AllFine))
    ensures FlatRead(ListAfter([], user, AllFine), 0, count).Copied?
    ensures FlatRead(ListAfter([], user, AllFine), 0, count).bytes ==
              if HasCommand(user) then [] else user
  {
    WriteIsTwoCase(user, []);
  }
}
