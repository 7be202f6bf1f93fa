/**
 Classes5/linked_buffer/rcu/linked_buffer.c: a read that takes no lock against writers, so that chunks may be
 appended at any point of its traversal.
 */
module LinkedRcu {
  import opened ByteStrings
  import opened ChunkLists
  import opened LinkedBuffer

  /** Appending leaves a traversal under way as it was. */
  lemma {:induction false} AppendsAreHarmless(list: seq<Chunk>, more: seq<Chunk>, fPos: nat, count: nat, i: nat,
                                              user: seq<Byte>)
    requires ValidList(list) && ValidList(more) && fPos <= |Flat(list)|
    requires Traversed(list, fPos, count, i, user)
    ensures fPos <= |Flat(list + more)| && Traversed(list + more, fPos, count, i, user)
    ensures Offset(list + more, i) == Offset(list, i) && Ceil(list + more, fPos) == Ceil(list, fPos)
  {
    FlatConcat(list, more);
    CeilOfLonger(list, more, fPos);
    assert (list + more)[..i] == list[..i];
    FlatPrefix(list, i);
  }

  /** Nor does it change which of the chunks passed so far were copied from. */
  lemma AppendsKeepFaults(list: seq<Chunk>, more: seq<Chunk>, begin: nat, count: nat, fault: nat -> bool, i: nat)
    requires ValidList(list) && ValidList(more) && i <= |list|
    ensures FaultBefore(list + more, begin, count, fault, i) <==> FaultBefore(list, begin, count, fault, i)
  {
    forall j | 0 <= j < i ensures Visited(list + more, begin, count, j) <==> Visited(list, begin, count, j) {
      assert (list + more)[..j] == list[..j];
    }
  }

  /** The traversal of `list` for a read at fPos has come to chunk i, at `pos`, without a fault. */
  ghost predicate UnderWay(list: seq<Chunk>, fPos: nat, count: nat, fault: nat -> bool, i: nat, pos: nat,
                           user: seq<Byte>)
  {
    && ValidList(list) && fPos <= |Flat(list)|
    && Traversed(list, fPos, count, i, user)
    && pos == Offset(list, i) && |user| <= count
    && !FaultBefore(list, Ceil(list, fPos), count, fault, i)
  }

  lemma {:induction false} AppendsKeepUnderWay(list: seq<Chunk>, more: seq<Chunk>, fPos: nat, count: nat,
                                               fault: nat -> bool, i: nat, pos: nat, user: seq<Byte>)
    requires UnderWay(list, fPos, count, fault, i, pos, user) && ValidList(more)
    ensures UnderWay(list + more, fPos, count, fault, i, pos, user)
  {
    AppendsAreHarmless(list, more, fPos, count, i, user);
    AppendsKeepFaults(list, more, Ceil(list, fPos), count, fault, i);
  }

  /** What has been appended before fetches 0 to k - 1, in order. */
  function Joined(appended: nat -> seq<Chunk>, k: nat): seq<Chunk> {
    if k == 0 then [] else Joined(appended, k - 1) + appended(k - 1)
  }

  /** If nothing is appended, nothing has been. */
  lemma {:induction false} NothingJoined(appended: nat -> seq<Chunk>, k: nat)
    requires forall j :: appended(j) == []
    ensures Joined(appended, k) == []
  {
    if k == 0 {
    } else {
      NothingJoined(appended, k - 1);
    }
  }

  /** What comes before chunk i does not complete a read of `count` bytes that begins at boundary `begin`. */
  predicate NeedsMore(list: seq<Chunk>, begin: nat, count: nat, i: nat)
    requires ValidList(list) && i <= |list|
  {
    Offset(list, i) <= begin || Offset(list, i) < begin + count
  }

  /** The read is complete with the chunk before chunk i, and not without it. */
  predicate StopsBefore(list: seq<Chunk>, begin: nat, count: nat, i: nat)
    requires ValidList(list)
  {
    1 <= i <= |list| && !NeedsMore(list, begin, count, i) && NeedsMore(list, begin, count, i - 1)
  }

  /**
   What the loop has found when it is left after the given number of fetches: one for every chunk up to the one with
   which the read is complete or fails, or for all of them and the end of the list.
   */
  ghost predicate Finished(list: seq<Chunk>, fPos: nat, count: nat, fault: nat -> bool, fetches: nat, ok: bool,
                           user: seq<Byte>, realLength: nat)
  {
    && ValidList(list) && fPos <= |Flat(list)|
    && (ok <==> !FaultOnTheWay(list, Ceil(list, fPos), count, fault))
    && if ok
       then && FlatRead(list, fPos, count) == Copied(user, fPos + realLength)
            && (StopsBefore(list, Ceil(list, fPos), count, fetches) ||
                (fetches == |list| + 1 && NeedsMore(list, Ceil(list, fPos), count, |list|)))
       else 1 <= fetches <= |list| && Visited(list, Ceil(list, fPos), count, fetches - 1) && fault(fetches - 1)
  }

  /** A chunk that the traversal looks at is one it needs to look at. */
  lemma {:induction false} LooksNoFurther(list: seq<Chunk>, fPos: nat, count: nat, i: nat, user: seq<Byte>)
    requires ValidList(list) && fPos <= |Flat(list)| && Traversed(list, fPos, count, i, user)
    ensures NeedsMore(list, Ceil(list, fPos), count, i)
    ensures i < |list| && fPos <= Offset(list, i) ==> Visited(list, Ceil(list, fPos), count, i)
  {
    CeilIsLeastBoundary(list, fPos);
  }

  /** One round of the loop, from the fetch of entry i on: go on to the next one, or leave the loop. */
  method Fetch(list: seq<Chunk>, fPos: nat, count: nat, fault: nat -> bool, i: nat, pos: nat, user: seq<Byte>)
      returns (leaves: bool, ok: bool, pos': nat, user': seq<Byte>, realLength: nat)
    requires UnderWay(list, fPos, count, fault, i, pos, user)
    ensures leaves ==> Finished(list, fPos, count, fault, i + 1, ok, user', realLength)
    ensures !leaves ==> UnderWay(list, fPos, count, fault, i + 1, pos', user') && realLength == |user'|
    ensures !leaves ==> if pos < fPos then pos < pos' && user' == user else |user| < |user'|
  {
    LooksNoFurther(list, fPos, count, i, user);
    if i == |list| {
      TraversalEnds(list, fPos, count, user);
      return true, true, pos, user, |user|;
    }
    FaultAt(list, fPos, count, fault, i, user);
    if fPos <= pos && fault(i) {
      return true, false, pos, user, |user|;
    }
    var reached;
    leaves, pos', user', reached := Visit(list, fPos, count, i, pos, user);
    if leaves {
      NoFaultBeyond(list, Ceil(list, fPos), count, fault, i + 1);
    }
    ok, realLength := true, |user| + reached;
  }

  /**
   linked_read's loop when `appended(k)` is added to the list just before it fetches its k-th entry; `fault(i)` tells
   whether copying from chunk i to the user fails. `list` is the list as it stands at the end.
   */
  method Traverse(chunks: seq<Chunk>, fPos: nat, count: nat, appended: nat -> seq<Chunk>, fault: nat -> bool)
      returns (ok: bool, user: seq<Byte>, realLength: nat, list: seq<Chunk>, fetches: nat)
    requires ValidList(chunks) && fPos <= |Flat(chunks)|
    requires forall k :: ValidList(appended(k))
    ensures list == chunks + Joined(appended, fetches)
    ensures Finished(list, fPos, count, fault, fetches, ok, user, realLength)
  {
    TraversalBegins(chunks, fPos, count);
    OffsetEnds(chunks);
    list, user, fetches := chunks, [], 0;
    var pos := 0;
    while true
      invariant list == chunks + Joined(appended, fetches)
      invariant UnderWay(list, fPos, count, fault, fetches, pos, user)
      decreases if pos < fPos then fPos - pos else 0, count - |user|
    {
      AppendsKeepUnderWay(list, appended(fetches), fPos, count, fault, fetches, pos, user);
      Associates(chunks, Joined(appended, fetches), appended(fetches));
      list := list + appended(fetches);
      var leaves;
      leaves, ok, pos, user, realLength := Fetch(list, fPos, count, fault, fetches, pos, user);
      fetches := fetches + 1;
      if leaves {
        return;
      }
    }
  }

  /**
   linked_read. Whatever is appended and whenever, the result is that of a read of the list as it stands when the
   traversal ends. `totalLength` may lag behind the list, because a writer adds to it only after appending.
   */
  method Read(chunks: seq<Chunk>, totalLength: nat, fPos: nat, count: nat, appended: nat -> seq<Chunk>,
              fault: nat -> bool)
      returns (result: ReadResult, list: seq<Chunk>, fetches: nat)
    requires ValidList(chunks) && totalLength <= |Flat(chunks)|
    requires forall k :: ValidList(appended(k))
    ensures list == chunks + Joined(appended, fetches) && ValidList(list) && totalLength <= |Flat(list)|
    ensures (forall k :: appended(k) == []) ==> list == chunks
    ensures fPos > totalLength ==> fetches == 0
    ensures result ==
              if fPos <= totalLength && FaultOnTheWay(list, Ceil(list, fPos), count, fault) then Failed(EFAULT)
              else GuardedRead(list, totalLength, fPos, count)
  {
    if fPos > totalLength {
      return Copied([], fPos), chunks, 0;
    }
    var ok, user, realLength;
    ok, user, realLength, list, fetches := Traverse(chunks, fPos, count, appended, fault);
    FlatOfPrefix(chunks, list);
    if forall k :: appended(k) == [] {
      NothingJoined(appended, fetches);
    }
    return if ok then Copied(user, fPos + realLength) else Failed(EFAULT), list, fetches;
  }

  /**
   So an overlapped read from a boundary gives one contiguous piece of the final string, at least as much as the
   list held when it began, and leaves the cursor on a boundary of the final list.
   */
  lemma {:induction false} OverlappedReadIsContiguous(chunks: seq<Chunk>, list: seq<Chunk>, fPos: nat, count: nat)
    requires ValidList(chunks) && ValidList(list) && chunks <= list
    requires IsBoundary(chunks, fPos) && fPos <= |Flat(chunks)| && count > 0
    ensures fPos <= |Flat(chunks)| <= |Flat(list)|
    ensures var r, end := FlatRead(list, fPos, count), Min(fPos + count, |Flat(list)|);
            && r.bytes == Flat(list)[fPos..end]
            && Min(count, |Flat(chunks)| - fPos) <= |r.bytes|
            && IsBoundary(list, r.newPos) && end <= r.newPos < end + INTERNAL_SIZE
  {
    BoundariesStay(chunks, list, fPos);
    ReadFromBoundary(list, fPos, count);
    LongerSlice(Flat(list), fPos, count, |Flat(chunks)|);
  }

  lemma LongerSlice(flat: seq<Byte>, fPos: nat, count: nat, known: nat)
    requires fPos <= known <= |flat|
    ensures fPos <= Min(fPos + count, |flat|) <= |flat|
    ensures Min(count, known - fPos) <= |flat[fPos..Min(fPos + count, |flat|)]|
  {
  }

  lemma {:induction false} FlatOfPrefix(chunks: seq<Chunk>, list: seq<Chunk>)
    requires ValidList(chunks) && ValidList(list) && chunks <= list
    ensures |Flat(chunks)| <= |Flat(list)|
  {
    assert list[..|chunks|] == chunks;
    FlatPrefix(list, |chunks|);
  }

  lemma {:induction false} BoundariesStay(chunks: seq<Chunk>, list: seq<Chunk>, x: nat)
    requires ValidList(chunks) && ValidList(list) && chunks <= list && IsBoundary(chunks, x)
    ensures IsBoundary(list, x) && |Flat(chunks)| <= |Flat(list)|
  {
    var i :| 0 <= i <= |chunks| && Offset(chunks, i) == x;
    assert list[..i] == chunks[..i];
    assert Offset(list, i) == x;
    FlatOfPrefix(chunks, list);
  }
}
