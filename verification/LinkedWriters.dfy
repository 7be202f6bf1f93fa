/**
 Concurrent calls of linked_write, as in Classes5/linked_buffer/mutex/linked_buffer.c: the append is guarded by a
 lock, the addition to total_length is not. No input holds the clear command.
 */
module LinkedWriters {
  import opened Counting
  import opened ByteStrings
  import opened ChunkLists

  datatype Pc =
    | Appending              // make a chunk and append it, or return if the input is used up
    | Loading                // load total_length
    | Adding(loaded: nat)    // store loaded + length into total_length
    | Returned(all: bool)    // with `count`, or early with an error

  /** One call: its input, how far it has come in it, and where it is. */
  datatype Writer = Writer(input: seq<Byte>, i: nat, pc: Pc)

  /** An entry of the list, with the number of the call that appended it. */
  datatype Entry = Entry(writer: nat, chunk: Chunk)

  datatype State = State(writers: seq<Writer>, list: seq<Entry>, totalLength: nat)

  /** One step of a call; one that fails stops early, on a failed allocation, copy or lock. */
  datatype Action = Turn(writer: nat) | Fail(writer: nat)

  function ChunkLength(t: Writer): nat {
    if t.i < |t.input| then Min(INTERNAL_SIZE, |t.input| - t.i) else 0
  }

  predicate CanAct(s: State, a: Action) {
    && a.writer < |s.writers|
    && var t := s.writers[a.writer];
       match a
       case Turn(_) => !t.pc.Returned?
       case Fail(_) => t.pc == Appending && t.i < |t.input|
  }

  function Act(s: State, a: Action): State
    requires CanAct(s, a)
  {
    var w, t := a.writer, s.writers[a.writer];
    match a
    case Fail(_) => s.(writers := s.writers[w := t.(pc := Returned(false))])
    case Turn(_) =>
      match t.pc
      case Appending =>
        if t.i >= |t.input| then s.(writers := s.writers[w := t.(pc := Returned(true))])
        else s.(writers := s.writers[w := t.(pc := Loading)],
                list := s.list + [Entry(w, MakeChunk(t.input[t.i..t.i + ChunkLength(t)]))])
      case Loading => s.(writers := s.writers[w := t.(pc := Adding(s.totalLength))])
      case Adding(loaded) =>
        s.(writers := s.writers[w := t.(i := t.i + INTERNAL_SIZE, pc := Appending)],
           totalLength := loaded + ChunkLength(t))
  }

  // ---------- Runs ----------

  ghost predicate Runs(s: State, run: seq<Action>)
    decreases run
  {
    run == [] || (CanAct(s, run[0]) && Runs(Act(s, run[0]), run[1..]))
  }

  function After(s: State, run: seq<Action>): State
    requires Runs(s, run)
    decreases run
  {
    if run == [] then s else After(Act(s, run[0]), run[1..])
  }

  ghost predicate Initial(s: State) {
    && s.list == [] && s.totalLength == 0
    && forall w :: 0 <= w < |s.writers| ==>
         && s.writers[w].i == 0 && s.writers[w].pc == Appending
         && !HasCommand(s.writers[w].input)
  }

  // ---------- What every step keeps ----------

  /** The chunks that call w has appended, in list order. */
  function Projection(list: seq<Entry>, w: nat): seq<Chunk> {
    if list == [] then [] else
      Projection(list[..|list| - 1], w) +
      if list[|list| - 1].writer == w then [list[|list| - 1].chunk] else []
  }

  lemma {:induction false} ProjectionAppend(list: seq<Entry>, e: Entry, w: nat)
    ensures Projection(list + [e], w) == Projection(list, w) + if e.writer == w then [e.chunk] else []
  {
    assert (list + [e])[..|list|] == list;
  }

  function Length(e: Entry): nat {
    e.chunk.length
  }

  /** A call between appending a chunk and adding its length. */
  predicate Midway(t: Writer) {
    t.pc.Loading? || t.pc.Adding?
  }

  /** Such a call has a chunk to add. */
  predicate OnTrack(t: Writer) {
    Midway(t) ==> t.i < |t.input|
  }

  /** How much of its input a call has appended. */
  function Appended(t: Writer): nat {
    if Midway(t) then t.i + ChunkLength(t) else Min(t.i, |t.input|)
  }

  /** Bytes that a call has appended and not yet added to total_length. */
  function Pending(t: Writer): nat {
    if Midway(t) then ChunkLength(t) else 0
  }

  ghost predicate ProjectionInv(s: State, w: nat)
    requires w < |s.writers|
  {
    var t := s.writers[w];
    && Aligned(t.i)
    && OnTrack(t)
    && (t.pc == Returned(true) ==> t.i >= |t.input|)
    && Appended(t) <= |t.input|
    && Projection(s.list, w) == Chunking(t.input[..Appended(t)])
  }

  /**
   At least `lost` bytes of the list will never be in total_length: they are neither in it, nor in what some call has
   loaded, nor pending. With 0 lost, no total is ahead of the list.
   */
  ghost predicate Behind(s: State, lost: nat) {
    && s.totalLength + Sum(Pending, s.writers) + lost <= Sum(Length, s.list)
    && forall w :: 0 <= w < |s.writers| && s.writers[w].pc.Adding? ==>
         s.writers[w].pc.loaded + Sum(Pending, s.writers) + lost <= Sum(Length, s.list)
  }

  ghost predicate Inv(s: State) {
    && (forall w :: 0 <= w < |s.writers| ==> ProjectionInv(s, w))
    && (forall k :: 0 <= k < |s.list| ==> s.list[k].writer < |s.writers|)
    && Behind(s, 0)
    && Sum(Length, s.list) == Sum(Appended, s.writers)
  }

  lemma InitialInv(s: State)
    requires Initial(s)
    ensures Inv(s)
  {
    SumConstant(Pending, s.writers, 0);
    SumConstant(Appended, s.writers, 0);
    forall w | 0 <= w < |s.writers| ensures ProjectionInv(s, w) {
      assert s.writers[w].input[..0] == [];
    }
  }

  lemma OthersKeepProjection(s: State, a: Action, w: nat)
    requires CanAct(s, a) && w < |s.writers| && w != a.writer && ProjectionInv(s, w)
    ensures ProjectionInv(Act(s, a), w)
  {
    var s' := Act(s, a);
    assert s'.writers[w] == s.writers[w];
    if |s'.list| > |s.list| {
      ProjectionAppend(s.list, s'.list[|s.list|], w);
    }
  }

  /** The chunk that a call cuts off carries on the chunking of what it has appended. */
  lemma NextChunk(t: Writer)
    requires Aligned(t.i) && t.pc == Appending && t.i < |t.input|
    ensures var t', chunk := t.(pc := Loading), MakeChunk(t.input[t.i..t.i + ChunkLength(t)]);
            && Appended(t) <= Appended(t') <= |t.input|
            && Chunking(t.input[..Appended(t')]) == Chunking(t.input[..Appended(t)]) + [chunk]
  {
    ChunkingStep(t.input, t.i);
  }

  lemma AppendKeepsProjection(s: State, w: nat)
    requires w < |s.writers| && ProjectionInv(s, w)
    requires s.writers[w].pc == Appending && s.writers[w].i < |s.writers[w].input|
    ensures ProjectionInv(Act(s, Turn(w)), w)
  {
    var t, s' := s.writers[w], Act(s, Turn(w));
    NextChunk(t);
    ProjectionAppend(s.list, s'.list[|s.list|], w);
    assert s'.writers[w] == t.(pc := Loading);
  }

  lemma ActKeepsProjection(s: State, a: Action, w: nat)
    requires CanAct(s, a) && w < |s.writers| && ProjectionInv(s, w)
    ensures ProjectionInv(Act(s, a), w)
  {
    var t := s.writers[w];
    if w != a.writer {
      OthersKeepProjection(s, a, w);
    } else if a.Turn? && t.pc == Appending && t.i < |t.input| {
      AppendKeepsProjection(s, w);
    } else {
      assert Act(s, a).list == s.list && Appended(Act(s, a).writers[w]) == Appended(t);
    }
  }

  /** Whether an action makes its call append a chunk. */
  predicate Appends(s: State, a: Action)
    requires CanAct(s, a)
  {
    a.Turn? && s.writers[a.writer].pc == Appending && s.writers[a.writer].i < |s.writers[a.writer].input|
  }

  /** What an action changes in the numbers of its own call, and in the list. */
  lemma ActMovesMover(s: State, a: Action)
    requires CanAct(s, a) && OnTrack(s.writers[a.writer])
    ensures var s', t := Act(s, a), s.writers[a.writer];
            var t', gain := s'.writers[a.writer], if Appends(s, a) then ChunkLength(t) else 0;
            && s'.writers == s.writers[a.writer := t']
            && Appended(t') == Appended(t) + gain
            && (if Appends(s, a) then s'.list == s.list + [s'.list[|s.list|]] && Length(s'.list[|s.list|]) == gain
                else s'.list == s.list)
  {
  }

  /** What an action changes in the sums over calls and entries. */
  lemma ActMovesSums(s: State, a: Action)
    requires CanAct(s, a) && OnTrack(s.writers[a.writer])
    ensures var s', t := Act(s, a), s.writers[a.writer];
            var t', gain := s'.writers[a.writer], if Appends(s, a) then ChunkLength(t) else 0;
            && Sum(Length, s'.list) == Sum(Length, s.list) + gain
            && Sum(Appended, s'.writers) == Sum(Appended, s.writers) + gain
            && Sum(Pending, s'.writers) + Pending(t) == Sum(Pending, s.writers) + Pending(t')
  {
    var s' := Act(s, a);
    ActMovesMover(s, a);
    SumUpdate(Pending, s.writers, a.writer, s'.writers[a.writer]);
    SumUpdate(Appended, s.writers, a.writer, s'.writers[a.writer]);
    if Appends(s, a) {
      SumAppend(Length, s.list, s'.list[|s.list|]);
    }
  }

  /** What is lost stays lost, whatever is done next. */
  lemma ActKeepsBehind(s: State, a: Action, lost: nat)
    requires Behind(s, lost) && CanAct(s, a) && OnTrack(s.writers[a.writer])
    ensures Behind(Act(s, a), lost)
  {
    ActMovesSums(s, a);
    var s', t := Act(s, a), s.writers[a.writer];
    assert s'.totalLength == if t.pc.Adding? then t.pc.loaded + ChunkLength(t) else s.totalLength;
    assert forall u :: 0 <= u < |s.writers| && u != a.writer ==> s'.writers[u] == s.writers[u];
  }

  lemma ActKeepsInv(s: State, a: Action)
    requires Inv(s) && CanAct(s, a)
    ensures Inv(Act(s, a))
  {
    forall w | 0 <= w < |s.writers| ensures ProjectionInv(Act(s, a), w) {
      ActKeepsProjection(s, a, w);
    }
    assert ProjectionInv(s, a.writer);
    ActMovesSums(s, a);
    ActKeepsBehind(s, a, 0);
  }

  ghost predicate SameInputs(s: State, s': State) {
    |s'.writers| == |s.writers| && forall w :: 0 <= w < |s.writers| ==> s'.writers[w].input == s.writers[w].input
  }

  lemma {:induction false} RunKeepsInv(s: State, run: seq<Action>)
    requires Inv(s) && Runs(s, run)
    ensures Inv(After(s, run)) && SameInputs(s, After(s, run))
    decreases run
  {
    if run == [] {
    } else {
      ActKeepsInv(s, run[0]);
      RunKeepsInv(Act(s, run[0]), run[1..]);
    }
  }

  // ---------- Results about whole runs ----------

  /**
   Concurrent writes shuffle without loss: every entry is some call's, and each call's entries, in list order, are
   the chunking of the part of its input that it has written, which is all of it if it returned the full count.
   */
  lemma {:induction false} ShuffleWithoutLoss(s: State, run: seq<Action>, w: nat)
    requires Initial(s) && Runs(s, run) && w < |s.writers|
    ensures var e := After(s, run);
            && |e.writers| == |s.writers| && (forall k :: 0 <= k < |e.list| ==> e.list[k].writer < |s.writers|)
            && var n, input := Appended(e.writers[w]), s.writers[w].input;
               && n <= |input|
               && Projection(e.list, w) == Chunking(input[..n])
               && Flat(Chunking(input[..n])) == input[..n]
               && (e.writers[w].pc == Returned(true) ==> n == |input|)
  {
    InitialInv(s);
    RunKeepsInv(s, run);
    var e := After(s, run);
    assert ProjectionInv(e, w);
    ChunkingIsFlat(s.writers[w].input[..Appended(e.writers[w])]);
  }

  /** An action adds at most one entry, its own, and adds it at the end. */
  lemma ActAppends(s: State, a: Action)
    requires CanAct(s, a)
    ensures s.list <= Act(s, a).list && |Act(s, a).list| <= |s.list| + 1
    ensures |Act(s, a).list| > |s.list| ==> Act(s, a).list[|s.list|].writer == a.writer
  {
  }

  /** The list only ever grows, and only at its end: what a reader has passed stays where it was. */
  lemma {:induction false} RunAppends(s: State, run: seq<Action>)
    requires Runs(s, run)
    ensures s.list <= After(s, run).list
    decreases run
  {
    if run == [] {
    } else {
      ActAppends(s, run[0]);
      RunAppends(Act(s, run[0]), run[1..]);
    }
  }

  function Chunks(list: seq<Entry>): (chunks: seq<Chunk>)
    ensures |chunks| == |list| && forall k :: 0 <= k < |list| ==> chunks[k] == list[k].chunk
  {
    seq(|list|, k requires 0 <= k < |list| => list[k].chunk)
  }

  /** Only call w moves. */
  ghost predicate OnlyBy(run: seq<Action>, w: nat) {
    forall k :: 0 <= k < |run| ==> run[k].writer == w
  }

  ghost predicate AddedBy(list: seq<Entry>, list': seq<Entry>, w: nat) {
    list <= list' && forall k :: |list| <= k < |list'| ==> list'[k].writer == w
  }

  lemma {:induction false} RunAloneAppends(s: State, run: seq<Action>, w: nat)
    requires Runs(s, run) && OnlyBy(run, w)
    ensures AddedBy(s.list, After(s, run).list, w)
    ensures |After(s, run).writers| == |s.writers|
    ensures forall u :: 0 <= u < |s.writers| && u != w ==> After(s, run).writers[u] == s.writers[u]
    decreases run
  {
    if run == [] {
    } else {
      ActAppends(s, run[0]);
      RunAloneAppends(Act(s, run[0]), run[1..], w);
    }
  }

  /** If everything that was added is w's, w's projection has grown by exactly that. */
  lemma {:induction false} ProjectionOfAdded(list: seq<Entry>, list': seq<Entry>, w: nat)
    requires AddedBy(list, list', w)
    ensures Projection(list', w) == Projection(list, w) + Chunks(list')[|list|..]
    decreases |list'|
  {
    if list == list' {
    } else {
      var last := |list'| - 1;
      ProjectionOfAdded(list, list'[..last], w);
      assert Chunks(list')[|list|..] == Chunks(list'[..last])[|list|..] + [list'[last].chunk];
    }
  }

  /** A call that runs alone from its start adds the chunking of what it has written to the end of the list. */
  lemma {:induction false} CallAlone(s: State, run: seq<Action>, w: nat)
    requires Inv(s) && Runs(s, run) && OnlyBy(run, w)
    requires w < |s.writers| && s.writers[w].i == 0 && s.writers[w].pc == Appending
    ensures var e := After(s, run);
            && |e.writers| == |s.writers| && Appended(e.writers[w]) <= |s.writers[w].input|
            && Chunks(e.list) == Chunks(s.list) + Chunking(s.writers[w].input[..Appended(e.writers[w])])
  {
    var e := After(s, run);
    RunKeepsInv(s, run);
    RunAloneAppends(s, run, w);
    ProjectionOfAdded(s.list, e.list, w);
    assert ProjectionInv(s, w) && ProjectionInv(e, w);
    assert s.writers[w].input[..0] == [];
    assert Chunks(e.list) == Chunks(s.list) + Chunks(e.list)[|s.list|..];
  }

  /** One call after the other, each alone and to its full count. */
  ghost predicate Serial(s: State, order: seq<nat>, runs: seq<seq<Action>>)
    requires |runs| == |order|
    decreases |order|
  {
    order == [] ||
    (&& Runs(s, runs[0]) && OnlyBy(runs[0], order[0])
     && var e := After(s, runs[0]);
        && order[0] < |e.writers| && e.writers[order[0]].pc == Returned(true)
        && Serial(e, order[1..], runs[1..]))
  }

  function AfterAll(s: State, order: seq<nat>, runs: seq<seq<Action>>): State
    requires |runs| == |order| && Serial(s, order, runs)
    decreases |order|
  {
    if order == [] then s else AfterAll(After(s, runs[0]), order[1..], runs[1..])
  }

  function Chunkings(s: State, order: seq<nat>): seq<Chunk>
    requires forall k :: 0 <= k < |order| ==> order[k] < |s.writers|
  {
    if order == [] then [] else Chunking(s.writers[order[0]].input) + Chunkings(s, order[1..])
  }

  /** The calls in `order` are all different and none has begun. */
  ghost predicate Unbegun(s: State, order: seq<nat>) {
    && (forall k :: 0 <= k < |order| ==>
          order[k] < |s.writers| && s.writers[order[k]].i == 0 && s.writers[order[k]].pc == Appending)
    && forall j, k :: 0 <= j < k < |order| ==> order[j] != order[k]
  }

  lemma {:induction false} SameChunkings(s: State, e: State, order: seq<nat>)
    requires SameInputs(s, e) && forall k :: 0 <= k < |order| ==> order[k] < |s.writers|
    ensures Chunkings(s, order) == Chunkings(e, order)
  {
    if order == [] {
    } else {
      SameChunkings(s, e, order[1..]);
    }
  }

  /** Calls made one after the other leave their chunkings one after the other. */
  lemma {:induction false} OneAfterAnother(s: State, order: seq<nat>, runs: seq<seq<Action>>)
    requires Inv(s) && Unbegun(s, order) && |runs| == |order| && Serial(s, order, runs)
    ensures Chunks(AfterAll(s, order, runs).list) == Chunks(s.list) + Chunkings(s, order)
    decreases |order|
  {
    if order == [] {
    } else {
      var w, e := order[0], After(s, runs[0]);
      FirstReturns(s, runs[0], w);
      RunKeepsInv(s, runs[0]);
      RunAloneAppends(s, runs[0], w);
      assert Unbegun(e, order[1..]);
      OneAfterAnother(e, order[1..], runs[1..]);
      SameChunkings(s, e, order[1..]);
      Associates(Chunks(s.list), Chunking(s.writers[w].input), Chunkings(s, order[1..]));
    }
  }

  lemma {:induction false} FirstReturns(s: State, run: seq<Action>, w: nat)
    requires Inv(s) && Runs(s, run) && OnlyBy(run, w)
    requires w < |s.writers| && s.writers[w].i == 0 && s.writers[w].pc == Appending
    requires w < |After(s, run).writers| && After(s, run).writers[w].pc == Returned(true)
    ensures Chunks(After(s, run).list) == Chunks(s.list) + Chunking(s.writers[w].input)
  {
    CallAlone(s, run, w);
    RunKeepsInv(s, run);
    assert ProjectionInv(After(s, run), w);
    assert s.writers[w].input[..|s.writers[w].input|] == s.writers[w].input;
  }

  /** In every run total_length is at most the number of bytes in the list. */
  lemma {:induction false} TotalNeverExceeds(s: State, run: seq<Action>)
    requires Initial(s) && Runs(s, run)
    ensures After(s, run).totalLength <= Sum(Length, After(s, run).list)
  {
    InitialInv(s);
    RunKeepsInv(s, run);
  }

  // ---------- When total_length is exact ----------

  /** Exactly `lost` bytes are missing from total_length, apart from those that are pending. */
  ghost predicate Missing(s: State, lost: nat) {
    && s.totalLength + Sum(Pending, s.writers) + lost == Sum(Length, s.list)
    && forall w :: 0 <= w < |s.writers| && s.writers[w].pc.Adding? ==> s.writers[w].pc.loaded == s.totalLength
  }

  ghost predicate AllReturned(s: State) {
    forall w :: 0 <= w < |s.writers| ==> s.writers[w].pc.Returned?
  }

  ghost predicate NoneFailed(s: State) {
    forall w :: 0 <= w < |s.writers| ==> s.writers[w].pc != Returned(false)
  }

  /** At most one of the calls has anything to write. */
  ghost predicate AtMostOneWrites(s: State) {
    forall v, w :: 0 <= v < w < |s.writers| ==> s.writers[v].input == [] || s.writers[w].input == []
  }

  /** Nothing more is lost as long as a call that stores is the only one between its load and its store. */
  lemma ActKeepsMissing(s: State, a: Action, lost: nat)
    requires Missing(s, lost) && CanAct(s, a) && OnTrack(s.writers[a.writer])
    requires forall u :: 0 <= u < |s.writers| && u != a.writer && Midway(s.writers[u]) ==> !Midway(s.writers[a.writer])
    ensures Missing(Act(s, a), lost)
  {
    ActMovesSums(s, a);
    var s', t := Act(s, a), s.writers[a.writer];
    if Midway(t) {
      assert forall u :: 0 <= u < |s.writers| && u != a.writer ==> !Midway(s'.writers[u]);
    } else {
      assert s'.totalLength == s.totalLength && !s'.writers[a.writer].pc.Adding?;
    }
  }

  lemma NothingPending(s: State)
    requires forall w :: 0 <= w < |s.writers| ==> !Midway(s.writers[w])
    ensures Sum(Pending, s.writers) == 0
  {
    SumConstant(Pending, s.writers, 0);
  }

  /** A call with nothing to write never gets between a load and a store. */
  lemma OneIsMidway(s: State, v: nat, w: nat)
    requires Inv(s) && AtMostOneWrites(s) && v < |s.writers| && w < |s.writers| && v != w
    ensures !(Midway(s.writers[v]) && Midway(s.writers[w]))
  {
    assert ProjectionInv(s, v) && ProjectionInv(s, w);
  }

  lemma OneWriterLosesNothing(s: State, a: Action)
    requires Inv(s) && Missing(s, 0) && AtMostOneWrites(s) && CanAct(s, a)
    ensures Missing(Act(s, a), 0)
  {
    assert ProjectionInv(s, a.writer);
    forall u | 0 <= u < |s.writers| && u != a.writer && Midway(s.writers[u]) ensures !Midway(s.writers[a.writer]) {
      OneIsMidway(s, u, a.writer);
    }
    ActKeepsMissing(s, a, 0);
  }

  lemma {:induction false} RunOfOneWriter(s: State, run: seq<Action>)
    requires Inv(s) && Missing(s, 0) && AtMostOneWrites(s) && Runs(s, run)
    ensures Missing(After(s, run), 0)
    decreases run
  {
    if run == [] {
    } else {
      ActKeepsInv(s, run[0]);
      OneWriterLosesNothing(s, run[0]);
      RunOfOneWriter(Act(s, run[0]), run[1..]);
    }
  }

  /** An upper bound on the steps a call has yet to make. */
  function StepsLeft(t: Writer): nat {
    var rest := if t.i < |t.input| then |t.input| - t.i else 0;
    match t.pc
    case Appending => 3 * rest + 1
    case Loading => 3 * rest
    case Adding(_) => if rest > 0 then 3 * rest - 1 else 0
    case Returned(_) => 0
  }

  lemma TurnLowersStepsLeft(s: State, w: nat)
    requires w < |s.writers| && !s.writers[w].pc.Returned? && OnTrack(s.writers[w])
    ensures Sum(StepsLeft, Act(s, Turn(w)).writers) < Sum(StepsLeft, s.writers)
  {
    var t' := Act(s, Turn(w)).writers[w];
    assert StepsLeft(t') < StepsLeft(s.writers[w]);
    assert Act(s, Turn(w)).writers == s.writers[w := t'];
    SumUpdate(StepsLeft, s.writers, w, t');
  }

  /** A turn of the only call that may be midway. */
  lemma TurnInTurn(s: State, w: nat, lost: nat)
    requires Inv(s) && Missing(s, lost) && NoneFailed(s)
    requires w < |s.writers| && !s.writers[w].pc.Returned?
    requires forall u :: 0 <= u < |s.writers| && u != w ==> !Midway(s.writers[u])
    ensures var s' := Act(s, Turn(w));
            && Inv(s') && Missing(s', lost) && NoneFailed(s') && |s'.writers| == |s.writers|
            && (forall u :: 0 <= u < |s.writers| && u != w ==> !Midway(s'.writers[u]))
            && Sum(StepsLeft, s'.writers) < Sum(StepsLeft, s.writers)
  {
    assert ProjectionInv(s, w);
    ActKeepsInv(s, Turn(w));
    ActKeepsMissing(s, Turn(w), lost);
    TurnLowersStepsLeft(s, w);
  }

  /** One call after the other, everybody can finish with the full count and without losing anything more. */
  lemma {:induction false} FinishInTurn(s: State, w: nat, lost: nat) returns (run: seq<Action>)
    requires Inv(s) && Missing(s, lost) && NoneFailed(s)
    requires w < |s.writers| && !s.writers[w].pc.Returned?
    requires forall u :: 0 <= u < |s.writers| && u != w ==> !Midway(s.writers[u])
    ensures Runs(s, run) && Missing(After(s, run), lost) && AllReturned(After(s, run)) && NoneFailed(After(s, run))
    decreases Sum(StepsLeft, s.writers)
  {
    var s' := Act(s, Turn(w));
    TurnInTurn(s, w, lost);
    run := [];
    if !s'.writers[w].pc.Returned? {
      run := FinishInTurn(s', w, lost);
    } else if v :| 0 <= v < |s'.writers| && !s'.writers[v].pc.Returned? {
      run := FinishInTurn(s', v, lost);
    }
    run := Prepend(s, Turn(w), run);
  }

  /** Two calls append their first chunks and then both load the total. */
  lemma BothLoad(s: State, v: nat, w: nat) returns (run: seq<Action>)
    requires Initial(s) && v < |s.writers| && w < |s.writers| && v != w
    requires s.writers[v].input != [] && s.writers[w].input != []
    ensures Runs(s, run)
    ensures var e := After(s, run);
            && e.writers == s.writers[v := s.writers[v].(pc := Adding(0))][w := s.writers[w].(pc := Adding(0))]
            && e.totalLength == 0
            && Sum(Length, e.list) == ChunkLength(s.writers[v]) + ChunkLength(s.writers[w])
  {
    var s1 := Act(s, Turn(v));
    var s2 := Act(s1, Turn(w));
    var s3 := Act(s2, Turn(v));
    var s4 := Act(s3, Turn(w));
    run := Prepend(s3, Turn(w), []);
    run := Prepend(s2, Turn(v), run);
    run := Prepend(s1, Turn(w), run);
    run := Prepend(s, Turn(v), run);
    assert s4.writers == s.writers[v := s.writers[v].(pc := Adding(0))][w := s.writers[w].(pc := Adding(0))];
    SumAppend(Length, s.list, s1.list[0]);
    SumAppend(Length, s1.list, s2.list[1]);
  }

  /** When they store it, the second store wipes out the first. */
  lemma BothStore(s: State, v: nat, w: nat) returns (run: seq<Action>)
    requires v < |s.writers| && w < |s.writers| && v != w
    requires s.writers[v].pc == s.writers[w].pc == Adding(0)
    requires forall u :: 0 <= u < |s.writers| && u != v && u != w ==> s.writers[u].pc == Appending
    requires Sum(Length, s.list) == ChunkLength(s.writers[v]) + ChunkLength(s.writers[w])
    ensures Runs(s, run)
    ensures var e := After(s, run);
            && |e.writers| == |s.writers| && (forall u :: 0 <= u < |s.writers| ==> e.writers[u].pc == Appending)
            && Missing(e, ChunkLength(s.writers[v]))
  {
    var s1 := Act(s, Turn(v));
    var s2 := Act(s1, Turn(w));
    run := Prepend(s1, Turn(w), []);
    run := Prepend(s, Turn(v), run);
    NothingPending(s2);
  }

  /** Two calls append, both load the total, both store it: the addition of the first is lost. */
  lemma Collide(s: State, v: nat, w: nat) returns (run: seq<Action>)
    requires Initial(s) && v < |s.writers| && w < |s.writers| && v != w
    requires s.writers[v].input != [] && s.writers[w].input != []
    ensures Runs(s, run)
    ensures var e := After(s, run);
            && |e.writers| == |s.writers| && (forall u :: 0 <= u < |s.writers| ==> e.writers[u].pc == Appending)
            && Missing(e, ChunkLength(s.writers[v]))
  {
    var loading := BothLoad(s, v, w);
    var storing := BothStore(After(s, loading), v, w);
    run := loading + storing;
    Concat(s, loading, storing);
  }

  function InputLength(t: Writer): nat {
    |t.input|
  }

  /** When everybody has returned the full count, the list holds the bytes of all the inputs. */
  lemma AllAppended(s: State, e: State)
    requires Inv(e) && SameInputs(s, e) && AllReturned(e) && NoneFailed(e)
    ensures Sum(Length, e.list) == Sum(InputLength, s.writers)
  {
    forall w | 0 <= w < |e.writers| ensures Appended(e.writers[w]) == InputLength(s.writers[w]) {
      assert ProjectionInv(e, w);
    }
    SameSums(e.writers, s.writers);
  }

  lemma {:induction false} SameSums(a: seq<Writer>, b: seq<Writer>)
    requires |a| == |b|
    requires forall w :: 0 <= w < |a| ==> Appended(a[w]) == InputLength(b[w])
    ensures Sum(Appended, a) == Sum(InputLength, b)
  {
    if a == [] {
    } else {
      SameSums(a[1..], b[1..]);
    }
  }

  /**
   If two calls both have something to write, total_length can fall short for good although every call returns its
   full count: here by the first chunk of one of them.
   */
  lemma AdditionsMayBeLost(s: State, v: nat, w: nat) returns (run: seq<Action>)
    requires Initial(s) && v < |s.writers| && w < |s.writers| && v != w
    requires s.writers[v].input != [] && s.writers[w].input != []
    ensures Runs(s, run)
    ensures var e := After(s, run);
            && AllReturned(e) && NoneFailed(e)
            && Sum(Length, e.list) == Sum(InputLength, s.writers)
            && e.totalLength + ChunkLength(s.writers[v]) == Sum(Length, e.list)
  {
    var first := Collide(s, v, w);
    InitialInv(s);
    RunKeepsInv(s, first);
    var rest := FinishInTurn(After(s, first), w, ChunkLength(s.writers[v]));
    run := first + rest;
    Concat(s, first, rest);
    RunKeepsInv(s, run);
    NothingPending(After(s, run));
    AllAppended(s, After(s, run));
  }

  /**
   Exactly when total_length can be relied on: every run in which all calls return leaves it equal to the number of
   bytes in the list if and only if at most one of the calls has anything to write.
   */
  lemma {:induction false} TotalIsExact(s: State)
    requires Initial(s)
    ensures (forall run :: Runs(s, run) && AllReturned(After(s, run)) ==>
               After(s, run).totalLength == Sum(Length, After(s, run).list))
            <==> AtMostOneWrites(s)
  {
    if AtMostOneWrites(s) {
      InitialInv(s);
      NothingPending(s);
      forall run | Runs(s, run) && AllReturned(After(s, run))
        ensures After(s, run).totalLength == Sum(Length, After(s, run).list)
      {
        RunOfOneWriter(s, run);
        NothingPending(After(s, run));
      }
    } else {
      var v, w :| 0 <= v < w < |s.writers| && s.writers[v].input != [] && s.writers[w].input != [];
      var run := AdditionsMayBeLost(s, v, w);
    }
  }

  /** The smallest case: two calls of one byte each leave two bytes in the list and count one. */
  lemma TwoBytesCountAsOne(x: Byte, y: Byte) returns (s: State, run: seq<Action>)
    ensures Initial(s) && Runs(s, run) && AllReturned(After(s, run)) && NoneFailed(After(s, run))
    ensures Sum(Length, After(s, run).list) == 2 && After(s, run).totalLength == 1
  {
    s := State([Writer([x], 0, Appending), Writer([y], 0, Appending)], [], 0);
    run := AdditionsMayBeLost(s, 0, 1);
    assert s.writers == [s.writers[0]] + [s.writers[1]];
    SumAppend(InputLength, [s.writers[0]], s.writers[1]);
  }

  /** And what is lost stays lost: no later step of any call makes up for it. */
  lemma {:induction false} LossIsForGood(s: State, run: seq<Action>, lost: nat)
    requires Inv(s) && Behind(s, lost) && Runs(s, run)
    ensures After(s, run).totalLength + lost <= Sum(Length, After(s, run).list)
    decreases run
  {
    if run == [] {
    } else {
      assert ProjectionInv(s, run[0].writer);
      ActKeepsInv(s, run[0]);
      ActKeepsBehind(s, run[0], lost);
      LossIsForGood(Act(s, run[0]), run[1..], lost);
    }
  }

  lemma Prepend(s: State, a: Action, rest: seq<Action>) returns (run: seq<Action>)
    requires CanAct(s, a) && Runs(Act(s, a), rest)
    ensures run == [a] + rest && Runs(s, run) && After(s, run) == After(Act(s, a), rest)
  {
    run := [a] + rest;
    assert run[1..] == rest;
  }

  lemma {:induction false} Concat(s: State, first: seq<Action>, rest: seq<Action>)
    requires Runs(s, first) && Runs(After(s, first), rest)
    ensures Runs(s, first + rest) && After(s, first + rest) == After(After(s, first), rest)
    decreases first
  {
    if first == [] {
      assert first + rest == rest;
    } else {
      assert (first + rest)[1..] == first[1..] + rest;
      Concat(Act(s, first[0]), first[1..], rest);
    }
  }
}
