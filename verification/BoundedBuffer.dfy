/** Classes1/Task2.c: a bounded buffer whose one condition variable is broadcast only on leaving empty or full. */
module BoundedBuffer {
  import opened Counting
  import opened Monitors
  import opened Ring
  import opened BufferRuns

  /**
   Where every maximal run stops, whatever the schedule: with r reads and w writes asked for, min(r, w) reads
   and min(w, r + size) writes have happened, and everybody has finished exactly if r <= w <= r + size.
   */
  lemma {:induction false} ExactOutcome(s: State, run: seq<Action>)
    requires Initial(s) && s.discipline.Bounded? && Runs(s, run) && Stuck(After(s, run))
    ensures var e, r, w, size := After(s, run), TotalReads(s), TotalWrites(s), s.buf.size;
            && |e.got| == (if r <= w then r else w)
            && |e.written| == (if w <= r + size then w else r + size)
            && (AllFinished(e) <==> r <= w <= r + size)
  {
    InitialInv(s);
    RunKeepsInv(s, run);
    var e := After(s, run);
    LeftoverCallsMustWait(e);
    assert |Contents(e.buf)| == |e.written| - |e.got|;
    if AllFinished(e) {
      FinishedMeansNoneLeft(e);
    }
  }

  /**
   The program's buffer. Each method is the part of a call that runs after its wait loop, up to the unlock; it makes a
   run of thread i of the state machine from the state s that the buffer shows.
   */
  class ConcurrentBuffer {
    const size: nat
    var numberItems: int
    var readingPoint: nat
    var writingPoint: nat
    const data: array<int>

    ghost predicate Shaped()
      reads this, data
    {
      1 <= size == data.Length && readingPoint < size && writingPoint < size
    }

    ghost function View(): Buffer
      requires Shaped()
      reads this, data
    {
      Cells(size, numberItems, readingPoint, writingPoint, data[..])
    }

    ghost predicate Valid()
      reads this, data
    {
      Shaped() && Consistent(View())
    }

    /** The buffer as one sees it when thread i of the machine, in state s, is past its wait loop. */
    ghost predicate Shows(s: State, i: nat, role: Role)
      requires Shaped()
      reads this, data
    {
      && s.discipline == Bounded && s.buf == View()
      && i < |s.mon.threads| && s.mon.threads[i].pc == Checking && s.mon.threads[i].role == role
    }

    constructor (size: nat)
      requires size >= 1
      ensures Valid() && fresh(data)
      ensures this.size == size && numberItems == readingPoint == writingPoint == 0
    {
      this.size := size;
      this.data := new int[size];
      numberItems, readingPoint, writingPoint := 0, 0, 0;
      new;
      Wrap(0, size);
    }

    method ReadItem(ghost s: State, ghost i: nat)
        returns (value: int, broadcasts: bool, ghost steps: seq<Action>)
      requires Valid() && numberItems != 0 && Shows(s, i, Reader)
      modifies this
      ensures Valid() && View() == Take(old(View()))
      ensures Contents(old(View())) == [value] + Contents(View())
      ensures broadcasts <==> old(numberItems) == size
      ensures Runs(s, steps)
      ensures var e := After(s, steps);
              && e.buf == View() && e.got == s.got + [value] && e.written == s.written
              && e.mon.threads == WokenIf(broadcasts, s.mon.threads)[i := s.mon.threads[i].(pc := Unlocking)]
    {
      steps := CommitAlone(s, i, 0);
      TakeRemovesFront(View());
      broadcasts := numberItems == size;
      numberItems := numberItems - 1;
      value := data[readingPoint];
      readingPoint := readingPoint + 1;
      readingPoint := readingPoint % size;
    }

    method WriteItem(val: int, ghost s: State, ghost i: nat) returns (broadcasts: bool, ghost steps: seq<Action>)
      requires Valid() && numberItems != size && Shows(s, i, Writer)
      modifies this, data
      ensures Valid() && View() == Put(old(View()), val)
      ensures Contents(View()) == Contents(old(View())) + [val]
      ensures broadcasts <==> old(numberItems) == 0
      ensures Runs(s, steps)
      ensures var e := After(s, steps);
              && e.buf == View() && e.written == s.written + [val] && e.got == s.got
              && e.mon.threads == WokenIf(broadcasts, s.mon.threads)[i := s.mon.threads[i].(pc := Unlocking)]
    {
      steps := CommitAlone(s, i, val);
      PutAppends(View(), val);
      broadcasts := numberItems == 0;
      numberItems := numberItems + 1;
      data[writingPoint] := val;
      writingPoint := writingPoint + 1;
      writingPoint := writingPoint % size;
    }
  }
}
