/** Classes1/Task6.c: a buffer that is filled completely, then drained completely. */
module PhasedBuffer {
  import opened Counting
  import opened Monitors
  import opened Ring
  import opened BufferRuns

  /**
   The history of committed operations is `size` writes, then `size` reads, over and over, up to where the run is;
   and when the mutex is free the flag and the indices show where that is.
   */
  lemma {:induction false} RunFillsThenDrains(s: State, run: seq<Action>)
    requires Initial(s) && s.discipline.Phased? && Runs(s, run)
    ensures var e, size := After(s, run), s.buf.size;
            && FillsThenDrains(e.history, size)
            && e.discipline.Phased?
            && (e.mon.owner == None ==>
                  if e.discipline.readingTime
                  then e.buf.writing == 0 && 0 < e.buf.items && e.buf.reading == size - e.buf.items
                  else e.buf.reading == 0 && e.buf.writing == e.buf.items < size)
            && (e.mon.owner == None ==> (e.discipline.readingTime <==> |e.history| % (2 * size) >= size))
  {
    InitialInv(s);
    RunKeepsInv(s, run);
  }

  /** A stopped run has either made every write and filled up as far as it goes, or made every read. */
  lemma {:induction false} StopsFillingOrDraining(s: State, run: seq<Action>)
    requires Initial(s) && s.discipline.Phased? && Runs(s, run) && Stuck(After(s, run))
    ensures var e, size := After(s, run), s.buf.size;
            && e.discipline.Phased?
            && |e.written| == |e.got| + e.buf.items
            && |e.got| <= TotalReads(s) && |e.written| <= TotalWrites(s)
            && (AllFinished(e) <==> |e.got| == TotalReads(s) && |e.written| == TotalWrites(s))
            && (if e.discipline.readingTime
                then |e.got| == TotalReads(s) && |e.written| % size == 0 && 0 < e.buf.items <= size
                else |e.written| == TotalWrites(s) && |e.got| % size == 0 && 0 <= e.buf.items < size)
  {
    InitialInv(s);
    RunKeepsInv(s, run);
    var e, size := After(s, run), s.buf.size;
    LeftoverCallsMustWait(e);
    StuckMeansAsleepOrFinished(e.mon);
    assert |Contents(e.buf)| == |e.written| - |e.got|;
    if AllFinished(e) {
      FinishedMeansNoneLeft(e);
    }
    if e.discipline.readingTime {
      FullMultiple(|e.got|, e.buf.items, size);
    }
  }

  lemma FullMultiple(x: nat, y: nat, n: nat)
    requires 0 < y <= n && x % n == n - y
    ensures (x + y) % n == 0
  {
    assert x + y == n * (x / n + 1) + 0;
    WrapUnique(x + y, n, x / n + 1, 0);
  }

  lemma MultiplesAreApart(x: nat, y: nat, n: nat)
    requires 0 < n && x % n == y % n == 0 && x < y
    ensures x + n <= y
  {
    assert n * (y / n - x / n) == y - x by {
      assert x == n * (x / n) && y == n * (y / n);
    }
    MultipleIsFar(n, y / n - x / n);
  }

  lemma RemainderOfSum(x: nat, y: nat, n: nat)
    requires y < n && x % n == 0
    ensures (x + y) % n == y
  {
    assert x + y == n * (x / n) + y;
    WrapUnique(x + y, n, x / n, y);
  }

  /**
   Where every maximal run stops when as many reads as writes are asked for: every write has happened, and
   w % size values remain that nobody may read, so everybody has finished exactly if size divides w; otherwise
   only readers are left, asleep.
   */
  lemma {:induction false} ExactOutcome(s: State, run: seq<Action>)
    requires Initial(s) && s.discipline.Phased? && Runs(s, run) && Stuck(After(s, run))
    requires TotalReads(s) == TotalWrites(s)
    ensures var e, w, size := After(s, run), TotalWrites(s), s.buf.size;
            && e.buf.items == w % size
            && |e.written| == w
            && (AllFinished(e) <==> w % size == 0)
            && (forall i :: 0 <= i < |e.mon.threads| && !Finished(e.mon.threads[i]) ==>
                  e.mon.threads[i].role == Reader && e.mon.threads[i].pc == Asleep)
  {
    StopsFillingOrDraining(s, run);
    InitialInv(s);
    RunKeepsInv(s, run);
    var e := After(s, run);
    StuckMeansAsleepOrFinished(e.mon);
    RemainderOfSum(|e.got|, e.buf.items, s.buf.size);
    forall i | 0 <= i < |e.mon.threads| && !Finished(e.mon.threads[i])
      ensures e.mon.threads[i].role == Reader
    {
      SumAtLeast(WritesLeft, e.mon.threads, i);
    }
  }

  /** The exact condition for everybody to finish, for any numbers of reads and writes. */
  lemma {:induction false} FinishCondition(s: State, run: seq<Action>)
    requires Initial(s) && s.discipline.Phased? && Runs(s, run) && Stuck(After(s, run))
    ensures var r, w, size := TotalReads(s), TotalWrites(s), s.buf.size;
            AllFinished(After(s, run)) <==> r <= w && (w - r == w % size || (w % size == 0 && w - r <= size))
  {
    StopsFillingOrDraining(s, run);
    var e, r, w, size := After(s, run), TotalReads(s), TotalWrites(s), s.buf.size;
    if e.discipline.readingTime {
      if r <= w && |e.written| < w {
        if w % size == 0 {
          MultiplesAreApart(|e.written|, w, size);
        } else if w - r == w % size {
          assert (w - w % size) % size == 0 by {
            assert w - w % size == size * (w / size) + 0;
            WrapUnique(w - w % size, size, w / size, 0);
          }
          MultiplesAreApart(r, |e.written|, size);
        }
      }
    } else {
      RemainderOfSum(|e.got|, e.buf.items, size);
    }
  }

  /**
   The program's buffer. Each method is the part of a call that runs after its wait loop, up to the unlock; it makes a
   run of thread i of the state machine from the state s that the buffer shows.
   */
  class ConcurrentBuffer {
    const size: nat
    var readingTime: int
    var readingPoint: nat
    var writingPoint: nat
    var numberItems: int
    const data: array<int>

    ghost predicate Shaped()
      reads this, data
    {
      1 <= size == data.Length && readingPoint < size && writingPoint < size
    }

    ghost function View(): Buffer
      requires Shaped()
      reads this, data
    {
      Cells(size, numberItems, readingPoint, writingPoint, data[..])
    }

    ghost function Phase(): Discipline
      reads this
    {
      Phased(readingTime != 0)
    }

    /** The phases of the state machine, as they stand whenever the mutex is free. */
    ghost predicate Valid()
      reads this, data
    {
      && Shaped()
      && Consistent(View())
      && (if readingTime != 0 then writingPoint == 0 && numberItems > 0 && readingPoint == size - numberItems
          else readingPoint == 0 && writingPoint == numberItems < size)
    }

    /** The buffer as one sees it when thread i of the machine, in state s, is past its wait loop. */
    ghost predicate Shows(s: State, i: nat, role: Role)
      requires Shaped()
      reads this, data
    {
      && s.discipline == Phase() && s.buf == View()
      && i < |s.mon.threads| && s.mon.threads[i].pc == Checking && s.mon.threads[i].role == role
    }

    constructor (size: nat)
      requires size >= 1
      ensures Valid() && fresh(data)
      ensures this.size == size && readingTime == numberItems == readingPoint == writingPoint == 0
    {
      this.size := size;
      this.data := new int[size];
      readingTime, numberItems, readingPoint, writingPoint := 0, 0, 0, 0;
      new;
      Wrap(0, size);
    }

    method ReadItem(ghost s: State, ghost i: nat)
        returns (value: int, broadcasts: bool, ghost steps: seq<Action>)
      requires Valid() && readingTime != 0 && Shows(s, i, Reader)
      modifies this
      ensures Valid() && View() == Take(old(View()))
      ensures Contents(old(View())) == [value] + Contents(View())
      ensures broadcasts <==> old(numberItems) == 1
      ensures readingTime == if broadcasts then 0 else old(readingTime)
      ensures Runs(s, steps)
      ensures var e := After(s, steps);
              && e.buf == View() && e.discipline == Phase() && e.got == s.got + [value] && e.written == s.written
              && e.mon.threads == WokenIf(broadcasts, s.mon.threads)[i := s.mon.threads[i].(pc := Unlocking)]
    {
      steps := CommitAlone(s, i, 0);
      TakeRemovesFront(View());
      Wrap(readingPoint + 1, size);
      broadcasts := false;
      if numberItems == 1 {
        readingTime := 0;
        broadcasts := true;
      }
      numberItems := numberItems - 1;
      value := data[readingPoint];
      readingPoint := readingPoint + 1;
      readingPoint := readingPoint % size;
    }

    method WriteItem(val: int, ghost s: State, ghost i: nat) returns (broadcasts: bool, ghost steps: seq<Action>)
      requires Valid() && readingTime == 0 && Shows(s, i, Writer)
      modifies this, data
      ensures Valid() && View() == Put(old(View()), val)
      ensures Contents(View()) == Contents(old(View())) + [val]
      ensures broadcasts <==> old(numberItems) == size - 1
      ensures readingTime == if broadcasts then 1 else 0
      ensures Runs(s, steps)
      ensures var e := After(s, steps);
              && e.buf == View() && e.discipline == Phase() && e.written == s.written + [val] && e.got == s.got
              && e.mon.threads == WokenIf(broadcasts, s.mon.threads)[i := s.mon.threads[i].(pc := Unlocking)]
    {
      steps := CommitAlone(s, i, val);
      PutAppends(View(), val);
      Wrap(writingPoint + 1, size);
      broadcasts := false;
      if numberItems == size - 1 {
        readingTime := 1;
        broadcasts := true;
      }
      numberItems := numberItems + 1;
      data[writingPoint] := val;
      writingPoint := writingPoint + 1;
      writingPoint := writingPoint % size;
    }
  }
}
