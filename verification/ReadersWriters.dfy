/** Classes1/Task1.c: readers and writers that block, with preference to readers. */
module ReadersWriters {
  import opened Counting
  import RG = ReaderGroup

  /**
   Where a writer is. The store is two steps: after the first the datum holds an arbitrary value, so a reader that
   was not kept out could read something that nobody wrote.
   */
  datatype Pc =
    | Outside   // lock writer_mutex, if a write remains
    | Storing   // begin to store
    | Stored    // finish the store
    | Unlocking // unlock writer_mutex

  datatype Writer = Writer(left: nat, pc: Pc)

  /** Completed stores and loads of the datum, in order. */
  datatype Event = Wrote(value: int) | Got(value: int)

  datatype State = State(gate: RG.Gate, writers: seq<Writer>, data: int, initial: int, log: seq<Event>)

  /** One step of one thread; `value` is what ends up in the datum if that step stores. */
  datatype Action = ReaderTurn(reader: nat) | WriterTurn(writer: nat, value: int)

  predicate CanAct(s: State, a: Action) {
    match a
    case ReaderTurn(r) => RG.CanStep(s.gate, r)
    case WriterTurn(w, _) =>
      && w < |s.writers|
      && (s.writers[w].pc == Outside ==> s.writers[w].left > 0 && s.gate.writerMutex == RG.Free)
  }

  function Act(s: State, a: Action): State
    requires CanAct(s, a)
  {
    match a
    case ReaderTurn(r) =>
      var s' := s.(gate := RG.Step(s.gate, r));
      if s.gate.readers[r].pc == RG.Reading then s'.(log := s.log + [Got(s.data)]) else s'
    case WriterTurn(w, value) =>
      var t := s.writers[w];
      match t.pc
      case Outside =>
        s.(gate := s.gate.(writerMutex := RG.ByWriter(w)), writers := s.writers[w := t.(pc := Storing)])
      case Storing => s.(data := value, writers := s.writers[w := t.(pc := Stored)])
      case Stored =>
        s.(data := value, writers := s.writers[w := t.(pc := Unlocking)], log := s.log + [Wrote(value)])
      case Unlocking =>
        s.(gate := s.gate.(writerMutex := RG.Free),
           writers := s.writers[w := Writer(if t.left > 0 then t.left - 1 else 0, Outside)])
  }

  // ---------- Runs ----------

  ghost predicate Runs(s: State, run: seq<Action>)
    decreases run
  {
    run == [] || (CanAct(s, run[0]) && Runs(Act(s, run[0]), run[1..]))
  }

  function After(s: State, run: seq<Action>): State
    requires Runs(s, run)
    decreases run
  {
    if run == [] then s else After(Act(s, run[0]), run[1..])
  }

  ghost predicate Initial(s: State) {
    && RG.AllOutside(s.gate)
    && (forall w :: 0 <= w < |s.writers| ==> s.writers[w].pc == Outside)
    && s.data == s.initial && s.log == []
  }

  ghost predicate AllFinished(s: State) {
    && (forall r :: 0 <= r < |s.gate.readers| ==> RG.Done(s.gate.readers[r]))
    && (forall w :: 0 <= w < |s.writers| ==> s.writers[w].pc == Outside && s.writers[w].left == 0)
  }

  // ---------- What the object promises ----------

  /** The value of the latest completed write in a log, or the initial one. */
  function Latest(log: seq<Event>, initial: int): int {
    if log == [] then initial
    else if log[|log| - 1].Wrote? then log[|log| - 1].value
    else Latest(log[..|log| - 1], initial)
  }

  /** The log of an atomic register: every read gets the value of the latest completed write before it. */
  ghost predicate AtomicRegister(log: seq<Event>, initial: int) {
    forall k :: 0 <= k < |log| && log[k].Got? ==> log[k].value == Latest(log[..k], initial)
  }

  lemma {:induction false} RegisterGrows(log: seq<Event>, e: Event, initial: int)
    requires AtomicRegister(log, initial)
    requires e.Got? ==> e.value == Latest(log, initial)
    ensures AtomicRegister(log + [e], initial)
    ensures Latest(log + [e], initial) == if e.Wrote? then e.value else Latest(log, initial)
  {
    assert (log + [e])[..|log|] == log;
    forall k | 0 <= k < |log| ensures (log + [e])[..k] == log[..k] {
    }
  }

  // ---------- What every step keeps ----------

  ghost predicate WritersInv(s: State) {
    && (forall w :: 0 <= w < |s.writers| && s.writers[w].pc != Outside ==>
          s.gate.writerMutex == RG.ByWriter(w) && s.writers[w].left > 0)
    && (s.gate.writerMutex.ByWriter? ==>
          var w := s.gate.writerMutex.writer;
          w < |s.writers| && s.writers[w].pc != Outside)
    && s.gate.writerMutex != RG.ByCritic
  }

  ghost predicate DataInv(s: State) {
    && AtomicRegister(s.log, s.initial)
    && ((forall w :: 0 <= w < |s.writers| ==> s.writers[w].pc != Stored) ==> s.data == Latest(s.log, s.initial))
  }

  ghost predicate Inv(s: State) {
    RG.Inv(s.gate) && WritersInv(s) && DataInv(s)
  }

  lemma InitialInv(s: State)
    requires Initial(s)
    ensures Inv(s)
  {
    RG.AllOutsideInv(s.gate);
  }

  /** While any reader reads, no writer is anywhere between its lock and its unlock. */
  lemma ReadersExcludeWriters(s: State, r: nat)
    requires Inv(s) && r < |s.gate.readers| && s.gate.readers[r].pc == RG.Reading
    ensures forall w :: 0 <= w < |s.writers| ==> s.writers[w].pc == Outside
    ensures s.data == Latest(s.log, s.initial)
  {
    RG.ReadingLocksWritersOut(s.gate, r);
  }

  lemma ReaderKeepsInv(s: State, r: nat)
    requires Inv(s) && RG.CanStep(s.gate, r)
    ensures Inv(Act(s, ReaderTurn(r)))
  {
    RG.StepKeepsInv(s.gate, r);
    RG.StepRespectsLock(s.gate, r);
    if s.gate.readers[r].pc == RG.Reading {
      ReadersExcludeWriters(s, r);
      RegisterGrows(s.log, Got(s.data), s.initial);
    }
  }

  lemma WriterKeepsInv(s: State, w: nat, value: int)
    requires Inv(s) && CanAct(s, WriterTurn(w, value))
    ensures Inv(Act(s, WriterTurn(w, value)))
  {
    var s' := Act(s, WriterTurn(w, value));
    RG.OthersMayLock(s.gate, s'.gate.writerMutex);
    if s.writers[w].pc == Stored {
      RegisterGrows(s.log, Wrote(value), s.initial);
    } else if s.writers[w].pc == Storing {
      assert s'.writers[w].pc == Stored;
    } else {
      assert forall v :: 0 <= v < |s.writers| && v != w ==> s'.writers[v] == s.writers[v];
    }
  }

  lemma ActKeepsInv(s: State, a: Action)
    requires Inv(s) && CanAct(s, a)
    ensures Inv(Act(s, a))
  {
    match a
    case ReaderTurn(r) => ReaderKeepsInv(s, r);
    case WriterTurn(w, value) => WriterKeepsInv(s, w, value);
  }

  lemma {:induction false} RunKeepsInv(s: State, run: seq<Action>)
    requires Inv(s) && Runs(s, run)
    ensures Inv(After(s, run))
    ensures After(s, run).initial == s.initial
    decreases run
  {
    if run == [] {
    } else {
      ActKeepsInv(s, run[0]);
      RunKeepsInv(Act(s, run[0]), run[1..]);
    }
  }

  // ---------- Nothing is skipped ----------

  function IsGot(e: Event): nat {
    if e.Got? then 1 else 0
  }

  function IsWrote(e: Event): nat {
    if e.Wrote? then 1 else 0
  }

  /** Writes a writer has yet to make. */
  function WritesToGo(t: Writer): nat {
    if t.pc == Unlocking && t.left > 0 then t.left - 1 else t.left
  }

  /** Reads made and still to be made. */
  function TotalReads(s: State): nat {
    Sum(IsGot, s.log) + Sum(RG.ReadsToGo, s.gate.readers)
  }

  function TotalWrites(s: State): nat {
    Sum(IsWrote, s.log) + Sum(WritesToGo, s.writers)
  }

  lemma ReaderKeepsTotals(s: State, r: nat)
    requires Inv(s) && RG.CanStep(s.gate, r)
    ensures TotalReads(Act(s, ReaderTurn(r))) == TotalReads(s)
    ensures TotalWrites(Act(s, ReaderTurn(r))) == TotalWrites(s)
  {
    RG.StepCountsReads(s.gate, r);
    SumAppend(IsGot, s.log, Got(s.data));
    SumAppend(IsWrote, s.log, Got(s.data));
  }

  lemma WriterKeepsTotals(s: State, w: nat, value: int)
    requires Inv(s) && CanAct(s, WriterTurn(w, value))
    ensures TotalReads(Act(s, WriterTurn(w, value))) == TotalReads(s)
    ensures TotalWrites(Act(s, WriterTurn(w, value))) == TotalWrites(s)
  {
    SumUpdate(WritesToGo, s.writers, w, Act(s, WriterTurn(w, value)).writers[w]);
    SumAppend(IsGot, s.log, Wrote(value));
    SumAppend(IsWrote, s.log, Wrote(value));
  }

  lemma ActKeepsTotals(s: State, a: Action)
    requires Inv(s) && CanAct(s, a)
    ensures TotalReads(Act(s, a)) == TotalReads(s)
    ensures TotalWrites(Act(s, a)) == TotalWrites(s)
  {
    match a
    case ReaderTurn(r) => ReaderKeepsTotals(s, r);
    case WriterTurn(w, value) => WriterKeepsTotals(s, w, value);
  }

  lemma {:induction false} RunKeepsTotals(s: State, run: seq<Action>)
    requires Inv(s) && Runs(s, run)
    ensures TotalReads(After(s, run)) == TotalReads(s)
    ensures TotalWrites(After(s, run)) == TotalWrites(s)
    decreases run
  {
    if run == [] {
    } else {
      ActKeepsInv(s, run[0]);
      ActKeepsTotals(s, run[0]);
      RunKeepsTotals(Act(s, run[0]), run[1..]);
    }
  }

  // ---------- Results about whole runs ----------

  /** In every run every read returns the value of the latest completed write, or the initial value. */
  lemma {:induction false} RunIsAtomicRegister(s: State, run: seq<Action>)
    requires Initial(s) && Runs(s, run)
    ensures AtomicRegister(After(s, run).log, s.initial)
  {
    InitialInv(s);
    RunKeepsInv(s, run);
  }

  /** The readers hold the writers' mutex now and after each step of the run, whoever comes and goes. */
  ghost predicate HeldByReaders(s: State, run: seq<Action>)
    requires Runs(s, run)
    decreases run
  {
    s.gate.writerMutex == RG.ByReaders && (run == [] || HeldByReaders(Act(s, run[0]), run[1..]))
  }

  /** From the first reader's lock to the last reader's unlock the datum does not change. */
  lemma {:induction false} HeldByReadersKeepsData(s: State, run: seq<Action>)
    requires Inv(s) && Runs(s, run) && HeldByReaders(s, run)
    ensures After(s, run).data == s.data
    decreases run
  {
    if run == [] {
    } else {
      ActKeepsInv(s, run[0]);
      HeldByReadersKeepsData(Act(s, run[0]), run[1..]);
    }
  }

  /** No deadlock: while anybody has work left, some thread can move. */
  lemma SomebodyCanMove(s: State) returns (a: Action)
    requires Inv(s) && !AllFinished(s)
    ensures CanAct(s, a)
  {
    if r: nat :| RG.CanStep(s.gate, r) {
      a := ReaderTurn(r);
    } else {
      RG.BlockedReaders(s.gate);
      if s.gate.writerMutex.ByWriter? {
        a := WriterTurn(s.gate.writerMutex.writer, 0);
      } else {
        var w :| 0 <= w < |s.writers| && !(s.writers[w].pc == Outside && s.writers[w].left == 0);
        a := WriterTurn(w, 0);
      }
    }
  }

  /** An upper bound on the steps a writer has yet to make: four a write. */
  function StepsLeft(t: Writer): nat {
    if t.left == 0 then 0 else
      4 * t.left - match t.pc
                   case Outside => 0
                   case Storing => 1
                   case Stored => 2
                   case Unlocking => 3
  }

  function WritesLeft(t: Writer): nat {
    t.left
  }

  function TotalStepsLeft(s: State): nat {
    Sum(RG.StepsLeft, s.gate.readers) + Sum(StepsLeft, s.writers)
  }

  lemma ActLowersStepsLeft(s: State, a: Action)
    requires Inv(s) && CanAct(s, a)
    ensures TotalStepsLeft(Act(s, a)) < TotalStepsLeft(s)
  {
    match a
    case ReaderTurn(r) => RG.StepLowersStepsLeft(s.gate, r);
    case WriterTurn(w, value) => SumUpdate(StepsLeft, s.writers, w, Act(s, a).writers[w]);
  }

  lemma {:induction false} RunIsBounded(s: State, run: seq<Action>)
    requires Inv(s) && Runs(s, run)
    ensures |run| + TotalStepsLeft(After(s, run)) <= TotalStepsLeft(s)
    decreases run
  {
    if run == [] {
    } else {
      ActKeepsInv(s, run[0]);
      ActLowersStepsLeft(s, run[0]);
      RunIsBounded(Act(s, run[0]), run[1..]);
    }
  }

  lemma {:induction false} StepsAtStart(writers: seq<Writer>)
    requires forall w :: 0 <= w < |writers| ==> writers[w].pc == Outside
    ensures Sum(StepsLeft, writers) == 4 * Sum(WritesLeft, writers)
  {
    if writers == [] {
    } else {
      StepsAtStart(writers[1..]);
    }
  }

  /**
   A run has at most eleven steps a read and four a write. One that cannot go on has finished everything, with
   every read and every write in the log.
   */
  lemma {:induction false} RunsFinish(s: State, run: seq<Action>)
    requires Initial(s) && Runs(s, run)
    ensures |run| <= 11 * Sum(RG.ReadsLeft, s.gate.readers) + 4 * Sum(WritesLeft, s.writers)
    ensures var e := After(s, run);
            (forall a :: !CanAct(e, a)) ==>
              AllFinished(e) && Sum(IsGot, e.log) == TotalReads(s) && Sum(IsWrote, e.log) == TotalWrites(s)
  {
    InitialInv(s);
    RunKeepsInv(s, run);
    RunIsBounded(s, run);
    RG.StepsAtStart(s.gate.readers);
    StepsAtStart(s.writers);
    if !AllFinished(After(s, run)) {
      var a := SomebodyCanMove(After(s, run));
    } else {
      RunKeepsTotals(s, run);
      SumConstant(RG.ReadsToGo, After(s, run).gate.readers, 0);
      SumConstant(WritesToGo, After(s, run).writers, 0);
    }
  }

  // ---------- Calls that nobody disturbs ----------

  lemma Prepend(s: State, a: Action, rest: seq<Action>) returns (run: seq<Action>)
    requires CanAct(s, a) && Runs(Act(s, a), rest)
    ensures run == [a] + rest && Runs(s, run) && After(s, run) == After(Act(s, a), rest)
  {
    run := [a] + rest;
    assert run[1..] == rest;
  }

  lemma {:induction false} Concat(s: State, first: seq<Action>, rest: seq<Action>)
    requires Runs(s, first) && Runs(After(s, first), rest)
    ensures Runs(s, first + rest) && After(s, first + rest) == After(After(s, first), rest)
    decreases first
  {
    if first == [] {
      assert first + rest == rest;
    } else {
      assert (first + rest)[1..] == first[1..] + rest;
      Concat(Act(s, first[0]), first[1..], rest);
    }
  }

  /** Reader r could begin a read now without blocking. */
  predicate CanBegin(s: State, r: nat) {
    && r < |s.gate.readers| && s.gate.readers[r].pc == RG.Outside && s.gate.readers[r].left > 0
    && s.gate.readerMutex == None
    && (s.gate.readersCount == 0 ==> s.gate.writerMutex == RG.Free)
  }

  /** Reader r has read and could end its read now. */
  predicate CanEnd(s: State, r: nat) {
    r < |s.gate.readers| && s.gate.readers[r].pc == RG.Relocking && s.gate.readerMutex == None
  }

  /** Writer w could write now without blocking. */
  predicate CanWrite(s: State, w: nat) {
    w < |s.writers| && s.writers[w].pc == Outside && s.writers[w].left > 0 && s.gate.writerMutex == RG.Free
  }

  /** What is different once reader r has begun its read. */
  function Begun(s: State, r: nat): State
    requires r < |s.gate.readers|
  {
    s.(gate := s.gate.(readers := s.gate.readers[r := s.gate.readers[r].(pc := RG.Reading)],
                       readersCount := s.gate.readersCount + 1, writerMutex := RG.ByReaders))
  }

  /** What is different once it has ended it. */
  function Ended(s: State, r: nat): State
    requires r < |s.gate.readers|
  {
    var readers := s.gate.readers[r := RG.Reader(RG.Before(s.gate.readers[r].left), RG.Outside)];
    s.(gate := s.gate.(readers := readers, readersCount := s.gate.readersCount - 1,
                       writerMutex := if s.gate.readersCount == 1 then RG.Free else s.gate.writerMutex))
  }

  /** What is different once it has made a whole read. */
  function ReadBy(s: State, r: nat): State
    requires r < |s.gate.readers|
  {
    var readers := s.gate.readers[r := RG.Reader(RG.Before(s.gate.readers[r].left), RG.Outside)];
    s.(gate := s.gate.(readers := readers), log := s.log + [Got(s.data)])
  }

  function Written(s: State, w: nat, value: int): State
    requires w < |s.writers|
  {
    s.(data := value, log := s.log + [Wrote(value)],
       writers := s.writers[w := Writer(RG.Before(s.writers[w].left), Outside)])
  }

  /** Five steps for the first reader in, four for any other. */
  lemma BeginAlone(s: State, r: nat) returns (run: seq<Action>)
    requires RG.Inv(s.gate) && CanBegin(s, r)
    ensures Runs(s, run) && After(s, run) == Begun(s, r)
  {
    var a := ReaderTurn(r);
    var s1 := Act(s, a);
    var s2 := Act(s1, a);
    var s3 := Act(s2, a);
    var s4 := Act(s3, a);
    if s.gate.readersCount == 0 {
      assert Act(s4, a) == Begun(s, r);
      run := Prepend(s4, a, []);
    } else {
      assert s4 == Begun(s, r);
      run := [];
    }
    run := Prepend(s3, a, run);
    run := Prepend(s2, a, run);
    run := Prepend(s1, a, run);
    run := Prepend(s, a, run);
  }

  /** Five steps for the last reader out, four for any other. */
  lemma EndAlone(s: State, r: nat) returns (run: seq<Action>)
    requires RG.Inv(s.gate) && CanEnd(s, r)
    ensures s.gate.readersCount > 0 && s.gate.writerMutex == RG.ByReaders
    ensures Runs(s, run) && After(s, run) == Ended(s, r)
  {
    SumAtLeast(RG.Counted, s.gate.readers, r);
    var a := ReaderTurn(r);
    var s1 := Act(s, a);
    var s2 := Act(s1, a);
    var s3 := Act(s2, a);
    var s4 := Act(s3, a);
    if s.gate.readersCount == 1 {
      assert Act(s4, a) == Ended(s, r);
      run := Prepend(s4, a, []);
    } else {
      assert s4 == Ended(s, r);
      run := [];
    }
    run := Prepend(s3, a, run);
    run := Prepend(s2, a, run);
    run := Prepend(s1, a, run);
    run := Prepend(s, a, run);
  }

  lemma WriteAlone(s: State, w: nat, value: int) returns (run: seq<Action>)
    requires CanWrite(s, w)
    ensures Runs(s, run) && After(s, run) == Written(s, w, value)
  {
    var a := WriterTurn(w, value);
    var s1 := Act(s, a);
    var s2 := Act(s1, a);
    var s3 := Act(s2, a);
    assert Act(s3, a) == Written(s, w, value);
    run := Prepend(s3, a, []);
    run := Prepend(s2, a, run);
    run := Prepend(s1, a, run);
    run := Prepend(s, a, run);
  }

  /**
   The program's object, with read_from_concurrent_object cut where other threads may come in between. Its methods
   make runs of the state machine: `run` is what has been done to the object since `start`.
   */
  class ConcurrentObject {
    var data: int
    var readersCount: nat
    var writerLocked: bool

    ghost const start: State
    ghost var run: seq<Action>

    /** The object as one sees it when the machine is in state s and nobody is changing the count. */
    ghost predicate Shows(s: State)
      reads this
    {
      && data == s.data
      && readersCount == s.gate.readersCount
      && s.gate.readerMutex == None
      && (writerLocked <==> s.gate.writerMutex != RG.Free)
    }

    ghost predicate Valid()
      reads this
    {
      Initial(start) && Runs(start, run) && Shows(After(start, run))
    }

    /** The state the machine is in. */
    ghost function Now(): State
      requires Valid()
      reads this
    {
      After(start, run)
    }

    lemma NowInv()
      requires Valid()
      ensures Inv(Now()) && Now().initial == start.initial
    {
      InitialInv(start);
      RunKeepsInv(start, run);
    }

    constructor (initialData: int, ghost program: State)
      requires Initial(program) && program.initial == initialData
      ensures Valid() && Now() == start == program
      ensures data == initialData && readersCount == 0 && !writerLocked
    {
      data, readersCount, writerLocked := initialData, 0, false;
      start, run := program, [];
    }

    /** write_to_concurrent_object, called by writer w when its lock does not block. */
    method WriteToObject(value: int, ghost w: nat)
      requires Valid() && CanWrite(Now(), w)
      modifies this
      ensures Valid() && Now() == Written(old(Now()), w, value) && old(run) <= run
      ensures data == value && readersCount == old(readersCount) && !writerLocked
    {
      ghost var steps := WriteAlone(Now(), w, value);
      writerLocked := true;
      data := value;
      writerLocked := false;
      Concat(start, run, steps);
      run := run + steps;
    }

    /** read_from_concurrent_object up to its first unlock, called by reader r when its locks do not block. */
    method BeginRead(ghost r: nat)
      requires Valid() && CanBegin(Now(), r)
      modifies this
      ensures Valid() && Now() == Begun(old(Now()), r) && old(run) <= run
      ensures writerLocked && readersCount == old(readersCount) + 1 && data == old(data)
    {
      NowInv();
      ghost var steps := BeginAlone(Now(), r);
      readersCount := readersCount + 1;
      if readersCount == 1 {
        writerLocked := true;
      }
      Concat(start, run, steps);
      run := run + steps;
    }

    /** The read itself, which other readers may overlap. */
    method ReadDatum(ghost r: nat) returns (value: int)
      requires Valid() && r < |Now().gate.readers| && Now().gate.readers[r].pc == RG.Reading
      modifies this`run
      ensures Valid() && Now() == Act(old(Now()), ReaderTurn(r)) && old(run) <= run
      ensures value == data == Latest(old(Now()).log, start.initial)
    {
      NowInv();
      ReadersExcludeWriters(Now(), r);
      value := data;
      ghost var step := Prepend(Now(), ReaderTurn(r), []);
      Concat(start, run, step);
      run := run + step;
    }

    /** The rest of read_from_concurrent_object, after the read. */
    method EndRead(ghost r: nat)
      requires Valid() && CanEnd(Now(), r)
      modifies this
      ensures Valid() && Now() == Ended(old(Now()), r) && old(run) <= run
      ensures readersCount == old(readersCount) - 1 && data == old(data)
      ensures writerLocked <==> readersCount > 0
    {
      NowInv();
      ghost var steps := EndAlone(Now(), r);
      readersCount := readersCount - 1;
      if readersCount == 0 {
        writerLocked := false;
      }
      Concat(start, run, steps);
      run := run + steps;
    }

    /** A read that nobody overlaps returns the latest completed write and leaves the object as it was. */
    method ReadFromObject(ghost r: nat) returns (value: int)
      requires Valid() && CanBegin(Now(), r)
      modifies this
      ensures Valid() && Now() == ReadBy(old(Now()), r) && old(run) <= run
      ensures value == data == old(data) == Latest(old(Now()).log, start.initial)
      ensures readersCount == old(readersCount) && writerLocked == old(writerLocked)
    {
      NowInv();
      BeginRead(r);
      value := ReadDatum(r);
      EndRead(r);
    }
  }
}
