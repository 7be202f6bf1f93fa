/**
 The readers of Classes1/Task1.c and Classes1/Task4.c, which run the same code: the first reader in takes the
 writers' mutex for all of them and the last one out gives it back, under a second mutex that guards the count.

 The writers' mutex is a plain binary lock here. Its owner may be the readers as a group, because the thread that
 unlocks it need not be the one that locked it; POSIX.1-2017 does not define that for a default pthread mutex.
 */
module ReaderGroup {
  import opened Counting

  /** Where a reader is: each constructor names the next thing the reader will do. */
  datatype Pc =
    | Outside        // lock reader_mutex, if a read remains
    | Entering       // readers_count++
    | TestingFirst   // is it the first reader?
    | LockingOut     // lock writer_mutex
    | Entered        // unlock reader_mutex
    | Reading        // read the datum
    | Relocking      // lock reader_mutex again
    | Leaving        // readers_count--
    | TestingLast    // is it the last reader?
    | LettingIn      // unlock writer_mutex
    | Left           // unlock reader_mutex

  datatype Reader = Reader(left: nat, pc: Pc)

  datatype Lock = Free | ByReaders | ByWriter(writer: nat) | ByCritic

  datatype Gate = Gate(readers: seq<Reader>, readersCount: int, readerMutex: Option<nat>, writerMutex: Lock)

  predicate HoldsReaderMutex(pc: Pc) {
    !(pc.Outside? || pc.Reading? || pc.Relocking?)
  }

  /** A reader that is included in readers_count. */
  function Counted(t: Reader): nat {
    match t.pc
    case TestingFirst => 1
    case LockingOut => 1
    case Entered => 1
    case Reading => 1
    case Relocking => 1
    case Leaving => 1
    case _ => 0
  }

  /** How the owner of reader_mutex stands to the group's hold on writer_mutex. */
  ghost predicate OwnerInv(g: Gate, pc: Pc) {
    match pc
    case TestingFirst => g.readersCount >= 1 && (g.writerMutex == ByReaders <==> g.readersCount >= 2)
    case LockingOut => g.readersCount == 1 && g.writerMutex != ByReaders
    case Entered => g.writerMutex == ByReaders
    case Leaving => g.writerMutex == ByReaders
    case TestingLast => g.writerMutex == ByReaders
    case LettingIn => g.writerMutex == ByReaders && g.readersCount == 0
    case _ => g.writerMutex == ByReaders <==> g.readersCount > 0
  }

  ghost predicate Inv(g: Gate) {
    && g.readersCount == Sum(Counted, g.readers)
    && (forall r :: 0 <= r < |g.readers| && HoldsReaderMutex(g.readers[r].pc) ==> g.readerMutex == Some(r))
    && (forall r :: 0 <= r < |g.readers| && g.readers[r].pc != Outside ==> g.readers[r].left > 0)
    && match g.readerMutex
       case None => g.writerMutex == ByReaders <==> g.readersCount > 0
       case Some(r) => r < |g.readers| && HoldsReaderMutex(g.readers[r].pc) && OwnerInv(g, g.readers[r].pc)
  }

  predicate AllOutside(g: Gate) {
    && g.readersCount == 0 && g.readerMutex == None && g.writerMutex == Free
    && forall r :: 0 <= r < |g.readers| ==> g.readers[r].pc == Outside
  }

  lemma AllOutsideInv(g: Gate)
    requires AllOutside(g)
    ensures Inv(g)
  {
    SumConstant(Counted, g.readers, 0);
  }

  predicate Done(t: Reader) {
    t.pc == Outside && t.left == 0
  }

  predicate CanStep(g: Gate, r: nat) {
    && r < |g.readers|
    && match g.readers[r].pc
       case Outside => g.readerMutex == None && g.readers[r].left > 0
       case LockingOut => g.writerMutex == Free
       case Relocking => g.readerMutex == None
       case _ => true
  }

  function Moved(g: Gate, r: nat, pc: Pc): Gate
    requires r < |g.readers|
  {
    g.(readers := g.readers[r := g.readers[r].(pc := pc)])
  }

  function Step(g: Gate, r: nat): Gate
    requires r < |g.readers|
  {
    match g.readers[r].pc
    case Outside => Moved(g, r, Entering).(readerMutex := Some(r))
    case Entering => Moved(g, r, TestingFirst).(readersCount := g.readersCount + 1)
    case TestingFirst => Moved(g, r, if g.readersCount == 1 then LockingOut else Entered)
    case LockingOut => Moved(g, r, Entered).(writerMutex := ByReaders)
    case Entered => Moved(g, r, Reading).(readerMutex := None)
    case Reading => Moved(g, r, Relocking)
    case Relocking => Moved(g, r, Leaving).(readerMutex := Some(r))
    case Leaving => Moved(g, r, TestingLast).(readersCount := g.readersCount - 1)
    case TestingLast => Moved(g, r, if g.readersCount == 0 then LettingIn else Left)
    case LettingIn => Moved(g, r, Left).(writerMutex := Free)
    case Left =>
      var t := g.readers[r];
      g.(readers := g.readers[r := Reader(if t.left > 0 then t.left - 1 else 0, Outside)], readerMutex := None)
  }

  /** A step changes the count by what it changes in the mover's own being counted. */
  lemma StepCountsMover(g: Gate, r: nat)
    requires r < |g.readers|
    ensures var g' := Step(g, r);
            && g'.readers == g.readers[r := g'.readers[r]]
            && Counted(g'.readers[r]) - Counted(g.readers[r]) == g'.readersCount - g.readersCount
  {
  }

  lemma StepCounts(g: Gate, r: nat)
    requires r < |g.readers|
    ensures Sum(Counted, Step(g, r).readers) - Sum(Counted, g.readers) == Step(g, r).readersCount - g.readersCount
    ensures Counted(g.readers[r]) <= Sum(Counted, g.readers)
  {
    StepCountsMover(g, r);
    SumUpdate(Counted, g.readers, r, Step(g, r).readers[r]);
    SumAtLeast(Counted, g.readers, r);
  }

  /** The steps of a reader that does not hold reader_mutex: it takes it, or reads. */
  lemma FirstStepKeepsInv(g: Gate, r: nat)
    requires Inv(g) && CanStep(g, r) && !HoldsReaderMutex(g.readers[r].pc)
    ensures Inv(Step(g, r))
  {
    StepCounts(g, r);
  }

  /** And those of the one that holds it. */
  lemma OwnerStepKeepsInv(g: Gate, r: nat)
    requires Inv(g) && CanStep(g, r) && HoldsReaderMutex(g.readers[r].pc)
    ensures Inv(Step(g, r))
  {
    StepCounts(g, r);
    assert g.readerMutex == Some(r);
  }

  lemma StepKeepsInv(g: Gate, r: nat)
    requires Inv(g) && CanStep(g, r)
    ensures Inv(Step(g, r))
  {
    if HoldsReaderMutex(g.readers[r].pc) {
      OwnerStepKeepsInv(g, r);
    } else {
      FirstStepKeepsInv(g, r);
    }
  }

  /** While a reader reads, the group holds the writers' mutex, whichever thread took it. */
  lemma ReadingLocksWritersOut(g: Gate, r: nat)
    requires Inv(g) && r < |g.readers| && g.readers[r].pc == Reading
    ensures g.writerMutex == ByReaders
  {
    SumAtLeast(Counted, g.readers, r);
    if g.readerMutex.Some? {
      SumAtLeastTwo(Counted, g.readers, r, g.readerMutex.value);
    }
  }

  /** A step takes the writers' mutex only when it is free and gives it back only when the readers hold it. */
  lemma StepRespectsLock(g: Gate, r: nat)
    requires Inv(g) && CanStep(g, r)
    ensures Step(g, r).writerMutex != g.writerMutex ==>
              (g.writerMutex == Free && Step(g, r).writerMutex == ByReaders) ||
              (g.writerMutex == ByReaders && Step(g, r).writerMutex == Free)
  {
  }

  /** A writer or the critic may lock and unlock the writers' mutex without the readers noticing. */
  lemma OthersMayLock(g: Gate, lock: Lock)
    requires Inv(g) && g.writerMutex != ByReaders && lock != ByReaders
    ensures Inv(g.(writerMutex := lock))
  {
  }

  /**
   If no reader can move, either all have done all their reads and hold nothing, or the one that holds
   reader_mutex waits for a writer or the critic to unlock writer_mutex.
   */
  lemma BlockedReaders(g: Gate)
    requires Inv(g)
    requires forall r: nat :: !CanStep(g, r)
    ensures g.writerMutex == Free || g.writerMutex == ByReaders ==>
              && AllOutside(g) && forall r :: 0 <= r < |g.readers| ==> Done(g.readers[r])
  {
    if g.readerMutex.Some? {
      assert !CanStep(g, g.readerMutex.value);
    } else {
      forall r | 0 <= r < |g.readers| ensures Done(g.readers[r]) {
        assert !CanStep(g, r);
      }
      SumConstant(Counted, g.readers, 0);
    }
  }

  // ---------- How many steps remain ----------

  function StepsMade(pc: Pc): (n: nat)
    ensures n <= 10
  {
    match pc
    case Outside => 0
    case Entering => 1
    case TestingFirst => 2
    case LockingOut => 3
    case Entered => 4
    case Reading => 5
    case Relocking => 6
    case Leaving => 7
    case TestingLast => 8
    case LettingIn => 9
    case Left => 10
  }

  /** An upper bound on the steps a reader has yet to make: eleven a read. */
  function StepsLeft(t: Reader): nat {
    if t.left == 0 then 0 else 11 * t.left - StepsMade(t.pc)
  }

  function ReadsLeft(t: Reader): nat {
    t.left
  }

  lemma StepLowersStepsLeft(g: Gate, r: nat)
    requires Inv(g) && CanStep(g, r)
    ensures Sum(StepsLeft, Step(g, r).readers) < Sum(StepsLeft, g.readers)
  {
    var t' := Step(g, r).readers[r];
    assert Step(g, r).readers == g.readers[r := t'];
    assert StepsLeft(t') < StepsLeft(g.readers[r]);
    SumUpdate(StepsLeft, g.readers, r, t');
  }

  lemma {:induction false} StepsAtStart(readers: seq<Reader>)
    requires forall r :: 0 <= r < |readers| ==> readers[r].pc == Outside
    ensures Sum(StepsLeft, readers) == 11 * Sum(ReadsLeft, readers)
  {
    if readers == [] {
    } else {
      StepsAtStart(readers[1..]);
    }
  }

  /** Reads a reader has yet to make. */
  function ReadsToGo(t: Reader): nat {
    match t.pc
    case Relocking => Before(t.left)
    case Leaving => Before(t.left)
    case TestingLast => Before(t.left)
    case LettingIn => Before(t.left)
    case Left => Before(t.left)
    case _ => t.left
  }

  function Before(n: nat): nat {
    if n > 0 then n - 1 else 0
  }

  lemma StepCountsReads(g: Gate, r: nat)
    requires Inv(g) && CanStep(g, r)
    ensures Sum(ReadsToGo, Step(g, r).readers) + (if g.readers[r].pc == Reading then 1 else 0)
              == Sum(ReadsToGo, g.readers)
  {
    SumUpdate(ReadsToGo, g.readers, r, Step(g, r).readers[r]);
  }
}
