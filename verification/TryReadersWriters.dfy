/**
 Classes1/Task3.c and Classes1/Task5.c: readers and writers that give up instead of waiting for the writers' mutex.
 Task5.c also caps the readers; a Task3.c object is one without a limit.
 */
module TryReadersWriters {
  import opened Counting
  import RG = ReaderGroup
  import RW = ReadersWriters

  /** Where a thread is in a call on the object. As in Task1.c's model a store is two steps. */
  datatype Pc =
    | Idle           // not inside a call
    | WTrying        // pthread_mutex_trylock(writers_mutex)
    | WStoring       // begin to store
    | WStored        // finish the store
    | WUnlocking     // unlock writers_mutex, return true
    | RLocking       // lock readers_mutex
    | RTesting       // is readers_count 0?
    | RTrying        // pthread_mutex_trylock(writers_mutex)
    | RCapping       // is readers_count the limit?
    | RFailing       // unlock readers_mutex, return false
    | RCounting      // readers_count++
    | RAdmitted      // unlock readers_mutex
    | Reading        // read the datum
    | RRelocking     // lock readers_mutex again
    | RLeaving       // readers_count--
    | RTestingLast   // is readers_count 0?
    | RReleasing     // unlock writers_mutex
    | RLeft          // unlock readers_mutex, return true

  /** `touched`: this call has itself changed the datum, the readers' count or the writers' mutex. */
  datatype Thread = Thread(pc: Pc, touched: bool)

  datatype State = State(limit: Option<nat>, data: int, initial: int, readersCount: int,
                         readersMutex: Option<nat>, writersMutex: RG.Lock,
                         threads: seq<Thread>, log: seq<RW.Event>)

  /** A thread may start a call whenever it is in none; how often and in what order is up to the run. */
  datatype Action = StartRead(thread: nat) | StartWrite(thread: nat) | Turn(thread: nat, value: int)

  predicate CanAct(s: State, a: Action) {
    && a.thread < |s.threads|
    && var pc := s.threads[a.thread].pc;
       match a
       case StartRead(_) => pc == Idle
       case StartWrite(_) => pc == Idle
       case Turn(_, _) =>
         match pc
         case Idle => false
         case RLocking => s.readersMutex == None
         case RRelocking => s.readersMutex == None
         case _ => true
  }

  predicate AtLimit(s: State) {
    s.limit == Some(s.readersCount)
  }

  function Moved(s: State, t: nat, pc: Pc): State
    requires t < |s.threads|
  {
    s.(threads := s.threads[t := s.threads[t].(pc := pc)])
  }

  /** write_to_object, one step. */
  function WriteStep(s: State, t: nat, value: int): State
    requires t < |s.threads|
  {
    match s.threads[t].pc
    case WTrying =>
      if s.writersMutex != RG.Free then Moved(s, t, Idle)
      else Moved(s, t, WStoring).(writersMutex := RG.ByWriter(t))
    case WStoring => Moved(s, t, WStored).(data := value)
    case WStored => Moved(s, t, WUnlocking).(data := value, log := s.log + [RW.Wrote(value)])
    case WUnlocking => Moved(s, t, Idle).(writersMutex := RG.Free)
    case _ => s
  }

  /** read_from_object up to the point where it has failed or is admitted, one step. */
  function EnterStep(s: State, t: nat): State
    requires t < |s.threads|
  {
    match s.threads[t].pc
    case RLocking => Moved(s, t, RTesting).(readersMutex := Some(t))
    case RTesting => Moved(s, t, if s.readersCount == 0 then RTrying else RCapping)
    case RTrying =>
      if s.writersMutex != RG.Free then Moved(s, t, RFailing)
      else Moved(s, t, RCapping).(writersMutex := RG.ByReaders)
    case RCapping => Moved(s, t, if AtLimit(s) then RFailing else RCounting)
    case RFailing => Moved(s, t, Idle).(readersMutex := None)
    case RCounting => Moved(s, t, RAdmitted).(readersCount := s.readersCount + 1)
    case _ => s
  }

  /** The rest of read_from_object, one step. */
  function LeaveStep(s: State, t: nat): State
    requires t < |s.threads|
  {
    match s.threads[t].pc
    case RAdmitted => Moved(s, t, Reading).(readersMutex := None)
    case Reading => Moved(s, t, RRelocking).(log := s.log + [RW.Got(s.data)])
    case RRelocking => Moved(s, t, RLeaving).(readersMutex := Some(t))
    case RLeaving => Moved(s, t, RTestingLast).(readersCount := s.readersCount - 1)
    case RTestingLast => Moved(s, t, if s.readersCount == 0 then RReleasing else RLeft)
    case RReleasing => Moved(s, t, RLeft).(writersMutex := RG.Free)
    case RLeft => Moved(s, t, Idle).(readersMutex := None)
    case _ => s
  }

  predicate Entering(pc: Pc) {
    pc.RLocking? || pc.RTesting? || pc.RTrying? || pc.RCapping? || pc.RFailing? || pc.RCounting?
  }

  predicate Leaving(pc: Pc) {
    pc.RAdmitted? || pc.Reading? || pc.RRelocking? || pc.RLeaving? || pc.RTestingLast? || pc.RReleasing? || pc.RLeft?
  }

  predicate InWrite(pc: Pc) {
    pc.WTrying? || Writing(pc)
  }

  predicate Writing(pc: Pc) {
    pc.WStoring? || pc.WStored? || pc.WUnlocking?
  }

  function Step(s: State, t: nat, value: int): State
    requires t < |s.threads|
  {
    var pc := s.threads[t].pc;
    if InWrite(pc) then WriteStep(s, t, value)
    else if Entering(pc) then EnterStep(s, t)
    else LeaveStep(s, t)
  }

  /** The object as another call would find it, apart from the mutex that guards the readers' count. */
  predicate SameObject(s: State, s': State) {
    s'.data == s.data && s'.readersCount == s.readersCount && s'.writersMutex == s.writersMutex
  }

  function Touched(s: State, t: nat): State
    requires t < |s.threads|
  {
    s.(threads := s.threads[t := s.threads[t].(touched := true)])
  }

  function Started(s: State, t: nat, pc: Pc): State
    requires t < |s.threads|
  {
    s.(threads := s.threads[t := Thread(pc, false)])
  }

  function Act(s: State, a: Action): State
    requires CanAct(s, a)
  {
    var t := a.thread;
    match a
    case StartRead(_) => Started(s, t, RLocking)
    case StartWrite(_) => Started(s, t, WTrying)
    case Turn(_, value) =>
      var s' := Step(s, t, value);
      if SameObject(s, s') then s' else Touched(s', t)
  }

  // ---------- Runs ----------

  ghost predicate Runs(s: State, run: seq<Action>)
    decreases run
  {
    run == [] || (CanAct(s, run[0]) && Runs(Act(s, run[0]), run[1..]))
  }

  function After(s: State, run: seq<Action>): State
    requires Runs(s, run)
    decreases run
  {
    if run == [] then s else After(Act(s, run[0]), run[1..])
  }

  ghost predicate Quiet(s: State) {
    forall t :: 0 <= t < |s.threads| ==> s.threads[t].pc == Idle
  }

  ghost predicate Initial(s: State) {
    && Quiet(s)
    && s.readersCount == 0 && s.readersMutex == None && s.writersMutex == RG.Free
    && s.data == s.initial && s.log == []
  }

  // ---------- What every step keeps, unless the limit is 0 ----------

  predicate HoldsReadersMutex(pc: Pc) {
    match pc
    case RTesting => true
    case RTrying => true
    case RCapping => true
    case RFailing => true
    case RCounting => true
    case RAdmitted => true
    case RLeaving => true
    case RTestingLast => true
    case RReleasing => true
    case RLeft => true
    case _ => false
  }

  /** A thread that is admitted as a reader. */
  function Admitted(t: Thread): nat {
    if t.pc.RAdmitted? || t.pc.Reading? || t.pc.RRelocking? || t.pc.RLeaving? then 1 else 0
  }

  /** How the owner of readers_mutex stands to the group's hold on writers_mutex. */
  ghost predicate OwnerInv(s: State, pc: Pc) {
    match pc
    case RTrying => s.readersCount == 0 && s.writersMutex != RG.ByReaders
    case RCapping => s.writersMutex == RG.ByReaders
    case RCounting => s.writersMutex == RG.ByReaders && !AtLimit(s)
    case RAdmitted => s.writersMutex == RG.ByReaders
    case RLeaving => s.writersMutex == RG.ByReaders
    case RTestingLast => s.writersMutex == RG.ByReaders
    case RReleasing => s.writersMutex == RG.ByReaders && s.readersCount == 0
    case _ => s.writersMutex == RG.ByReaders <==> s.readersCount > 0
  }

  ghost predicate LockInv(s: State) {
    && (forall t :: 0 <= t < |s.threads| && HoldsReadersMutex(s.threads[t].pc) ==> s.readersMutex == Some(t))
    && (forall t :: 0 <= t < |s.threads| && Writing(s.threads[t].pc) ==> s.writersMutex == RG.ByWriter(t))
    && (s.writersMutex.ByWriter? ==>
          s.writersMutex.writer < |s.threads| && Writing(s.threads[s.writersMutex.writer].pc))
    && s.writersMutex != RG.ByCritic
    && match s.readersMutex
       case None => s.writersMutex == RG.ByReaders <==> s.readersCount > 0
       case Some(t) => t < |s.threads| && HoldsReadersMutex(s.threads[t].pc) && OwnerInv(s, s.threads[t].pc)
  }

  ghost predicate CountInv(s: State) {
    s.readersCount == Sum(Admitted, s.threads) && (s.limit.Some? ==> s.readersCount <= s.limit.value)
  }

  /** A call that will fail, or that still may without having taken the writers' mutex. */
  predicate MayFail(s: State, t: nat)
    requires t < |s.threads|
  {
    match s.threads[t].pc
    case WTrying => true
    case RLocking => true
    case RTesting => true
    case RTrying => true
    case RCapping => s.readersCount > 0
    case RFailing => true
    case _ => false
  }

  /** Such a call has changed nothing. */
  ghost predicate TouchInv(s: State) {
    forall t :: 0 <= t < |s.threads| && MayFail(s, t) ==> !s.threads[t].touched
  }

  ghost predicate DataInv(s: State) {
    && RW.AtomicRegister(s.log, s.initial)
    && ((forall t :: 0 <= t < |s.threads| ==> s.threads[t].pc != WStored) ==>
          s.data == RW.Latest(s.log, s.initial))
  }

  ghost predicate Inv(s: State) {
    s.limit != Some(0) && LockInv(s) && CountInv(s) && TouchInv(s) && DataInv(s)
  }

  lemma InitialInv(s: State)
    requires Initial(s) && s.limit != Some(0)
    ensures Inv(s)
  {
    SumConstant(Admitted, s.threads, 0);
  }

  /** A step changes the count by exactly what it changes in the mover's own admission. */
  ghost predicate CountFollows(s: State, s': State, t: nat)
    requires t < |s.threads| == |s'.threads|
  {
    && s'.threads == s.threads[t := s'.threads[t]]
    && Admitted(s'.threads[t]) - Admitted(s.threads[t]) == s'.readersCount - s.readersCount
  }

  lemma WriteMovesCount(s: State, t: nat, value: int)
    requires t < |s.threads|
    ensures CountFollows(s, WriteStep(s, t, value), t)
  {
  }

  lemma EnterMovesCount(s: State, t: nat)
    requires t < |s.threads|
    ensures CountFollows(s, EnterStep(s, t), t)
  {
  }

  lemma LeaveMovesCount(s: State, t: nat)
    requires t < |s.threads|
    ensures CountFollows(s, LeaveStep(s, t), t)
  {
  }

  lemma StepCounts(s: State, t: nat, value: int)
    requires t < |s.threads|
    ensures var s' := Step(s, t, value);
            Sum(Admitted, s'.threads) - Sum(Admitted, s.threads) == s'.readersCount - s.readersCount
    ensures Admitted(s.threads[t]) <= Sum(Admitted, s.threads)
  {
    var t' := Step(s, t, value).threads[t];
    WriteMovesCount(s, t, value);
    EnterMovesCount(s, t);
    LeaveMovesCount(s, t);
    assert CountFollows(s, Step(s, t, value), t);
    SumUpdate(Admitted, s.threads, t, t');
    SumAtLeast(Admitted, s.threads, t);
  }

  lemma StepKeepsCountInv(s: State, t: nat, value: int)
    requires LockInv(s) && CountInv(s) && CanAct(s, Turn(t, value))
    ensures CountInv(Step(s, t, value))
  {
    StepCounts(s, t, value);
  }

  lemma WriteKeepsLockInv(s: State, t: nat, value: int)
    requires LockInv(s) && CanAct(s, Turn(t, value)) && InWrite(s.threads[t].pc)
    ensures LockInv(WriteStep(s, t, value))
  {
  }

  /** Entering, the steps that take a mutex; a reader that tries is the owner of readers_mutex. */
  lemma TakingKeepsLockInv(s: State, t: nat, value: int)
    requires LockInv(s) && CanAct(s, Turn(t, value))
    requires s.threads[t].pc == RLocking || s.threads[t].pc == RTrying
    ensures LockInv(EnterStep(s, t))
  {
  }

  lemma EnterKeepsLockInv(s: State, t: nat, value: int)
    requires s.limit != Some(0) && LockInv(s) && CountInv(s) && CanAct(s, Turn(t, value)) && Entering(s.threads[t].pc)
    ensures LockInv(EnterStep(s, t))
  {
    if s.threads[t].pc == RLocking || s.threads[t].pc == RTrying {
      TakingKeepsLockInv(s, t, value);
    } else {
      assert s.readersMutex == Some(t) && EnterStep(s, t).writersMutex == s.writersMutex;
    }
  }

  lemma LeaveKeepsLockInv(s: State, t: nat, value: int)
    requires LockInv(s) && CanAct(s, Turn(t, value)) && Leaving(s.threads[t].pc)
    requires s.readersCount >= Admitted(s.threads[t])
    ensures LockInv(LeaveStep(s, t))
  {
  }

  lemma StepKeepsLockInv(s: State, t: nat, value: int)
    requires s.limit != Some(0) && LockInv(s) && CountInv(s) && CanAct(s, Turn(t, value))
    ensures LockInv(Step(s, t, value))
  {
    if InWrite(s.threads[t].pc) {
      WriteKeepsLockInv(s, t, value);
    } else if Entering(s.threads[t].pc) {
      EnterKeepsLockInv(s, t, value);
    } else {
      SumAtLeast(Admitted, s.threads, t);
      LeaveKeepsLockInv(s, t, value);
    }
  }

  /** While any reader is admitted, the group holds the writers' mutex and no thread is writing. */
  lemma ReadersExcludeWriters(s: State, r: nat)
    requires LockInv(s) && CountInv(s) && r < |s.threads| && Admitted(s.threads[r]) == 1
    ensures s.writersMutex == RG.ByReaders
    ensures forall t :: 0 <= t < |s.threads| ==> !Writing(s.threads[t].pc)
  {
    SumAtLeast(Admitted, s.threads, r);
  }

  /** Any other step leaves those that are storing where they are. */
  lemma StepKeepsStores(s: State, t: nat, value: int)
    requires CanAct(s, Turn(t, value)) && s.threads[t].pc != WStored
    ensures forall u :: 0 <= u < |s.threads| && s.threads[u].pc == WStored ==>
              Step(s, t, value).threads[u].pc == WStored
  {
  }

  lemma StepKeepsDataInv(s: State, t: nat, value: int)
    requires LockInv(s) && CountInv(s) && DataInv(s) && CanAct(s, Turn(t, value))
    ensures DataInv(Step(s, t, value))
  {
    var s', pc := Step(s, t, value), s.threads[t].pc;
    if pc == Reading {
      ReadersExcludeWriters(s, t);
      RW.RegisterGrows(s.log, RW.Got(s.data), s.initial);
    } else if pc == WStored {
      RW.RegisterGrows(s.log, RW.Wrote(value), s.initial);
    } else if pc == WStoring {
      assert s'.threads[t].pc == WStored;
    } else {
      StepKeepsStores(s, t, value);
      assert s'.log == s.log && s'.data == s.data && s'.initial == s.initial;
    }
  }

  /** A step from s to s' by t that leaves t's call able to fail has itself left no trace. */
  ghost predicate Traceless(s: State, s': State, t: nat)
    requires t < |s.threads| == |s'.threads|
  {
    && s'.threads[t].touched == s.threads[t].touched
    && (MayFail(s', t) ==> MayFail(s, t) && SameObject(s, s'))
  }

  lemma EnteringIsTraceless(s: State, t: nat)
    requires s.limit != Some(0) && LockInv(s) && t < |s.threads| && Entering(s.threads[t].pc)
    ensures Traceless(s, EnterStep(s, t), t)
  {
  }

  lemma FailingIsTraceless(s: State, t: nat, value: int)
    requires s.limit != Some(0) && LockInv(s) && CanAct(s, Turn(t, value))
    ensures Traceless(s, Step(s, t, value), t)
  {
    if Entering(s.threads[t].pc) {
      EnteringIsTraceless(s, t);
    }
  }

  lemma OthersMayFail(s: State, t: nat, value: int, u: nat)
    requires LockInv(s) && CanAct(s, Turn(t, value)) && u < |s.threads| && u != t
    ensures var s' := Step(s, t, value);
            s'.threads[u] == s.threads[u] && (MayFail(s', u) ==> MayFail(s, u))
  {
  }

  lemma StepKeepsTouchInv(s: State, t: nat, value: int)
    requires s.limit != Some(0) && LockInv(s) && CountInv(s) && TouchInv(s) && CanAct(s, Turn(t, value))
    ensures TouchInv(Act(s, Turn(t, value)))
  {
    var s' := Act(s, Turn(t, value));
    FailingIsTraceless(s, t, value);
    forall u | 0 <= u < |s'.threads| && MayFail(s', u) ensures !s'.threads[u].touched {
      assert MayFail(Step(s, t, value), u);
      if u != t {
        OthersMayFail(s, t, value, u);
      }
    }
  }

  /** The mark on a call is not part of the object. */
  lemma TouchedKeepsObject(s: State, t: nat)
    requires t < |s.threads| && LockInv(s) && CountInv(s) && DataInv(s)
    ensures LockInv(Touched(s, t)) && CountInv(Touched(s, t)) && DataInv(Touched(s, t))
  {
    SumUpdate(Admitted, s.threads, t, s.threads[t].(touched := true));
    assert forall u :: 0 <= u < |s.threads| ==> Touched(s, t).threads[u].pc == s.threads[u].pc;
  }

  lemma StartKeepsInv(s: State, t: nat, pc: Pc)
    requires Inv(s) && t < |s.threads| && s.threads[t].pc == Idle && (pc == RLocking || pc == WTrying)
    ensures Inv(Started(s, t, pc))
  {
    SumUpdate(Admitted, s.threads, t, Thread(pc, false));
    assert forall u :: 0 <= u < |s.threads| && u != t ==> Started(s, t, pc).threads[u] == s.threads[u];
  }

  lemma StepKeepsObject(s: State, t: nat, value: int)
    requires Inv(s) && CanAct(s, Turn(t, value))
    ensures LockInv(Step(s, t, value)) && CountInv(Step(s, t, value)) && DataInv(Step(s, t, value))
  {
    StepKeepsLockInv(s, t, value);
    StepKeepsCountInv(s, t, value);
    StepKeepsDataInv(s, t, value);
  }

  lemma StepKeepsLimit(s: State, t: nat, value: int)
    requires t < |s.threads|
    ensures Step(s, t, value).limit == s.limit && |Step(s, t, value).threads| == |s.threads|
  {
  }

  lemma TurnKeepsInv(s: State, t: nat, value: int)
    requires Inv(s) && CanAct(s, Turn(t, value))
    ensures Inv(Act(s, Turn(t, value)))
  {
    var s' := Step(s, t, value);
    StepKeepsObject(s, t, value);
    StepKeepsTouchInv(s, t, value);
    TouchedKeepsObject(s', t);
    assert Act(s, Turn(t, value)) == s' || Act(s, Turn(t, value)) == Touched(s', t);
    StepKeepsLimit(s, t, value);
  }

  lemma ActKeepsInv(s: State, a: Action)
    requires Inv(s) && CanAct(s, a)
    ensures Inv(Act(s, a)) && Act(s, a).limit == s.limit && Act(s, a).initial == s.initial
  {
    match a
    case StartRead(t) => StartKeepsInv(s, t, RLocking);
    case StartWrite(t) => StartKeepsInv(s, t, WTrying);
    case Turn(t, value) => TurnKeepsInv(s, t, value);
  }

  lemma {:induction false} RunKeepsLimit(s: State, run: seq<Action>)
    requires Runs(s, run)
    ensures After(s, run).limit == s.limit
    decreases run
  {
    if run == [] {
    } else {
      RunKeepsLimit(Act(s, run[0]), run[1..]);
    }
  }

  lemma {:induction false} RunKeepsInv(s: State, run: seq<Action>)
    requires Inv(s) && Runs(s, run)
    ensures Inv(After(s, run))
    ensures After(s, run).limit == s.limit && After(s, run).initial == s.initial
    decreases run
  {
    if run == [] {
    } else {
      ActKeepsInv(s, run[0]);
      RunKeepsInv(Act(s, run[0]), run[1..]);
    }
  }

  // ---------- Results for objects without a limit and for limits of at least 1 ----------

  /** At most `limit` threads are ever admitted as readers, and never together with a writer. */
  lemma {:induction false} AdmissionsAreCapped(s: State, run: seq<Action>)
    requires Initial(s) && s.limit != Some(0) && Runs(s, run)
    ensures var e := After(s, run);
            && e.readersCount == Sum(Admitted, e.threads)
            && (s.limit.Some? ==> Sum(Admitted, e.threads) <= s.limit.value)
            && forall r, t :: 0 <= r < |e.threads| && 0 <= t < |e.threads| && Admitted(e.threads[r]) == 1 ==>
                 !Writing(e.threads[t].pc)
  {
    InitialInv(s);
    RunKeepsInv(s, run);
    var e := After(s, run);
    forall r | 0 <= r < |e.threads| && Admitted(e.threads[r]) == 1
      ensures forall t :: 0 <= t < |e.threads| ==> !Writing(e.threads[t].pc)
    {
      ReadersExcludeWriters(e, r);
    }
  }

  /** Every read that succeeds returns the value of the latest completed write, or the initial value. */
  lemma {:induction false} RunIsAtomicRegister(s: State, run: seq<Action>)
    requires Initial(s) && s.limit != Some(0) && Runs(s, run)
    ensures RW.AtomicRegister(After(s, run).log, s.initial)
  {
    InitialInv(s);
    RunKeepsInv(s, run);
  }

  /** No lock is leaked: when no thread is inside a call, nobody is counted and both mutexes are free. */
  lemma {:induction false} QuietMeansUnlocked(s: State, run: seq<Action>)
    requires Initial(s) && s.limit != Some(0) && Runs(s, run) && Quiet(After(s, run))
    ensures var e := After(s, run);
            e.readersCount == 0 && e.readersMutex == None && e.writersMutex == RG.Free
  {
    InitialInv(s);
    RunKeepsInv(s, run);
    SumConstant(Admitted, After(s, run).threads, 0);
  }

  /** A thread that is on its way through a read, past the trylock. */
  predicate PastTrylock(pc: Pc) {
    pc.RCapping? || pc.RCounting? || Leaving(pc)
  }

  /** A write fails only because another thread is inside a write or a read of the same object. */
  lemma FailedWriteHasCause(s: State, t: nat) returns (u: nat)
    requires LockInv(s) && CountInv(s) && t < |s.threads| && s.threads[t].pc == WTrying && s.writersMutex != RG.Free
    ensures u < |s.threads| && u != t
    ensures Writing(s.threads[u].pc) || PastTrylock(s.threads[u].pc)
  {
    if s.writersMutex.ByWriter? {
      u := s.writersMutex.writer;
    } else if s.readersCount > 0 {
      u := SumPositive(Admitted, s.threads);
    } else {
      u := s.readersMutex.value;
    }
  }

  /** A read that fails at the trylock fails because a writer is in its critical section. */
  lemma FailedTrylockHasCause(s: State, t: nat) returns (u: nat)
    requires LockInv(s) && t < |s.threads| && s.threads[t].pc == RTrying && s.writersMutex != RG.Free
    ensures u < |s.threads| && Writing(s.threads[u].pc)
  {
    assert s.readersMutex == Some(t);
    u := s.writersMutex.writer;
  }

  /** A read that fails at the cap finds exactly `limit` readers admitted. */
  lemma FailedCapHasCause(s: State, t: nat)
    requires CountInv(s) && t < |s.threads| && s.threads[t].pc == RCapping
    requires Step(s, t, 0).threads[t].pc == RFailing
    ensures s.limit == Some(Sum(Admitted, s.threads))
  {
  }

  /** None of the steps that t makes in this run changes the object. */
  ghost predicate LeavesNoTrace(s: State, run: seq<Action>, t: nat)
    requires Runs(s, run)
    decreases run
  {
    run == [] ||
    (&& (run[0].Turn? && run[0].thread == t ==> SameObject(s, Step(s, t, run[0].value)))
     && LeavesNoTrace(Act(s, run[0]), run[1..], t))
  }

  ghost predicate StartsNothing(run: seq<Action>, t: nat) {
    forall k :: 0 <= k < |run| && run[k].thread == t ==> run[k].Turn?
  }

  /** What the mark of a call means: some step that it has made since it was unmarked has changed the object. */
  lemma {:induction false} MarkTellsTrace(s: State, run: seq<Action>, t: nat)
    requires t < |s.threads| && Runs(s, run) && StartsNothing(run, t)
    ensures |After(s, run).threads| == |s.threads|
    ensures !After(s, run).threads[t].touched <==> !s.threads[t].touched && LeavesNoTrace(s, run, t)
    decreases run
  {
    if run == [] {
    } else {
      ActMarks(s, run[0], t);
      MarkTellsTrace(Act(s, run[0]), run[1..], t);
    }
  }

  lemma StepKeepsMarks(s: State, t: nat, value: int, u: nat)
    requires t < |s.threads| && u < |s.threads|
    ensures |Step(s, t, value).threads| == |s.threads| && Step(s, t, value).threads[u].touched == s.threads[u].touched
  {
  }

  lemma ActMarks(s: State, a: Action, t: nat)
    requires t < |s.threads| && CanAct(s, a) && (a.thread == t ==> a.Turn?)
    ensures |Act(s, a).threads| == |s.threads|
    ensures Act(s, a).threads[t].touched <==>
              s.threads[t].touched || (a.Turn? && a.thread == t && !SameObject(s, Step(s, t, a.value)))
  {
    if a.Turn? {
      StepKeepsMarks(s, a.thread, a.value, t);
    }
  }

  /**
   A call about to return false has changed nothing of the object, nor does it by returning: none of its steps since it
   began has, in any run, whatever others did in between.
   */
  lemma {:induction false} FailureLeavesNoTrace(s: State, before: seq<Action>, t: nat, start: Action,
                                                since: seq<Action>, value: int)
    requires Initial(s) && s.limit != Some(0) && Runs(s, before)
    requires t < |After(s, before).threads| && CanAct(After(s, before), start)
    requires start == StartRead(t) || start == StartWrite(t)
    requires Runs(Act(After(s, before), start), since) && StartsNothing(since, t)
    requires var e := After(Act(After(s, before), start), since);
             && t < |e.threads|
             && (e.threads[t].pc == RFailing || (e.threads[t].pc == WTrying && e.writersMutex != RG.Free))
    ensures var begun := Act(After(s, before), start);
            var e := After(begun, since);
            && LeavesNoTrace(begun, since, t)
            && SameObject(e, Step(e, t, value)) && Step(e, t, value).threads[t].pc == Idle
  {
    var begun := Act(After(s, before), start);
    InitialInv(s);
    RunKeepsInv(s, before);
    ActKeepsInv(After(s, before), start);
    RunKeepsInv(begun, since);
    MarkTellsTrace(begun, since, t);
  }

  // ---------- Calls end ----------

  /** No deadlock: while any thread is inside a call, some call can go on. */
  lemma SomeCallCanGoOn(s: State) returns (t: nat)
    requires LockInv(s) && !Quiet(s)
    ensures CanAct(s, Turn(t, 0))
  {
    if s.readersMutex.Some? {
      t := s.readersMutex.value;
    } else {
      var u :| 0 <= u < |s.threads| && s.threads[u].pc != Idle;
      t := u;
    }
  }

  /** How many steps a call has yet to make, at most. */
  function StepsLeft(t: Thread): (n: nat)
    ensures n <= 12
  {
    match t.pc
    case Idle => 0
    case WTrying => 4
    case WStoring => 3
    case WStored => 2
    case WUnlocking => 1
    case RLocking => 12
    case RTesting => 11
    case RTrying => 10
    case RCapping => 9
    case RFailing => 1
    case RCounting => 8
    case RAdmitted => 7
    case Reading => 6
    case RRelocking => 5
    case RLeaving => 4
    case RTestingLast => 3
    case RReleasing => 2
    case RLeft => 1
  }

  /** Every step of a call brings its own end nearer and leaves the others where they are. */
  lemma StepLowersStepsLeft(s: State, t: nat, value: int)
    requires CanAct(s, Turn(t, value))
    ensures var s' := Step(s, t, value);
            StepsLeft(s'.threads[t]) < StepsLeft(s.threads[t]) && s'.threads == s.threads[t := s'.threads[t]]
  {
  }

  lemma TurnLowersStepsLeft(s: State, t: nat, value: int)
    requires CanAct(s, Turn(t, value))
    ensures var s' := Act(s, Turn(t, value));
            && |s'.threads| == |s.threads| && StepsLeft(s'.threads[t]) < StepsLeft(s.threads[t])
            && Sum(StepsLeft, s'.threads) < Sum(StepsLeft, s.threads)
  {
    var s' := Act(s, Turn(t, value));
    StepLowersStepsLeft(s, t, value);
    assert s'.threads == s.threads[t := s'.threads[t]];
    SumUpdate(StepsLeft, s.threads, t, s'.threads[t]);
  }

  function TurnsOf(run: seq<Action>, t: nat): nat {
    if run == [] then 0 else (if run[0].Turn? && run[0].thread == t then 1 else 0) + TurnsOf(run[1..], t)
  }

  /** A call makes at most twelve steps of its own, successful or not and whatever the others do. */
  lemma {:induction false} CallIsShort(s: State, run: seq<Action>, t: nat)
    requires t < |s.threads| && Runs(s, run) && StartsNothing(run, t)
    ensures |After(s, run).threads| == |s.threads|
    ensures TurnsOf(run, t) + StepsLeft(After(s, run).threads[t]) <= StepsLeft(s.threads[t]) <= 12
    decreases run
  {
    if run == [] {
    } else {
      var s' := Act(s, run[0]);
      if run[0].thread == t {
        TurnLowersStepsLeft(s, t, run[0].value);
      } else {
        assert s'.threads[t] == s.threads[t];
      }
      CallIsShort(s', run[1..], t);
    }
  }

  lemma {:induction false} TurnsLowerStepsLeft(s: State, run: seq<Action>)
    requires Runs(s, run) && forall k :: 0 <= k < |run| ==> run[k].Turn?
    ensures |run| + Sum(StepsLeft, After(s, run).threads) <= Sum(StepsLeft, s.threads)
    decreases run
  {
    if run == [] {
    } else {
      TurnLowersStepsLeft(s, run[0].thread, run[0].value);
      TurnsLowerStepsLeft(Act(s, run[0]), run[1..]);
    }
  }

  /**
   Only new calls keep the object busy: the calls under way, however they are scheduled, end within twelve steps each,
   and where none of them can go on there is none left.
   */
  lemma {:induction false} CallsUnderWayEnd(s: State, run: seq<Action>)
    requires Inv(s) && Runs(s, run) && forall k :: 0 <= k < |run| ==> run[k].Turn?
    ensures |run| <= 12 * |s.threads|
    ensures (forall t: nat :: !CanAct(After(s, run), Turn(t, 0))) ==> Quiet(After(s, run))
  {
    TurnsLowerStepsLeft(s, run);
    SumAtMost(StepsLeft, s.threads, 12);
    RunKeepsInv(s, run);
    if !Quiet(After(s, run)) {
      var t := SomeCallCanGoOn(After(s, run));
    }
  }

  // ---------- Calls that nobody disturbs ----------

  lemma Prepend(s: State, a: Action, rest: seq<Action>) returns (run: seq<Action>)
    requires CanAct(s, a) && Runs(Act(s, a), rest)
    ensures run == [a] + rest && Runs(s, run) && After(s, run) == After(Act(s, a), rest)
  {
    run := [a] + rest;
    assert run[1..] == rest;
  }

  lemma {:induction false} Concat(s: State, first: seq<Action>, rest: seq<Action>)
    requires Runs(s, first) && Runs(After(s, first), rest)
    ensures Runs(s, first + rest) && After(s, first + rest) == After(After(s, first), rest)
    decreases first
  {
    if first == [] {
      assert first + rest == rest;
    } else {
      assert (first + rest)[1..] == first[1..] + rest;
      Concat(Act(s, first[0]), first[1..], rest);
    }
  }

  predicate CanCall(s: State, t: nat) {
    t < |s.threads| && s.threads[t].pc == Idle
  }

  /** Thread t has read and could end its read now. */
  predicate CanEnd(s: State, t: nat) {
    t < |s.threads| && s.threads[t].pc == RRelocking && s.readersMutex == None
  }

  /** What is different once t has called write_to_object. */
  function Written(s: State, t: nat, value: int): State
    requires t < |s.threads|
  {
    if s.writersMutex != RG.Free then s.(threads := s.threads[t := Thread(Idle, false)])
    else s.(data := value, log := s.log + [RW.Wrote(value)], threads := s.threads[t := Thread(Idle, true)])
  }

  /** What is different once t has called read_from_object and has been let in or turned away. */
  function Begun(s: State, t: nat): State
    requires t < |s.threads|
  {
    var first := s.readersCount == 0;
    if first && s.writersMutex != RG.Free then s.(threads := s.threads[t := Thread(Idle, false)])
    else
      var s' := if first then s.(writersMutex := RG.ByReaders) else s;
      if AtLimit(s) then s'.(threads := s.threads[t := Thread(Idle, first)])
      else s'.(threads := s.threads[t := Thread(Reading, true)], readersCount := s.readersCount + 1)
  }

  /** What is different once t has ended its read. */
  function Ended(s: State, t: nat): State
    requires t < |s.threads|
  {
    s.(threads := s.threads[t := Thread(Idle, true)], readersCount := s.readersCount - 1,
       writersMutex := if s.readersCount == 1 then RG.Free else s.writersMutex)
  }

  lemma WriteAlone(s: State, t: nat, value: int) returns (run: seq<Action>)
    requires CanCall(s, t)
    ensures Runs(s, run) && After(s, run) == Written(s, t, value)
  {
    var a := Turn(t, value);
    var s1 := Act(s, StartWrite(t));
    var s2 := Act(s1, a);
    if s.writersMutex != RG.Free {
      assert s2 == Written(s, t, value);
      run := [];
    } else {
      var s3 := Act(s2, a);
      var s4 := Act(s3, a);
      assert Act(s4, a) == Written(s, t, value);
      run := Prepend(s4, a, []);
      run := Prepend(s3, a, run);
      run := Prepend(s2, a, run);
    }
    run := Prepend(s1, a, run);
    run := Prepend(s, StartWrite(t), run);
  }

  /** From the test of the limit on, with what was tested before already done. */
  lemma CapAlone(s: State, t: nat) returns (run: seq<Action>)
    requires t < |s.threads| && s.threads[t].pc == RCapping && s.readersMutex == Some(t)
    ensures Runs(s, run)
    ensures After(s, run) ==
              var s' := s.(readersMutex := None);
              if AtLimit(s) then s'.(threads := s.threads[t := s.threads[t].(pc := Idle)])
              else s'.(threads := s.threads[t := Thread(Reading, true)], readersCount := s.readersCount + 1)
  {
    var a := Turn(t, 0);
    var s1 := Act(s, a);
    var s2 := Act(s1, a);
    run := [];
    if !AtLimit(s) {
      run := Prepend(s2, a, run);
    }
    run := Prepend(s1, a, run);
    run := Prepend(s, a, run);
  }

  /** From the test of the count on. */
  lemma TestAlone(s: State, t: nat) returns (run: seq<Action>)
    requires t < |s.threads| && s.threads[t] == Thread(RTesting, false) && s.readersMutex == Some(t)
    ensures Runs(s, run) && After(s, run) == Begun(s, t).(readersMutex := None)
  {
    var a := Turn(t, 0);
    var s1 := Act(s, a);
    if s.readersCount != 0 {
      run := CapAlone(s1, t);
    } else {
      var s2 := Act(s1, a);
      if s.writersMutex != RG.Free {
        run := Prepend(s2, a, []);
      } else {
        run := CapAlone(s2, t);
      }
      run := Prepend(s1, a, run);
    }
    run := Prepend(s, a, run);
    assert After(s, run) == Begun(s, t).(readersMutex := None);
  }

  lemma BeginAlone(s: State, t: nat) returns (run: seq<Action>)
    requires CanCall(s, t) && s.readersMutex == None
    ensures Runs(s, run) && After(s, run) == Begun(s, t)
  {
    var s1 := Act(s, StartRead(t));
    var s2 := Act(s1, Turn(t, 0));
    run := TestAlone(s2, t);
    run := Prepend(s1, Turn(t, 0), run);
    run := Prepend(s, StartRead(t), run);
    assert After(s, run) == Begun(s, t);
  }

  lemma EndAlone(s: State, t: nat) returns (run: seq<Action>)
    requires CanEnd(s, t)
    ensures Runs(s, run) && After(s, run) == Ended(s, t)
  {
    var a := Turn(t, 0);
    var s1 := Act(s, a);
    var s2 := Act(s1, a);
    var s3 := Act(s2, a);
    var s4 := Act(s3, a);
    if s.readersCount == 1 {
      assert Act(s4, a) == Ended(s, t);
      run := Prepend(s4, a, []);
    } else {
      assert s4 == Ended(s, t);
      run := [];
    }
    run := Prepend(s3, a, run);
    run := Prepend(s2, a, run);
    run := Prepend(s1, a, run);
    run := Prepend(s, a, run);
  }

  // ---------- What a limit of 0 does ----------

  /** Nobody gets past the cap. */
  ghost predicate NobodyAdmitted(s: State) {
    && s.limit == Some(0) && s.readersCount == 0
    && forall t :: 0 <= t < |s.threads| ==> !s.threads[t].pc.RCounting? && !Leaving(s.threads[t].pc)
  }

  /** The readers hold the writers' mutex although nobody reads, and no write is under way. */
  ghost predicate Leaked(s: State) {
    && NobodyAdmitted(s) && s.writersMutex == RG.ByReaders
    && forall t :: 0 <= t < |s.threads| ==> !Writing(s.threads[t].pc)
  }

  ghost predicate WritersHold(s: State) {
    forall t :: 0 <= t < |s.threads| && Writing(s.threads[t].pc) ==> s.writersMutex == RG.ByWriter(t)
  }

  lemma StepKeepsNobodyAdmitted(s: State, t: nat, value: int)
    requires NobodyAdmitted(s) && CanAct(s, Turn(t, value))
    ensures NobodyAdmitted(Step(s, t, value))
  {
  }

  lemma ActKeepsNobodyAdmitted(s: State, a: Action)
    requires NobodyAdmitted(s) && CanAct(s, a)
    ensures NobodyAdmitted(Act(s, a))
  {
    if a.Turn? {
      StepKeepsNobodyAdmitted(s, a.thread, a.value);
    }
  }

  lemma StepKeepsWritersHold(s: State, t: nat, value: int)
    requires NobodyAdmitted(s) && WritersHold(s) && CanAct(s, Turn(t, value))
    ensures WritersHold(Step(s, t, value))
  {
  }

  lemma ActKeepsWritersHold(s: State, a: Action)
    requires NobodyAdmitted(s) && WritersHold(s) && CanAct(s, a)
    ensures WritersHold(Act(s, a))
  {
    if a.Turn? {
      StepKeepsWritersHold(s, a.thread, a.value);
    }
  }

  lemma StepKeepsLeak(s: State, t: nat, value: int)
    requires Leaked(s) && CanAct(s, Turn(t, value))
    ensures var s' := Step(s, t, value);
            && s'.writersMutex == RG.ByReaders && s'.log == s.log && s'.data == s.data
            && forall u :: 0 <= u < |s'.threads| ==> !Writing(s'.threads[u].pc)
  {
  }

  lemma ActKeepsLeak(s: State, a: Action)
    requires Leaked(s) && CanAct(s, a)
    ensures Leaked(Act(s, a)) && Act(s, a).log == s.log && Act(s, a).data == s.data
  {
    ActKeepsNobodyAdmitted(s, a);
    if a.Turn? {
      StepKeepsLeak(s, a.thread, a.value);
    }
  }

  lemma {:induction false} RunKeepsNobodyAdmitted(s: State, run: seq<Action>)
    requires NobodyAdmitted(s) && WritersHold(s) && Runs(s, run)
    ensures NobodyAdmitted(After(s, run)) && WritersHold(After(s, run))
    decreases run
  {
    if run == [] {
    } else {
      ActKeepsNobodyAdmitted(s, run[0]);
      ActKeepsWritersHold(s, run[0]);
      RunKeepsNobodyAdmitted(Act(s, run[0]), run[1..]);
    }
  }

  /** A leaked mutex stays leaked: from then on no read and no write succeeds. */
  lemma {:induction false} LeakIsForever(s: State, run: seq<Action>)
    requires Leaked(s) && Runs(s, run)
    ensures Leaked(After(s, run)) && After(s, run).log == s.log && After(s, run).data == s.data
    decreases run
  {
    if run == [] {
    } else {
      ActKeepsLeak(s, run[0]);
      LeakIsForever(Act(s, run[0]), run[1..]);
    }
  }

  /** With limit 0, the first read that wins the trylock leaks the mutex, and no call succeeds ever after. */
  lemma {:induction false} ZeroLimitLeaks(s: State, before: seq<Action>, t: nat, value: int, after: seq<Action>)
    requires Initial(s) && s.limit == Some(0) && Runs(s, before)
    requires var e := After(s, before);
             t < |e.threads| && e.threads[t].pc == RTrying && e.writersMutex == RG.Free
    requires Runs(Act(After(s, before), Turn(t, value)), after)
    ensures var e := After(s, before);
            var last := After(Act(e, Turn(t, value)), after);
            last.writersMutex == RG.ByReaders && last.log == e.log && last.data == e.data
  {
    RunKeepsNobodyAdmitted(s, before);
    var e := After(s, before);
    ActKeepsNobodyAdmitted(e, Turn(t, value));
    LeakIsForever(Act(e, Turn(t, value)), after);
  }

  /** So the promise of QuietMeansUnlocked fails for limit 0: one read by one thread is enough. */
  lemma ZeroLimitBreaksQuiet(s: State) returns (run: seq<Action>)
    requires Initial(s) && s.limit == Some(0) && |s.threads| > 0
    ensures Runs(s, run) && Quiet(After(s, run)) && After(s, run).writersMutex == RG.ByReaders
  {
    run := BeginAlone(s, 0);
  }

  /**
   The program's object, with its calls cut where another thread may come in between. Its methods make runs of the
   state machine: `run` is what has been done to the object since `start`.
   */
  class ConcurrentObject {
    var data: int
    var readersCount: nat
    const readersLimit: Option<nat>
    var writersLocked: bool

    ghost const start: State
    ghost var run: seq<Action>

    /** The object as one sees it when the machine is in state s and nobody is changing the count. */
    ghost predicate Shows(s: State)
      reads this
    {
      && data == s.data
      && readersCount == s.readersCount
      && readersLimit == s.limit
      && s.readersMutex == None
      && (writersLocked <==> s.writersMutex != RG.Free)
    }

    ghost predicate Valid()
      reads this
    {
      Initial(start) && Runs(start, run) && Shows(After(start, run))
    }

    /** The state the machine is in. */
    ghost function Now(): State
      requires Valid()
      reads this
    {
      After(start, run)
    }

    lemma NowInv()
      requires Valid() && start.limit != Some(0)
      ensures Inv(Now()) && Now().initial == start.initial && Now().limit == start.limit
    {
      InitialInv(start);
      RunKeepsInv(start, run);
    }

    constructor (initialData: int, readersLimit: Option<nat>, ghost program: State)
      requires Initial(program) && program.initial == initialData && program.limit == readersLimit
      ensures Valid() && Now() == start == program
      ensures data == initialData && readersCount == 0 && this.readersLimit == readersLimit && !writersLocked
    {
      this.data := initialData;
      this.readersCount := 0;
      this.readersLimit := readersLimit;
      this.writersLocked := false;
      start, run := program, [];
    }

    /** write_to_object: fails exactly if somebody holds the writers' mutex, and then changes nothing. */
    method WriteToObject(value: int, ghost t: nat) returns (ok: bool)
      requires Valid() && CanCall(Now(), t)
      modifies this
      ensures Valid() && Now() == Written(old(Now()), t, value) && old(run) <= run
      ensures ok <==> !old(writersLocked)
      ensures data == (if ok then value else old(data))
      ensures writersLocked == old(writersLocked) && readersCount == old(readersCount)
    {
      ghost var steps := WriteAlone(Now(), t, value);
      Concat(start, run, steps);
      if writersLocked {
        run := run + steps;
        return false;
      }
      writersLocked := true;
      data := value;
      writersLocked := false;
      run := run + steps;
      return true;
    }

    /** read_from_object up to the first unlock of readers_mutex. */
    method BeginRead(ghost t: nat) returns (ok: bool)
      requires Valid() && CanCall(Now(), t)
      modifies this
      ensures Valid() && Now() == Begun(old(Now()), t) && old(run) <= run
      ensures ok <==> !(old(readersCount) == 0 && old(writersLocked)) && readersLimit != Some(old(readersCount))
      ensures data == old(data) && readersCount == old(readersCount) + if ok then 1 else 0
      ensures !ok && readersLimit != Some(0) ==> writersLocked == old(writersLocked)
      ensures readersLimit == Some(0) && old(readersCount) == 0 ==> !ok && writersLocked
    {
      ghost var steps := BeginAlone(Now(), t);
      Concat(start, run, steps);
      run := run + steps;
      if readersCount == 0 {
        if writersLocked {
          return false;
        }
        writersLocked := true;
      }
      if Some(readersCount) == readersLimit {
        return false;
      }
      readersCount := readersCount + 1;
      return true;
    }

    /** The read itself, which other readers may overlap. */
    method ReadDatum(ghost t: nat) returns (value: int)
      requires Valid() && t < |Now().threads| && Now().threads[t].pc == Reading
      modifies this`run
      ensures Valid() && Now() == Act(old(Now()), Turn(t, 0)) && old(run) <= run
      ensures value == data
      ensures readersLimit != Some(0) ==> value == RW.Latest(old(Now()).log, start.initial)
    {
      if readersLimit != Some(0) {
        RunKeepsLimit(start, run);
        NowInv();
        ReadersExcludeWriters(Now(), t);
      }
      value := data;
      ghost var step := Prepend(Now(), Turn(t, 0), []);
      Concat(start, run, step);
      run := run + step;
    }

    /** The rest of read_from_object. */
    method EndRead(ghost t: nat)
      requires Valid() && CanEnd(Now(), t) && readersCount > 0
      modifies this
      ensures Valid() && Now() == Ended(old(Now()), t) && old(run) <= run
      ensures data == old(data) && readersCount == old(readersCount) - 1
      ensures writersLocked == (if readersCount == 0 then false else old(writersLocked))
    {
      ghost var steps := EndAlone(Now(), t);
      readersCount := readersCount - 1;
      if readersCount == 0 {
        writersLocked := false;
      }
      Concat(start, run, steps);
      run := run + steps;
    }

    /**
     A read that nobody overlaps gives the latest completed write, or fails for one of two reasons, and leaves the
     object as it was, unless the limit is 0.
     */
    method ReadFromObject(ghost t: nat) returns (value: Option<int>)
      requires Valid() && CanCall(Now(), t)
      modifies this
      ensures Valid() && old(run) <= run
      ensures Now().log == old(Now()).log + if value.Some? then [RW.Got(value.value)] else []
      ensures value == None <==>
                (old(readersCount) == 0 && old(writersLocked)) || readersLimit == Some(old(readersCount))
      ensures value.Some? ==> value.value == data
      ensures value.Some? && readersLimit != Some(0) ==> value.value == RW.Latest(old(Now()).log, start.initial)
      ensures data == old(data) && readersCount == old(readersCount)
      ensures readersLimit != Some(0) ==> writersLocked == old(writersLocked)
    {
      var ok := BeginRead(t);
      if !ok {
        return None;
      }
      var datum := ReadDatum(t);
      value := Some(datum);
      EndRead(t);
    }
  }
}
