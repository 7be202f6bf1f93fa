/**
 Classes1/Task2.c and Classes1/Task6.c as state machines. The two programs run the same thread code around the
 same ring; they differ in what makes a call wait and in when it broadcasts, which is the `discipline` here.
 */
module BufferRuns {
  import opened Counting
  import opened Monitors
  import opened Ring

  /** Task2.c waits on empty and full; Task6.c fills the buffer to the brim, then drains it to the bottom. */
  datatype Discipline = Bounded | Phased(readingTime: bool)

  /**
   The shared buffer, the threads, and three records of the run: the values written and the values read, each
   in order, and who committed each operation.
   */
  datatype State = State(discipline: Discipline, buf: Buffer, mon: Monitor,
                         written: seq<int>, got: seq<int>, history: seq<Role>)

  /** One step of one thread; `value` is what rand() returns if that step stores something. */
  datatype Action = Turn(thread: nat, value: int) | Spurious(thread: nat)

  /** The condition of the wait loop. */
  predicate MustWait(d: Discipline, b: Buffer, role: Role) {
    match (d, role)
    case (Bounded, Reader) => b.items == 0
    case (Bounded, Writer) => b.items == b.size
    case (Phased(readingTime), Reader) => !readingTime
    case (Phased(readingTime), Writer) => readingTime
  }

  /** The condition under which a call broadcasts. */
  predicate AtEdge(d: Discipline, b: Buffer, role: Role) {
    match (d, role)
    case (Bounded, Reader) => b.items == b.size
    case (Bounded, Writer) => b.items == 0
    case (Phased(_), Reader) => b.items == 1
    case (Phased(_), Writer) => b.items == b.size - 1
  }

  /** Task6.c turns the phase around just before it broadcasts. */
  function Flip(d: Discipline, role: Role): Discipline {
    if d.Phased? then Phased(role == Writer) else d
  }

  predicate CanAct(s: State, a: Action) {
    match a
    case Turn(i, _) => Enabled(s.mon, i)
    case Spurious(i) => i < |s.mon.threads| && s.mon.threads[i].pc == Asleep
  }

  function MonitorTurn(s: State, i: nat): Monitor
    requires i < |s.mon.threads|
  {
    var role := s.mon.threads[i].role;
    Step(s.mon, i, MustWait(s.discipline, s.buf, role), AtEdge(s.discipline, s.buf, role))
  }

  function Act(s: State, a: Action): State
    requires CanAct(s, a)
  {
    match a
    case Spurious(i) => s.(mon := StirOne(s.mon, i))
    case Turn(i, value) =>
      var t := s.mon.threads[i];
      var s' := s.(mon := MonitorTurn(s, i));
      if t.pc == Checking && AtEdge(s.discipline, s.buf, t.role) then
        s'.(discipline := Flip(s.discipline, t.role))
      else if t.pc == Updating && t.role == Reader then
        s'.(buf := Take(s.buf), got := s.got + [Front(s.buf)], history := s.history + [Reader])
      else if t.pc == Updating then
        s'.(buf := Put(s.buf, value), written := s.written + [value], history := s.history + [Writer])
      else
        s'
  }

  // ---------- Runs ----------

  ghost predicate Runs(s: State, run: seq<Action>)
    decreases run
  {
    run == [] || (CanAct(s, run[0]) && Runs(Act(s, run[0]), run[1..]))
  }

  function After(s: State, run: seq<Action>): State
    requires Runs(s, run)
    decreases run
  {
    if run == [] then s else After(Act(s, run[0]), run[1..])
  }

  function SpuriousWakeups(run: seq<Action>): nat {
    if run == [] then 0 else (if run[0].Spurious? then 1 else 0) + SpuriousWakeups(run[1..])
  }

  ghost predicate Initial(s: State) {
    && (s.discipline.Phased? ==> !s.discipline.readingTime)
    && AllIdle(s.mon)
    && s.buf.items == s.buf.reading == s.buf.writing == 0
    && s.written == s.got == [] && s.history == []
  }

  /** A run is over when no thread can move; threads still asleep could only wake spuriously. */
  ghost predicate Stuck(s: State) {
    forall i: nat :: !Enabled(s.mon, i)
  }

  ghost predicate AllFinished(s: State) {
    forall i :: 0 <= i < |s.mon.threads| ==> Finished(s.mon.threads[i])
  }

  // ---------- What every step keeps ----------

  ghost predicate Queueing(s: State) {
    && Consistent(s.buf)
    && |s.got| <= |s.written|
    && s.got == s.written[..|s.got|]
    && Contents(s.buf) == s.written[|s.got|..]
  }

  ghost predicate NobodyAsleep(m: Monitor) {
    forall j :: 0 <= j < |m.threads| ==> m.threads[j].pc != Asleep
  }

  /**
   Task2.c loses no wake-up: whoever sleeps has a reason to, and nobody sleeps while an edge is being crossed.
   */
  ghost predicate BoundedInv(s: State)
    requires s.discipline.Bounded?
  {
    forall i :: 0 <= i < |s.mon.threads| ==> StandsRightly(s, i)
  }

  ghost predicate StandsRightly(s: State, i: nat)
    requires s.discipline.Bounded? && i < |s.mon.threads|
  {
    var t := s.mon.threads[i];
    && (t.pc == Asleep ==> MustWait(s.discipline, s.buf, t.role))
    && (t.pc.Checking? || t.pc.Signalling? || t.pc.Updating? ==> !MustWait(s.discipline, s.buf, t.role))
    && (t.pc == Updating && AtEdge(s.discipline, s.buf, t.role) ==> NobodyAsleep(s.mon))
  }

  /** In Task6.c: a thread that has turned the phase around but not yet made the operation that ends the old one. */
  predicate Flipped(s: State, t: Thread) {
    t.pc == Signalling || (t.pc == Updating && AtEdge(s.discipline, s.buf, t.role))
  }

  /** Whether the operations committed so far put Task6.c in its draining phase. */
  predicate Draining(s: State)
    requires s.discipline.Phased?
  {
    var owner := s.mon.owner;
    if owner.Some? && owner.value < |s.mon.threads| && Flipped(s, s.mon.threads[owner.value])
    then !s.discipline.readingTime else s.discipline.readingTime
  }

  /** Task6.c's phases show in the indices and in how many operations have been made. */
  ghost predicate PhaseInv(s: State)
    requires s.discipline.Phased?
  {
    && (if Draining(s)
        then s.buf.writing == 0 && s.buf.items > 0 && s.buf.reading == s.buf.size - s.buf.items
        else s.buf.reading == 0 && s.buf.writing == s.buf.items < s.buf.size)
    && |s.history| % (2 * s.buf.size) == (if Draining(s) then 2 * s.buf.size - s.buf.items else s.buf.items)
    && |s.got| % s.buf.size == s.buf.reading
    && FillsThenDrains(s.history, s.buf.size)
  }

  /** `size` writes, then `size` reads, and so on. */
  ghost predicate FillsThenDrains(history: seq<Role>, size: nat)
    requires size > 0
  {
    forall k :: 0 <= k < |history| ==> (history[k] == Writer <==> k % (2 * size) < size)
  }

  ghost predicate SleepInv(s: State)
    requires s.discipline.Phased?
  {
    forall i :: 0 <= i < |s.mon.threads| ==> WaitsRightly(s, i)
  }

  ghost predicate WaitsRightly(s: State, i: nat)
    requires s.discipline.Phased? && i < |s.mon.threads|
  {
    var t := s.mon.threads[i];
    && (t.pc == Asleep ==> MustWait(s.discipline, s.buf, t.role) || SomebodySignals(s.mon))
    && (t.pc == Checking ==> !MustWait(s.discipline, s.buf, t.role))
    && (t.pc == Signalling ==> AtEdge(s.discipline, s.buf, t.role) && MustWait(s.discipline, s.buf, t.role))
    && (t.pc == Updating ==> (MustWait(s.discipline, s.buf, t.role) <==> AtEdge(s.discipline, s.buf, t.role)))
  }

  predicate SomebodySignals(m: Monitor) {
    m.owner.Some? && m.owner.value < |m.threads| && m.threads[m.owner.value].pc == Signalling
  }

  ghost predicate Inv(s: State) {
    && MutexInv(s.mon)
    && Queueing(s)
    && match s.discipline
       case Bounded => BoundedInv(s)
       case Phased(_) => PhaseInv(s) && SleepInv(s)
  }

  lemma InitialInv(s: State)
    requires Initial(s)
    ensures Inv(s)
  {
    Wrap(0, s.buf.size);
    Wrap(0, 2 * s.buf.size);
  }

  /** A thread about to update finds something to take, or room to put. */
  lemma UpdateHasRoom(s: State, i: nat)
    requires Inv(s) && i < |s.mon.threads| && s.mon.threads[i].pc == Updating
    ensures s.mon.threads[i].role == Reader ==> s.buf.items > 0
    ensures s.mon.threads[i].role == Writer ==> s.buf.items < s.buf.size
  {
    assert s.mon.owner == Some(i);
    if s.discipline.Phased? {
      assert WaitsRightly(s, i);
    } else {
      assert StandsRightly(s, i);
    }
  }

  lemma ActKeepsQueueing(s: State, a: Action)
    requires Inv(s) && CanAct(s, a)
    ensures Queueing(Act(s, a))
  {
    if a.Turn? && s.mon.threads[a.thread].pc == Updating {
      UpdateHasRoom(s, a.thread);
      if s.mon.threads[a.thread].role == Reader {
        TakeRemovesFront(s.buf);
        assert s.written[|s.got|] == Contents(s.buf)[0];
      } else {
        PutAppends(s.buf, a.value);
      }
    }
  }

  /** In Task2.c the thread that moves has itself tested the condition and has held the mutex since. */
  lemma MoverStandsRightly(s: State, a: Action)
    requires Inv(s) && CanAct(s, a) && s.discipline.Bounded?
    ensures StandsRightly(Act(s, a), a.thread)
  {
    assert StandsRightly(s, a.thread);
    assert forall j :: 0 <= j < |s.mon.threads| ==> StandsRightly(s, j);
  }

  /** Another thread sleeps on rightly, because an update that ends its reason to sleep crosses an edge. */
  lemma OthersStandRightly(s: State, a: Action, i: nat)
    requires Inv(s) && CanAct(s, a) && s.discipline.Bounded?
    requires i < |s.mon.threads| && i != a.thread
    ensures StandsRightly(Act(s, a), i)
  {
    assert StandsRightly(s, i);
    assert StandsRightly(s, a.thread);
  }

  lemma ActKeepsBoundedInv(s: State, a: Action)
    requires Inv(s) && CanAct(s, a) && s.discipline.Bounded?
    ensures BoundedInv(Act(s, a))
  {
    forall i | 0 <= i < |Act(s, a).mon.threads| ensures StandsRightly(Act(s, a), i) {
      if i == a.thread {
        MoverStandsRightly(s, a);
      } else {
        OthersStandRightly(s, a, i);
      }
    }
  }

  /** The thread that moves keeps its own part, because it tested the phase itself and has held the mutex since. */
  lemma MoverWaitsRightly(s: State, a: Action)
    requires Inv(s) && CanAct(s, a) && s.discipline.Phased?
    ensures WaitsRightly(Act(s, a), a.thread)
  {
    assert WaitsRightly(s, a.thread);
    if a.Turn? && s.mon.threads[a.thread].pc != Checking {
      assert Act(s, a).discipline == s.discipline;
    }
    if a.Turn? && s.mon.threads[a.thread].pc != Updating {
      assert Act(s, a).buf == s.buf;
    }
  }

  /** A thread inside its critical section is not disturbed: nobody else changes the buffer or the phase. */
  lemma OwnerWaitsRightly(s: State, a: Action, i: nat)
    requires Inv(s) && CanAct(s, a) && s.discipline.Phased?
    requires i < |s.mon.threads| && i != a.thread && Holding(s.mon.threads[i].pc)
    ensures WaitsRightly(Act(s, a), i)
  {
    assert WaitsRightly(s, i);
    assert s.mon.owner == Some(i) && !Holding(s.mon.threads[a.thread].pc);
  }

  /** A sleeper may be put in the wrong only by a flip, and then somebody is about to broadcast. */
  lemma SleeperWaitsRightly(s: State, a: Action, i: nat)
    requires Inv(s) && CanAct(s, a) && s.discipline.Phased?
    requires i < |s.mon.threads| && i != a.thread && Act(s, a).mon.threads[i].pc == Asleep
    ensures WaitsRightly(Act(s, a), i)
  {
    assert WaitsRightly(s, i);
    assert WaitsRightly(s, a.thread);
  }

  lemma OthersWaitRightly(s: State, a: Action, i: nat)
    requires Inv(s) && CanAct(s, a) && s.discipline.Phased?
    requires i < |s.mon.threads| && i != a.thread && !Holding(s.mon.threads[i].pc)
    ensures WaitsRightly(Act(s, a), i)
  {
    if Act(s, a).mon.threads[i].pc == Asleep {
      SleeperWaitsRightly(s, a, i);
    }
  }

  lemma ActKeepsSleepInv(s: State, a: Action)
    requires Inv(s) && CanAct(s, a) && s.discipline.Phased?
    ensures SleepInv(Act(s, a))
  {
    forall i | 0 <= i < |Act(s, a).mon.threads| ensures WaitsRightly(Act(s, a), i) {
      if i == a.thread {
        MoverWaitsRightly(s, a);
      } else if Holding(s.mon.threads[i].pc) {
        OwnerWaitsRightly(s, a, i);
      } else {
        OthersWaitRightly(s, a, i);
      }
    }
  }

  /** Counting one further modulo n. */
  lemma Next(x: nat, n: nat)
    requires 0 < n
    ensures (x + 1) % n == if x % n + 1 == n then 0 else x % n + 1
  {
    assert x + 1 == n * (x / n) + (x % n + 1);
    if x % n + 1 == n {
      assert x + 1 == n * (x / n + 1) + 0;
      WrapUnique(x + 1, n, x / n + 1, 0);
    } else {
      WrapUnique(x + 1, n, x / n, x % n + 1);
    }
  }

  /** The step that ends a phase, and every other update, moves the indices as the phases say. */
  lemma UpdateKeepsPhaseInv(s: State, a: Action)
    requires Inv(s) && CanAct(s, a) && s.discipline.Phased?
    requires a.Turn? && s.mon.threads[a.thread].pc == Updating
    ensures PhaseInv(Act(s, a))
  {
    assert WaitsRightly(s, a.thread);
    UpdateHasRoom(s, a.thread);
    Next(|s.history|, 2 * s.buf.size);
    Next(|s.got|, s.buf.size);
    Wrap(s.buf.reading + 1, s.buf.size);
    Wrap(s.buf.writing + 1, s.buf.size);
    HistoryGrows(s.history, s.mon.threads[a.thread].role, s.buf.size);
  }

  lemma HistoryGrows(history: seq<Role>, role: Role, size: nat)
    requires size > 0 && FillsThenDrains(history, size)
    requires role == Writer <==> |history| % (2 * size) < size
    ensures FillsThenDrains(history + [role], size)
  {
  }

  lemma ActKeepsPhaseInv(s: State, a: Action)
    requires Inv(s) && CanAct(s, a) && s.discipline.Phased?
    ensures PhaseInv(Act(s, a))
  {
    if a.Turn? {
      assert WaitsRightly(s, a.thread);
      if s.mon.threads[a.thread].pc == Updating {
        UpdateKeepsPhaseInv(s, a);
      } else {
        assert Draining(Act(s, a)) == Draining(s);
      }
    }
  }

  lemma ActKeepsInv(s: State, a: Action)
    requires Inv(s) && CanAct(s, a)
    ensures Inv(Act(s, a))
  {
    ActKeepsQueueing(s, a);
    if s.discipline.Bounded? {
      ActKeepsBoundedInv(s, a);
    } else {
      ActKeepsSleepInv(s, a);
      ActKeepsPhaseInv(s, a);
    }
    if a.Turn? {
      var role := s.mon.threads[a.thread].role;
      StepKeepsMutexInv(s.mon, a.thread, MustWait(s.discipline, s.buf, role), AtEdge(s.discipline, s.buf, role));
    }
  }

  function TotalReads(s: State): nat {
    |s.got| + Sum(ReadsLeft, s.mon.threads)
  }

  function TotalWrites(s: State): nat {
    |s.written| + Sum(WritesLeft, s.mon.threads)
  }

  /** What a run never changes. */
  ghost predicate SameProgram(s: State, s': State) {
    && s'.buf.size == s.buf.size
    && s'.discipline.Bounded? == s.discipline.Bounded?
    && TotalReads(s') == TotalReads(s)
    && TotalWrites(s') == TotalWrites(s)
  }

  lemma ActKeepsProgram(s: State, a: Action)
    requires Inv(s) && CanAct(s, a)
    ensures SameProgram(s, Act(s, a))
  {
    match a
    case Spurious(i) => StirCounts(s.mon, i);
    case Turn(i, _) =>
      var role := s.mon.threads[i].role;
      StepCounts(s.mon, i, MustWait(s.discipline, s.buf, role), AtEdge(s.discipline, s.buf, role));
  }

  lemma {:induction false} RunKeepsInv(s: State, run: seq<Action>)
    requires Inv(s) && Runs(s, run)
    ensures Inv(After(s, run)) && SameProgram(s, After(s, run))
    decreases run
  {
    if run == [] {
    } else {
      ActKeepsInv(s, run[0]);
      ActKeepsProgram(s, run[0]);
      RunKeepsInv(Act(s, run[0]), run[1..]);
    }
  }

  // ---------- What an operation does to the queue ----------

  /** A write puts the value it was given, and nothing else, at the end of the queue. */
  lemma WriteIsPut(s: State, i: nat, value: int)
    requires Inv(s) && i < |s.mon.threads| && s.mon.threads[i].pc == Updating && s.mon.threads[i].role == Writer
    ensures var e := Act(s, Turn(i, value));
            && e.written == s.written + [value] && e.got == s.got
            && Consistent(e.buf) && Contents(e.buf) == Contents(s.buf) + [value]
  {
    UpdateHasRoom(s, i);
    PutAppends(s.buf, value);
  }

  /** A read takes the oldest value off the queue. */
  lemma ReadIsTake(s: State, i: nat, value: int)
    requires Inv(s) && i < |s.mon.threads| && s.mon.threads[i].pc == Updating && s.mon.threads[i].role == Reader
    ensures var e := Act(s, Turn(i, value));
            && |e.got| == |s.got| + 1 && e.got[..|s.got|] == s.got && e.written == s.written
            && Consistent(e.buf) && Contents(s.buf) == [e.got[|s.got|]] + Contents(e.buf)
  {
    UpdateHasRoom(s, i);
    TakeRemovesFront(s.buf);
  }

  /** The value that an action stores, if it stores one. */
  function StoredBy(s: State, a: Action): seq<int>
    requires CanAct(s, a)
  {
    if a.Turn? && s.mon.threads[a.thread].pc == Updating && s.mon.threads[a.thread].role == Writer then [a.value]
    else []
  }

  /** The values that rand() returned to the writes of a run, in order. */
  ghost function StoredValues(s: State, run: seq<Action>): seq<int>
    requires Runs(s, run)
    decreases run
  {
    if run == [] then [] else StoredBy(s, run[0]) + StoredValues(Act(s, run[0]), run[1..])
  }

  lemma ActWritesItsValue(s: State, a: Action)
    requires CanAct(s, a)
    ensures Act(s, a).written == s.written + StoredBy(s, a)
  {
  }

  /** What counts as written is what the writes were given. */
  lemma {:induction false} RunWritesItsValues(s: State, run: seq<Action>)
    requires Runs(s, run)
    ensures After(s, run).written == s.written + StoredValues(s, run)
    decreases run
  {
    if run == [] {
    } else {
      var s', stored := Act(s, run[0]), StoredBy(s, run[0]);
      ActWritesItsValue(s, run[0]);
      RunWritesItsValues(s', run[1..]);
      var rest := StoredValues(s', run[1..]);
      assert s.written + stored + rest == s.written + (stored + rest);
    }
  }

  lemma Prepend(s: State, a: Action, rest: seq<Action>) returns (run: seq<Action>)
    requires CanAct(s, a) && Runs(Act(s, a), rest)
    ensures run == [a] + rest && Runs(s, run) && After(s, run) == After(Act(s, a), rest)
    ensures SpuriousWakeups(run) == SpuriousWakeups(rest) + if a.Spurious? then 1 else 0
  {
    run := [a] + rest;
    assert run[1..] == rest;
  }

  /** Between s and e thread i, past its wait loop, has broadcast if it must and changed the buffer. */
  ghost predicate Committed(s: State, e: State, i: nat, value: int)
    requires i < |s.mon.threads|
  {
    var t := s.mon.threads[i];
    var edge := AtEdge(s.discipline, s.buf, t.role);
    && e.mon.owner == s.mon.owner
    && e.mon.threads == WokenIf(edge, s.mon.threads)[i := t.(pc := Unlocking)]
    && e.discipline == (if edge then Flip(s.discipline, t.role) else s.discipline)
    && if t.role == Writer
       then e.buf == Put(s.buf, value) && e.written == s.written + [value] && e.got == s.got
       else e.buf == Take(s.buf) && e.got == s.got + [Front(s.buf)] && e.written == s.written
  }

  /** Holding the mutex nobody disturbs it: two steps, or three with a broadcast. */
  lemma CommitAlone(s: State, i: nat, value: int) returns (run: seq<Action>)
    requires i < |s.mon.threads| && s.mon.threads[i].pc == Checking
    ensures Runs(s, run) && Committed(s, After(s, run), i, value)
  {
    var a := Turn(i, value);
    var s1 := Act(s, a);
    if AtEdge(s.discipline, s.buf, s.mon.threads[i].role) {
      var s2 := Act(s1, a);
      assert Committed(s, Act(s2, a), i, value);
      run := Prepend(s2, a, []);
    } else {
      assert Committed(s, Act(s1, a), i, value);
      run := [];
    }
    run := Prepend(s1, a, run);
    run := Prepend(s, a, run);
  }

  // ---------- Results about whole runs of either program ----------

  /** Under any interleaving and any spurious wake-ups the buffer is a FIFO queue of at most `size` values. */
  lemma {:induction false} RunIsFifo(s: State, run: seq<Action>)
    requires Initial(s) && Runs(s, run)
    ensures var e := After(s, run);
            && Consistent(e.buf)
            && e.written == StoredValues(s, run)
            && e.written == e.got + Contents(e.buf)
            && |Contents(e.buf)| <= s.buf.size
  {
    InitialInv(s);
    RunKeepsInv(s, run);
    RunWritesItsValues(s, run);
    var e := After(s, run);
    assert e.written == e.written[..|e.got|] + e.written[|e.got|..];
  }

  /** No wake-up is lost: in every run, when the mutex is free, whoever sleeps finds its wait condition true. */
  lemma {:induction false} RunLosesNoWakeup(s: State, run: seq<Action>, i: nat)
    requires Initial(s) && Runs(s, run)
    requires var m := After(s, run).mon; m.owner == None && i < |m.threads| && m.threads[i].pc == Asleep
    ensures var e := After(s, run); MustWait(e.discipline, e.buf, e.mon.threads[i].role)
  {
    InitialInv(s);
    RunKeepsInv(s, run);
    SleeperMustWait(After(s, run), i);
  }

  /** Every run is finite: apart from spurious wake-ups its length is bounded before it starts. */
  lemma {:induction false} RunIsBounded(s: State, run: seq<Action>)
    requires Inv(s) && Runs(s, run)
    ensures |run| <= Measure(s.mon) + 6 * SpuriousWakeups(run)
    decreases run
  {
    if run == [] {
    } else {
      ActKeepsInv(s, run[0]);
      RunIsBounded(Act(s, run[0]), run[1..]);
      match run[0]
      case Spurious(i) => StirRaisesMeasure(s.mon, i);
      case Turn(i, _) =>
        var role := s.mon.threads[i].role;
        StepLowersMeasure(s.mon, i, MustWait(s.discipline, s.buf, role), AtEdge(s.discipline, s.buf, role));
    }
  }

  /** The bound in terms of what main() starts: n threads that together make r reads and w writes. */
  lemma {:induction false} RunLength(s: State, run: seq<Action>)
    requires Initial(s) && Runs(s, run)
    ensures var n := |s.mon.threads|;
            |run| <= (5 * n + 6) * (TotalReads(s) + TotalWrites(s)) + 5 * n + 6 * SpuriousWakeups(run)
  {
    InitialInv(s);
    RunIsBounded(s, run);
    InitialMeasure(s.mon);
  }

  /** Every run that has not stopped can be driven to a stop without any spurious wake-up. */
  lemma {:induction false} RunCanStop(s: State) returns (run: seq<Action>)
    requires Inv(s)
    ensures Runs(s, run) && SpuriousWakeups(run) == 0 && Stuck(After(s, run))
    decreases Measure(s.mon)
  {
    if Stuck(s) {
      run := [];
    } else {
      var i: nat :| Enabled(s.mon, i);
      var a := Turn(i, 0);
      var role := s.mon.threads[i].role;
      ActKeepsInv(s, a);
      StepLowersMeasure(s.mon, i, MustWait(s.discipline, s.buf, role), AtEdge(s.discipline, s.buf, role));
      var rest := RunCanStop(Act(s, a));
      run := Prepend(s, a, rest);
    }
  }

  lemma FinishedMeansNoneLeft(s: State)
    requires AllFinished(s)
    ensures Sum(ReadsLeft, s.mon.threads) == Sum(WritesLeft, s.mon.threads) == 0
  {
    SumConstant(ReadsLeft, s.mon.threads, 0);
    SumConstant(WritesLeft, s.mon.threads, 0);
  }

  lemma SleeperMustWait(s: State, i: nat)
    requires Inv(s) && s.mon.owner == None
    requires i < |s.mon.threads| && s.mon.threads[i].pc == Asleep
    ensures MustWait(s.discipline, s.buf, s.mon.threads[i].role)
  {
    if s.discipline.Phased? {
      assert WaitsRightly(s, i);
    } else {
      assert StandsRightly(s, i);
    }
  }

  /** In a stopped state calls are left over only to threads that sleep, and those have a reason to. */
  lemma LeftoverCallsMustWait(s: State)
    requires Inv(s) && Stuck(s)
    ensures Sum(ReadsLeft, s.mon.threads) > 0 ==> MustWait(s.discipline, s.buf, Reader)
    ensures Sum(WritesLeft, s.mon.threads) > 0 ==> MustWait(s.discipline, s.buf, Writer)
    ensures Sum(ReadsLeft, s.mon.threads) == Sum(WritesLeft, s.mon.threads) == 0 ==> AllFinished(s)
  {
    StuckMeansAsleepOrFinished(s.mon);
    if Sum(ReadsLeft, s.mon.threads) > 0 {
      var i := SumPositive(ReadsLeft, s.mon.threads);
      SleeperMustWait(s, i);
    }
    if Sum(WritesLeft, s.mon.threads) > 0 {
      var i := SumPositive(WritesLeft, s.mon.threads);
      SleeperMustWait(s, i);
    }
    if !AllFinished(s) {
      var i :| 0 <= i < |s.mon.threads| && !Finished(s.mon.threads[i]);
      SumAtLeast(ReadsLeft, s.mon.threads, i);
      SumAtLeast(WritesLeft, s.mon.threads, i);
    }
  }
}
