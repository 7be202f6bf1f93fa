/**
 The thread side of Classes1/Task2.c and Classes1/Task6.c, which is the same in both: `left` calls remain to a
 thread, each call locks the mutex, sleeps while it must wait, may broadcast, updates the buffer and unlocks.
 What a thread must wait for and when it broadcasts is left to the buffer, so the facts here hold for both.
 */
module Monitors {
  import opened Counting

  datatype Role = Reader | Writer

  /** Where a thread is: each constructor names the next thing the thread will do. */
  datatype Pc =
    | Idle        // lock the mutex, if a call remains
    | Testing     // test the wait loop's condition
    | Asleep      // inside pthread_cond_wait
    | Woken       // take the mutex again before returning from pthread_cond_wait
    | Checking    // test whether this call must broadcast
    | Signalling  // broadcast
    | Updating    // change the buffer
    | Unlocking   // unlock the mutex

  datatype Thread = Thread(role: Role, left: nat, pc: Pc)

  datatype Monitor = Monitor(owner: Option<nat>, threads: seq<Thread>)

  predicate Holding(pc: Pc) {
    pc.Testing? || pc.Checking? || pc.Signalling? || pc.Updating? || pc.Unlocking?
  }

  /** The mutex belongs to exactly the thread that is inside its critical section. */
  ghost predicate MutexInv(m: Monitor) {
    && (m.owner.Some? ==> m.owner.value < |m.threads| && Holding(m.threads[m.owner.value].pc))
    && (forall i :: 0 <= i < |m.threads| && Holding(m.threads[i].pc) ==> m.owner == Some(i))
    && (forall i :: 0 <= i < |m.threads| && m.threads[i].pc != Idle ==> m.threads[i].left > 0)
  }

  predicate AllIdle(m: Monitor) {
    m.owner == None && forall i :: 0 <= i < |m.threads| ==> m.threads[i].pc == Idle
  }

  predicate Finished(t: Thread) {
    t.pc == Idle && t.left == 0
  }

  predicate Enabled(m: Monitor, i: nat) {
    && i < |m.threads|
    && match m.threads[i].pc
       case Idle => m.owner == None && m.threads[i].left > 0
       case Woken => m.owner == None
       case Asleep => false
       case _ => true
  }

  function Wake(t: Thread): Thread {
    if t.pc == Asleep then t.(pc := Woken) else t
  }

  function WakeAll(threads: seq<Thread>): (r: seq<Thread>)
    ensures |r| == |threads|
    ensures forall i :: 0 <= i < |r| ==> r[i] == Wake(threads[i])
  {
    seq(|threads|, i requires 0 <= i < |threads| => Wake(threads[i]))
  }

  /** What a broadcast, if there is one, does to the threads. */
  function WokenIf(broadcasts: bool, threads: seq<Thread>): seq<Thread> {
    if broadcasts then WakeAll(threads) else threads
  }

  /** One step of thread `i`; the caller says what the two tests would find. */
  function Step(m: Monitor, i: nat, mustWait: bool, mustBroadcast: bool): Monitor
    requires i < |m.threads|
  {
    var t := m.threads[i];
    match t.pc
    case Idle => Monitor(Some(i), m.threads[i := t.(pc := Testing)])
    case Woken => Monitor(Some(i), m.threads[i := t.(pc := Testing)])
    case Asleep => m
    case Testing =>
      if mustWait then Monitor(None, m.threads[i := t.(pc := Asleep)])
      else m.(threads := m.threads[i := t.(pc := Checking)])
    case Checking => m.(threads := m.threads[i := t.(pc := if mustBroadcast then Signalling else Updating)])
    case Signalling => m.(threads := WakeAll(m.threads)[i := t.(pc := Updating)])
    case Updating => m.(threads := m.threads[i := t.(pc := Unlocking)])
    case Unlocking => Monitor(None, m.threads[i := t.(pc := Idle, left := if t.left > 0 then t.left - 1 else 0)])
  }

  /** pthread_cond_wait may return although nobody signalled. */
  function StirOne(m: Monitor, i: nat): Monitor
    requires i < |m.threads|
  {
    m.(threads := m.threads[i := Wake(m.threads[i])])
  }

  lemma StepKeepsMutexInv(m: Monitor, i: nat, mustWait: bool, mustBroadcast: bool)
    requires MutexInv(m) && Enabled(m, i)
    ensures MutexInv(Step(m, i, mustWait, mustBroadcast))
  {
  }

  /** No thread can move: then every thread has finished or sleeps, and the mutex is free. */
  lemma StuckMeansAsleepOrFinished(m: Monitor)
    requires MutexInv(m)
    requires forall i :: !Enabled(m, i)
    ensures m.owner == None
    ensures forall i :: 0 <= i < |m.threads| ==> Finished(m.threads[i]) || m.threads[i].pc == Asleep
  {
    if m.owner.Some? {
      assert Enabled(m, m.owner.value);
    }
    forall i | 0 <= i < |m.threads| ensures Finished(m.threads[i]) || m.threads[i].pc == Asleep {
      assert !Enabled(m, i);
    }
  }

  // ---------- How many buffer operations remain ----------

  function CallsLeft(t: Thread): nat {
    if t.pc == Unlocking && t.left > 0 then t.left - 1 else t.left
  }

  function ReadsLeft(t: Thread): nat {
    if t.role == Reader then CallsLeft(t) else 0
  }

  function WritesLeft(t: Thread): nat {
    if t.role == Writer then CallsLeft(t) else 0
  }

  function Updates(m: Monitor, i: nat, role: Role): nat
    requires i < |m.threads|
  {
    if m.threads[i].pc == Updating && m.threads[i].role == role then 1 else 0
  }

  lemma {:induction false} WakingKeepsCalls(threads: seq<Thread>)
    ensures Sum(ReadsLeft, WakeAll(threads)) == Sum(ReadsLeft, threads)
    ensures Sum(WritesLeft, WakeAll(threads)) == Sum(WritesLeft, threads)
  {
    SumPointwise(ReadsLeft, WakeAll(threads), threads, 0);
    SumPointwise(ReadsLeft, threads, WakeAll(threads), 0);
    SumPointwise(WritesLeft, WakeAll(threads), threads, 0);
    SumPointwise(WritesLeft, threads, WakeAll(threads), 0);
  }

  /** The threads as a step of thread i leaves them, but for thread i itself. */
  function Others(m: Monitor, i: nat): seq<Thread>
    requires i < |m.threads|
  {
    if m.threads[i].pc == Signalling then WakeAll(m.threads) else m.threads
  }

  /** How a step changes the numbers of the thread that makes it. */
  lemma StepMovesNumbers(m: Monitor, i: nat, mustWait: bool, mustBroadcast: bool)
    requires MutexInv(m) && Enabled(m, i)
    ensures var t, t' := m.threads[i], Step(m, i, mustWait, mustBroadcast).threads[i];
            && ReadsLeft(t') + Updates(m, i, Reader) == ReadsLeft(t)
            && WritesLeft(t') + Updates(m, i, Writer) == WritesLeft(t)
            && (if t'.pc == Updating then Todo(t') + 1 == Todo(t) && Rank(t') <= Rank(t) + 5
                else Todo(t') == Todo(t) && Rank(t') < Rank(t) && t.pc != Signalling)
  {
  }

  lemma StepMovesOne(m: Monitor, i: nat, mustWait: bool, mustBroadcast: bool)
    requires i < |m.threads|
    ensures var m' := Step(m, i, mustWait, mustBroadcast);
            m'.threads == Others(m, i)[i := m'.threads[i]] && Others(m, i)[i] == m.threads[i]
  {
  }

  /** Only an update uses up a call, and it uses up exactly one of the thread's own role. */
  lemma StepCounts(m: Monitor, i: nat, mustWait: bool, mustBroadcast: bool)
    requires MutexInv(m) && Enabled(m, i)
    ensures var m' := Step(m, i, mustWait, mustBroadcast);
            && Sum(ReadsLeft, m'.threads) + Updates(m, i, Reader) == Sum(ReadsLeft, m.threads)
            && Sum(WritesLeft, m'.threads) + Updates(m, i, Writer) == Sum(WritesLeft, m.threads)
  {
    var t' := Step(m, i, mustWait, mustBroadcast).threads[i];
    StepMovesOne(m, i, mustWait, mustBroadcast);
    StepMovesNumbers(m, i, mustWait, mustBroadcast);
    WakingKeepsCalls(m.threads);
    SumUpdate(ReadsLeft, Others(m, i), i, t');
    SumUpdate(WritesLeft, Others(m, i), i, t');
  }

  lemma StirCounts(m: Monitor, i: nat)
    requires i < |m.threads|
    ensures Sum(ReadsLeft, StirOne(m, i).threads) == Sum(ReadsLeft, m.threads)
    ensures Sum(WritesLeft, StirOne(m, i).threads) == Sum(WritesLeft, m.threads)
  {
    SumUpdate(ReadsLeft, m.threads, i, Wake(m.threads[i]));
    SumUpdate(WritesLeft, m.threads, i, Wake(m.threads[i]));
  }

  // ---------- A measure that every step lowers ----------

  /** Calls that have not yet passed the point where they may broadcast. */
  function Todo(t: Thread): nat {
    if (t.pc.Updating? || t.pc.Unlocking?) && t.left > 0 then t.left - 1 else t.left
  }

  function Rank(t: Thread): nat {
    match t.pc
    case Updating => 7
    case Unlocking => 6
    case Idle => 5
    case Woken => 5
    case Testing => 4
    case Checking => 3
    case Signalling => 2
    case Asleep => 0
  }

  function Measure(m: Monitor): nat {
    (5 * |m.threads| + 6) * Sum(Todo, m.threads) + Sum(Rank, m.threads)
  }

  lemma {:induction false} WakingRaisesRanks(threads: seq<Thread>)
    ensures Sum(Todo, WakeAll(threads)) == Sum(Todo, threads)
    ensures Sum(Rank, WakeAll(threads)) <= Sum(Rank, threads) + 5 * |threads|
  {
    SumPointwise(Todo, WakeAll(threads), threads, 0);
    SumPointwise(Todo, threads, WakeAll(threads), 0);
    SumPointwise(Rank, WakeAll(threads), threads, 5);
  }

  /** A call either passes the broadcast point, and may then wake everyone, or moves one rank down. */
  lemma StepMovesSums(m: Monitor, i: nat, mustWait: bool, mustBroadcast: bool)
    requires MutexInv(m) && Enabled(m, i)
    ensures var m' := Step(m, i, mustWait, mustBroadcast);
            if m'.threads[i].pc == Updating
            then && Sum(Todo, m'.threads) + 1 == Sum(Todo, m.threads)
                 && Sum(Rank, m'.threads) <= Sum(Rank, m.threads) + 5 * |m.threads| + 5
            else && Sum(Todo, m'.threads) == Sum(Todo, m.threads)
                 && Sum(Rank, m'.threads) < Sum(Rank, m.threads)
  {
    var t' := Step(m, i, mustWait, mustBroadcast).threads[i];
    StepMovesOne(m, i, mustWait, mustBroadcast);
    StepMovesNumbers(m, i, mustWait, mustBroadcast);
    WakingRaisesRanks(m.threads);
    SumUpdate(Todo, Others(m, i), i, t');
    SumUpdate(Rank, Others(m, i), i, t');
  }

  lemma StepLowersMeasure(m: Monitor, i: nat, mustWait: bool, mustBroadcast: bool)
    requires MutexInv(m) && Enabled(m, i)
    ensures Measure(Step(m, i, mustWait, mustBroadcast)) < Measure(m)
  {
    StepMovesSums(m, i, mustWait, mustBroadcast);
    var m' := Step(m, i, mustWait, mustBroadcast);
    if m'.threads[i].pc == Updating {
      OneMore(5 * |m.threads| + 6, Sum(Todo, m'.threads));
    }
  }

  lemma OneMore(k: nat, n: nat)
    ensures k * (n + 1) == k * n + k
  {
  }

  lemma StirRaisesMeasure(m: Monitor, i: nat)
    requires i < |m.threads|
    ensures Measure(StirOne(m, i)) <= Measure(m) + 5
  {
    SumUpdate(Todo, m.threads, i, Wake(m.threads[i]));
    SumUpdate(Rank, m.threads, i, Wake(m.threads[i]));
  }

  /** The measure before anything has run, in terms of the numbers of calls. */
  lemma InitialMeasure(m: Monitor)
    requires AllIdle(m)
    ensures var n, calls := |m.threads|, Sum(ReadsLeft, m.threads) + Sum(WritesLeft, m.threads);
            Measure(m) == (5 * n + 6) * calls + 5 * n
  {
    SumConstant(Rank, m.threads, 5);
    InitialTodo(m.threads);
  }

  lemma {:induction false} InitialTodo(threads: seq<Thread>)
    requires forall i :: 0 <= i < |threads| ==> threads[i].pc == Idle
    ensures Sum(Todo, threads) == Sum(ReadsLeft, threads) + Sum(WritesLeft, threads)
  {
    if threads == [] {
    } else {
      InitialTodo(threads[1..]);
    }
  }
}
