/** Classes1/Task4.c: readers, writers, and a critic that saves the datum once every writer has written. */
module CriticRounds {
  import opened Counting
  import opened RoundSpec
  import RG = ReaderGroup

  /** Where a writer is. As in Task1.c's model the store is two steps, and the datum is arbitrary in between. */
  datatype WriterPc =
    | Outside     // lock writer_mutex, if a write remains
    | Testing     // is a full round unsaved?
    | Asleep      // inside pthread_cond_wait
    | Woken       // lock writer_mutex again
    | Recording   // count this writer into the round
    | TestingFull // is the round complete?
    | Signalling  // broadcast
    | Storing     // begin to store
    | Stored      // finish the store
    | Unlocking   // unlock writer_mutex

  datatype CriticPc =
    | COutside
    | CTesting
    | CAsleep
    | CWoken
    | CZeroing             // writers_count = 0
    | CClearing(next: nat) // the loop that clears writers_record
    | CSaving              // save the datum
    | CSignalling
    | CUnlocking

  datatype Writer = Writer(left: nat, pc: WriterPc)

  datatype Program = Program(gate: RG.Gate, writers: seq<Writer>, critic: CriticPc,
                             data: int, initial: int, writersCount: int, record: seq<bool>, log: seq<Event>)

  /** allocate_object gives every writer its entry in writers_record. */
  type State = s: Program | |s.record| == |s.writers|
    witness Program(RG.Gate([], 0, None, RG.Free), [], COutside, 0, 0, 0, [], [])

  /** One step of one thread; `value` is what ends up in the datum if that step stores. */
  datatype Action =
    | ReaderTurn(reader: nat)
    | WriterTurn(writer: nat, value: int)
    | CriticTurn
    | SpuriousWriter(writer: nat)
    | SpuriousCritic

  predicate CanAct(s: State, a: Action) {
    match a
    case ReaderTurn(r) => RG.CanStep(s.gate, r)
    case WriterTurn(w, _) =>
      && w < |s.writers|
      && (match s.writers[w].pc
          case Outside => s.writers[w].left > 0 && s.gate.writerMutex == RG.Free
          case Woken => s.gate.writerMutex == RG.Free
          case Asleep => false
          case _ => true)
    case CriticTurn =>
      (match s.critic
       case COutside => s.gate.writerMutex == RG.Free
       case CWoken => s.gate.writerMutex == RG.Free
       case CAsleep => false
       case _ => true)
    case SpuriousWriter(w) => w < |s.writers| && s.writers[w].pc == Asleep
    case SpuriousCritic => s.critic == CAsleep
  }

  function Wake(t: Writer): Writer {
    if t.pc == Asleep then t.(pc := Woken) else t
  }

  function WakeAll(writers: seq<Writer>): (r: seq<Writer>)
    ensures |r| == |writers|
    ensures forall w :: 0 <= w < |r| ==> r[w] == Wake(writers[w])
  {
    seq(|writers|, w requires 0 <= w < |writers| => Wake(writers[w]))
  }

  function WokenIf(broadcasts: bool, writers: seq<Writer>): seq<Writer> {
    if broadcasts then WakeAll(writers) else writers
  }

  function WakeCritic(critic: CriticPc): CriticPc {
    if critic == CAsleep then CWoken else critic
  }

  /** pthread_cond_broadcast on the one condition variable. */
  function Broadcast(s: State): State {
    s.(writers := WakeAll(s.writers), critic := WakeCritic(s.critic))
  }

  function Locked(s: State, lock: RG.Lock): State {
    s.(gate := s.gate.(writerMutex := lock))
  }

  function Moved(s: State, w: nat, pc: WriterPc): State
    requires w < |s.writers|
  {
    s.(writers := s.writers[w := s.writers[w].(pc := pc)])
  }

  function ReaderStep(s: State, r: nat): State
    requires r < |s.gate.readers|
  {
    var s' := s.(gate := RG.Step(s.gate, r));
    if s.gate.readers[r].pc == RG.Reading then s'.(log := s.log + [Got(s.data)]) else s'
  }

  function WriterStep(s: State, w: nat, value: int): State
    requires w < |s.writers|
  {
    var t, full := s.writers[w], s.writersCount == |s.writers|;
    match t.pc
    case Outside => Moved(Locked(s, RG.ByWriter(w)), w, Testing)
    case Woken => Moved(Locked(s, RG.ByWriter(w)), w, Testing)
    case Asleep => s
    case Testing => if full then Moved(Locked(s, RG.Free), w, Asleep) else Moved(s, w, Recording)
    case Recording =>
      if s.record[w] then Moved(s, w, TestingFull)
      else Moved(s, w, TestingFull).(writersCount := s.writersCount + 1, record := s.record[w := true])
    case TestingFull => Moved(s, w, if full then Signalling else Storing)
    case Signalling => Moved(Broadcast(s), w, Storing)
    case Storing => Moved(s, w, Stored).(data := value)
    case Stored => Moved(s, w, Unlocking).(data := value, log := s.log + [Wrote(w, value)])
    case Unlocking =>
      Locked(s, RG.Free).(writers := s.writers[w := Writer(if t.left > 0 then t.left - 1 else 0, Outside)])
  }

  function CriticStep(s: State): State {
    match s.critic
    case COutside => Locked(s, RG.ByCritic).(critic := CTesting)
    case CWoken => Locked(s, RG.ByCritic).(critic := CTesting)
    case CAsleep => s
    case CTesting =>
      if s.writersCount != |s.writers| then Locked(s, RG.Free).(critic := CAsleep) else s.(critic := CZeroing)
    case CZeroing => s.(writersCount := 0, critic := CClearing(0))
    case CClearing(i) =>
      if i < |s.record| then s.(record := s.record[i := false], critic := CClearing(i + 1))
      else s.(critic := CSaving)
    case CSaving => s.(critic := CSignalling, log := s.log + [Saved(s.data)])
    case CSignalling => Broadcast(s).(critic := CUnlocking)
    case CUnlocking => Locked(s, RG.Free).(critic := COutside)
  }

  function Act(s: State, a: Action): State
    requires CanAct(s, a)
  {
    match a
    case ReaderTurn(r) => ReaderStep(s, r)
    case WriterTurn(w, value) => WriterStep(s, w, value)
    case CriticTurn => CriticStep(s)
    case SpuriousWriter(w) => Moved(s, w, Woken)
    case SpuriousCritic => s.(critic := CWoken)
  }

  // ---------- Runs ----------

  ghost predicate Runs(s: State, run: seq<Action>)
    decreases run
  {
    run == [] || (CanAct(s, run[0]) && Runs(Act(s, run[0]), run[1..]))
  }

  function After(s: State, run: seq<Action>): State
    requires Runs(s, run)
    decreases run
  {
    if run == [] then s else After(Act(s, run[0]), run[1..])
  }

  predicate IsSpurious(a: Action) {
    a.SpuriousWriter? || a.SpuriousCritic?
  }

  function SpuriousWakeups(run: seq<Action>): nat {
    if run == [] then 0 else (if IsSpurious(run[0]) then 1 else 0) + SpuriousWakeups(run[1..])
  }

  ghost predicate Initial(s: State) {
    && RG.AllOutside(s.gate)
    && (forall w :: 0 <= w < |s.writers| ==> s.writers[w].pc == Outside && !s.record[w])
    && s.critic == COutside
    && s.data == s.initial && s.writersCount == 0 && s.log == []
  }

  /** A run is over when no thread can move; threads still asleep could only wake spuriously. */
  ghost predicate Stuck(s: State) {
    forall a :: CanAct(s, a) ==> IsSpurious(a)
  }

  /** Every reader and writer has made all its calls. */
  ghost predicate AllFinished(s: State) {
    && (forall r :: 0 <= r < |s.gate.readers| ==> RG.Done(s.gate.readers[r]))
    && (forall w :: 0 <= w < |s.writers| ==> s.writers[w].pc == Outside && s.writers[w].left == 0)
  }

  // ---------- What every step keeps: locks ----------

  predicate Holding(pc: WriterPc) {
    !(pc.Outside? || pc.Asleep? || pc.Woken?)
  }

  predicate CriticHolding(pc: CriticPc) {
    !(pc.COutside? || pc.CAsleep? || pc.CWoken?)
  }

  ghost predicate LockInv(s: State) {
    && (forall w :: 0 <= w < |s.writers| && Holding(s.writers[w].pc) ==> s.gate.writerMutex == RG.ByWriter(w))
    && (forall w :: 0 <= w < |s.writers| && s.writers[w].pc != Outside ==> s.writers[w].left > 0)
    && (s.gate.writerMutex.ByWriter? ==>
          s.gate.writerMutex.writer < |s.writers| && Holding(s.writers[s.gate.writerMutex.writer].pc))
    && (CriticHolding(s.critic) <==> s.gate.writerMutex == RG.ByCritic)
  }

  // ---------- What every step keeps: the round's accounts ----------

  function One(b: bool): nat {
    if b then 1 else 0
  }

  /** writers_count counts the true entries of writers_record, except while the critic is clearing them. */
  ghost predicate CountInv(s: State) {
    && (forall w :: 0 <= w < |s.writers| ==>
          && (s.writers[w].pc == Recording ==> s.writersCount != |s.writers|)
          && (s.writers[w].pc == Signalling ==> s.writersCount == |s.writers|))
    && match s.critic
       case CClearing(i) =>
         i <= |s.record| && s.writersCount == 0 && forall w :: 0 <= w < i ==> !s.record[w]
       case CSaving => s.writersCount == Sum(One, s.record) == 0
       case CZeroing => s.writersCount == Sum(One, s.record) == |s.writers|
       case _ => s.writersCount == Sum(One, s.record)
  }

  // ---------- What every step keeps: no lost wake-up ----------

  /** Whoever sleeps has a reason to, unless somebody is on the way to broadcast. */
  ghost predicate SleepInv(s: State) {
    && (forall w :: 0 <= w < |s.writers| && s.writers[w].pc == Asleep ==>
          s.writersCount == |s.writers| || s.critic.CClearing? || s.critic.CSaving? || s.critic.CSignalling?)
    && (s.critic == CAsleep ==> s.writersCount != |s.writers| || SomebodyWillSignal(s))
  }

  predicate SomebodyWillSignal(s: State) {
    && s.gate.writerMutex.ByWriter?
    && s.gate.writerMutex.writer < |s.writers|
    && var pc := s.writers[s.gate.writerMutex.writer].pc;
       pc.TestingFull? || pc.Signalling?
  }

  // ---------- What every step keeps: the log is proper ----------

  /** A writer that is counted into the round but whose write is not complete yet. */
  predicate Midway(pc: WriterPc) {
    pc.TestingFull? || pc.Signalling? || pc.Storing? || pc.Stored?
  }

  /** How the object stands to where the log has led. */
  ghost predicate RoundInv(s: State, round: Round) {
    var n := |s.writers|;
    && ((forall w :: 0 <= w < n ==> s.writers[w].pc != Stored) ==> s.data == round.latest)
    && (forall w :: 0 <= w < n && Midway(s.writers[w].pc) ==> !Complete(round, n))
    && if s.critic.CClearing? || s.critic.CSaving? then Complete(round, n)
       else forall w :: 0 <= w < n ==> (s.record[w] <==> w in round.seen || Midway(s.writers[w].pc))
  }

  ghost predicate LogInv(s: State) {
    Proper(s.log, s.initial, |s.writers|) && RoundInv(s, Follow(s.log, s.initial, |s.writers|).value)
  }

  ghost predicate Inv(s: State) {
    RG.Inv(s.gate) && LockInv(s) && CountInv(s) && SleepInv(s) && LogInv(s)
  }

  /** The count is full exactly when every entry is set. */
  lemma {:induction false} FullCount(record: seq<bool>)
    ensures Sum(One, record) <= |record|
    ensures Sum(One, record) == |record| <==> forall w :: 0 <= w < |record| ==> record[w]
  {
    if record == [] {
    } else {
      FullCount(record[1..]);
      assert record == [record[0]] + record[1..];
      if forall w :: 0 <= w < |record[1..]| ==> record[1..][w] {
        forall w | 0 < w < |record| ensures record[w] {
          assert record[w] == record[1..][w - 1];
        }
      } else {
        var v :| 0 <= v < |record[1..]| && !record[1..][v];
        assert !record[v + 1];
      }
    }
  }

  lemma InitialInv(s: State)
    requires Initial(s)
    ensures Inv(s)
  {
    RG.AllOutsideInv(s.gate);
    SumConstant(One, s.record, 0);
  }

  lemma ReaderKeepsInv(s: State, r: nat)
    requires Inv(s) && RG.CanStep(s.gate, r)
    ensures Inv(ReaderStep(s, r))
  {
    RG.StepKeepsInv(s.gate, r);
    RG.StepRespectsLock(s.gate, r);
    if s.gate.readers[r].pc == RG.Reading {
      RG.ReadingLocksWritersOut(s.gate, r);
      FollowAppend(s.log, Got(s.data), s.initial, |s.writers|);
    }
  }

  lemma WriterKeepsLockInv(s: State, w: nat, value: int)
    requires LockInv(s) && CanAct(s, WriterTurn(w, value))
    ensures LockInv(WriterStep(s, w, value))
  {
  }

  lemma RecordKeepsCountInv(s: State, w: nat, value: int)
    requires LockInv(s) && CountInv(s)
    requires w < |s.writers| && s.writers[w].pc == Recording
    ensures CountInv(WriterStep(s, w, value))
  {
    SumUpdate(One, s.record, w, true);
    assert s.gate.writerMutex == RG.ByWriter(w);
  }

  lemma WriterKeepsCountInv(s: State, w: nat, value: int)
    requires LockInv(s) && CountInv(s) && CanAct(s, WriterTurn(w, value))
    ensures CountInv(WriterStep(s, w, value))
  {
    if s.writers[w].pc == Recording {
      RecordKeepsCountInv(s, w, value);
    }
  }

  lemma WriterKeepsSleepInv(s: State, w: nat, value: int)
    requires LockInv(s) && CountInv(s) && SleepInv(s) && CanAct(s, WriterTurn(w, value))
    ensures SleepInv(WriterStep(s, w, value))
  {
  }

  /** The write joins the round it was counted into, and completes it exactly if the count is full. */
  lemma WriteJoinsRound(s: State, w: nat, value: int, round: Round)
    requires LockInv(s) && RoundInv(s, round)
    requires w < |s.writers| && s.writers[w].pc == Stored
    ensures !Complete(round, |s.writers|)
    ensures RoundInv(WriterStep(s, w, value), Round(value, round.seen + {w}))
  {
    assert s.gate.writerMutex == RG.ByWriter(w);
  }

  lemma WriteKeepsLogInv(s: State, w: nat, value: int)
    requires LockInv(s) && LogInv(s)
    requires w < |s.writers| && s.writers[w].pc == Stored
    ensures LogInv(WriterStep(s, w, value))
  {
    WriteJoinsRound(s, w, value, Follow(s.log, s.initial, |s.writers|).value);
    FollowAppend(s.log, Wrote(w, value), s.initial, |s.writers|);
  }

  /** Counting a writer in makes it Midway; the round was not complete, or the writer would be asleep. */
  lemma RecordKeepsRound(s: State, w: nat, value: int, round: Round)
    requires LockInv(s) && CountInv(s) && RoundInv(s, round)
    requires w < |s.writers| && s.writers[w].pc == Recording
    ensures RoundInv(WriterStep(s, w, value), round)
  {
    FullCount(s.record);
    assert s.gate.writerMutex == RG.ByWriter(w);
  }

  /** A step that changes none of what RoundInv speaks of. */
  ghost predicate SameRound(s: State, s': State) {
    && |s'.writers| == |s.writers|
    && s'.record == s.record
    && (s'.critic.CClearing? || s'.critic.CSaving? <==> s.critic.CClearing? || s.critic.CSaving?)
    && (forall w :: 0 <= w < |s.writers| ==> Midway(s'.writers[w].pc) == Midway(s.writers[w].pc))
    && ((exists w :: 0 <= w < |s'.writers| && s'.writers[w].pc == Stored) ||
        (s'.data == s.data && forall w :: 0 <= w < |s.writers| ==> s.writers[w].pc != Stored))
  }

  lemma SameRoundKeepsInv(s: State, s': State, round: Round)
    requires RoundInv(s, round) && SameRound(s, s')
    ensures RoundInv(s', round)
  {
  }

  lemma WriterMostlyKeepsRound(s: State, w: nat, value: int)
    requires LockInv(s) && CanAct(s, WriterTurn(w, value))
    requires s.writers[w].pc != Recording && s.writers[w].pc != Stored
    ensures SameRound(s, WriterStep(s, w, value))
  {
    if s.writers[w].pc == Storing {
      assert WriterStep(s, w, value).writers[w].pc == Stored;
    }
  }

  lemma WriterKeepsLogInv(s: State, w: nat, value: int)
    requires LockInv(s) && CountInv(s) && LogInv(s) && CanAct(s, WriterTurn(w, value))
    ensures LogInv(WriterStep(s, w, value))
  {
    var round := Follow(s.log, s.initial, |s.writers|).value;
    if s.writers[w].pc == Stored {
      WriteKeepsLogInv(s, w, value);
    } else if s.writers[w].pc == Recording {
      RecordKeepsRound(s, w, value, round);
    } else {
      WriterMostlyKeepsRound(s, w, value);
      SameRoundKeepsInv(s, WriterStep(s, w, value), round);
    }
  }

  lemma CriticKeepsLockInv(s: State)
    requires LockInv(s) && CanAct(s, CriticTurn)
    ensures LockInv(CriticStep(s))
  {
  }

  lemma CriticKeepsCountInv(s: State)
    requires LockInv(s) && CountInv(s) && CanAct(s, CriticTurn)
    ensures CountInv(CriticStep(s))
  {
    if s.critic.CClearing? && s.critic.next == |s.record| {
      SumConstant(One, s.record, 0);
    }
  }

  lemma CriticKeepsSleepInv(s: State)
    requires LockInv(s) && CountInv(s) && SleepInv(s) && CanAct(s, CriticTurn)
    ensures SleepInv(CriticStep(s))
  {
  }

  /** The save finds a complete round and the value of the write that completed it, and begins the next round. */
  lemma SaveClosesRound(s: State, round: Round)
    requires LockInv(s) && CountInv(s) && RoundInv(s, round) && s.critic == CSaving
    ensures Complete(round, |s.writers|) && s.data == round.latest
    ensures RoundInv(CriticStep(s), round.(seen := {}))
  {
    forall w | 0 <= w < |s.record| ensures !s.record[w] {
      SumAtLeast(One, s.record, w);
    }
  }

  lemma SaveKeepsLogInv(s: State)
    requires LockInv(s) && CountInv(s) && LogInv(s) && s.critic == CSaving
    ensures LogInv(CriticStep(s))
  {
    SaveClosesRound(s, Follow(s.log, s.initial, |s.writers|).value);
    FollowAppend(s.log, Saved(s.data), s.initial, |s.writers|);
  }

  /** A critic that is past its wait loop has found every writer's write in the log. */
  lemma FullCountIsComplete(s: State, round: Round)
    requires LockInv(s) && CountInv(s) && RoundInv(s, round) && s.critic == CZeroing
    ensures Complete(round, |s.writers|)
  {
    FullCount(s.record);
    assert forall w :: 0 <= w < |s.writers| ==> s.record[w] && !Midway(s.writers[w].pc);
  }

  lemma CriticKeepsRound(s: State, round: Round)
    requires LockInv(s) && CountInv(s) && RoundInv(s, round) && CanAct(s, CriticTurn) && s.critic != CSaving
    ensures RoundInv(CriticStep(s), round)
  {
    if s.critic == CZeroing {
      FullCountIsComplete(s, round);
    } else if !s.critic.CClearing? {
      SameRoundKeepsInv(s, CriticStep(s), round);
    }
  }

  lemma CriticKeepsLogInv(s: State)
    requires LockInv(s) && CountInv(s) && LogInv(s) && CanAct(s, CriticTurn)
    ensures LogInv(CriticStep(s))
  {
    if s.critic == CSaving {
      SaveKeepsLogInv(s);
    } else {
      CriticKeepsRound(s, Follow(s.log, s.initial, |s.writers|).value);
    }
  }

  lemma WriterKeepsInv(s: State, w: nat, value: int)
    requires Inv(s) && CanAct(s, WriterTurn(w, value))
    ensures Inv(WriterStep(s, w, value))
  {
    assert WriterStep(s, w, value).gate == s.gate.(writerMutex := WriterStep(s, w, value).gate.writerMutex);
    RG.OthersMayLock(s.gate, WriterStep(s, w, value).gate.writerMutex);
    WriterKeepsLockInv(s, w, value);
    WriterKeepsCountInv(s, w, value);
    WriterKeepsSleepInv(s, w, value);
    WriterKeepsLogInv(s, w, value);
  }

  lemma CriticKeepsInv(s: State)
    requires Inv(s) && CanAct(s, CriticTurn)
    ensures Inv(CriticStep(s))
  {
    RG.OthersMayLock(s.gate, CriticStep(s).gate.writerMutex);
    CriticKeepsLockInv(s);
    CriticKeepsCountInv(s);
    CriticKeepsSleepInv(s);
    CriticKeepsLogInv(s);
  }

  lemma SpuriousKeepsLogInv(s: State, a: Action)
    requires LogInv(s) && CanAct(s, a) && IsSpurious(a)
    ensures LogInv(Act(s, a))
  {
    var s' := Act(s, a);
    if w :| 0 <= w < |s.writers| && s.writers[w].pc == Stored {
      assert s'.writers[w].pc == Stored;
    }
    SameRoundKeepsInv(s, s', Follow(s.log, s.initial, |s.writers|).value);
  }

  lemma SpuriousKeepsInv(s: State, a: Action)
    requires Inv(s) && CanAct(s, a) && IsSpurious(a)
    ensures Inv(Act(s, a))
  {
    SpuriousKeepsLogInv(s, a);
    assert CountInv(Act(s, a));
  }

  lemma ActKeepsInv(s: State, a: Action)
    requires Inv(s) && CanAct(s, a)
    ensures Inv(Act(s, a))
  {
    match a
    case ReaderTurn(r) => ReaderKeepsInv(s, r);
    case WriterTurn(w, value) => WriterKeepsInv(s, w, value);
    case CriticTurn => CriticKeepsInv(s);
    case _ => SpuriousKeepsInv(s, a);
  }

  /** What a run never changes. */
  ghost predicate SameProgram(s: State, s': State) {
    && s'.initial == s.initial
    && |s'.writers| == |s.writers|
    && TotalReads(s') == TotalReads(s)
    && forall w :: 0 <= w < |s.writers| ==> TotalWrites(s', w) == TotalWrites(s, w)
  }

  /** Writes made and still to be made. */
  function TotalWrites(s: State, w: nat): nat
    requires w < |s.writers|
  {
    Writes(s.log, w) + WritesLeft(s.writers[w])
  }

  /** Reads made and still to be made. */
  function TotalReads(s: State): nat {
    Reads(s.log) + Sum(RG.ReadsToGo, s.gate.readers)
  }

  function WritesLeft(t: Writer): nat {
    if t.pc == Unlocking && t.left > 0 then t.left - 1 else t.left
  }

  lemma {:induction false} WritesAppend(log: seq<Event>, e: Event, w: nat)
    ensures Writes(log + [e], w) == Writes(log, w) + if e.Wrote? && e.writer == w then 1 else 0
    ensures Reads(log + [e]) == Reads(log) + if e.Got? then 1 else 0
  {
    assert (log + [e])[..|log|] == log;
  }

  /** What a step adds to the log, if anything. */
  function NewEvents(s: State, a: Action): seq<Event>
    requires CanAct(s, a)
  {
    match a
    case ReaderTurn(r) => if s.gate.readers[r].pc == RG.Reading then [Got(s.data)] else []
    case WriterTurn(w, value) => if s.writers[w].pc == Stored then [Wrote(w, value)] else []
    case CriticTurn => if s.critic == CSaving then [Saved(s.data)] else []
    case _ => []
  }

  lemma LogGrows(s: State, a: Action)
    requires CanAct(s, a)
    ensures Act(s, a).log == s.log + NewEvents(s, a)
  {
  }

  /** A writer has one write less to make exactly if this action completes one. */
  lemma ActMovesWritesLeft(s: State, a: Action, w: nat)
    requires LockInv(s) && CanAct(s, a) && w < |s.writers|
    ensures var completes := a.WriterTurn? && a.writer == w && s.writers[w].pc == Stored;
            WritesLeft(Act(s, a).writers[w]) + (if completes then 1 else 0) == WritesLeft(s.writers[w])
  {
  }

  lemma ActKeepsTotalWrites(s: State, a: Action, w: nat)
    requires LockInv(s) && CanAct(s, a) && w < |s.writers|
    ensures TotalWrites(Act(s, a), w) == TotalWrites(s, w)
  {
    ActMovesWritesLeft(s, a, w);
    LogGrows(s, a);
    var added := NewEvents(s, a);
    if added != [] {
      WritesAppend(s.log, added[0], w);
    } else {
      assert s.log + added == s.log;
    }
  }

  lemma ReaderKeepsTotalReads(s: State, r: nat)
    requires RG.Inv(s.gate) && RG.CanStep(s.gate, r)
    ensures TotalReads(ReaderStep(s, r)) == TotalReads(s)
  {
    RG.StepCountsReads(s.gate, r);
    WritesAppend(s.log, Got(s.data), 0);
  }

  lemma OthersKeepTotalReads(s: State, a: Action)
    requires CanAct(s, a) && !a.ReaderTurn?
    ensures TotalReads(Act(s, a)) == TotalReads(s)
  {
    LogGrows(s, a);
    assert Act(s, a).gate.readers == s.gate.readers;
    if NewEvents(s, a) != [] {
      WritesAppend(s.log, NewEvents(s, a)[0], 0);
    } else {
      assert s.log + NewEvents(s, a) == s.log;
    }
  }

  lemma ActKeepsProgram(s: State, a: Action)
    requires Inv(s) && CanAct(s, a)
    ensures SameProgram(s, Act(s, a))
  {
    if a.ReaderTurn? {
      ReaderKeepsTotalReads(s, a.reader);
    } else {
      OthersKeepTotalReads(s, a);
    }
    forall w | 0 <= w < |s.writers| ensures TotalWrites(Act(s, a), w) == TotalWrites(s, w) {
      ActKeepsTotalWrites(s, a, w);
    }
  }

  lemma {:induction false} RunKeepsInv(s: State, run: seq<Action>)
    requires Inv(s) && Runs(s, run)
    ensures Inv(After(s, run)) && SameProgram(s, After(s, run))
    decreases run
  {
    if run == [] {
    } else {
      ActKeepsInv(s, run[0]);
      ActKeepsProgram(s, run[0]);
      RunKeepsInv(Act(s, run[0]), run[1..]);
    }
  }

  // ---------- Results about whole runs: safety ----------

  /** Whatever the interleaving and however many spurious wake-ups, reads, writes and saves make a proper log. */
  lemma {:induction false} RunIsProper(s: State, run: seq<Action>)
    requires Initial(s) && Runs(s, run)
    ensures Proper(After(s, run).log, s.initial, |s.writers|)
  {
    InitialInv(s);
    RunKeepsInv(s, run);
  }

  /** In every run the k-th value saved is the value of the k-th write that completed a round. */
  lemma {:induction false} RunSavesTheRightValues(s: State, run: seq<Action>)
    requires Initial(s) && Runs(s, run) && |s.writers| > 0
    ensures var log := After(s, run).log;
            && Proper(log, s.initial, |s.writers|)
            && SavedValues(log) <= CompletingValues(log, s.initial, |s.writers|)
            && |CompletingValues(log, s.initial, |s.writers|)| <= |SavedValues(log)| + 1
  {
    RunIsProper(s, run);
    SavesTheCompletingValues(After(s, run).log, s.initial, |s.writers|);
  }

  /** While any reader reads, no writer and no critic is in its critical section, and the datum is the latest. */
  lemma ReadersExcludeOthers(s: State, r: nat)
    requires Inv(s) && r < |s.gate.readers| && s.gate.readers[r].pc == RG.Reading
    ensures forall w :: 0 <= w < |s.writers| ==> !Holding(s.writers[w].pc)
    ensures !CriticHolding(s.critic)
    ensures s.data == Follow(s.log, s.initial, |s.writers|).value.latest
  {
    RG.ReadingLocksWritersOut(s.gate, r);
  }

  /** The readers hold the writers' mutex now and after each step of the run, whoever comes and goes. */
  ghost predicate HeldByReaders(s: State, run: seq<Action>)
    requires Runs(s, run)
    decreases run
  {
    s.gate.writerMutex == RG.ByReaders && (run == [] || HeldByReaders(Act(s, run[0]), run[1..]))
  }

  /** A log that has grown by reads of one value only. */
  ghost predicate GrownByReads(log: seq<Event>, log': seq<Event>, value: int) {
    log <= log' && forall k :: |log| <= k < |log'| ==> log'[k] == Got(value)
  }

  lemma GrowsFurther(log: seq<Event>, log1: seq<Event>, log2: seq<Event>, value: int)
    requires GrownByReads(log, log1, value) && GrownByReads(log1, log2, value)
    ensures GrownByReads(log, log2, value)
  {
  }

  /** While the readers hold it, a step changes nothing but who reads, and logs only reads of the datum. */
  lemma ReadersHoldStill(s: State, a: Action)
    requires LockInv(s) && CanAct(s, a) && s.gate.writerMutex == RG.ByReaders
    ensures Act(s, a).data == s.data
    ensures GrownByReads(s.log, Act(s, a).log, s.data)
  {
  }

  /**
   From the first reader's lock to the last reader's unlock the datum does not change, and nothing is written or
   saved: the log grows by reads of that datum only.
   */
  lemma {:induction false} HeldByReadersKeepsData(s: State, run: seq<Action>)
    requires Inv(s) && Runs(s, run) && HeldByReaders(s, run)
    ensures After(s, run).data == s.data
    ensures GrownByReads(s.log, After(s, run).log, s.data)
    decreases run
  {
    if run == [] {
    } else {
      ActKeepsInv(s, run[0]);
      ReadersHoldStill(s, run[0]);
      HeldByReadersKeepsData(Act(s, run[0]), run[1..]);
      GrowsFurther(s.log, Act(s, run[0]).log, After(s, run).log, s.data);
    }
  }

  /** With the mutex free, the count is the number of set entries, and every sleeper has a reason to sleep. */
  lemma {:induction false} WhenTheMutexIsFree(s: State, run: seq<Action>)
    requires Initial(s) && Runs(s, run) && After(s, run).gate.writerMutex == RG.Free
    ensures var e := After(s, run);
            && e.writersCount == Sum(One, e.record)
            && (forall w :: 0 <= w < |e.writers| && e.writers[w].pc == Asleep ==> e.writersCount == |e.writers|)
            && (e.critic == CAsleep ==> e.writersCount != |e.writers|)
  {
    InitialInv(s);
    RunKeepsInv(s, run);
  }

  // ---------- A measure that every step lowers ----------

  /** Four for a write not yet counted into a round, one for a counted one that may still have to broadcast. */
  function Weight(t: Writer): nat {
    if t.left == 0 then 0 else
      match t.pc
      case TestingFull => 4 * (t.left - 1) + 1
      case Signalling => 4 * (t.left - 1) + 1
      case Storing => 4 * (t.left - 1)
      case Stored => 4 * (t.left - 1)
      case Unlocking => 4 * (t.left - 1)
      case _ => 4 * t.left
  }

  function CriticWeight(critic: CriticPc): nat {
    if critic.CClearing? || critic.CSaving? || critic.CSignalling? then 1 else 0
  }

  function Rank(t: Writer): nat {
    match t.pc
    case Storing => 7
    case Stored => 6
    case Unlocking => 5
    case Outside => 4
    case Woken => 4
    case Testing => 3
    case Recording => 2
    case TestingFull => 1
    case Signalling => 0
    case Asleep => 0
  }

  function CriticRank(critic: CriticPc, writers: nat): nat {
    match critic
    case CClearing(i) => 7 + if i < writers then writers - i else 0
    case CSaving => 6
    case CSignalling => 5
    case CUnlocking => 4
    case COutside => 3
    case CWoken => 3
    case CTesting => 2
    case CZeroing => 1
    case CAsleep => 0
  }

  /** The part that drops whenever a write is counted, a broadcast is passed, or a round is taken. */
  function Major(s: State): int {
    2 * s.writersCount + Sum(Weight, s.writers) + CriticWeight(s.critic)
  }

  function Minor(s: State): nat {
    Sum(Rank, s.writers) + CriticRank(s.critic, |s.writers|)
  }

  function Measure(s: State): int {
    (4 * |s.writers| + 11) * Major(s) + Minor(s) + Sum(RG.StepsLeft, s.gate.readers)
  }

  lemma {:induction false} WakingRaisesRanks(writers: seq<Writer>)
    ensures Sum(Weight, WakeAll(writers)) == Sum(Weight, writers)
    ensures Sum(Rank, WakeAll(writers)) <= Sum(Rank, writers) + 4 * |writers|
  {
    SumPointwise(Weight, WakeAll(writers), writers, 0);
    SumPointwise(Weight, writers, WakeAll(writers), 0);
    SumPointwise(Rank, WakeAll(writers), writers, 4);
  }

  /** Either the major part drops while the minor one rises by a bounded amount, or the minor one drops. */
  ghost predicate Descends(s: State, s': State) {
    || (Major(s') < Major(s) && Minor(s') <= Minor(s) + 4 * |s.writers| + 10)
    || (Major(s') == Major(s) && Minor(s') < Minor(s))
  }

  lemma WriterMovesSums(s: State, w: nat, value: int)
    requires CanAct(s, WriterTurn(w, value))
    ensures var s', t := WriterStep(s, w, value), s.writers[w];
            var woken := if t.pc == Signalling then 4 * |s.writers| else 0;
            && Sum(Weight, s'.writers) == Sum(Weight, s.writers) - Weight(t) + Weight(s'.writers[w])
            && Sum(Rank, s'.writers) <= Sum(Rank, s.writers) - Rank(t) + Rank(s'.writers[w]) + woken
  {
    var t' := WriterStep(s, w, value).writers[w];
    var base := if s.writers[w].pc == Signalling then WakeAll(s.writers) else s.writers;
    WakingRaisesRanks(s.writers);
    assert WriterStep(s, w, value).writers == base[w := t'];
    SumUpdate(Weight, base, w, t');
    SumUpdate(Rank, base, w, t');
  }

  /** What a step does to the numbers of the writer that makes it, its counting included. */
  lemma MoverDescends(s: State, w: nat, value: int)
    requires LockInv(s) && CanAct(s, WriterTurn(w, value))
    ensures var s', t := WriterStep(s, w, value), s.writers[w];
            var t', gain := s'.writers[w], 2 * (s'.writersCount - s.writersCount);
            || (gain + Weight(t') < Weight(t) && Rank(t') <= Rank(t) + 7)
            || (gain + Weight(t') == Weight(t) && Rank(t') < Rank(t) && t.pc != Signalling)
  {
  }

  lemma WriterDescends(s: State, w: nat, value: int)
    requires LockInv(s) && CanAct(s, WriterTurn(w, value))
    ensures Descends(s, WriterStep(s, w, value))
  {
    var s' := WriterStep(s, w, value);
    WriterMovesSums(s, w, value);
    MoverDescends(s, w, value);
    assert s'.critic == if s.writers[w].pc == Signalling then WakeCritic(s.critic) else s.critic;
  }

  lemma CriticDescends(s: State)
    requires CountInv(s) && CanAct(s, CriticTurn) && |s.writers| > 0
    ensures Descends(s, CriticStep(s))
  {
    WakingRaisesRanks(s.writers);
  }

  lemma MeasureIsNatural(s: State)
    requires CountInv(s)
    ensures Measure(s) >= 0
  {
    assert s.writersCount >= 0 && Major(s) >= 0;
    ProductIsNatural(4 * |s.writers| + 11, Major(s));
  }

  lemma ProductIsNatural(x: nat, y: nat)
    ensures x * y >= 0
  {
  }

  lemma DescentLowersMeasure(s: State, s': State)
    requires Descends(s, s') && |s'.writers| == |s.writers| && s'.gate.readers == s.gate.readers
    ensures Measure(s') < Measure(s)
  {
    if Major(s') < Major(s) {
      LowerProduct(4 * |s.writers| + 11, Major(s'), Major(s));
    }
  }

  lemma LowerProduct(k: nat, x: int, y: int)
    requires x < y
    ensures k * x + k <= k * y
  {
    assert k * (y - x) == k * y - k * x;
    assert k * (y - x) == k * (y - x - 1) + k;
  }

  lemma WriterLowersMeasure(s: State, w: nat, value: int)
    requires LockInv(s) && CanAct(s, WriterTurn(w, value))
    ensures Measure(WriterStep(s, w, value)) < Measure(s)
  {
    WriterDescends(s, w, value);
    DescentLowersMeasure(s, WriterStep(s, w, value));
  }

  lemma CriticLowersMeasure(s: State)
    requires CountInv(s) && CanAct(s, CriticTurn) && |s.writers| > 0
    ensures Measure(CriticStep(s)) < Measure(s)
  {
    CriticDescends(s);
    DescentLowersMeasure(s, CriticStep(s));
  }

  lemma ReaderLowersMeasure(s: State, r: nat)
    requires RG.Inv(s.gate) && RG.CanStep(s.gate, r)
    ensures Measure(ReaderStep(s, r)) < Measure(s)
  {
    RG.StepLowersStepsLeft(s.gate, r);
    assert Major(ReaderStep(s, r)) == Major(s) && Minor(ReaderStep(s, r)) == Minor(s);
  }

  lemma TurnLowersMeasure(s: State, a: Action)
    requires Inv(s) && CanAct(s, a) && !IsSpurious(a) && |s.writers| > 0
    ensures Measure(Act(s, a)) < Measure(s)
  {
    match a
    case ReaderTurn(r) => ReaderLowersMeasure(s, r);
    case WriterTurn(w, value) => WriterLowersMeasure(s, w, value);
    case CriticTurn => CriticLowersMeasure(s);
  }

  lemma SpuriousRaisesMeasure(s: State, a: Action)
    requires CanAct(s, a) && IsSpurious(a)
    ensures Measure(Act(s, a)) <= Measure(s) + 4
  {
    if a.SpuriousWriter? {
      var t' := s.writers[a.writer].(pc := Woken);
      SumUpdate(Weight, s.writers, a.writer, t');
      SumUpdate(Rank, s.writers, a.writer, t');
    }
  }

  // ---------- Results about whole runs: progress ----------

  /** One action's part in the bound on a run. */
  function Cost(a: Action): nat {
    if IsSpurious(a) then 5 else 0
  }

  lemma ActLowersMeasure(s: State, a: Action)
    requires Inv(s) && CanAct(s, a) && |s.writers| > 0
    ensures Measure(Act(s, a)) + 1 <= Measure(s) + Cost(a)
    ensures Inv(Act(s, a)) && |Act(s, a).writers| == |s.writers|
  {
    ActKeepsInv(s, a);
    ActKeepsProgram(s, a);
    if IsSpurious(a) {
      SpuriousRaisesMeasure(s, a);
    } else {
      TurnLowersMeasure(s, a);
    }
  }

  /** Every run is finite: apart from spurious wake-ups its length is bounded before it starts. */
  lemma {:induction false} RunIsBounded(s: State, run: seq<Action>)
    requires Inv(s) && Runs(s, run) && |s.writers| > 0
    ensures |run| <= Measure(s) + 5 * SpuriousWakeups(run)
    decreases run
  {
    if run == [] {
      MeasureIsNatural(s);
    } else {
      ActLowersMeasure(s, run[0]);
      RunIsBounded(Act(s, run[0]), run[1..]);
    }
  }

  /** If neither a writer nor the critic can move, none of them holds the mutex. */
  lemma StuckMeansUnlocked(s: State)
    requires LockInv(s)
    requires forall w: nat :: !CanAct(s, WriterTurn(w, 0))
    requires !CanAct(s, CriticTurn)
    ensures s.gate.writerMutex == RG.Free || s.gate.writerMutex == RG.ByReaders
  {
    if s.gate.writerMutex.ByWriter? {
      HolderCanAct(s);
    }
  }

  lemma HolderCanAct(s: State)
    requires LockInv(s) && s.gate.writerMutex.ByWriter?
    ensures CanAct(s, WriterTurn(s.gate.writerMutex.writer, 0))
  {
  }

  /** With the mutex free a full round would have a waking critic, and an unfinished one waking writers. */
  lemma StuckMeansWritersFinished(s: State)
    requires LockInv(s) && SleepInv(s) && s.gate.writerMutex == RG.Free
    requires forall w: nat :: !CanAct(s, WriterTurn(w, 0))
    requires !CanAct(s, CriticTurn)
    ensures s.critic == CAsleep
    ensures forall w :: 0 <= w < |s.writers| ==> s.writers[w].pc == Outside && s.writers[w].left == 0
  {
    forall w | 0 <= w < |s.writers| ensures s.writers[w].pc == Outside && s.writers[w].left == 0 {
      assert !CanAct(s, WriterTurn(w, 0));
    }
  }

  /** No deadlock: when nobody can move, everybody has finished and only the critic is left, asleep. */
  lemma StuckMeansFinished(s: State)
    requires Inv(s) && Stuck(s)
    ensures AllFinished(s) && s.critic == CAsleep
  {
    forall w: nat ensures !CanAct(s, WriterTurn(w, 0)) {
      assert !IsSpurious(WriterTurn(w, 0));
    }
    forall r: nat ensures !RG.CanStep(s.gate, r) {
      assert CanAct(s, ReaderTurn(r)) <==> RG.CanStep(s.gate, r);
    }
    assert !IsSpurious(CriticTurn);
    StuckMeansUnlocked(s);
    RG.BlockedReaders(s.gate);
    StuckMeansWritersFinished(s);
  }

  /**
   Where every maximal run stops: all readers and writers finished, the critic asleep, every writer's calls all
   made; and the critic has saved at least once exactly if every writer had something to write.
   */
  lemma {:induction false} ExactOutcome(s: State, run: seq<Action>)
    requires Initial(s) && |s.writers| > 0 && Runs(s, run) && Stuck(After(s, run))
    ensures var e := After(s, run);
            && AllFinished(e) && e.critic == CAsleep
            && Reads(e.log) == TotalReads(s)
            && (forall w :: 0 <= w < |s.writers| ==>
                  Writes(e.log, w) == s.writers[w].left && |SavedValues(e.log)| <= s.writers[w].left)
            && (SavedValues(e.log) != [] <==> forall w :: 0 <= w < |s.writers| ==> s.writers[w].left > 0)
  {
    InitialInv(s);
    RunKeepsInv(s, run);
    var e, n := After(s, run), |s.writers|;
    StuckMeansFinished(e);
    SumConstant(RG.ReadsToGo, e.gate.readers, 0);
    forall w | 0 <= w < n
      ensures Writes(e.log, w) == s.writers[w].left && |SavedValues(e.log)| <= s.writers[w].left
    {
      assert TotalWrites(e, w) == TotalWrites(s, w);
      WritesCoverSaves(e.log, s.initial, n, w);
    }
    if SavedValues(e.log) == [] && forall w :: 0 <= w < n ==> s.writers[w].left > 0 {
      forall w | 0 <= w < n ensures e.record[w] {
        WritesCoverSaves(e.log, s.initial, n, w);
      }
      FullCount(e.record);
      assert false;
    }
  }

  lemma {:induction false} WeightAtStart(writers: seq<Writer>)
    requires forall w :: 0 <= w < |writers| ==> writers[w].pc == Outside
    ensures Sum(Weight, writers) == 4 * Sum(WritesLeft, writers)
    ensures Sum(Rank, writers) == 4 * |writers|
  {
    if writers == [] {
    } else {
      WeightAtStart(writers[1..]);
    }
  }

  /** The bound in terms of what main() starts: n writers making w writes, and readers making r reads. */
  lemma {:induction false} RunLength(s: State, run: seq<Action>)
    requires Initial(s) && Runs(s, run) && |s.writers| > 0
    ensures var n, w, r := |s.writers|, Sum(WritesLeft, s.writers), Sum(RG.ReadsLeft, s.gate.readers);
            |run| <= (4 * n + 11) * (4 * w) + 4 * n + 3 + 11 * r + 5 * SpuriousWakeups(run)
  {
    InitialInv(s);
    RunIsBounded(s, run);
    WeightAtStart(s.writers);
    RG.StepsAtStart(s.gate.readers);
    assert Major(s) == 4 * Sum(WritesLeft, s.writers) && Minor(s) == 4 * |s.writers| + 3;
  }

  /** Every run that has not stopped can be driven to a stop without any spurious wake-up. */
  lemma {:induction false} RunCanStop(s: State) returns (run: seq<Action>)
    requires Inv(s) && |s.writers| > 0
    ensures Runs(s, run) && SpuriousWakeups(run) == 0 && Stuck(After(s, run))
    decreases Measure(s)
  {
    if Stuck(s) {
      run := [];
    } else {
      var a :| CanAct(s, a) && !IsSpurious(a);
      ActLowersMeasure(s, a);
      MeasureIsNatural(s);
      var rest := RunCanStop(Act(s, a));
      run := Prepend(s, a, rest);
    }
  }

  /** With no writers, the critic goes round once and is back where it was, but for one more save. */
  lemma CriticGoesRound(s: State) returns (run: seq<Action>)
    requires s.writers == [] && s.critic == COutside && s.gate.writerMutex == RG.Free && s.writersCount == 0
    ensures Runs(s, run) && |run| == 7 && SpuriousWakeups(run) == 0
    ensures After(s, run) == s.(log := s.log + [Saved(s.data)])
  {
    var s1 := CriticStep(s);
    var s2 := CriticStep(s1);
    var s3 := CriticStep(s2);
    var s4 := CriticStep(s3);
    var s5 := CriticStep(s4);
    var s6 := CriticStep(s5);
    run := Prepend(s6, CriticTurn, []);
    run := Prepend(s5, CriticTurn, run);
    run := Prepend(s4, CriticTurn, run);
    run := Prepend(s3, CriticTurn, run);
    run := Prepend(s2, CriticTurn, run);
    run := Prepend(s1, CriticTurn, run);
    run := Prepend(s, CriticTurn, run);
  }

  /** Why a writer is needed: with none, every round is complete at once and the critic saves for ever. */
  lemma {:induction false} NoWritersNeverStops(s: State, rounds: nat) returns (run: seq<Action>)
    requires s.writers == [] && s.critic == COutside && s.gate.writerMutex == RG.Free && s.writersCount == 0
    ensures Runs(s, run) && |run| == 7 * rounds && SpuriousWakeups(run) == 0
    ensures |SavedValues(After(s, run).log)| == |SavedValues(s.log)| + rounds
    decreases rounds
  {
    if rounds == 0 {
      run := [];
    } else {
      var once := CriticGoesRound(s);
      SavedAppend(s.log, s.data);
      var rest := NoWritersNeverStops(After(s, once), rounds - 1);
      run := once + rest;
      Concat(s, once, rest);
    }
  }

  lemma {:induction false} Concat(s: State, first: seq<Action>, rest: seq<Action>)
    requires Runs(s, first) && Runs(After(s, first), rest)
    ensures Runs(s, first + rest) && After(s, first + rest) == After(After(s, first), rest)
    ensures SpuriousWakeups(first + rest) == SpuriousWakeups(first) + SpuriousWakeups(rest)
    decreases first
  {
    if first == [] {
      assert first + rest == rest;
    } else {
      assert (first + rest)[1..] == first[1..] + rest;
      Concat(Act(s, first[0]), first[1..], rest);
    }
  }

  lemma Prepend(s: State, a: Action, rest: seq<Action>) returns (run: seq<Action>)
    requires CanAct(s, a) && Runs(Act(s, a), rest)
    ensures run == [a] + rest && Runs(s, run) && After(s, run) == After(Act(s, a), rest)
    ensures SpuriousWakeups(run) == SpuriousWakeups(rest) + if IsSpurious(a) then 1 else 0
  {
    run := [a] + rest;
    assert run[1..] == rest;
  }

  // ---------- What runs under the mutex, in one piece ----------

  /** What is different once writer w, past its wait loop, has been counted and has stored its value. */
  function Counted(s: State, w: nat, value: int): State
    requires w < |s.writers|
  {
    var count := if s.record[w] then s.writersCount else s.writersCount + 1;
    var s' := s.(writersCount := count, record := s.record[w := true], data := value, log := s.log + [Wrote(w, value)]);
    Moved(if count == |s.writers| then Broadcast(s') else s', w, Unlocking)
  }

  /** What is different once the critic, past its wait loop, has closed the round and saved the datum. */
  function Closed(s: State): State {
    Broadcast(s.(writersCount := 0, record := seq(|s.record|, _ => false), log := s.log + [Saved(s.data)]))
    .(critic := CUnlocking)
  }

  lemma StoreAlone(s: State, w: nat, value: int) returns (run: seq<Action>)
    requires w < |s.writers| && s.writers[w].pc == Storing
    ensures Runs(s, run)
    ensures After(s, run) == Moved(s, w, Unlocking).(data := value, log := s.log + [Wrote(w, value)])
  {
    var a := WriterTurn(w, value);
    var s1 := Act(s, a);
    assert Act(s1, a) == Moved(s, w, Unlocking).(data := value, log := s.log + [Wrote(w, value)]);
    run := Prepend(s1, a, []);
    run := Prepend(s, a, run);
  }

  lemma CountAlone(s: State, w: nat, value: int) returns (run: seq<Action>)
    requires w < |s.writers| && s.writers[w].pc == Recording
    ensures Runs(s, run) && After(s, run) == Counted(s, w, value)
  {
    var a := WriterTurn(w, value);
    var s1 := Act(s, a);
    var s2 := Act(s1, a);
    if s1.writersCount == |s.writers| {
      run := StoreAlone(Act(s2, a), w, value);
      run := Prepend(s2, a, run);
    } else {
      run := StoreAlone(s2, w, value);
    }
    run := Prepend(s1, a, run);
    run := Prepend(s, a, run);
    assert After(s, run).writers == Counted(s, w, value).writers;
  }

  lemma {:induction false} ClearAlone(s: State, i: nat) returns (run: seq<Action>)
    requires s.critic == CClearing(i) && i <= |s.record| && forall w :: 0 <= w < i ==> !s.record[w]
    ensures Runs(s, run) && After(s, run) == s.(record := seq(|s.record|, _ => false), critic := CSaving)
    decreases |s.record| - i
  {
    if i == |s.record| {
      assert s.record == seq(|s.record|, _ => false);
      run := [];
    } else {
      run := ClearAlone(Act(s, CriticTurn), i + 1);
    }
    run := Prepend(s, CriticTurn, run);
  }

  lemma CloseAlone(s: State) returns (run: seq<Action>)
    requires s.critic == CZeroing
    ensures Runs(s, run) && After(s, run) == Closed(s)
  {
    var s1 := Act(s, CriticTurn);
    var clearing := ClearAlone(s1, 0);
    var s2 := After(s1, clearing);
    var s3 := Act(s2, CriticTurn);
    run := Prepend(s3, CriticTurn, []);
    run := Prepend(s2, CriticTurn, run);
    Concat(s1, clearing, run);
    run := Prepend(s, CriticTurn, clearing + run);
  }

  /**
   The program's object. WriteCounted and CloseRound are what runs after the wait loops, up to the unlocks; each makes
   a run of the state machine from the state s that the object shows.
   */
  class ConcurrentObject {
    var data: int
    var writersCount: int
    const numWriters: nat
    const writersRecord: array<bool>

    ghost predicate Valid()
      reads this, writersRecord
    {
      writersRecord.Length == numWriters && writersCount == Sum(One, writersRecord[..])
    }

    /** The object as one sees it when the machine is in state s. */
    ghost predicate Shows(s: State)
      reads this, writersRecord
    {
      && data == s.data
      && writersCount == s.writersCount
      && numWriters == |s.writers|
      && writersRecord[..] == s.record
    }

    /** Every writer has written since the last save. */
    ghost predicate RoundComplete()
      requires Valid()
      reads this, writersRecord
    {
      forall w :: 0 <= w < numWriters ==> writersRecord[w]
    }

    /** Comparing two counts tells whether the round is complete. */
    lemma CountTellsCompletion()
      requires Valid()
      ensures writersCount == numWriters <==> RoundComplete()
    {
      FullCount(writersRecord[..]);
      assert forall w :: 0 <= w < numWriters ==> writersRecord[..][w] == writersRecord[w];
    }

    constructor (initialData: int, numWriters: nat, ghost s: State)
      requires Initial(s) && s.initial == initialData && |s.writers| == numWriters
      ensures Valid() && fresh(writersRecord) && Shows(s)
      ensures this.numWriters == numWriters && data == initialData
      ensures forall w :: 0 <= w < numWriters ==> !writersRecord[w]
    {
      this.data := initialData;
      this.numWriters := numWriters;
      this.writersCount := 0;
      this.writersRecord := new bool[numWriters];
      new;
      for i := 0 to numWriters
        invariant writersRecord.Length == this.numWriters == numWriters && fresh(writersRecord)
        invariant data == initialData && writersCount == 0
        invariant forall w :: 0 <= w < i ==> !writersRecord[w]
      {
        writersRecord[i] := false;
      }
      SumConstant(One, writersRecord[..], 0);
    }

    method WriteCounted(writerIdx: nat, value: int, ghost s: State)
        returns (broadcasts: bool, ghost steps: seq<Action>)
      requires Valid() && writerIdx < numWriters && !RoundComplete()
      requires Shows(s) && s.writers[writerIdx].pc == Recording
      modifies this, writersRecord
      ensures Valid() && data == value
      ensures writersRecord[..] == old(writersRecord[..])[writerIdx := true]
      ensures broadcasts <==> RoundComplete()
      ensures Runs(s, steps) && After(s, steps) == Counted(s, writerIdx, value) && Shows(After(s, steps))
      ensures var e := After(s, steps);
              && e.log == s.log + [Wrote(writerIdx, value)]
              && e.writers == WokenIf(broadcasts, s.writers)[writerIdx := s.writers[writerIdx].(pc := Unlocking)]
              && e.critic == if broadcasts then WakeCritic(s.critic) else s.critic
    {
      steps := CountAlone(s, writerIdx, value);
      SumUpdate(One, writersRecord[..], writerIdx, true);
      if !writersRecord[writerIdx] {
        writersCount := writersCount + 1;
        writersRecord[writerIdx] := true;
      }
      assert writersRecord[..] == old(writersRecord[..])[writerIdx := true];
      CountTellsCompletion();
      broadcasts := writersCount == numWriters;
      data := value;
    }

    method CloseRound(ghost s: State) returns (saved: int, ghost steps: seq<Action>)
      requires Valid() && RoundComplete()
      requires Shows(s) && s.critic == CZeroing
      modifies this, writersRecord
      ensures Valid() && data == old(data) && saved == data
      ensures forall w :: 0 <= w < numWriters ==> !writersRecord[w]
      ensures Runs(s, steps) && After(s, steps) == Closed(s) && Shows(After(s, steps))
      ensures var e := After(s, steps);
              e.log == s.log + [Saved(saved)] && e.writers == WakeAll(s.writers) && e.critic == CUnlocking
    {
      steps := CloseAlone(s);
      writersCount := 0;
      for i := 0 to numWriters
        invariant writersRecord.Length == numWriters && writersCount == 0 && data == old(data)
        invariant forall w :: 0 <= w < i ==> !writersRecord[w]
      {
        writersRecord[i] := false;
      }
      SumConstant(One, writersRecord[..], 0);
      saved := data;
    }
  }
}
