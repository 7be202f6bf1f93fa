/**
 What Classes1/Task4.c promises, said without its counters and locks: a log of writes, reads and saves is proper if
 reads and saves see the latest write, the critic saves only once every writer has written since the last save,
 and nobody writes between the write that completes a round and the save.
 */
module RoundSpec {
  import opened Counting

  datatype Event = Wrote(writer: nat, value: int) | Got(value: int) | Saved(value: int)

  /** The latest value, and who has written since the last save. */
  datatype Round = Round(latest: int, seen: set<nat>)

  predicate Complete(round: Round, writers: nat) {
    forall w :: 0 <= w < writers ==> w in round.seen
  }

  /** Where a log of the given number of writers has led to, or None if it breaks the promise. */
  function Follow(log: seq<Event>, initial: int, writers: nat): Option<Round>
    decreases |log|
  {
    if log == [] then Some(Round(initial, {})) else
      match Follow(log[..|log| - 1], initial, writers)
      case None => None
      case Some(round) => Extend(round, log[|log| - 1], writers)
  }

  function Extend(round: Round, e: Event, writers: nat): Option<Round> {
    match e
    case Got(value) => if value == round.latest then Some(round) else None
    case Wrote(w, value) =>
      if Complete(round, writers) || w >= writers then None else Some(Round(value, round.seen + {w}))
    case Saved(value) =>
      if Complete(round, writers) && value == round.latest then Some(round.(seen := {})) else None
  }

  ghost predicate Proper(log: seq<Event>, initial: int, writers: nat) {
    Follow(log, initial, writers).Some?
  }

  lemma {:induction false} FollowAppend(log: seq<Event>, e: Event, initial: int, writers: nat)
    requires Proper(log, initial, writers)
    ensures Follow(log + [e], initial, writers) == Extend(Follow(log, initial, writers).value, e, writers)
  {
    assert (log + [e])[..|log|] == log;
  }

  lemma {:induction false} ProperPrefix(log: seq<Event>, k: nat, initial: int, writers: nat)
    requires Proper(log, initial, writers) && k <= |log|
    ensures Proper(log[..k], initial, writers)
    decreases |log|
  {
    if k < |log| {
      assert log[..|log| - 1][..k] == log[..k];
      ProperPrefix(log[..|log| - 1], k, initial, writers);
    } else {
      assert log[..k] == log;
    }
  }

  // ---------- The right value is saved ----------

  function SavedValues(log: seq<Event>): seq<int>
    decreases |log|
  {
    if log == [] then [] else
      SavedValues(log[..|log| - 1]) + if log[|log| - 1].Saved? then [log[|log| - 1].value] else []
  }

  lemma {:induction false} SavedAppend(log: seq<Event>, value: int)
    ensures SavedValues(log + [Saved(value)]) == SavedValues(log) + [value]
  {
    assert (log + [Saved(value)])[..|log|] == log;
  }

  /** The values of the writes that completed a round. */
  function CompletingValues(log: seq<Event>, initial: int, writers: nat): seq<int>
    requires Proper(log, initial, writers)
    decreases |log|
  {
    if log == [] then [] else
      CompletingValues(log[..|log| - 1], initial, writers) +
      var e := log[|log| - 1];
      if e.Wrote? && Complete(Follow(log, initial, writers).value, writers) then [e.value] else []
  }

  /** The k-th value saved is the value of the k-th write that completed a round; at most the last is unsaved. */
  lemma {:induction false} SavesTheCompletingValues(log: seq<Event>, initial: int, writers: nat)
    requires Proper(log, initial, writers) && writers > 0
    ensures var round := Follow(log, initial, writers).value;
            CompletingValues(log, initial, writers) ==
              SavedValues(log) + if Complete(round, writers) then [round.latest] else []
    decreases |log|
  {
    if log == [] {
      assert 0 !in Follow(log, initial, writers).value.seen;
    } else {
      SavesTheCompletingValues(log[..|log| - 1], initial, writers);
      if log[|log| - 1].Saved? {
        assert 0 !in Follow(log, initial, writers).value.seen;
      }
    }
  }

  // ---------- Everybody writes in every round ----------

  function Writes(log: seq<Event>, w: nat): nat
    decreases |log|
  {
    if log == [] then 0 else
      Writes(log[..|log| - 1], w) + if log[|log| - 1].Wrote? && log[|log| - 1].writer == w then 1 else 0
  }

  function Reads(log: seq<Event>): nat
    decreases |log|
  {
    if log == [] then 0 else Reads(log[..|log| - 1]) + if log[|log| - 1].Got? then 1 else 0
  }

  /** A writer has written at least once for every save, and once more if it is in the current round. */
  lemma {:induction false} WritesCoverSaves(log: seq<Event>, initial: int, writers: nat, w: nat)
    requires Proper(log, initial, writers) && w < writers
    ensures Writes(log, w) >= |SavedValues(log)| + if w in Follow(log, initial, writers).value.seen then 1 else 0
    ensures SavedValues(log) == [] ==> (w in Follow(log, initial, writers).value.seen <==> Writes(log, w) > 0)
    decreases |log|
  {
    if log == [] {
    } else {
      WritesCoverSaves(log[..|log| - 1], initial, writers, w);
    }
  }

  /** Whoever is in the round at the end but was not at position a has written since. */
  lemma {:induction false} JoinedSince(log: seq<Event>, a: nat, initial: int, writers: nat, w: nat) returns (c: nat)
    requires Proper(log, initial, writers) && a <= |log|
    requires Proper(log[..a], initial, writers)
    requires w !in Follow(log[..a], initial, writers).value.seen
    requires w in Follow(log, initial, writers).value.seen
    ensures a <= c < |log| && log[c].Wrote? && log[c].writer == w
    decreases |log|
  {
    assert log[..|log|] == log;
    var last := |log| - 1;
    if log[last].Wrote? && log[last].writer == w {
      c := last;
    } else {
      assert log[..last][..a] == log[..a];
      c := JoinedSince(log[..last], a, initial, writers, w);
    }
  }

  /** Between any two saves every writer writes. */
  lemma EveryoneWritesBetweenSaves(log: seq<Event>, initial: int, writers: nat,
                                   a: nat, b: nat, w: nat)
      returns (c: nat)
    requires Proper(log, initial, writers) && w < writers
    requires a < b < |log| && log[a].Saved? && log[b].Saved?
    ensures a < c < b && log[c].Wrote? && log[c].writer == w
  {
    ProperPrefix(log, a, initial, writers);
    ProperPrefix(log, b, initial, writers);
    ProperPrefix(log, b + 1, initial, writers);
    ProperPrefix(log, a + 1, initial, writers);
    assert log[..a + 1][..a] == log[..a];
    assert log[..b + 1][..b] == log[..b];
    assert log[..b][..a + 1] == log[..a + 1];
    c := JoinedSince(log[..b], a + 1, initial, writers, w);
  }

  /** From the write that completes a round until the next save, nobody writes. */
  lemma {:induction false} NobodyWritesBeforeTheSave(log: seq<Event>, initial: int, writers: nat, a: nat, c: nat)
    requires Proper(log, initial, writers) && a < c < |log|
    requires Proper(log[..a + 1], initial, writers)
    requires Complete(Follow(log[..a + 1], initial, writers).value, writers)
    requires forall k :: a < k < c ==> !log[k].Saved?
    ensures !log[c].Wrote?
    ensures Proper(log[..c], initial, writers) && Complete(Follow(log[..c], initial, writers).value, writers)
    decreases c
  {
    ProperPrefix(log, c, initial, writers);
    ProperPrefix(log, c + 1, initial, writers);
    assert log[..c + 1][..c] == log[..c];
    if a + 1 == c {
    } else {
      NobodyWritesBeforeTheSave(log, initial, writers, a, c - 1);
      assert log[..c][..c - 1] == log[..c - 1];
    }
  }
}
