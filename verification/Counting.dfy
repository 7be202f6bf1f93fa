/** Sums over sequences of threads, and how they move when one element changes. */
module Counting {

  datatype Option<+T> = None | Some(value: T)

  function Sum<T>(f: T -> nat, s: seq<T>): nat {
    if s == [] then 0 else f(s[0]) + Sum(f, s[1..])
  }

  lemma {:induction false} SumUpdate<T>(f: T -> nat, s: seq<T>, i: nat, x: T)
    requires i < |s|
    ensures Sum(f, s[i := x]) + f(s[i]) == Sum(f, s) + f(x)
  {
    if i == 0 {
      assert s[0 := x][1..] == s[1..];
    } else {
      assert s[i := x][1..] == s[1..][i - 1 := x];
      SumUpdate(f, s[1..], i - 1, x);
    }
  }

  lemma {:induction false} SumAtLeast<T>(f: T -> nat, s: seq<T>, i: nat)
    requires i < |s|
    ensures f(s[i]) <= Sum(f, s)
  {
    if i == 0 {
    } else {
      SumAtLeast(f, s[1..], i - 1);
    }
  }

  lemma {:induction false} SumAtLeastTwo<T>(f: T -> nat, s: seq<T>, i: nat, j: nat)
    requires i < |s| && j < |s| && i != j
    ensures f(s[i]) + f(s[j]) <= Sum(f, s)
  {
    if i == 0 {
      SumAtLeast(f, s[1..], j - 1);
    } else if j == 0 {
      SumAtLeast(f, s[1..], i - 1);
    } else {
      SumAtLeastTwo(f, s[1..], i - 1, j - 1);
    }
  }

  lemma {:induction false} SumAppend<T>(f: T -> nat, s: seq<T>, x: T)
    ensures Sum(f, s + [x]) == Sum(f, s) + f(x)
  {
    if s == [] {
      assert s + [x] == [x];
      assert Sum(f, [x]) == f(x) + Sum(f, []);
    } else {
      assert (s + [x])[1..] == s[1..] + [x];
      SumAppend(f, s[1..], x);
    }
  }

  /** If every element of `s` weighs at most `c` more than its counterpart in `t`, so does the sum, `|s|` times over. */
  lemma {:induction false} SumPointwise<T>(f: T -> nat, s: seq<T>, t: seq<T>, c: nat)
    requires |s| == |t|
    requires forall i :: 0 <= i < |s| ==> f(s[i]) <= f(t[i]) + c
    ensures Sum(f, s) <= Sum(f, t) + c * |s|
  {
    if s == [] {
    } else {
      forall i | 0 <= i < |s[1..]| ensures f(s[1..][i]) <= f(t[1..][i]) + c {
        assert s[1..][i] == s[i + 1] && t[1..][i] == t[i + 1];
      }
      assert f(s[0]) <= f(t[0]) + c;
      SumPointwise(f, s[1..], t[1..], c);
    }
  }

  lemma {:induction false} SumConstant<T>(f: T -> nat, s: seq<T>, c: nat)
    requires forall i :: 0 <= i < |s| ==> f(s[i]) == c
    ensures Sum(f, s) == c * |s|
  {
    if s == [] {
    } else {
      SumConstant(f, s[1..], c);
    }
  }

  lemma {:induction false} SumAtMost<T>(f: T -> nat, s: seq<T>, c: nat)
    requires forall i :: 0 <= i < |s| ==> f(s[i]) <= c
    ensures Sum(f, s) <= c * |s|
  {
    if s == [] {
    } else {
      SumAtMost(f, s[1..], c);
    }
  }

  /** A positive sum has a positive element. */
  lemma {:induction false} SumPositive<T>(f: T -> nat, s: seq<T>) returns (i: nat)
    requires Sum(f, s) > 0
    ensures i < |s| && f(s[i]) > 0
  {
    if f(s[0]) > 0 {
      i := 0;
    } else {
      i := SumPositive(f, s[1..]);
      i := i + 1;
    }
  }
}
