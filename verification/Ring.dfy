/** The buffer side of Classes1/Task2.c and Classes1/Task6.c: a ring of `size` cells with two indices and a count. */
module Ring {

  datatype Cells = Cells(size: nat, items: int, reading: nat, writing: nat, data: seq<int>)

  /** What allocation fixes for good: the array's length, and both indices inside it. */
  type Buffer = b: Cells | 1 <= b.size == |b.data| && b.reading < b.size && b.writing < b.size
    witness Cells(1, 0, 0, 0, [0])

  ghost predicate Consistent(b: Buffer) {
    0 <= b.items <= b.size && b.writing == (b.reading + b.items) % b.size
  }

  /** The queue a ring stands for, oldest value first. */
  function Contents(b: Buffer): (q: seq<int>)
    requires Consistent(b)
    ensures |q| == b.items
  {
    seq(b.items, k requires 0 <= k < b.items => b.data[(b.reading + k) % b.size])
  }

  function Front(b: Buffer): int {
    b.data[b.reading]
  }

  function Take(b: Buffer): Buffer {
    b.(items := b.items - 1, reading := (b.reading + 1) % b.size)
  }

  function Put(b: Buffer, value: int): Buffer {
    b.(items := b.items + 1, data := b.data[b.writing := value], writing := (b.writing + 1) % b.size)
  }

  /** An index that wraps at most once. */
  lemma Wrap(x: nat, n: nat)
    requires 0 < n && x < 2 * n
    ensures x % n == if x < n then x else x - n
  {
    if x >= n {
      assert x == n * 1 + (x - n);
      WrapUnique(x, n, 1, x - n);
    } else {
      WrapUnique(x, n, 0, x);
    }
  }

  lemma WrapUnique(x: nat, n: nat, q: int, r: nat)
    requires 0 < n && x == n * q + r && r < n
    ensures x % n == r && x / n == q
  {
    var d := x / n - q;
    assert n * d == r - x % n by {
      assert x == n * (x / n) + x % n;
      assert n * (x / n - q) == n * (x / n) - n * q;
    }
    MultipleIsFar(n, d);
  }

  lemma MultipleIsFar(n: int, d: int)
    requires 0 < n
    ensures d >= 1 ==> n * d >= n
    ensures d <= -1 ==> n * d <= -n
  {
  }

  lemma TakeRemovesFront(b: Buffer)
    requires Consistent(b) && b.items > 0
    ensures Consistent(Take(b))
    ensures Contents(b) == [Front(b)] + Contents(Take(b))
  {
    var b' := Take(b);
    Wrap(b.reading + b.items, b.size);
    Wrap(b.reading + 1, b.size);
    Wrap(b'.reading + b'.items, b.size);
    var q, q' := Contents(b), [Front(b)] + Contents(b');
    forall k | 0 <= k < |q| ensures q[k] == q'[k] {
      Wrap(b.reading + k, b.size);
      if k > 0 {
        Wrap(b'.reading + (k - 1), b.size);
        assert q'[k] == Contents(b')[k - 1];
      }
    }
  }

  lemma PutAppends(b: Buffer, value: int)
    requires Consistent(b) && b.items < b.size
    ensures Consistent(Put(b, value))
    ensures Contents(Put(b, value)) == Contents(b) + [value]
  {
    var b' := Put(b, value);
    Wrap(b.reading + b.items, b.size);
    Wrap(b.writing + 1, b.size);
    Wrap(b'.reading + b'.items, b.size);
    var q, q' := Contents(b'), Contents(b) + [value];
    forall k | 0 <= k < |q| ensures q[k] == q'[k] {
      Wrap(b.reading + k, b.size);
    }
  }
}
