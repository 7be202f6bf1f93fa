/** Classes3/Circular/circular.c: a ring of bytes that ends in a NUL and can be resized. */
module CircularBuffer {
  import opened ByteStrings
  import opened Ring

  const NUL: Byte := 0

  /** The cells and the next one to write. The last cell is not part of the ring: it ends the string for strlen. */
  datatype Device = Device(cells: seq<Byte>, position: nat)

  ghost predicate Valid(d: Device) {
    |d.cells| >= 2 && d.position < |d.cells| - 1 && d.cells[|d.cells| - 1] == NUL
  }

  /** The ring's bytes, from the one that would be overwritten next. */
  function Window(d: Device): (w: seq<Byte>)
    requires Valid(d)
    ensures |w| == |d.cells| - 1
  {
    d.cells[d.position..|d.cells| - 1] + d.cells[..d.position]
  }

  /** The device after circular_init. */
  function Loaded(): (d: Device)
    ensures Valid(d)
  {
    Device(seq(10, _ => NUL), 0)
  }

  function WriteByte(d: Device, b: Byte): Device
    requires Valid(d)
  {
    Device(d.cells[d.position := b], (d.position + 1) % (|d.cells| - 1))
  }

  function WriteAll(d: Device, bytes: seq<Byte>): (r: Device)
    requires Valid(d)
    ensures Valid(r) && |r.cells| == |d.cells|
    decreases |bytes|
  {
    if bytes == [] then d else WriteByte(WriteAll(d, bytes[..|bytes| - 1]), bytes[|bytes| - 1])
  }

  /** A new array of `size` cells; `garbage` is what the allocator happens to leave in those that are not copied. */
  function Resize(d: Device, size: nat, garbage: seq<Byte>): (r: Device)
    requires Valid(d) && size >= 2 && |garbage| == size
    ensures Valid(r) && |r.cells| == size
  {
    var kept := Min(size, |d.cells|);
    var cells := d.cells[..kept] + garbage[kept..];
    Device(cells[size - 1 := NUL], d.position % (size - 1))
  }

  // ---------- What writing amounts to ----------

  lemma {:induction false} WriteOneMore(d: Device, bytes: seq<Byte>, i: nat)
    requires Valid(d) && i < |bytes|
    ensures WriteAll(d, bytes[..i + 1]) == WriteByte(WriteAll(d, bytes[..i]), bytes[i])
  {
    assert bytes[..i + 1][..i] == bytes[..i];
  }

  /** Replacing cell p makes it the last one of the ring that begins after it. */
  lemma RotateOnce(cells: seq<Byte>, p: nat, last: nat, b: Byte)
    requires p < last <= |cells|
    ensures cells[p := b][p + 1..last] + cells[p := b][..p + 1] == (cells[p..last] + cells[..p])[1..] + [b]
  {
    var cells' := cells[p := b];
    assert cells'[p + 1..last] == cells[p + 1..last];
    assert cells'[..p + 1] == cells[..p] + [b];
    assert (cells[p..last] + cells[..p])[1..] == cells[p + 1..last] + cells[..p];
  }

  lemma WriteByteShifts(d: Device, b: Byte)
    requires Valid(d)
    ensures Valid(WriteByte(d, b))
    ensures Window(WriteByte(d, b)) == Window(d)[1..] + [b]
  {
    var cells', p, last := d.cells[d.position := b], d.position, |d.cells| - 1;
    Wrap(p + 1, last);
    RotateOnce(d.cells, p, last, b);
    if p + 1 == last {
      assert cells'[0..last] + cells'[..0] == cells'[last..last] + cells'[..last];
    }
  }

  lemma DropOneMore<T>(w: seq<T>, init: seq<T>, last: T)
    requires w != []
    ensures (w + init)[|init|..][1..] + [last] == (w + (init + [last]))[|init| + 1..]
  {
    assert w + (init + [last]) == w + init + [last];
  }

  /** Whatever is written, the window holds the last bytes of what it held and what was written. */
  lemma {:induction false} WriteIsWindow(d: Device, bytes: seq<Byte>)
    requires Valid(d)
    ensures Window(WriteAll(d, bytes)) == (Window(d) + bytes)[|bytes|..]
    decreases |bytes|
  {
    if bytes == [] {
    } else {
      var init, last := bytes[..|bytes| - 1], bytes[|bytes| - 1];
      WriteIsWindow(d, init);
      WriteByteShifts(WriteAll(d, init), last);
      DropOneMore(Window(d), init, last);
      assert bytes == init + [last];
    }
  }

  /** Going on from a remainder: y is one more than x, and r is what x leaves. */
  lemma NextPosition(x: nat, y: nat, r: nat, n: nat)
    requires n > 0 && y == x + 1 && r == x % n
    ensures (r + 1) % n == y % n
  {
    Wrap(r + 1, n);
    if r + 1 < n {
      WrapUnique(y, n, x / n, r + 1);
    } else {
      WrapUnique(y, n, x / n + 1, 0);
    }
  }

  /** k steps around a ring of n cells, one at a time. */
  function Around(p: nat, k: nat, n: nat): nat
    requires n > 0
  {
    if k == 0 then p else (Around(p, k - 1, n) + 1) % n
  }

  lemma {:induction false} AroundIsModulo(p: nat, k: nat, n: nat)
    requires p < n
    ensures Around(p, k, n) == (p + k) % n
  {
    if k == 0 {
      Wrap(p, n);
    } else {
      AroundIsModulo(p, k - 1, n);
      NextPosition(p + (k - 1), p + k, Around(p, k - 1, n), n);
    }
  }

  lemma {:induction false} WriteGoesAround(d: Device, bytes: seq<Byte>)
    requires Valid(d)
    ensures WriteAll(d, bytes).position == Around(d.position, |bytes|, |d.cells| - 1)
    decreases |bytes|
  {
    if bytes == [] {
    } else {
      WriteGoesAround(d, bytes[..|bytes| - 1]);
    }
  }

  /** And the position has moved on by as many cells, around the ring. */
  lemma {:induction false} WriteMovesPosition(d: Device, bytes: seq<Byte>)
    requires Valid(d)
    ensures WriteAll(d, bytes).position == (d.position + |bytes|) % (|d.cells| - 1)
  {
    WriteGoesAround(d, bytes);
    AroundIsModulo(d.position, |bytes|, |d.cells| - 1);
  }

  /** Two writes are one write of the two inputs after each other. */
  lemma {:induction false} WritesConcatenate(d: Device, a: seq<Byte>, b: seq<Byte>)
    requires Valid(d)
    ensures WriteAll(WriteAll(d, a), b) == WriteAll(d, a + b)
    decreases |b|
  {
    if b == [] {
      assert a + b == a;
    } else {
      assert (a + b)[..|a + b| - 1] == a + b[..|b| - 1];
      WritesConcatenate(d, a, b[..|b| - 1]);
    }
  }

  // ---------- What resizing amounts to ----------

  /** Every cell that fits keeps its byte, but for the new last one; the position is reduced to fit. */
  lemma ResizeKeepsCells(d: Device, size: nat, garbage: seq<Byte>)
    requires Valid(d) && size >= 2 && |garbage| == size
    ensures var r := Resize(d, size, garbage);
            && (forall k :: 0 <= k < Min(size - 1, |d.cells|) ==> r.cells[k] == d.cells[k])
            && (forall k :: |d.cells| <= k < size - 1 ==> r.cells[k] == garbage[k])
            && r.cells[size - 1] == NUL
            && r.position == d.position % (size - 1)
  {
  }

  /** A resize to the size it has changes nothing. */
  lemma ResizeToSameSize(d: Device, garbage: seq<Byte>)
    requires Valid(d) && |garbage| == |d.cells|
    ensures Resize(d, |d.cells|, garbage) == d
  {
    Wrap(d.position, |d.cells| - 1);
    assert d.cells[..|d.cells|] + garbage[|d.cells|..] == d.cells;
    assert d.cells[|d.cells| - 1 := NUL] == d.cells;
  }

  // ---------- Sequences of writes and resizes ----------

  datatype Command = Write(bytes: seq<Byte>) | SetSize(size: nat, garbage: seq<Byte>)

  ghost predicate Legal(c: Command) {
    c.SetSize? ==> c.size >= 2 && |c.garbage| == c.size
  }

  function Execute(d: Device, commands: seq<Command>): (r: Device)
    requires Valid(d) && forall k :: 0 <= k < |commands| ==> Legal(commands[k])
    ensures Valid(r)
    decreases |commands|
  {
    if commands == [] then d else
      var d' := Execute(d, commands[..|commands| - 1]);
      assert Legal(commands[|commands| - 1]);
      match commands[|commands| - 1]
      case Write(bytes) => WriteAll(d', bytes)
      case SetSize(size, garbage) => Resize(d', size, garbage)
  }

  /** What has been written since the last resize, or from the start. */
  function WrittenSince(commands: seq<Command>): seq<Byte>
    decreases |commands|
  {
    if commands == [] then [] else
      match commands[|commands| - 1]
      case Write(bytes) => WrittenSince(commands[..|commands| - 1]) + bytes
      case SetSize(_, _) => []
  }

  /** The last n elements of v and more: those of v's last n and more. */
  lemma Suffix<T>(v: seq<T>, bytes: seq<T>, n: nat)
    requires n <= |v|
    ensures (v[|v| - n..] + bytes)[|bytes|..] == (v + bytes)[|v + bytes| - n..]
  {
    var cut := |v| - n;
    assert v == v[..cut] + v[cut..];
    assert v + bytes == v[..cut] + (v[cut..] + bytes);
    assert (v + bytes)[cut + |bytes|..] == (v[cut..] + bytes)[|bytes|..];
  }

  lemma TailOfLonger<T>(w: seq<T>, older: seq<T>, since: seq<T>, more: seq<T>)
    requires w == (older + since)[|since|..]
    ensures (w + more)[|more|..] == (older + (since + more))[|since + more|..]
  {
    Suffix(older + since, more, |older|);
    assert older + since + more == older + (since + more);
  }

  /** After any commands the window is the tail of some older window followed by what has been written since. */
  lemma {:induction false} WindowSinceResize(d: Device, commands: seq<Command>) returns (older: seq<Byte>)
    requires Valid(d) && forall k :: 0 <= k < |commands| ==> Legal(commands[k])
    ensures var e, since := Execute(d, commands), WrittenSince(commands);
            && |older| == |e.cells| - 1
            && Window(e) == (older + since)[|since|..]
    decreases |commands|
  {
    if commands == [] {
      older := Window(d);
    } else {
      var before := commands[..|commands| - 1];
      var d' := Execute(d, before);
      match commands[|commands| - 1]
      case SetSize(size, garbage) =>
        older := Window(Resize(d', size, garbage));
      case Write(bytes) =>
        older := WindowSinceResize(d, before);
        WriteMovesWindow(d', older, WrittenSince(before), bytes);
    }
  }

  lemma {:induction false} WriteMovesWindow(d: Device, older: seq<Byte>, since: seq<Byte>, bytes: seq<Byte>)
    requires Valid(d) && |older| == |d.cells| - 1 && Window(d) == (older + since)[|since|..]
    ensures Window(WriteAll(d, bytes)) == (older + (since + bytes))[|since + bytes|..]
  {
    WriteIsWindow(d, bytes);
    TailOfLonger(Window(d), older, since, bytes);
  }

  /**
   Once at least buff_size - 1 bytes have been written after the last resize, the window is exactly the last
   buff_size - 1 bytes written, whatever came before.
   */
  lemma {:induction false} WindowIsLastBytes(d: Device, commands: seq<Command>)
    requires Valid(d) && forall k :: 0 <= k < |commands| ==> Legal(commands[k])
    requires |WrittenSince(commands)| >= |Execute(d, commands).cells| - 1
    ensures var e, since := Execute(d, commands), WrittenSince(commands);
            Window(e) == since[|since| - (|e.cells| - 1)..]
  {
    var older := WindowSinceResize(d, commands);
    var since := WrittenSince(commands);
    assert (older + since)[|since|..] == since[|since| - |older|..];
  }

  // ---------- What a read returns ----------

  /** n is what strlen returns. */
  ghost predicate IsLength(cells: seq<Byte>, n: nat) {
    n < |cells| && cells[n] == NUL && forall k :: 0 <= k < n ==> cells[k] != NUL
  }

  function Length(cells: seq<Byte>): (n: nat)
    requires NUL in cells
    ensures IsLength(cells, n)
  {
    if cells[0] == NUL then 0 else Length(cells[1..]) + 1
  }

  /** What circular_read copies when nothing goes wrong, and where it leaves the cursor. */
  function StringRead(d: Device, fPos: nat): (r: (seq<Byte>, nat))
    requires Valid(d)
  {
    var n := Length(d.cells);
    if fPos >= n then ([], fPos) else (d.cells[..n], fPos + n)
  }

  lemma CellInWindow(d: Device, n: nat)
    requires Valid(d) && n < |d.cells| - 1
    ensures d.cells[n] in Window(d)
  {
    var at := if n < d.position then |d.cells| - 1 - d.position + n else n - d.position;
    assert Window(d)[at] == d.cells[n];
  }

  /** If the window holds no NUL, a read returns all of it, turned so that it begins at the first cell. */
  lemma ReadIsRotatedWindow(d: Device)
    requires Valid(d) && NUL !in Window(d)
    ensures var turn := |Window(d)| - d.position;
            StringRead(d, 0).0 == Window(d)[turn..] + Window(d)[..turn]
    ensures Length(d.cells) == |Window(d)|
  {
    var n, last := Length(d.cells), |d.cells| - 1;
    if n < last {
      CellInWindow(d, n);
    }
    Slices(d.cells, 0, d.position, last);
  }

  /** A read from before the end of the string takes all of it and leaves the cursor where the next finds nothing. */
  lemma ReadThenNothing(d: Device, fPos: nat)
    requires Valid(d)
    ensures var (bytes, newPos) := StringRead(d, fPos);
            && newPos == fPos + |bytes|
            && bytes <= d.cells && NUL !in bytes
            && (bytes == [] ==> fPos >= Length(d.cells))
            && (bytes != [] ==> fPos < |bytes| && d.cells[|bytes|] == NUL)
            && StringRead(d, newPos) == ([], newPos)
  {
  }

  lemma {:induction false} LengthIsUnique(cells: seq<Byte>, n: nat)
    requires NUL in cells && IsLength(cells, n)
    ensures Length(cells) == n
  {
  }

  /** After a resize a read at 0 gives what there was, or as much of it as fits. */
  lemma ReadAfterResize(d: Device, size: nat, garbage: seq<Byte>)
    requires Valid(d) && size >= 2 && |garbage| == size
    ensures var n := Min(Length(d.cells), size - 1);
            StringRead(Resize(d, size, garbage), 0) == (d.cells[..n], n)
  {
    var r, n := Resize(d, size, garbage), Min(Length(d.cells), size - 1);
    ResizeKeepsCells(d, size, garbage);
    assert IsLength(r.cells, n);
    LengthIsUnique(r.cells, n);
    assert r.cells[..n] == d.cells[..n];
  }

  /** Writing from cell 0 on, as long as it does not go around, fills the cells in order. */
  lemma {:induction false} WriteFillsCells(d: Device, bytes: seq<Byte>)
    requires Valid(d) && d.position == 0 && |bytes| < |d.cells|
    ensures WriteAll(d, bytes).cells == bytes + d.cells[|bytes|..]
    ensures |bytes| < |d.cells| - 1 ==> WriteAll(d, bytes).position == |bytes|
    decreases |bytes|
  {
    if bytes == [] {
    } else {
      var k := |bytes| - 1;
      var init := WriteAll(d, bytes[..k]);
      WriteFillsCells(d, bytes[..k]);
      Wrap(k + 1, |d.cells| - 1);
      assert init.cells[k := bytes[k]] == bytes + d.cells[|bytes|..];
    }
  }

  /** What is written to a freshly loaded driver, as long as it fits, is exactly what a read at 0 gives. */
  lemma {:induction false} WriteThenRead(bytes: seq<Byte>)
    requires |bytes| <= 9 && NUL !in bytes
    ensures StringRead(WriteAll(Loaded(), bytes), 0) == (bytes, |bytes|)
  {
    var cells := WriteAll(Loaded(), bytes).cells;
    WriteFillsCells(Loaded(), bytes);
    assert IsLength(cells, |bytes|);
    LengthIsUnique(cells, |bytes|);
    assert cells[..|bytes|] == bytes;
  }

  // ---------- The count that a read ignores ----------

  /**
   A read stays within the count it is asked for exactly if the cursor is at or beyond the end of the string or the
   whole string is no longer than that.
   */
  lemma StaysWithinCount(d: Device, fPos: nat, count: nat)
    requires Valid(d)
    ensures |StringRead(d, fPos).0| <= count <==> fPos >= Length(d.cells) || Length(d.cells) <= count
  {
  }

  /**
   So once the ring has been filled with bytes other than NUL since the last resize, a read at 0 copies more than it
   is asked for exactly if it is asked for less than the whole ring.
   */
  lemma {:induction false} FullRingOverruns(d: Device, commands: seq<Command>, count: nat)
    requires Valid(d) && forall k :: 0 <= k < |commands| ==> Legal(commands[k])
    requires |WrittenSince(commands)| >= |Execute(d, commands).cells| - 1 && NUL !in WrittenSince(commands)
    ensures var e := Execute(d, commands); |StringRead(e, 0).0| > count <==> count < |e.cells| - 1
  {
    WindowIsLastBytes(d, commands);
    ReadIsRotatedWindow(Execute(d, commands));
  }

  /** The driver as it is loaded, after a write of two bytes: a read of one byte copies both. */
  lemma TwoBytesForOne(a: Byte, b: Byte)
    requires a != NUL && b != NUL
    ensures var d := WriteAll(Loaded(), [a, b]);
            StringRead(d, 0).0 == [a, b] && |StringRead(d, 0).0| > 1
  {
    WriteThenRead([a, b]);
  }

  // ---------- The driver ----------

  /** How many bytes a write copies: all of them, or those before the first that cannot be copied. */
  function CopiedBefore(fault: nat -> bool, i: nat, count: nat): (n: nat)
    requires i <= count
    ensures i <= n <= count && (forall k :: i <= k < n ==> !fault(k)) && (n < count ==> fault(n))
    decreases count - i
  {
    if i == count || fault(i) then i else CopiedBefore(fault, i + 1, count)
  }

  class Driver {
    var buffSize: nat
    var currPosition: nat
    var buffer: array<Byte>

    ghost function View(): Device
      reads this, buffer
    {
      Device(buffer[..], currPosition)
    }

    ghost predicate Consistent()
      reads this, buffer
    {
      buffSize == buffer.Length && Valid(View())
    }

    /** circular_init */
    constructor ()
      ensures Consistent() && fresh(buffer)
      ensures View() == Loaded()
      ensures buffer.Length == 10 && currPosition == 0 && forall k :: 0 <= k < 10 ==> buffer[k] == NUL
    {
      buffSize, currPosition := 10, 0;
      buffer := new Byte[10];
      new;
      for i := 0 to buffSize
        invariant fresh(buffer) && buffer.Length == buffSize == 10 && currPosition == 0
        invariant forall k :: 0 <= k < i ==> buffer[k] == NUL
      {
        buffer[i] := NUL;
      }
    }

    /** One round of circular_write's loop, once the byte is there. */
    method PutByte(b: Byte)
      requires Consistent()
      modifies this, buffer
      ensures Consistent() && buffer == old(buffer) && View() == WriteByte(old(View()), b)
    {
      WriteByteShifts(View(), b);
      buffer[currPosition] := b;
      currPosition := currPosition + 1;
      currPosition := currPosition % (buffSize - 1);
    }

    /** circular_write; `fault(i)` tells whether byte i cannot be copied from the user. */
    method Write(user: seq<Byte>, fault: nat -> bool) returns (result: int)
      requires Consistent()
      modifies this, buffer
      ensures Consistent() && buffer == old(buffer)
      ensures var n := CopiedBefore(fault, 0, |user|);
              && View() == WriteAll(old(View()), user[..n])
              && result == (if n < |user| then -EFAULT else |user|)
    {
      ghost var start := View();
      assert user[..0] == [];
      for i := 0 to |user|
        invariant Consistent() && buffer == old(buffer) && buffSize == old(buffSize)
        invariant View() == WriteAll(start, user[..i])
        invariant CopiedBefore(fault, i, |user|) == CopiedBefore(fault, 0, |user|)
      {
        if fault(i) {
          return -EFAULT;
        }
        WriteOneMore(start, user, i);
        PutByte(user[i]);
      }
      assert user[..|user|] == user;
      return |user|;
    }

    /** The loop of circular_proc_write that copies the cells that fit. */
    method CopyCells(newBuffer: array<Byte>)
      requires Consistent() && newBuffer != buffer
      modifies newBuffer
      ensures var kept := Min(newBuffer.Length, buffSize);
              newBuffer[..] == buffer[..kept] + old(newBuffer[..])[kept..]
    {
      ghost var garbage := newBuffer[..];
      var i := 0;
      while i < newBuffer.Length && i < buffSize
        invariant i <= Min(newBuffer.Length, buffSize)
        invariant forall k :: 0 <= k < i ==> newBuffer[k] == buffer[k]
        invariant forall k :: i <= k < newBuffer.Length ==> newBuffer[k] == garbage[k]
      {
        newBuffer[i] := buffer[i];
        i := i + 1;
      }
      assert newBuffer[..] == buffer[..i] + garbage[i..];
    }

    /** circular_proc_write, once it has parsed the new size and allocated the new array. */
    method SetSize(value: nat, newBuffer: array<Byte>)
      requires Consistent() && value >= 2 && newBuffer.Length == value && newBuffer != buffer
      modifies this, newBuffer
      ensures Consistent() && buffer == newBuffer
      ensures View() == Resize(old(View()), value, old(newBuffer[..]))
      ensures currPosition == old(currPosition) % (value - 1)
      ensures Length(buffer[..]) == Min(Length(old(buffer[..])), value - 1)
    {
      ghost var before, garbage := View(), newBuffer[..];
      ReadAfterResize(before, value, garbage);
      CopyCells(newBuffer);
      ghost var kept := newBuffer[..];
      buffSize := value;
      buffer := newBuffer;
      currPosition := currPosition % (buffSize - 1);
      buffer[buffSize - 1] := NUL;
      assert buffer[..] == kept[buffSize - 1 := NUL];
      assert View() == Resize(before, value, garbage);
    }

    /** strlen, which the sentinel keeps inside the array. */
    method Strlen() returns (n: nat)
      requires Consistent()
      ensures n == Length(buffer[..]) < buffSize && IsLength(buffer[..], n)
    {
      n := 0;
      while buffer[n] != NUL
        invariant n < buffSize && forall k :: 0 <= k < n ==> buffer[k] != NUL
        decreases buffSize - n
      {
        n := n + 1;
      }
    }

    /** circular_read; `fault` tells whether the copy to the user fails. It makes no use of `count`. */
    method Read(fPos: nat, count: nat, fault: bool) returns (ok: bool, bytes: seq<Byte>, newPos: nat)
      requires Consistent()
      ensures ok <==> fPos >= Length(buffer[..]) || !fault
      ensures ok ==> (bytes, newPos) == StringRead(View(), fPos)
      ensures newPos == fPos + |bytes|
      ensures if ok && fPos < Length(buffer[..]) then bytes == buffer[..Length(buffer[..])] else bytes == []
      ensures ok ==> StringRead(View(), newPos) == ([], newPos)
      ensures ok ==> (|bytes| <= count <==> fPos >= Length(buffer[..]) || Length(buffer[..]) <= count)
    {
      var toCopy := Strlen();
      if fPos >= toCopy {
        return true, [], fPos;
      }
      if fault {
        return false, [], fPos;
      }
      return true, buffer[..toCopy], fPos + toCopy;
    }
  }
}
