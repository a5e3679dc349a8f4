/** The byte buffers of src/buffer.rs: an array with a read and a write
    position, and the cell that lends a buffer to one borrower at a time. */
module StackBuffers {
  import opened Mqtt

  /** What a buffer holds: `start` bytes that are read already, then `bytes`,
      then room for the next write. */
  datatype Fifo = Fifo(cap: nat, start: nat, bytes: seq<Byte>)
  {
    function Room(): int { cap - start - |bytes| }

    /** Compaction moves the unread bytes to the front. */
    function Flipped(): Fifo { this.(start := 0) }

    /** Asking for room compacts only when the write position is at the end. */
    function Opened(): Fifo { if Room() == 0 then Flipped() else this }

    function Appended(more: seq<Byte>): Fifo { this.(bytes := bytes + more) }

    function Consumed(n: nat): Fifo
      requires n <= |bytes|
    {
      this.(start := start + n, bytes := bytes[n..])
    }
  }

  /** Rotates an array in place: element `k` becomes the first one. */
  method RotateLeft(a: array<Byte>, k: nat)
    requires k <= a.Length
    modifies a
    ensures a[..] == old(a[k..]) + old(a[..k])
  {
    var rotated := a[k..] + a[..k];
    forall i | 0 <= i < a.Length {
      a[i] := rotated[i];
    }
    assert a[..] == rotated;
  }

  class StackBuffer {
    const data: array<Byte>
    var readPosition: nat
    var writePosition: nat

    ghost predicate Valid()
      reads this
    {
      readPosition <= writePosition <= data.Length
    }

    ghost function View(): (f: Fifo)
      reads this, data
      requires Valid()
      ensures f.cap == data.Length && f.start == readPosition && f.start + |f.bytes| == writePosition
      ensures f.Room() >= 0
    {
      Fifo(data.Length, readPosition, data[readPosition..writePosition])
    }

    constructor (n: nat)
      ensures Valid() && fresh(data) && View() == Fifo(n, 0, [])
    {
      data := new Byte[n](_ => 0);
      readPosition, writePosition := 0, 0;
    }

    method Snapshot() returns (f: Fifo)
      requires Valid()
      ensures f == View()
    {
      f := Fifo(data.Length, readPosition, data[readPosition..writePosition]);
    }

    method ReadableData() returns (s: seq<Byte>)
      requires Valid()
      ensures s == View().bytes
    {
      s := data[readPosition..writePosition];
    }

    /** The writeable slice starts at the returned index and runs to the end of
        the array. */
    method WriteableData() returns (start: nat)
      requires Valid()
      modifies this, data
      ensures Valid() && View() == old(View()).Opened()
      ensures View().bytes == old(View()).bytes
      ensures old(writePosition) < data.Length ==>
        readPosition == old(readPosition) && writePosition == old(writePosition) && data[..] == old(data[..])
      ensures old(writePosition) == data.Length ==> readPosition == 0
      ensures start == writePosition && data.Length - start == View().Room()
    {
      if writePosition == data.Length {
        Flip();
      }
      start := writePosition;
    }

    /** Somebody fills the front of the writeable slice. */
    method Fill(more: seq<Byte>)
      requires Valid() && |more| <= View().Room()
      modifies data
      ensures Valid() && View() == old(View())
      ensures data[writePosition..writePosition + |more|] == more
    {
      forall i | 0 <= i < |more| {
        data[writePosition + i] := more[i];
      }
      assert forall i :: readPosition <= i < writePosition ==> data[i] == old(data[i]);
    }

    method AddBytesRead(n: nat) returns (ok: bool)
      requires Valid()
      modifies this`readPosition
      ensures ok == (n <= |old(View()).bytes|)
      ensures Valid() && View() == if ok then old(View()).Consumed(n) else old(View())
    {
      if readPosition + n > writePosition {
        ok := false;
      } else {
        readPosition := readPosition + n;
        ok := true;
      }
    }

    /** Turns what was filled in into readable bytes. */
    method CommitBytesWritten(n: nat) returns (ok: bool)
      requires Valid()
      modifies this`writePosition
      ensures ok == (n <= old(View()).Room())
      ensures Valid()
      ensures View() == if ok then old(View()).Appended(data[old(writePosition)..old(writePosition) + n]) else old(View())
    {
      if writePosition + n > data.Length {
        ok := false;
      } else {
        assert data[readPosition..writePosition + n]
            == data[readPosition..writePosition] + data[writePosition..writePosition + n];
        writePosition := writePosition + n;
        ok := true;
      }
    }

    /** Fills the front of the writeable slice and commits it. */
    method Append(more: seq<Byte>)
      requires Valid() && |more| <= View().Room()
      modifies data, this`writePosition
      ensures Valid() && View() == old(View()).Appended(more)
    {
      Fill(more);
      var ok := CommitBytesWritten(|more|);
      assert ok;
    }

    method Flip()
      requires Valid()
      modifies this, data
      ensures Valid() && View() == old(View()).Flipped()
    {
      if readPosition > 0 {
        ghost var before := data[readPosition..writePosition];
        RotateLeft(data, readPosition);
        writePosition := writePosition - readPosition;
        readPosition := 0;
        assert data[..writePosition] == before;
      }
    }

    /** Appends exactly when the unread bytes and the new ones fit together. */
    method Push(more: seq<Byte>) returns (ok: bool)
      requires Valid()
      modifies this, data
      ensures ok == (|old(View()).bytes| + |more| <= data.Length)
      ensures Valid()
      ensures View().bytes == if ok then old(View()).bytes + more else old(View()).bytes
    {
      Flip();
      var start := WriteableData();
      if data.Length - start >= |more| {
        Append(more);
        ok := true;
      } else {
        ok := false;
      }
    }

    method IsMaxCapacity() returns (yes: bool)
      requires Valid()
      ensures yes == (View().Room() == data.Length)
    {
      yes := writePosition == 0;
    }

    method IsMaxLen() returns (yes: bool)
      requires Valid()
      ensures yes == (|View().bytes| == data.Length)
    {
      yes := readPosition == 0 && writePosition == data.Length;
    }

    method HasRemainingLen() returns (yes: bool)
      requires Valid()
      ensures yes == (View().bytes != [])
    {
      yes := readPosition < writePosition;
    }

    method Reset()
      modifies this
      ensures Valid() && View() == Fifo(data.Length, 0, [])
    {
      writePosition := 0;
      readPosition := 0;
    }
  }

  /** Lends its buffer to one borrower at a time. */
  class StackBufferCell {
    const buffer: StackBuffer
    var borrows: nat

    constructor (n: nat)
      ensures borrows == 0 && fresh(buffer) && fresh(buffer.data)
      ensures buffer.Valid() && buffer.View() == Fifo(n, 0, [])
    {
      buffer := new StackBuffer(n);
      borrows := 0;
    }

    /** Panics while the buffer is lent. */
    method Borrow() returns (r: Outcome<()>)
      modifies this
      ensures r == if old(borrows) > 0 then Panic else Ok(())
      ensures borrows == if r.Ok? then old(borrows) + 1 else old(borrows)
    {
      if borrows > 0 {
        return Panic;
      }
      borrows := borrows + 1;
      r := Ok(());
    }

    method Release()
      requires borrows == 1
      modifies this
      ensures borrows == 0
    {
      borrows := borrows - 1;
    }

    /** Drops a value that was parsed out of the first `bytesRead` bytes. */
    method DropMapped(bytesRead: nat)
      requires borrows == 1 && buffer.Valid() && bytesRead <= |buffer.View().bytes|
      modifies this, buffer
      ensures borrows == 0 && buffer.Valid() && buffer.View() == old(buffer.View()).Consumed(bytesRead)
    {
      var ok := buffer.AddBytesRead(bytesRead);
      assert ok;
      borrows := borrows - 1;
    }
  }
}
