/** The journal file as the program runs it, with its buffer updated in place. */
module DemoFile {
  import opened Journal

  class File {
    var disk: seq<Byte>            // the file behind the descriptor
    const bufferSize: nat
    const aBuffer: array?<Byte>    // null for files that are not journals
    var nBuffer: nat
    var iBufferOfst: nat
    ghost var io: seq<Io>          // the direct writes made so far

    ghost predicate Valid()
      reads this
    {
      0 < bufferSize && if aBuffer == null then nBuffer == 0 else aBuffer.Length == bufferSize && nBuffer <= bufferSize
    }

    ghost function Abs(): Buffered
      requires Valid()
      reads this, aBuffer
    {
      Buffered(bufferSize, disk, if aBuffer == null then [] else aBuffer[..nBuffer], iBufferOfst, io)
    }

    constructor (contents: seq<Byte>, journal: bool, size: nat := BUFFER_SIZE)
      requires size > 0
      ensures Valid() && (journal <==> aBuffer != null) && (aBuffer != null ==> fresh(aBuffer))
      ensures Abs() == Buffered(size, contents, [], 0, [])
    {
      disk, nBuffer, iBufferOfst, io, bufferSize := contents, 0, 0, [], size;
      if journal {
        aBuffer := new Byte[size](_ => 0);
      } else {
        aBuffer := null;
      }
    }

    method DirectWrite(data: seq<Byte>, ofst: nat)
      modifies this`disk, this`io
      ensures disk == WriteAt(old(disk), data, ofst) && io == old(io) + [Io(ofst, |data|)]
    {
      disk := WriteAt(disk, data, ofst);
      io := io + [Io(ofst, |data|)];
    }

    method FlushBuffer()
      requires Valid()
      modifies this`disk, this`io, this`nBuffer
      ensures Valid() && Abs() == Flush(old(Abs())) && nBuffer == 0
    {
      if nBuffer > 0 {
        DirectWrite(aBuffer[..nBuffer], iBufferOfst);
        nBuffer := 0;
      }
    }

    /** Writes of a journal go through the buffer, all others straight to the file. */
    method Write(data: seq<Byte>, ofst: nat)
      requires Valid()
      modifies this`disk, this`io, this`nBuffer, this`iBufferOfst, aBuffer
      ensures Valid()
      ensures View(Abs()) == WriteAt(View(old(Abs())), data, ofst)
      ensures aBuffer != null ==> Abs() == Journal.Write(old(Abs()), data, ofst)
      ensures aBuffer == null ==> disk == WriteAt(old(disk), data, ofst)
    {
      WriteRefines(Abs(), data, ofst);
      if aBuffer == null {
        DirectWrite(data, ofst);
        return;
      }
      CopyAll(data, ofst);
    }

    /** The loop of a journal write. */
    method CopyAll(data: seq<Byte>, ofst: nat)
      requires Valid() && aBuffer != null
      modifies this`disk, this`io, this`nBuffer, this`iBufferOfst, aBuffer
      ensures Valid() && Abs() == Journal.Write(old(Abs()), data, ofst)
    {
      var n, i := 0, ofst;  // bytes written, and where the next one goes
      while n < |data|
        invariant Valid() && 0 <= n <= |data| && i == ofst + n
        invariant Journal.Write(Abs(), data[n..], i) == Journal.Write(old(Abs()), data, ofst)
      {
        var nCopy := CopyRound(data[n..], i);
        assert data[n..][nCopy..] == data[n + nCopy..];
        n, i := n + nCopy, i + nCopy;
      }
      assert data[n..] == [];
    }

    /** One round of the write loop. */
    method CopyRound(z: seq<Byte>, i: nat) returns (nCopy: nat)
      requires Valid() && aBuffer != null && z != []
      modifies this`disk, this`io, this`nBuffer, this`iBufferOfst, aBuffer
      ensures Valid() && nCopy == Room(old(Abs()), z, i) && Abs() == CopyIn(old(Abs()), z, i)
    {
      if nBuffer == bufferSize || iBufferOfst + nBuffer != i {
        FlushBuffer();
      }
      iBufferOfst := i - nBuffer;
      nCopy := bufferSize - nBuffer;
      if nCopy > |z| {
        nCopy := |z|;
      }
      CopyBytes(z, nCopy);
      nBuffer := nBuffer + nCopy;
    }

    /** Append the first bytes of `z` to the buffered ones. */
    method CopyBytes(z: seq<Byte>, nCopy: nat)
      requires Valid() && aBuffer != null && nCopy <= |z| && nBuffer + nCopy <= bufferSize
      modifies aBuffer
      ensures aBuffer[..nBuffer + nCopy] == old(aBuffer[..nBuffer]) + z[..nCopy]
    {
      forall k | 0 <= k < nCopy {
        aBuffer[nBuffer + k] := z[k];
      }
    }

    method Read(amt: nat, ofst: nat) returns (a: Answer)
      requires Valid()
      modifies this`disk, this`io, this`nBuffer
      ensures Valid() && Abs() == Flush(old(Abs())) && a == ReadAt(View(old(Abs())), amt, ofst)
    {
      FlushKeepsView(Abs());
      FlushBuffer();
      if ofst + amt <= |disk| {
        return Data(disk[ofst..ofst + amt], false);
      }
      var got := if ofst <= |disk| then disk[ofst..] else [];
      a := Data(got + Zeros(amt - |got|), true);
    }

    method FileSize() returns (n: nat)
      requires Valid()
      modifies this`disk, this`io, this`nBuffer
      ensures Valid() && Abs() == Flush(old(Abs())) && n == |View(old(Abs()))|
    {
      FlushKeepsView(Abs());
      FlushBuffer();
      n := |disk|;
    }

    /** Sync and close both leave on disk everything written so far. */
    method Sync()
      requires Valid()
      modifies this`disk, this`io, this`nBuffer
      ensures Valid() && Abs() == Flush(old(Abs())) && disk == View(old(Abs()))
    {
      FlushKeepsView(Abs());
      FlushBuffer();
    }
  }
}
