/** The journal write buffer: a file that collects sequential writes and flushes them in blocks,
    against a file that is written directly. */
module Journal {
  import opened Common

  type Byte = bv8

  /** The size of the write buffer, unless the build sets another. */
  const BUFFER_SIZE: nat := 8192

  /** One direct write to the file. */
  datatype Io = Io(ofst: nat, len: nat)

  /** The size of the buffer, the file on disk, the bytes buffered for it and where they go, and the
      direct writes made. */
  datatype Buffered = Buffered(cap: nat, disk: seq<Byte>, buf: seq<Byte>, ofst: nat, log: seq<Io>)

  predicate Fits(j: Buffered) {
    0 < j.cap && |j.buf| <= j.cap
  }

  // ---------- a plain file ----------

  function Zeros(n: nat): (z: seq<Byte>)
    ensures |z| == n && forall i :: 0 <= i < n ==> z[i] == 0
  {
    seq(n, _ => 0)
  }

  /** Byte `i` of a file after `data` was written to it at `o`; holes read as zero. */
  function ByteAt(d: seq<Byte>, data: seq<Byte>, o: nat, i: nat): Byte {
    if o <= i < o + |data| then data[i - o] else if i < |d| then d[i] else 0
  }

  /** Seek and write. */
  function WriteAt(d: seq<Byte>, data: seq<Byte>, o: nat): (r: seq<Byte>)
    ensures data == [] ==> r == d
    ensures data != [] ==> |r| == if |d| <= o + |data| then o + |data| else |d|
    ensures forall i :: 0 <= i < |r| ==> r[i] == ByteAt(d, data, o, i)
  {
    if data == [] then d
    else seq(if |d| <= o + |data| then o + |data| else |d|, i requires 0 <= i => ByteAt(d, data, o, i))
  }

  datatype Answer = Data(bytes: seq<Byte>, short: bool) | Size(n: nat) | Done

  /** Seek and read: a short read is filled up with zeros and reported. */
  function ReadAt(d: seq<Byte>, amt: nat, o: nat): Answer {
    if o + amt <= |d| then Data(d[o..o + amt], false)
    else
      var got := if o <= |d| then d[o..] else [];
      Data(got + Zeros(amt - |got|), true)
  }

  /** Writing two adjacent pieces is writing them as one. */
  lemma WriteAdjacent(d: seq<Byte>, a: seq<Byte>, b: seq<Byte>, o: nat, p: nat)
    requires p == o + |a|
    ensures WriteAt(WriteAt(d, a, o), b, p) == WriteAt(d, a + b, o)
  {
    if a == [] {
      NothingFirst(d, b, o, p);
    } else if b == [] {
      NothingLast(d, a, o, p);
    } else {
      BothWritten(d, a, b, o, p);
    }
  }

  lemma NothingFirst(d: seq<Byte>, b: seq<Byte>, o: nat, p: nat)
    requires p == o
    ensures WriteAt(WriteAt(d, [], o), b, p) == WriteAt(d, [] + b, o)
  {
    assert [] + b == b;
  }

  lemma NothingLast(d: seq<Byte>, a: seq<Byte>, o: nat, p: nat)
    ensures WriteAt(WriteAt(d, a, o), [], p) == WriteAt(d, a + [], o)
  {
    assert a + [] == a;
  }

  lemma BothWritten(d: seq<Byte>, a: seq<Byte>, b: seq<Byte>, o: nat, p: nat)
    requires p == o + |a| && a != [] && b != []
    ensures WriteAt(WriteAt(d, a, o), b, p) == WriteAt(d, a + b, o)
  {
    var w := WriteAt(d, a, o);
    AdjacentLength(d, a, b, o, p);
    forall i: nat | i < |WriteAt(d, a + b, o)| ensures WriteAt(w, b, p)[i] == WriteAt(d, a + b, o)[i] {
      AdjacentByte(d, a, b, o, p, w, i);
    }
    SameBytes(WriteAt(w, b, p), WriteAt(d, a + b, o));
  }

  lemma AdjacentLength(d: seq<Byte>, a: seq<Byte>, b: seq<Byte>, o: nat, p: nat)
    requires p == o + |a| && a != [] && b != []
    ensures |WriteAt(WriteAt(d, a, o), b, p)| == |WriteAt(d, a + b, o)|
  {
  }

  lemma AdjacentByte(d: seq<Byte>, a: seq<Byte>, b: seq<Byte>, o: nat, p: nat, w: seq<Byte>, i: nat)
    requires p == o + |a| && |w| >= p && |w| >= |d| && (|w| == p || |w| == |d|)
    requires forall k: nat :: k < |w| ==> w[k] == ByteAt(d, a, o, k)
    ensures ByteAt(w, b, p, i) == ByteAt(d, a + b, o, i)
  {
  }

  lemma SameBytes(x: seq<Byte>, y: seq<Byte>)
    requires |x| == |y| && forall i :: 0 <= i < |x| ==> x[i] == y[i]
    ensures x == y
  {
  }

  // ---------- the buffer ----------

  /** What the file would hold if nothing were buffered. */
  function View(j: Buffered): seq<Byte> {
    WriteAt(j.disk, j.buf, j.ofst)
  }

  function Flush(j: Buffered): Buffered {
    if j.buf == [] then j
    else Buffered(j.cap, WriteAt(j.disk, j.buf, j.ofst), [], j.ofst, j.log + [Io(j.ofst, |j.buf|)])
  }

  /** Flush first if the buffer is full or the data does not follow what is in it. */
  function MakeRoom(j: Buffered, i: nat): Buffered {
    if |j.buf| == j.cap || j.ofst + |j.buf| != i then Flush(j) else j
  }

  function Room(j: Buffered, data: seq<Byte>, i: nat): (n: nat)
    requires Fits(j)
    ensures n <= |data| && (data != [] ==> n > 0)
  {
    Min(j.cap - |MakeRoom(j, i).buf|, |data|)
  }

  /** One round of the write loop: copy as much as fits. */
  function CopyIn(j: Buffered, data: seq<Byte>, i: nat): (r: Buffered)
    requires Fits(j) && data != []
    ensures Fits(r) && r.cap == j.cap
  {
    var f := MakeRoom(j, i);
    f.(buf := f.buf + data[..Room(j, data, i)], ofst := i - |f.buf|)
  }

  function Write(j: Buffered, data: seq<Byte>, i: nat): (r: Buffered)
    requires Fits(j)
    ensures Fits(r) && r.cap == j.cap
    decreases |data|
  {
    if data == [] then j
    else Write(CopyIn(j, data, i), data[Room(j, data, i)..], i + Room(j, data, i))
  }

  lemma FlushKeepsView(j: Buffered)
    ensures View(Flush(j)) == View(j) && Flush(j).disk == View(j)
  {
  }

  lemma CopyInView(j: Buffered, data: seq<Byte>, i: nat)
    requires Fits(j) && data != []
    ensures View(CopyIn(j, data, i)) == WriteAt(View(j), data[..Room(j, data, i)], i)
  {
    var f := MakeRoom(j, i);
    MakeRoomView(j, i);
    AppendView(f.disk, f.buf, f.ofst, data[..Room(j, data, i)], i);
  }

  lemma MakeRoomView(j: Buffered, i: nat)
    ensures var f := MakeRoom(j, i); View(f) == View(j) && (f.buf == [] || f.ofst + |f.buf| == i)
  {
    FlushKeepsView(j);
  }

  /** Appending to a buffer that is empty or ends at `i` writes at `i`. */
  lemma AppendView(disk: seq<Byte>, buf: seq<Byte>, ofst: nat, piece: seq<Byte>, i: nat)
    requires buf == [] || ofst + |buf| == i
    ensures WriteAt(disk, buf + piece, i - |buf|) == WriteAt(WriteAt(disk, buf, ofst), piece, i)
  {
    if buf == [] {
      AppendFirst(disk, ofst, piece, i);
    } else {
      AppendMore(disk, buf, ofst, i - |buf|, piece, i);
    }
  }

  lemma AppendMore(disk: seq<Byte>, buf: seq<Byte>, ofst: nat, start: nat, piece: seq<Byte>, i: nat)
    requires start == ofst && ofst + |buf| == i
    ensures WriteAt(disk, buf + piece, start) == WriteAt(WriteAt(disk, buf, ofst), piece, i)
  {
    WriteAdjacent(disk, buf, piece, ofst, i);
  }

  lemma AppendFirst(disk: seq<Byte>, ofst: nat, piece: seq<Byte>, i: nat)
    ensures WriteAt(disk, [] + piece, i) == WriteAt(WriteAt(disk, [], ofst), piece, i)
  {
    assert [] + piece == piece && WriteAt(disk, [], ofst) == disk;
  }

  /** A buffered write is a direct write to the view. */
  lemma {:induction false} WriteRefines(j: Buffered, data: seq<Byte>, i: nat)
    requires Fits(j)
    ensures View(Write(j, data, i)) == WriteAt(View(j), data, i)
    decreases |data|
  {
    if data != [] {
      var n := Room(j, data, i);
      CopyInView(j, data, i);
      WriteRefines(CopyIn(j, data, i), data[n..], i + n);
      WriteAdjacent(View(j), data[..n], data[n..], i, i + n);
      assert data[..n] + data[n..] == data;
    }
  }

  // ---------- whole runs ----------

  datatype FileOp = WriteOp(data: seq<Byte>, ofst: nat) | ReadOp(amt: nat, ofst: nat) | SizeOp | SyncOp | CloseOp

  function Buffer(j: Buffered, op: FileOp): (Buffered, Answer)
    requires Fits(j)
  {
    match op
    case WriteOp(data, o) => (Write(j, data, o), Done)
    case ReadOp(amt, o) => (Flush(j), ReadAt(Flush(j).disk, amt, o))
    case SizeOp => (Flush(j), Size(|Flush(j).disk|))
    case SyncOp => (Flush(j), Done)
    case CloseOp => (Flush(j), Done)
  }

  function Direct(d: seq<Byte>, op: FileOp): (seq<Byte>, Answer) {
    match op
    case WriteOp(data, o) => (WriteAt(d, data, o), Done)
    case ReadOp(amt, o) => (d, ReadAt(d, amt, o))
    case SizeOp => (d, Size(|d|))
    case SyncOp => (d, Done)
    case CloseOp => (d, Done)
  }

  function BufferRun(j: Buffered, ops: seq<FileOp>): (r: (Buffered, seq<Answer>))
    requires Fits(j)
    decreases |ops|
  {
    if ops == [] then (j, [])
    else
      var (k, a) := Buffer(j, ops[0]);
      var (l, rest) := BufferRun(k, ops[1..]);
      (l, [a] + rest)
  }

  function DirectRun(d: seq<Byte>, ops: seq<FileOp>): (seq<Byte>, seq<Answer>)
    decreases |ops|
  {
    if ops == [] then (d, [])
    else
      var (e, a) := Direct(d, ops[0]);
      var (f, rest) := DirectRun(e, ops[1..]);
      (f, [a] + rest)
  }

  lemma OpRefines(j: Buffered, op: FileOp)
    requires Fits(j)
    ensures var (k, a) := Buffer(j, op); Fits(k) && k.cap == j.cap && (View(k), a) == Direct(View(j), op)
    ensures !op.WriteOp? ==> Buffer(j, op).0.buf == [] && Buffer(j, op).0.disk == View(j)
  {
    FlushKeepsView(j);
    if op.WriteOp? {
      WriteRefines(j, op.data, op.ofst);
    }
  }

  /** Over every sequence of writes, reads, size queries, syncs and closes, the buffered file
      gives every answer the direct file gives and holds what it holds, with what is still
      buffered laid over the disk; a sync or a close leaves nothing buffered. */
  lemma {:induction false} RunRefines(j: Buffered, ops: seq<FileOp>)
    requires Fits(j)
    ensures var (k, answers) := BufferRun(j, ops);
            Fits(k) && k.cap == j.cap && (View(k), answers) == DirectRun(View(j), ops)
    ensures ops != [] && !ops[|ops| - 1].WriteOp? ==> BufferRun(j, ops).0.disk == DirectRun(View(j), ops).0
    decreases |ops|
  {
    if ops != [] {
      OpRefines(j, ops[0]);
      var k := Buffer(j, ops[0]).0;
      RunRefines(k, ops[1..]);
      if |ops| == 1 {
        assert ops[1..] == [];
      }
    }
  }

  // ---------- coalescing ----------

  function Full(o: nat, q: nat, c: nat): (log: seq<Io>)
    ensures |log| == q && forall k :: 0 <= k < q ==> log[k] == Io(o + k * c, c)
  {
    if q == 0 then [] else Full(o, q - 1, c) + [Io(o + (q - 1) * c, c)]
  }

  /** After `m` sequential bytes from `o`: `q` full blocks are out and the rest is buffered. */
  ghost predicate Collected(j: Buffered, log: seq<Io>, o: nat, m: nat, q: nat) {
    if m == 0 then q == 0 && j.buf == [] && j.log == log
    else
      && 0 < |j.buf| <= j.cap && m == q * j.cap + |j.buf|
      && j.ofst == o + q * j.cap && j.log == log + Full(o, q, j.cap)
  }

  lemma CopyInCollects(j: Buffered, log: seq<Io>, o: nat, m: nat, q: nat, data: seq<Byte>) returns (p: nat)
    requires Collected(j, log, o, m, q) && Fits(j) && data != []
    ensures Collected(CopyIn(j, data, o + m), log, o, m + Room(j, data, o + m), p)
  {
    p := if m > 0 && |j.buf| == j.cap then q + 1 else q;
    assert Full(o, 0, j.cap) == [] && Full(o, q + 1, j.cap) == Full(o, q, j.cap) + [Io(o + q * j.cap, j.cap)];
    OneMoreBlock(q, j.cap);
  }

  lemma OneMoreBlock(q: nat, c: nat)
    ensures (q + 1) * c == q * c + c && 0 * c == 0
  {
  }

  lemma {:induction false} WriteCollects(j: Buffered, log: seq<Io>, o: nat, m: nat, q: nat, data: seq<Byte>) returns (p: nat)
    requires Collected(j, log, o, m, q) && Fits(j)
    ensures Collected(Write(j, data, o + m), log, o, m + |data|, p)
    decreases |data|
  {
    p := q;
    if data != [] {
      p := CopyInCollects(j, log, o, m, q, data);
      var n := Room(j, data, o + m);
      p := WriteCollects(CopyIn(j, data, o + m), log, o, m + n, p, data[n..]);
    }
  }

  function Total(chunks: seq<seq<Byte>>): nat {
    if chunks == [] then 0 else |chunks[0]| + Total(chunks[1..])
  }

  /** Write the chunks one after the other, from offset `i` on. */
  function WriteAll(j: Buffered, chunks: seq<seq<Byte>>, i: nat): (r: Buffered)
    requires Fits(j)
    ensures Fits(r) && r.cap == j.cap
    decreases |chunks|
  {
    if chunks == [] then j else WriteAll(Write(j, chunks[0], i), chunks[1..], i + |chunks[0]|)
  }

  lemma {:induction false} WriteAllCollects(j: Buffered, log: seq<Io>, o: nat, m: nat, q: nat, chunks: seq<seq<Byte>>) returns (p: nat)
    requires Collected(j, log, o, m, q) && Fits(j)
    ensures Collected(WriteAll(j, chunks, o + m), log, o, m + Total(chunks), p)
    decreases |chunks|
  {
    p := q;
    if chunks != [] {
      p := WriteCollects(j, log, o, m, q, chunks[0]);
      p := WriteAllCollects(Write(j, chunks[0], o + m), log, o, m + |chunks[0]|, p, chunks[1..]);
    }
  }

  lemma BlockCount(n: nat, q: nat, c: nat)
    requires c > 0 && q * c < n <= q * c + c
    ensures (n + c - 1) / c == q + 1
  {
    var rest := n + c - 1 - (q + 1) * c;
    OneMoreBlock(q, c);
    assert 0 <= rest < c && n + c - 1 == (q + 1) * c + rest;
    QuotientOf(q + 1, c, rest);
  }

  lemma {:induction false} QuotientOf(q: nat, c: nat, rest: nat)
    requires rest < c
    ensures (q * c + rest) / c == q && (q * c + rest) % c == rest
  {
    var n := q * c + rest;
    var d := n / c - q;
    assert n == n / c * c + n % c;
    assert d * c == n / c * c - q * c;
    assert d * c == rest - n % c;
    MultipleSize(d, c);
  }

  lemma MultipleSize(d: int, c: int)
    requires c > 0
    ensures (d >= 1 ==> d * c >= c) && (d <= -1 ==> d * c <= -c)
  {
    assert d >= 1 ==> (d - 1) * c >= 0;
    assert d <= -1 ==> (d + 1) * c <= 0;
  }

  lemma BlockAligned(o: nat, k: nat, c: nat)
    requires c > 0 && o % c == 0
    ensures (o + k * c) % c == 0
  {
    var d := o / c;
    assert o == d * c;
    assert o + k * c == (d + k) * c + 0;
    QuotientOf(d + k, c, 0);
  }

  /** The direct writes `log` after `before` carry `n` bytes from `o` in blocks of `c`. */
  ghost predicate InBlocks(log: seq<Io>, before: seq<Io>, o: nat, n: nat, c: nat)
    requires c > 0
  {
    var blocks := (n + c - 1) / c;
    && |log| == |before| + blocks && log[..|before|] == before
    && forall k: nat :: k < blocks ==> log[|before| + k] == Io(o + k * c, if k < blocks - 1 then c else n - k * c)
  }

  lemma LastBlock(before: seq<Io>, o: nat, n: nat, q: nat, c: nat)
    requires c > 0 && q * c < n <= q * c + c
    ensures InBlocks(before + Full(o, q, c) + [Io(o + q * c, n - q * c)], before, o, n, c)
  {
    BlockCount(n, q, c);
  }

  lemma FlushedLog(j: Buffered, log: seq<Io>, o: nat, m: nat, q: nat)
    requires Collected(j, log, o, m, q) && m > 0
    ensures Flush(j).log == log + Full(o, q, j.cap) + [Io(o + q * j.cap, m - q * j.cap)]
  {
  }

  /** However sequential bytes are cut into writes, from an empty buffer at an aligned offset
      and up to a sync they reach the file in ceil(n / size) direct writes, all aligned, all of
      full size but the last, for every size of the buffer. */
  lemma Coalesced(j: Buffered, o: nat, chunks: seq<seq<Byte>>)
    requires j.buf == [] && j.cap > 0 && o % j.cap == 0
    ensures InBlocks(Flush(WriteAll(j, chunks, o)).log, j.log, o, Total(chunks), j.cap)
    ensures Aligned(o, j.cap)
  {
    AllCollected(j, o, chunks);
    AllAligned(o, j.cap);
  }

  lemma AllCollected(j: Buffered, o: nat, chunks: seq<seq<Byte>>)
    requires j.buf == [] && j.cap > 0
    ensures InBlocks(Flush(WriteAll(j, chunks, o)).log, j.log, o, Total(chunks), j.cap)
  {
    var q := WriteAllCollects(j, j.log, o, 0, 0, chunks);
    CollectedBlocks(WriteAll(j, chunks, o), j.log, o, Total(chunks), q);
  }

  lemma CollectedBlocks(j: Buffered, log: seq<Io>, o: nat, n: nat, q: nat)
    requires Collected(j, log, o, n, q) && j.cap > 0
    ensures InBlocks(Flush(j).log, log, o, n, j.cap)
  {
    if n > 0 {
      FlushedLog(j, log, o, n, q);
      LastBlock(log, o, n, q, j.cap);
    } else {
      NoBlocks(log, o, j.cap);
    }
  }

  lemma NoBlocks(log: seq<Io>, o: nat, c: nat)
    requires c > 0
    ensures InBlocks(log, log, o, 0, c)
  {
    QuotientOf(0, c, c - 1);
  }

  /** Blocks of `c` bytes from `o` on begin at multiples of `c`. */
  ghost predicate Aligned(o: nat, c: nat)
    requires c > 0
  {
    forall k: nat :: (o + k * c) % c == 0
  }

  lemma AllAligned(o: nat, c: nat)
    requires c > 0 && o % c == 0
    ensures Aligned(o, c)
  {
    forall k: nat ensures (o + k * c) % c == 0 {
      BlockAligned(o, k, c);
    }
  }
}
