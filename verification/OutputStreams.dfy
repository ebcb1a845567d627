/** The output streams: `FileOutputStream` over a file, `BufferedOutputStream` over another stream, and
    `VectorOutputStream` over a growing vector. */
module OutputStreams {

  import opened Bytes
  import opened Sequences

  datatype Whence = Set | Current | End

  // ---- files -----------------------------------------------------------------------------------

  // The contents of a file and the position of its descriptor, which may lie beyond its end.
  datatype File = File(bytes: seq<Byte>, pos: nat)

  function Zeros(n: nat): (zs: seq<Byte>)
    ensures |zs| == n && forall i :: 0 <= i < n ==> zs[i] == 0
  {
    seq(n, i => 0)
  }

  // At least n bytes long, the rest zero.
  function Padded(bytes: seq<Byte>, n: nat): (p: seq<Byte>)
    ensures |p| == if |bytes| < n then n else |bytes|
    ensures forall i :: 0 <= i < |p| ==> p[i] == if i < |bytes| then bytes[i] else 0
  {
    if |bytes| < n then bytes + Zeros(n - |bytes|) else bytes
  }

  /** A write puts its bytes at the position, past any gap; writing nothing changes nothing. */
  function Write(f: File, b: seq<Byte>): File {
    if b == [] then f else File(Overlay(Padded(f.bytes, f.pos), f.pos, b), f.pos + |b|)
  }

  // Where a seek leads; a negative target is an error.
  function Target(f: File, offset: int, whence: Whence): int {
    match whence
    case Set => offset
    case Current => f.pos + offset
    case End => |f.bytes| + offset
  }

  function Seek(f: File, offset: int, whence: Whence): File {
    if Target(f, offset, whence) < 0 then f else File(f.bytes, Target(f, offset, whence))
  }

  // What a seek reports.
  function Reported(f: File, offset: int, whence: Whence): int {
    if Target(f, offset, whence) < 0 then -1 else Target(f, offset, whence)
  }

  lemma WriteNothing(f: File)
    ensures Write(f, []) == f
  {
  }

  // The bytes after a write, one by one.
  lemma WrittenBytes(f: File, b: seq<Byte>)
    requires b != []
    ensures |Write(f, b).bytes| == if |f.bytes| < f.pos + |b| then f.pos + |b| else |f.bytes|
    ensures Write(f, b).pos == f.pos + |b|
    ensures forall i :: 0 <= i < |Write(f, b).bytes| ==>
              Write(f, b).bytes[i] ==
              if f.pos <= i < f.pos + |b| then b[i - f.pos] else if i < |f.bytes| then f.bytes[i] else 0
  {
  }

  lemma WriteTwice(f: File, a: seq<Byte>, b: seq<Byte>)
    ensures Write(Write(f, a), b) == Write(f, a + b)
  {
    if a == [] {
      assert a + b == b;
    } else if b == [] {
      assert a + b == a;
    } else {
      hide Write;
      WrittenBytes(f, a);
      WrittenBytes(Write(f, a), b);
      WrittenBytes(f, a + b);
      var once, twice := Write(f, a + b).bytes, Write(Write(f, a), b).bytes;
      forall i | 0 <= i < |once| ensures once[i] == twice[i] {
      }
      assert once == twice;
    }
  }

  // ---- a stream over a file ------------------------------------------------------------------------

  predicate Fails(faults: seq<bool>) { faults != [] && faults[0] }

  // The faults that are left after one write.
  function Rest(faults: seq<bool>): seq<bool> { if faults == [] then [] else faults[1..] }

  /** The file; `faults` says which of its next writes will fail, and leave it as it is. */
  class FileOutputStream {
    var file: File
    var faults: seq<bool>

    constructor (file: File, faults: seq<bool>)
      ensures this.file == file && this.faults == faults
    {
      this.file, this.faults := file, faults;
    }

    predicate WillFail()
      reads this
    {
      Fails(faults)
    }

    ghost predicate NeverFails()
      reads this
    {
      forall i :: 0 <= i < |faults| ==> !faults[i]
    }

    method WriteFully(b: seq<Byte>) returns (ok: bool)
      modifies this
      ensures ok == !old(WillFail())
      ensures file == if ok then Write(old(file), b) else old(file)
      ensures faults == Rest(old(faults))
      ensures old(NeverFails()) ==> NeverFails()
    {
      ok := !WillFail();
      if ok { file := Write(file, b); }
      faults := Rest(faults);
    }

    method SeekTo(offset: int, whence: Whence) returns (position: int)
      modifies this
      ensures position == Reported(old(file), offset, whence) && file == Seek(old(file), offset, whence)
      ensures faults == old(faults)
    {
      position := Reported(file, offset, whence);
      file := Seek(file, offset, whence);
    }
  }

  // ---- the buffered stream ---------------------------------------------------------------------------

  const BUFFER_SIZE: nat := 8192

  class BufferedOutputStream {
    const out: FileOutputStream
    const buffer: array<Byte>
    var used: nat

    ghost predicate Valid()
      reads this
    {
      buffer.Length == BUFFER_SIZE && used <= BUFFER_SIZE
    }

    ghost function Pending(): seq<Byte>
      requires Valid()
      reads this, buffer
    {
      buffer[..used]
    }

    // The file as it will be once the buffer is flushed.
    ghost function View(): File
      requires Valid()
      reads this, out, buffer
    {
      Write(out.file, Pending())
    }

    constructor (out: FileOutputStream)
      ensures Valid() && this.out == out && used == 0 && fresh(buffer)
    {
      this.out, used := out, 0;
      buffer := new Byte[BUFFER_SIZE](i => 0);
    }

    /** `Flush`: what was pending is written, or lost if the write fails. */
    method Flush() returns (ok: bool)
      requires Valid()
      modifies this`used, out
      ensures Valid() && used == 0
      ensures ok == !(old(used) > 0 && old(out.WillFail()))
      ensures View() == out.file == if ok then old(View()) else old(out.file)
      ensures out.faults == if old(used) > 0 then Rest(old(out.faults)) else old(out.faults)
      ensures old(out.NeverFails()) ==> out.NeverFails()
    {
      ok := true;
      if used > 0 {
        ok := out.WriteFully(buffer[..used]);
        used := 0;
      }
      assert Pending() == [];
      WriteNothing(out.file);
    }

    // A large write finds a failed flush and does not notice.
    predicate LosesPending(b: seq<Byte>)
      reads this, out
    {
      |b| > BUFFER_SIZE && used > 0 && out.WillFail()
    }

    /** `WriteFully`. A write that reports success has appended its bytes to the stream, except that a
        write larger than the buffer does not see that flushing the buffer failed: exactly then the
        pending bytes are lost without notice. */
    method WriteFully(b: seq<Byte>) returns (ok: bool)
      requires Valid()
      modifies this`used, out, buffer
      ensures Valid() && (old(out.NeverFails()) ==> ok && out.NeverFails())
      ensures ok <==>
                if |b| > BUFFER_SIZE then !Fails(if old(used) > 0 then Rest(old(out.faults)) else old(out.faults))
                else !(old(used) > 0 && old(used) + |b| > BUFFER_SIZE && old(out.WillFail()))
      ensures ok ==> View() == Write(if old(LosesPending(b)) then old(out.file) else old(View()), b)
      ensures !ok ==> View() == out.file == if old(out.WillFail()) then old(out.file) else old(View())
      ensures |b| > BUFFER_SIZE ==> used == 0 && View() == out.file
      ensures old(used) + |b| <= BUFFER_SIZE ==> unchanged(out) && used == old(used) + |b|
      ensures old(out.NeverFails()) ==> View() == Write(old(View()), b)
    {
      hide Write;
      WriteNothing(out.file);
      assert used == 0 ==> Pending() == [];
      if |b| > BUFFER_SIZE {
        var flushed := Flush();
        ok := out.WriteFully(b);
        assert Pending() == [];
        WriteNothing(out.file);
        return;
      }
      if used + |b| > BUFFER_SIZE {
        var flushed := Flush();
        if !flushed {
          return false;
        }
      }
      WriteNothing(out.file);
      ghost var pending := Pending();
      WriteTwice(out.file, pending, b);
      forall i | 0 <= i < |b| {
        buffer[used + i] := b[i];
      }
      used := used + |b|;
      assert Pending() == pending + b;
      ok := true;
    }

    /** `Seek`: flushes first, so that the position it reports is the position in the stream. */
    method SeekTo(offset: int, whence: Whence) returns (position: int)
      requires Valid()
      modifies this`used, out
      ensures Valid() && used == 0
      ensures !(old(used) > 0 && old(out.WillFail())) ==>
                && position == Reported(old(View()), offset, whence)
                && out.file == View() == Seek(old(View()), offset, whence)
      ensures old(used) > 0 && old(out.WillFail()) ==> position == -1 && out.file == old(out.file)
      ensures old(out.NeverFails()) ==> out.NeverFails()
    {
      var flushed := Flush();
      if !flushed {
        return -1;
      }
      position := out.SeekTo(offset, whence);
      assert Pending() == [];
      WriteNothing(out.file);
    }
  }

  // ---- sequences of writes and seeks -----------------------------------------------------------------------

  datatype Op = Put(bytes: seq<Byte>) | Go(offset: int, whence: Whence)

  // What unbuffered writing does to a file that does not fail.
  function Apply(f: File, op: Op): File {
    match op
    case Put(b) => Write(f, b)
    case Go(offset, whence) => Seek(f, offset, whence)
  }

  function Run(f: File, ops: seq<Op>): File {
    if ops == [] then f else Apply(Run(f, ops[..|ops| - 1]), ops[|ops| - 1])
  }

  // What the seeks report.
  function Positions(f: File, ops: seq<Op>): seq<int> {
    if ops == [] then []
    else
      var last := ops[|ops| - 1];
      Positions(f, ops[..|ops| - 1]) +
      if last.Go? then [Reported(Run(f, ops[..|ops| - 1]), last.offset, last.whence)] else []
  }

  /** Any sequence of writes and seeks through a buffer over a file that does not fail reports the same
      positions as writing directly, and once it ends with a seek the file holds the same bytes. */
  method ReplayBuffered(stream: BufferedOutputStream, ops: seq<Op>) returns (ok: bool, positions: seq<int>)
    requires stream.Valid() && stream.out.NeverFails()
    modifies stream`used, stream.out, stream.buffer
    ensures stream.Valid() && stream.out.NeverFails() && ok && positions == Positions(old(stream.View()), ops)
    ensures stream.View() == Run(old(stream.View()), ops)
    ensures ops != [] && ops[|ops| - 1].Go? ==> stream.out.file == Run(old(stream.View()), ops)
  {
    hide Write, Seek, Reported;
    ghost var f := stream.View();
    positions, ok := [], true;
    for i := 0 to |ops|
      invariant stream.Valid() && stream.out.NeverFails() && ok
      invariant stream.View() == Run(f, ops[..i]) && positions == Positions(f, ops[..i])
      invariant i > 0 && ops[i - 1].Go? ==> stream.out.file == stream.View()
    {
      assert ops[..i + 1][..i] == ops[..i];
      match ops[i]
      case Put(b) =>
        ok := stream.WriteFully(b);
      case Go(offset, whence) =>
        NoFault(stream);
        var position := stream.SeekTo(offset, whence);
        positions := positions + [position];
    }
    assert ops[..|ops|] == ops;
  }

  lemma NoFault(stream: BufferedOutputStream)
    requires stream.out.NeverFails()
    ensures !stream.out.WillFail()
  {
  }

  // The vector holds the file's bytes, with zeros where positions were reached but nothing was written.
  ghost predicate Mirrors(vector: seq<Byte>, offset: int, f: File) {
    offset == f.pos && |f.bytes| <= |vector| && offset <= |vector| && vector == Padded(f.bytes, |vector|)
  }

  lemma MirrorsWrite(vector: seq<Byte>, offset: nat, f: File, b: seq<Byte>)
    requires Mirrors(vector, offset, f)
    ensures Mirrors(Overlay(vector, offset, b), offset + |b|, Write(f, b))
  {
    var v := Overlay(vector, offset, b);
    if b == [] {
      assert v == vector;
    } else {
      WrittenBytes(f, b);
      var w := Write(f, b);
      assert v == Padded(w.bytes, |v|);
    }
  }

  lemma MirrorsSeek(vector: seq<Byte>, offset: nat, f: File, position: nat)
    requires Mirrors(vector, offset, f)
    ensures Mirrors(Padded(vector, position), position, File(f.bytes, position))
  {
    assert Padded(vector, position) == Padded(f.bytes, |Padded(vector, position)|);
  }

  function VectorTarget(vector: seq<Byte>, offset: int, at: int, whence: Whence): int {
    match whence
    case Set => at
    case Current => offset + at
    case End => |vector| + at
  }

  /** From corresponding states the two streams seek to the same place, except that after positions
      beyond the end of the file a seek from the end starts later in the vector; and they end up at the same
      position unless one of them seeks before the start, where the file refuses to go and the vector not. */
  lemma SeeksAgree(vector: seq<Byte>, offset: nat, f: File, at: int, whence: Whence)
    requires Mirrors(vector, offset, f)
    ensures VectorTarget(vector, offset, at, whence) == Target(f, at, whence) <==>
              whence != End || |vector| == |f.bytes|
    ensures Seek(f, at, whence).pos == VectorTarget(vector, offset, at, whence) <==>
              && VectorTarget(vector, offset, at, whence) >= 0
              && (whence != End || |vector| == |f.bytes| ||
                  (Target(f, at, whence) < 0 && f.pos == VectorTarget(vector, offset, at, whence)))
  {
  }

  // No seek leads before the start, and none counts from the end of a file with positions beyond it.
  ghost predicate Steady(f: File, high: nat, ops: seq<Op>) {
    if ops == [] then high >= |f.bytes| && high >= f.pos
    else
      var before := Run(f, ops[..|ops| - 1]);
      var last := ops[|ops| - 1];
      && Steady(f, high, ops[..|ops| - 1])
      && (last.Go? ==>
            && Target(before, last.offset, last.whence) >= 0
            && (last.whence == End ==> |before.bytes| == Highest(f, high, ops[..|ops| - 1])))
  }

  // The farthest position or end so far.
  function Highest(f: File, high: nat, ops: seq<Op>): nat {
    if ops == [] then high
    else
      var before, after := Highest(f, high, ops[..|ops| - 1]), Run(f, ops);
      if before < after.pos then after.pos else before
  }

  lemma OverlayLength(bytes: seq<Byte>, pos: nat, b: seq<Byte>)
    requires pos <= |bytes|
    ensures |Overlay(bytes, pos, b)| == if pos + |b| <= |bytes| then |bytes| else pos + |b|
  {
  }

  lemma PaddedLength(bytes: seq<Byte>, n: nat)
    ensures |Padded(bytes, n)| == if |bytes| < n then n else |bytes|
  {
  }

  lemma MirrorsPosition(vector: seq<Byte>, offset: int, f: File)
    requires Mirrors(vector, offset, f)
    ensures offset == f.pos && |f.bytes| <= |vector|
  {
  }

  lemma {:induction false} SteadyPrefix(f: File, high: nat, ops: seq<Op>, i: nat)
    requires Steady(f, high, ops) && i <= |ops|
    ensures Steady(f, high, ops[..i])
    decreases |ops| - i
  {
    if i < |ops| {
      SteadyPrefix(f, high, ops, i + 1);
      assert ops[..i + 1][..i] == ops[..i];
    } else {
      assert ops[..i] == ops;
    }
  }

  // ---- the vector stream -------------------------------------------------------------------------------

  /** The vector; the position may be negative after a seek. */
  class VectorOutputStream {
    var vector: seq<Byte>
    var offset: int
    // what the vector was, and what has been done since
    ghost const origin: seq<Byte>
    ghost var ops: seq<Op>

    ghost predicate Valid()
      reads this
    {
      offset <= |vector| &&
          (IsSteady() ==> Mirrors(vector, offset, Direct()) && |vector| == Highest(Start(), |origin|, ops))
    }

    ghost function Start(): File { File(origin, |origin|) }

    // What unbuffered writing would have made of a file.
    ghost function Direct(): File
      reads this
    {
      Run(Start(), ops)
    }

    ghost predicate IsSteady()
      reads this
    {
      Steady(Start(), |origin|, ops)
    }

    constructor (vector: seq<Byte>)
      ensures Valid() && this.vector == vector && offset == |vector| && origin == vector && ops == []
    {
      this.vector, offset, origin, ops := vector, |vector|, vector, [];
      new;
      NothingPadded(vector);
      assert Direct() == Start() == File(vector, |vector|);
    }

    method EnsureCapacity(n: int)
      modifies this`vector
      ensures vector == if n < 0 then old(vector) else Padded(old(vector), n)
    {
      if n > |vector| { vector := vector + Zeros(n - |vector|); }
    }

    /** `WriteFully`: appends at the end of the vector, overwrites and extends elsewhere. */
    method WriteFully(b: seq<Byte>) returns (ok: bool)
      requires Valid() && offset >= 0
      modifies this
      ensures Valid() && ok && vector == Overlay(old(vector), old(offset), b) && offset == old(offset) + |b|
      ensures ops == old(ops) + [Put(b)]
    {
      hide Mirrors, Highest, Write, Steady, Run;
      ghost var v, o, was := vector, offset, ops;
      if offset == |vector| {
        vector := vector + b;
        offset := offset + |b|;
      } else {
        var newOffset := offset + |b|;
        EnsureCapacity(newOffset);
        vector := vector[..offset] + b + vector[newOffset..];
        offset := newOffset;
      }
      ok := true;
      assert vector == Overlay(v, o, b);
      ops := ops + [Put(b)];
      TracePut(Start(), |origin|, was, v, o, b);
    }

    // Where a seek leads.
    function Target(at: int, whence: Whence): int
      reads this
    {
      VectorTarget(vector, offset, at, whence)
    }

    /** `Seek`: extends the vector with zeros up to the new position. */
    method SeekTo(at: int, whence: Whence) returns (position: int)
      requires Valid()
      modifies this
      ensures Valid() && position == offset == old(Target(at, whence))
      ensures vector == if offset < 0 then old(vector) else Padded(old(vector), offset)
      ensures ops == old(ops) + [Go(at, whence)]
    {
      hide Mirrors, Highest, Seek, Steady, Run;
      ghost var v, o, was := vector, offset, ops;
      var newOffset := Target(at, whence);
      EnsureCapacity(newOffset);
      offset := newOffset;
      position := offset;
      ops := ops + [Go(at, whence)];
      TraceGo(Start(), |origin|, was, v, o, at, whence);
    }
  }

  lemma NothingPadded(vector: seq<Byte>)
    ensures Mirrors(vector, |vector|, File(vector, |vector|)) &&
            Highest(File(vector, |vector|), |vector|, []) == |vector|
  {
    assert Padded(vector, |vector|) == vector;
  }

  lemma OneMore(ops: seq<Op>, op: Op)
    ensures (ops + [op])[..|ops|] == ops && (ops + [op])[|ops|] == op
  {
  }

  // One more write to the vector.
  lemma TracePut(f: File, high: nat, ops: seq<Op>, vector: seq<Byte>, offset: int, b: seq<Byte>)
    requires 0 <= offset <= |vector|
    requires Steady(f, high, ops) ==> Mirrors(vector, offset, Run(f, ops)) && |vector| == Highest(f, high, ops)
    ensures var v := Overlay(vector, offset, b);
            Steady(f, high, ops + [Put(b)]) ==>
              Mirrors(v, offset + |b|, Run(f, ops + [Put(b)])) && |v| == Highest(f, high, ops + [Put(b)])
  {
    hide Write, Mirrors;
    OneMore(ops, Put(b));
    if Steady(f, high, ops + [Put(b)]) {
      MirrorsWrite(vector, offset, Run(f, ops), b);
      OverlayLength(vector, offset, b);
      MirrorsPosition(vector, offset, Run(f, ops));
      MirrorsPosition(Overlay(vector, offset, b), offset + |b|, Write(Run(f, ops), b));
    }
  }

  // One more seek.
  lemma TraceGo(f: File, high: nat, ops: seq<Op>, vector: seq<Byte>, offset: int, at: int, whence: Whence)
    requires offset <= |vector|
    requires Steady(f, high, ops) ==> Mirrors(vector, offset, Run(f, ops)) && |vector| == Highest(f, high, ops)
    ensures var target := VectorTarget(vector, offset, at, whence);
            var v := if target < 0 then vector else Padded(vector, target);
            Steady(f, high, ops + [Go(at, whence)]) ==>
              && Mirrors(v, target, Run(f, ops + [Go(at, whence)])) && |v| == Highest(f, high, ops + [Go(at, whence)])
              && target == Reported(Run(f, ops), at, whence)
  {
    hide Mirrors;
    OneMore(ops, Go(at, whence));
    if Steady(f, high, ops + [Go(at, whence)]) {
      MirrorsPosition(vector, offset, Run(f, ops));
      SeeksAgree(vector, offset, Run(f, ops), at, whence);
      var target := VectorTarget(vector, offset, at, whence);
      MirrorsSeek(vector, offset, Run(f, ops), target);
      PaddedLength(vector, target);
    }
  }

  /** Any steady sequence of writes and seeks to a vector reports the same positions as writing to a file, and
      leaves the file's bytes with skipped ranges zero. */
  method ReplayVector(stream: VectorOutputStream, ops: seq<Op>) returns (positions: seq<int>)
    requires stream.Valid() && Steady(stream.Start(), |stream.origin|, stream.ops + ops)
    modifies stream
    ensures stream.Valid() && stream.ops == old(stream.ops) + ops && positions == Positions(old(stream.Direct()), ops)
    ensures Mirrors(stream.vector, stream.offset, stream.Direct()) && stream.Direct() == Run(old(stream.Direct()), ops)
  {
    hide Write, Seek, Reported, Mirrors, Padded, Overlay, Highest, Steady, Run, Positions, VectorTarget;
    positions := [];
    ghost var f, was, all := stream.Direct(), stream.ops, stream.ops + ops;
    assert was + ops[..0] == was && all[..|was|] == was;
    NothingRun(f);
    for i := 0 to |ops|
      invariant stream.Valid() && stream.ops == was + ops[..i]
      invariant positions == Positions(f, ops[..i]) && stream.Direct() == Run(f, ops[..i])
    {
      SteadyPrefix(stream.Start(), |stream.origin|, all, |was| + i);
      SteadyPrefix(stream.Start(), |stream.origin|, all, |was| + i + 1);
      assert all[..|was| + i] == stream.ops && all[..|was| + i + 1] == stream.ops + [ops[i]];
      assert ops[..i + 1] == ops[..i] + [ops[i]];
      MirrorsPosition(stream.vector, stream.offset, stream.Direct());
      RunMore(f, ops[..i], ops[i]);
      RunMore(stream.Start(), stream.ops, ops[i]);
      match ops[i]
      case Put(b) =>
        var ok := stream.WriteFully(b);
      case Go(at, whence) =>
        TraceGo(stream.Start(), |stream.origin|, stream.ops, stream.vector, stream.offset, at, whence);
        var position := stream.SeekTo(at, whence);
        positions := positions + [position];
    }
    assert ops[..|ops|] == ops;
  }

  lemma NothingRun(f: File)
    ensures Run(f, []) == f && Positions(f, []) == []
  {
  }

  lemma RunMore(f: File, ops: seq<Op>, op: Op)
    ensures Run(f, ops + [op]) == Apply(Run(f, ops), op)
    ensures Positions(f, ops + [op]) ==
            Positions(f, ops) + if op.Go? then [Reported(Run(f, ops), op.offset, op.whence)] else []
  {
    OneMore(ops, op);
  }

  /** What is written does not depend on the stream: after the same operations and a final seek a buffered
      file holds what the vector holds, but for the zeros behind the last write. */
  method SameContents(stream: VectorOutputStream, buffered: BufferedOutputStream, ops: seq<Op>)
    requires stream.Valid() && stream.IsSteady() && ops == stream.ops
    requires buffered.Valid() && buffered.out.NeverFails() && buffered.View() == stream.Start()
    modifies buffered`used, buffered.out, buffered.buffer
    ensures buffered.out.file.pos == stream.offset && |buffered.out.file.bytes| <= |stream.vector|
    ensures stream.vector == buffered.out.file.bytes + Zeros(|stream.vector| - |buffered.out.file.bytes|)
  {
    hide Write, Highest, Steady;
    var ok, _ := ReplayBuffered(buffered, ops);
    NoFault(buffered);
    var _ := buffered.SeekTo(0, Current);
    SeekNowhere(stream.Direct());
  }

  lemma SeekNowhere(f: File)
    ensures Seek(f, 0, Current) == f
  {
  }

  // Writing keeps a sequence steady, and so does seeking from the start or from where one is.
  lemma SteadyMore(f: File, high: nat, ops: seq<Op>, op: Op)
    requires Steady(f, high, ops)
    requires op.Go? ==> op.whence != End && Target(Run(f, ops), op.offset, op.whence) >= 0
    ensures Steady(f, high, ops + [op])
  {
    OneMore(ops, op);
  }

  // ---- where streams differ ----------------------------------------------------------------------------------

  /** A seek from the end leads elsewhere in a vector once the position has been beyond the end of the file. */
  method SeeksDisagree() returns (inFile: int, inVector: int)
    ensures inFile == 0 && inVector == 10
  {
    var file := new FileOutputStream(File([], 0), []);
    var vector := new VectorOutputStream([]);
    var _ := file.SeekTo(10, Set);
    var _ := vector.SeekTo(10, Set);
    inFile := file.SeekTo(0, End);
    inVector := vector.SeekTo(0, End);
  }

  /** A large write reports success although the byte that was pending has been lost. */
  method LargeWriteLosesBytes(large: seq<Byte>) returns (ok: bool, bytes: seq<Byte>)
    requires |large| > BUFFER_SIZE
    ensures ok && bytes == large
  {
    var file := new FileOutputStream(File([], 0), [true]);
    var stream := new BufferedOutputStream(file);
    WriteNothing(file.file);
    ok := stream.WriteFully([1]);
    ok := stream.WriteFully(large);
    bytes := file.file.bytes;
    assert Overlay(Padded([], 0), 0, large) == large;
  }
}
