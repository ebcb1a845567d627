/** What a finished oat file must contain: every object at its place. */
module OatPieces {
  import opened Bytes
  import opened OutputStreams
  import opened OatLayout
  import opened OatBlobs

  // ---- bytes at a place -----------------------------------------------------------------------------

  ghost predicate At(v: seq<Byte>, at: int, b: seq<Byte>) { 0 <= at && at + |b| <= |v| && v[at..at + |b|] == b }

  lemma AtStays(v: seq<Byte>, more: seq<Byte>, at: int, b: seq<Byte>)
    requires At(v, at, b)
    ensures At(v + more, at, b)
  {
    assert (v + more)[at..at + |b|] == v[at..at + |b|];
  }

  lemma AtEnd(v: seq<Byte>, b: seq<Byte>)
    ensures At(v + b, |v|, b)
  {
  }

  datatype Piece = Piece(at: nat, bytes: seq<Byte>)

  ghost predicate AllAt(v: seq<Byte>, base: nat, ps: seq<Piece>) { forall p :: p in ps ==> At(v, base + p.at, p.bytes) }

  lemma AllStay(v: seq<Byte>, more: seq<Byte>, base: nat, ps: seq<Piece>)
    requires AllAt(v, base, ps)
    ensures AllAt(v + more, base, ps)
  {
    forall p | p in ps ensures At(v + more, base + p.at, p.bytes) { AtStays(v, more, base + p.at, p.bytes); }
  }

  // ---- the records -------------------------------------------------------------------------------------

  // Two texts of bytes, one after the other, are one.
  function HeaderBytes(in_: Input, executableOffset: nat, trampolineOffsets: seq<nat>): seq<Byte> {
    in_.magicAndVersion +
    Words([in_.adler32, in_.isaCode, |in_.dexFiles|, executableOffset] + trampolineOffsets +
          [in_.oatChecksum, in_.oatBegin, |in_.location|])
  }

  function DexRecordBytes(d: DexFile, dexFileOffset: nat, methodsOffsets: seq<nat>): seq<Byte> {
    U32(|d.location|) + d.location + U32(d.checksum) + U32(dexFileOffset) + Words(methodsOffsets)
  }

  function MethodWords(o: MethodOffsets): seq<nat> {
    [o.codeOffset, o.frameSize, o.coreSpillMask, o.fpSpillMask, o.mappingOffset, o.vmapOffset, o.gcMapOffset]
  }

  function MethodsBytes(offsets: seq<MethodOffsets>): (bytes: seq<Byte>)
    ensures |bytes| == 28 * |offsets|
  {
    if offsets == [] then [] else MethodsBytes(offsets[..|offsets| - 1]) + Words(MethodWords(offsets[|offsets| - 1]))
  }

  function ClassRecordBytes(status: nat, offsets: seq<MethodOffsets>): seq<Byte> { U32(status) + MethodsBytes(offsets) }

  // ---- the blobs ---------------------------------------------------------------------------------------

  // Code is preceded by its size.
  function Content(kind: Kind, b: Blob): seq<Byte> { if kind.CodeBlob? then U32(|b.bytes|) + b.bytes else b.bytes }

  ghost predicate BlobsAt(v: seq<Byte>, base: nat, d: Dedup, delta: nat) {
    forall k, b :: b in SeenOf(d, k) ==> Placed(d, k, b) ==> At(v, base + First(d, k, b, delta), Content(k, b))
  }

  lemma BlobsStay(v: seq<Byte>, more: seq<Byte>, base: nat, d: Dedup, delta: nat)
    requires BlobsAt(v, base, d, delta)
    ensures BlobsAt(v + more, base, d, delta)
  {
    hide Placed, First, Content;
    forall k, b | b in SeenOf(d, k)
      ensures Placed(d, k, b) ==> At(v + more, base + First(d, k, b, delta), Content(k, b))
    {
      if Placed(d, k, b) { AtStays(v, more, base + First(d, k, b, delta), Content(k, b)); }
    }
  }

  // What the write pass emits for a blob.
  function Emitted(kind: Kind, b: Blob, seen: map<Blob, nat>): seq<Byte> {
    if b in seen || b.bytes == [] then [] else Content(kind, b)
  }

  /** Emitting a blob where it was first met, and nothing elsewhere, puts every blob where it is recorded. */
  lemma BlobsGrow(v: seq<Byte>, base: nat, d: Dedup, delta: nat, offset: nat, kind: Kind, b: Blob)
    requires BlobsAt(v, base, d, delta) && |v| == base + offset && (kind.CodeBlob? ==> b.bytes != [])
    ensures var l := LayKind(offset, kind, b, delta, SeenOf(d, kind));
            var v' := v + Emitted(kind, b, SeenOf(d, kind));
            BlobsAt(v', base, With(d, kind, l.seen), delta) && |v'| == base + l.offset
  {
    var seen := SeenOf(d, kind);
    var l := LayKind(offset, kind, b, delta, seen);
    var more := Emitted(kind, b, seen);
    BlobsStay(v, more, base, d, delta);
    AtEnd(v, more);
    hide LayKind, With, First, Last, BlobsAt, Content;
    forall k, x | x in SeenOf(With(d, kind, l.seen), k)
      ensures Placed(With(d, kind, l.seen), k, x) ==>
              At(v + more, base + First(With(d, kind, l.seen), k, x, delta), Content(k, x))
    {
      if Placed(With(d, kind, l.seen), k, x) {
        PlacedSince(offset, kind, b, delta, d, k, x);
        if Placed(d, k, x) { BlobIsAt(v + more, base, d, delta, k, x); } else { NewBlob(offset, kind, b, delta, d); }
      }
    }
    BlobsAre(v + more, base, With(d, kind, l.seen), delta);
  }

  lemma BlobIsAt(v: seq<Byte>, base: nat, d: Dedup, delta: nat, k: Kind, b: Blob)
    requires BlobsAt(v, base, d, delta) && Placed(d, k, b)
    ensures At(v, base + First(d, k, b, delta), Content(k, b))
  {
  }

  lemma BlobsAre(v: seq<Byte>, base: nat, d: Dedup, delta: nat)
    requires forall k, b :: b in SeenOf(d, k) ==> Placed(d, k, b) ==> At(v, base + First(d, k, b, delta), Content(k, b))
    ensures BlobsAt(v, base, d, delta)
  {
  }

  lemma NewBlob(offset: nat, kind: Kind, b: Blob, delta: nat, d: Dedup)
    requires Placed(With(d, kind, LayKind(offset, kind, b, delta, SeenOf(d, kind)).seen), kind, b) &&
             !Placed(d, kind, b)
    ensures Emitted(kind, b, SeenOf(d, kind)) == Content(kind, b)
  {
  }

  // ---- each blob once ------------------------------------------------------------------------------------

  // A blob that the write pass has emitted, and how many zeros were skipped before it.
  datatype Entry = Entry(kind: Kind, blob: Blob, gap: nat)

  ghost predicate Lists(list: seq<Entry>, kind: Kind, b: Blob) {
    exists i :: 0 <= i < |list| && list[i].kind == kind && list[i].blob == b
  }

  // The list has every placed blob, and none of them twice.
  ghost predicate Listed(d: Dedup, list: seq<Entry>) {
    && (forall i, j :: 0 <= i < j < |list| ==> list[i].kind != list[j].kind || list[i].blob != list[j].blob)
    && (forall e :: e in list ==> Placed(d, e.kind, e.blob))
    && forall k, b :: b in SeenOf(d, k) ==> Placed(d, k, b) ==> Lists(list, k, b)
  }

  lemma ListStays(d: Dedup, list: seq<Entry>, offset: nat, delta: nat, kind: Kind, b: Blob)
    requires Listed(d, list) && (b in SeenOf(d, kind) || b.bytes == [])
    ensures Listed(With(d, kind, LayKind(offset, kind, b, delta, SeenOf(d, kind)).seen), list)
  {
    var seen := SeenOf(d, kind);
    var seen' := LayKind(offset, kind, b, delta, seen).seen;
    assert forall x :: x in seen' <==> x in seen || x == b;
    hide LayKind, Lists;
    var d' := With(d, kind, seen');
    forall k ensures SeenOf(d', k) == if k == kind then seen' else SeenOf(d, k) { SeenWith(d, kind, seen', k); }
    hide With, SeenOf;
  }

  lemma ListGrows(d: Dedup, list: seq<Entry>, offset: nat, delta: nat, e: Entry)
    requires Listed(d, list) && e.blob !in SeenOf(d, e.kind) && e.blob.bytes != []
    ensures Listed(With(d, e.kind, LayKind(offset, e.kind, e.blob, delta, SeenOf(d, e.kind)).seen), list + [e])
  {
    var seen := SeenOf(d, e.kind);
    var seen' := LayKind(offset, e.kind, e.blob, delta, seen).seen;
    assert forall x :: x in seen' <==> x in seen || x == e.blob;
    hide LayKind;
    var d' := With(d, e.kind, seen');
    forall k ensures SeenOf(d', k) == if k == e.kind then seen' else SeenOf(d, k) { SeenWith(d, e.kind, seen', k); }
    hide With, SeenOf;
    forall k, b | Placed(d', k, b) ensures Lists(list + [e], k, b) {
      if k == e.kind && b == e.blob { assert (list + [e])[|list|] == e; } else { ListsMore(list, e, k, b); }
    }
  }

  lemma ListsMore(list: seq<Entry>, e: Entry, kind: Kind, b: Blob)
    requires Lists(list, kind, b)
    ensures Lists(list + [e], kind, b)
  {
    var i :| 0 <= i < |list| && list[i].kind == kind && list[i].blob == b;
    assert (list + [e])[i] == list[i];
  }

  // The bytes that the listed blobs and the gaps before them make up.
  function Region(list: seq<Entry>): seq<Byte> {
    if list == [] then []
    else
      var e := list[|list| - 1];
      Region(list[..|list| - 1]) + (Zeros(e.gap) + Content(e.kind, e.blob))
  }

  /** From start on, v holds the listed blobs one after the other, with the gaps before them, and nothing
      else but zeros behind the last. */
  ghost predicate Filled(v: seq<Byte>, start: nat, list: seq<Entry>) {
    start <= |v| && exists gap: nat :: v[start..] == Region(list) + Zeros(gap)
  }

  lemma Behind(v: seq<Byte>, start: nat, a: seq<Byte>, b: seq<Byte>, more: seq<Byte>)
    requires start <= |v| && v[start..] == a + b
    ensures (v + more)[start..] == a + (b + more)
  {
    assert (v + more)[start..] == v[start..] + more;
  }

  lemma ZerosAdd(m: nat, n: nat)
    ensures Zeros(m) + Zeros(n) == Zeros(m + n)
  {
  }

  lemma FilledSkips(v: seq<Byte>, start: nat, list: seq<Entry>, n: nat)
    requires Filled(v, start, list)
    ensures Filled(v + Zeros(n), start, list)
  {
    var gap: nat :| v[start..] == Region(list) + Zeros(gap);
    hide Region, Zeros;
    Behind(v, start, Region(list), Zeros(gap), Zeros(n));
    ZerosAdd(gap, n);
  }

  lemma NothingEmitted(v: seq<Byte>)
    ensures Filled(v, |v|, [])
  {
    assert v[|v|..] == Region([]) + Zeros(0);
  }

  /** A blob that is emitted is one more entry. */
  lemma FilledMore(v: seq<Byte>, start: nat, list: seq<Entry>, kind: Kind, b: Blob) returns (e: Entry)
    requires Filled(v, start, list)
    ensures e.kind == kind && e.blob == b && Filled(v + Content(kind, b), start, list + [e])
  {
    var gap: nat :| v[start..] == Region(list) + Zeros(gap);
    e := Entry(kind, b, gap);
    RegionMore(list, e);
    NoZeros(Region(list + [e]));
    hide Region, Content, Zeros;
    Behind(v, start, Region(list), Zeros(gap), Content(kind, b));
  }

  lemma NoZeros(v: seq<Byte>)
    ensures v + Zeros(0) == v
  {
  }

  lemma RegionMore(list: seq<Entry>, e: Entry)
    ensures Region(list + [e]) == Region(list) + (Zeros(e.gap) + Content(e.kind, e.blob))
  {
    assert (list + [e])[..|list|] == list;
  }
}
