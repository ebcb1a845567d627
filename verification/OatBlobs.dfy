/** The shared blobs of an oat file: what the layout pass knows about them, and why the write pass,
    which compares positions only, emits each of them once and in its place. */
module OatBlobs {
  import opened OutputStreams
  import opened Alignment
  import opened OatLayout

  // ---- what the maps say --------------------------------------------------------------------------

  // Everything recorded so far lies before the offset.
  ghost predicate CodeKnown(offset: nat, delta: nat, seen: map<Blob, nat>) {
    forall c :: c in seen ==> c.bytes != [] && 4 + delta < seen[c] && seen[c] + |c.bytes| <= offset + delta
  }

  ghost predicate TableKnown(offset: nat, seen: map<Blob, nat>) {
    forall t :: t in seen ==> if t.bytes == [] then seen[t] == 0 else 0 < seen[t] && seen[t] + |t.bytes| <= offset
  }

  ghost predicate Known(offset: nat, isa: InstructionSet, seen: Dedup) {
    && CodeKnown(offset, isa.CodeDelta(), seen.code) && TableKnown(offset, seen.mapping)
    && TableKnown(offset, seen.vmap) && TableKnown(offset, seen.gcMap)
  }

  ghost predicate Sub(a: map<Blob, nat>, b: map<Blob, nat>) { forall x :: x in a ==> x in b && b[x] == a[x] }

  ghost predicate SubDedup(a: Dedup, b: Dedup) {
    Sub(a.code, b.code) && Sub(a.mapping, b.mapping) && Sub(a.vmap, b.vmap) && Sub(a.gcMap, b.gcMap)
  }

  lemma TableKnownLater(offset: nat, later: nat, seen: map<Blob, nat>)
    requires TableKnown(offset, seen) && offset <= later
    ensures TableKnown(later, seen)
  {
  }

  lemma LayTableKeeps(offset: nat, table: Blob, seen: map<Blob, nat>)
    requires TableKnown(offset, seen) && offset > 0
    ensures var l := LayTable(offset, table, seen);
            TableKnown(l.offset, l.seen) && Sub(seen, l.seen) && offset <= l.offset
  {
  }

  lemma LayCodeKeeps(offset: nat, code: Blob, delta: nat, seen: map<Blob, nat>)
    requires CodeKnown(offset, delta, seen) && offset > 0 && code.bytes != []
    ensures var l := LayCode(offset, code, delta, seen);
            CodeKnown(l.offset, delta, l.seen) && Sub(seen, l.seen) && offset <= l.offset
  {
  }

  lemma LayMethodKeeps(offset: nat, m: Method, isa: InstructionSet, seen: Dedup)
    requires Known(offset, isa, seen) && offset > 0 && (m.Compiled? ==> m.code.bytes != [])
    ensures var l := LayMethod(offset, m, isa, seen);
            Known(l.offset, isa, l.seen) && SubDedup(seen, l.seen) && offset <= l.offset
  {
    if m.Compiled? {
      hide LayTable, LayCode, CodeKnown, TableKnown, Sub, RoundUp;
      RoundUpIsNext(offset, isa.Alignment());
      var aligned := RoundUp(offset, isa.Alignment());
      CodeKnownLater(offset, aligned, isa.CodeDelta(), seen.code);
      LayCodeKeeps(aligned, m.code, isa.CodeDelta(), seen.code);
      var c := LayCode(aligned, m.code, isa.CodeDelta(), seen.code);
      TableKnownLater(offset, c.offset, seen.mapping);
      LayTableKeeps(c.offset, m.mapping, seen.mapping);
      var t := LayTable(c.offset, m.mapping, seen.mapping);
      TableKnownLater(offset, t.offset, seen.vmap);
      LayTableKeeps(t.offset, m.vmap, seen.vmap);
      var v := LayTable(t.offset, m.vmap, seen.vmap);
      TableKnownLater(offset, v.offset, seen.gcMap);
      LayTableKeeps(v.offset, m.gcMap, seen.gcMap);
      var g := LayTable(v.offset, m.gcMap, seen.gcMap);
      CodeKnownLater(c.offset, g.offset, isa.CodeDelta(), c.seen);
      TableKnownLater(t.offset, g.offset, t.seen);
      TableKnownLater(v.offset, g.offset, v.seen);
    } else {
      SubSame(seen);
    }
  }

  lemma SubSame(seen: Dedup)
    ensures SubDedup(seen, seen)
  {
  }

  lemma CodeKnownLater(offset: nat, later: nat, delta: nat, seen: map<Blob, nat>)
    requires CodeKnown(offset, delta, seen) && offset <= later
    ensures CodeKnown(later, delta, seen)
  {
  }

  lemma SubTrans(a: Dedup, b: Dedup, c: Dedup)
    requires SubDedup(a, b) && SubDedup(b, c)
    ensures SubDedup(a, c)
  {
  }

  // ---- positions are not zero ------------------------------------------------------------------------

  lemma {:induction false} DexRecordsStart(in_: Input, i: nat)
    requires i <= |in_.dexFiles|
    ensures DexRecordAt(in_, i) >= HEADER_SIZE
  {
    if i > 0 { DexRecordsStart(in_, i - 1); }
  }

  lemma {:induction false} DexCopiesStart(in_: Input, i: nat)
    requires i <= |in_.dexFiles|
    ensures DexCopyEnd(in_, i) >= HEADER_SIZE
  {
    hide RoundUp;
    if i > 0 {
      DexCopiesStart(in_, i - 1);
      RoundUpIsNext(DexCopyEnd(in_, i - 1), 4);
    } else {
      DexRecordsStart(in_, |in_.dexFiles|);
    }
  }

  lemma {:induction false} ClassRecordsStart(in_: Input, k: nat)
    requires k <= |AllClasses(in_.dexFiles)|
    ensures ClassRecordAt(in_, k) >= HEADER_SIZE
  {
    if k > 0 { ClassRecordsStart(in_, k - 1); } else { DexCopiesStart(in_, |in_.dexFiles|); }
  }

  lemma {:induction false} TrampolinesStart(in_: Input, i: nat)
    requires i <= |in_.trampolines|
    ensures TrampolinesEnd(in_, i) >= HEADER_SIZE
  {
    hide RoundUp;
    if i > 0 {
      TrampolinesStart(in_, i - 1);
      RoundUpIsNext(TrampolinesEnd(in_, i - 1), in_.isa.Alignment());
    } else {
      ClassRecordsStart(in_, |AllClasses(in_.dexFiles)|);
      RoundUpIsNext(TablesEnd(in_), PAGE_SIZE);
    }
  }

  /** The layout pass, after any number of methods: the maps describe places before the offset. */
  lemma {:induction false} LaysKnown(in_: Input, i: nat)
    requires Valid(in_) && i <= |MethodsIn(in_)|
    ensures LayMethods(in_, i).offset >= HEADER_SIZE &&
            Known(LayMethods(in_, i).offset, in_.isa, LayMethods(in_, i).seen)
  {
    hide LayMethod, Known, RoundUp;
    if i > 0 {
      LaysKnown(in_, i - 1);
      LayMethodKeeps(LayMethods(in_, i - 1).offset, MethodsIn(in_)[i - 1], in_.isa, LayMethods(in_, i - 1).seen);
    } else {
      TrampolinesStart(in_, |in_.trampolines|);
      TrampolinesStart(in_, 0);
      NothingKnown(CodeStart(in_), in_.isa);
    }
  }

  lemma NothingKnown(offset: nat, isa: InstructionSet)
    ensures Known(offset, isa, NONE_SEEN)
  {
  }

  lemma {:induction false} MapsGrow(in_: Input, i: nat, n: nat)
    requires Valid(in_) && i <= n <= |MethodsIn(in_)|
    ensures SubDedup(LayMethods(in_, i).seen, LayMethods(in_, n).seen)
    ensures LayMethods(in_, i).offset <= LayMethods(in_, n).offset
    decreases n
  {
    hide LayMethod, Known, SubDedup;
    if i < n {
      MapsGrow(in_, i, n - 1);
      LaysKnown(in_, n - 1);
      LayMethodKeeps(LayMethods(in_, n - 1).offset, MethodsIn(in_)[n - 1], in_.isa, LayMethods(in_, n - 1).seen);
      SubTrans(LayMethods(in_, i).seen, LayMethods(in_, n - 1).seen, LayMethods(in_, n).seen);
    } else {
      SubSame(LayMethods(in_, i).seen);
    }
  }

  // ---- the write pass's test -----------------------------------------------------------------------------

  // Skipped if it is in the map and recorded elsewhere.
  predicate Skips(position: nat, blob: Blob, recorded: nat, all: map<Blob, nat>) { blob in all && position != recorded }

  /** Comparing the position with what is recorded for the method skips a table exactly when it was laid
      out for an earlier method, or is empty. */
  lemma SkipsWrittenTables(offset: nat, table: Blob, seen: map<Blob, nat>, all: map<Blob, nat>)
    requires TableKnown(offset, seen) && offset > 0 && Sub(LayTable(offset, table, seen).seen, all)
    ensures Skips(offset, table, LayTable(offset, table, seen).recorded, all) <==> table in seen || table.bytes == []
  {
  }

  /** And code exactly when it was laid out for an earlier method. */
  lemma SkipsWrittenCode(offset: nat, code: Blob, delta: nat, seen: map<Blob, nat>, all: map<Blob, nat>)
    requires CodeKnown(offset, delta, seen) && Sub(LayCode(offset, code, delta, seen).seen, all)
    ensures Skips(offset + 4 + delta, code, LayCode(offset, code, delta, seen).recorded, all) <==> code in seen
  {
  }

  // ---- blobs lie apart ---------------------------------------------------------------------------------------

  datatype Kind = CodeBlob | MappingTable | VmapTable | GcMap

  function SeenOf(d: Dedup, kind: Kind): map<Blob, nat> {
    match kind
    case CodeBlob => d.code
    case MappingTable => d.mapping
    case VmapTable => d.vmap
    case GcMap => d.gcMap
  }

  function With(d: Dedup, kind: Kind, seen: map<Blob, nat>): Dedup {
    match kind
    case CodeBlob => d.(code := seen)
    case MappingTable => d.(mapping := seen)
    case VmapTable => d.(vmap := seen)
    case GcMap => d.(gcMap := seen)
  }

  ghost predicate Placed(d: Dedup, kind: Kind, b: Blob) { b in SeenOf(d, kind) && b.bytes != [] }

  // From the size word of code, or from the first byte of a table, to the last byte.
  function First(d: Dedup, kind: Kind, b: Blob, delta: nat): int {
    if b in SeenOf(d, kind) then SeenOf(d, kind)[b] - (if kind.CodeBlob? then delta + 4 else 0) else 0
  }

  function Last(d: Dedup, kind: Kind, b: Blob, delta: nat): int {
    if b in SeenOf(d, kind) then SeenOf(d, kind)[b] + |b.bytes| - (if kind.CodeBlob? then delta else 0) else 0
  }

  ghost predicate Apart(d: Dedup, delta: nat) {
    forall k, b, k', b' :: b in SeenOf(d, k) && b' in SeenOf(d, k') ==>
      Placed(d, k, b) && Placed(d, k', b') && (k != k' || b != b') ==>
      Last(d, k, b, delta) <= First(d, k', b', delta) || Last(d, k', b', delta) <= First(d, k, b, delta)
  }

  function LayKind(offset: nat, kind: Kind, b: Blob, delta: nat, seen: map<Blob, nat>): Laid {
    if kind.CodeBlob? then LayCode(offset, b, delta, seen) else LayTable(offset, b, seen)
  }

  ghost predicate Below(d: Dedup, delta: nat, offset: nat) {
    forall k, b :: b in SeenOf(d, k) ==> Placed(d, k, b) ==> Last(d, k, b, delta) <= offset
  }

  lemma SeenWith(d: Dedup, kind: Kind, seen: map<Blob, nat>, k: Kind)
    ensures SeenOf(With(d, kind, seen), k) == if k == kind then seen else SeenOf(d, k)
  {
  }

  // A placed blob was there before, in the same place, or is the new one.
  lemma PlacedSince(offset: nat, kind: Kind, b: Blob, delta: nat, d: Dedup, k: Kind, x: Blob)
    requires var l := LayKind(offset, kind, b, delta, SeenOf(d, kind)); Placed(With(d, kind, l.seen), k, x)
    ensures var l := LayKind(offset, kind, b, delta, SeenOf(d, kind));
            var d' := With(d, kind, l.seen);
            if Placed(d, k, x) then
              First(d', k, x, delta) == First(d, k, x, delta) && Last(d', k, x, delta) == Last(d, k, x, delta)
            else k == kind && x == b && First(d', k, x, delta) == offset && Last(d', k, x, delta) == l.offset
  {
    hide With, SeenOf;
    SeenWith(d, kind, LayKind(offset, kind, b, delta, SeenOf(d, kind)).seen, k);
  }

  lemma LayKeepsApart(offset: nat, kind: Kind, b: Blob, delta: nat, d: Dedup)
    requires Apart(d, delta) && Below(d, delta, offset)
    ensures var l := LayKind(offset, kind, b, delta, SeenOf(d, kind));
            Apart(With(d, kind, l.seen), delta) && Below(With(d, kind, l.seen), delta, l.offset) && offset <= l.offset
  {
    hide LayKind, With, First, Last;
    var l := LayKind(offset, kind, b, delta, SeenOf(d, kind));
    var d' := With(d, kind, l.seen);
    LayKindGrows(offset, kind, b, delta, SeenOf(d, kind));
    forall k, x | Placed(d', k, x) ensures Last(d', k, x, delta) <= l.offset {
      PlacedSince(offset, kind, b, delta, d, k, x);
    }
    assert Below(d', delta, l.offset);
    forall k, x, k', x' | Placed(d', k, x) && Placed(d', k', x') && (k != k' || x != x')
      ensures Last(d', k, x, delta) <= First(d', k', x', delta) || Last(d', k', x', delta) <= First(d', k, x, delta)
    {
      PlacedSince(offset, kind, b, delta, d, k, x);
      PlacedSince(offset, kind, b, delta, d, k', x');
    }
  }

  lemma LayKindGrows(offset: nat, kind: Kind, b: Blob, delta: nat, seen: map<Blob, nat>)
    ensures LayKind(offset, kind, b, delta, seen).offset >= offset
  {
  }

  lemma BelowLater(d: Dedup, delta: nat, offset: nat, later: nat)
    requires Below(d, delta, offset) && offset <= later
    ensures Below(d, delta, later)
  {
    hide Placed, Last;
  }

  lemma LayMethodKeepsApart(offset: nat, m: Method, isa: InstructionSet, d: Dedup)
    requires Apart(d, isa.CodeDelta()) && Below(d, isa.CodeDelta(), offset)
    ensures var l := LayMethod(offset, m, isa, d);
            Apart(l.seen, isa.CodeDelta()) && Below(l.seen, isa.CodeDelta(), l.offset)
  {
    if m.Compiled? {
      hide Apart, Below, RoundUp, LayCode, LayTable;
      var delta := isa.CodeDelta();
      RoundUpIsNext(offset, isa.Alignment());
      var aligned := RoundUp(offset, isa.Alignment());
      BelowLater(d, delta, offset, aligned);
      LayKeepsApart(aligned, CodeBlob, m.code, delta, d);
      var c := LayCode(aligned, m.code, delta, d.code);
      var d1 := d.(code := c.seen);
      LayKeepsApart(c.offset, MappingTable, m.mapping, delta, d1);
      var t := LayTable(c.offset, m.mapping, d.mapping);
      var d2 := d1.(mapping := t.seen);
      LayKeepsApart(t.offset, VmapTable, m.vmap, delta, d2);
      var v := LayTable(t.offset, m.vmap, d.vmap);
      var d3 := d2.(vmap := v.seen);
      LayKeepsApart(v.offset, GcMap, m.gcMap, delta, d3);
    }
  }

  /** No two distinct blobs of the finished file overlap, whatever methods share them. */
  lemma {:induction false} BlobsLieApart(in_: Input, i: nat)
    requires i <= |MethodsIn(in_)|
    ensures Apart(LayMethods(in_, i).seen, in_.isa.CodeDelta())
    ensures Below(LayMethods(in_, i).seen, in_.isa.CodeDelta(), LayMethods(in_, i).offset)
  {
    if i > 0 {
      hide Apart, Below, LayMethod;
      BlobsLieApart(in_, i - 1);
      LayMethodKeepsApart(LayMethods(in_, i - 1).offset, MethodsIn(in_)[i - 1], in_.isa, LayMethods(in_, i - 1).seen);
    }
  }

  // ---- where code lies -----------------------------------------------------------------------------------------

  // The size word before every code is aligned, and behind the start.
  ghost predicate CodePlaced(start: nat, isa: InstructionSet, seen: map<Blob, nat>) {
    forall c :: c in seen ==>
      && start + 4 + isa.CodeDelta() <= seen[c]
      && (seen[c] - isa.CodeDelta() - 4) % isa.Alignment() == 0
  }

  lemma CodeStaysPlaced(start: nat, offset: nat, m: Method, isa: InstructionSet, seen: Dedup)
    requires CodePlaced(start, isa, seen.code) && start <= offset
    ensures CodePlaced(start, isa, LayMethod(offset, m, isa, seen).seen.code)
  {
    hide LayTable, RoundUp;
    RoundUpIsNext(offset, isa.Alignment());
  }

  /** Wherever it is shared, code starts behind its size at a multiple of the alignment, in the part for code. */
  lemma {:induction false} CodeIsPlaced(in_: Input, i: nat)
    requires Valid(in_) && i <= |MethodsIn(in_)|
    ensures CodePlaced(CodeStart(in_), in_.isa, LayMethods(in_, i).seen.code)
  {
    hide LayMethod, CodePlaced, RoundUp, CodeStart, MethodsIn;
    if i > 0 {
      CodeIsPlaced(in_, i - 1);
      MapsGrow(in_, 0, i - 1);
      CodeStaysPlaced(CodeStart(in_), LayMethods(in_, i - 1).offset, MethodsIn(in_)[i - 1], in_.isa,
                      LayMethods(in_, i - 1).seen);
    } else {
      NoCodePlaced(CodeStart(in_), in_.isa);
    }
  }

  lemma NoCodePlaced(start: nat, isa: InstructionSet)
    ensures CodePlaced(start, isa, NONE_SEEN.code)
  {
  }
}
