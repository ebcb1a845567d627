/** The layout of an oat file: where each object belongs, as functions of what is to be written, and the
    two passes over the compiled methods, which share blobs by identity. */
module OatLayout {
  import opened Alignment
  import opened Bytes
  import opened OutputStreams

  // A vector of bytes in the compiler driver; two methods share it when they hold the same object.
  class Blob {
    const bytes: seq<Byte>

    constructor (bytes: seq<Byte>)
      ensures this.bytes == bytes
    {
      this.bytes := bytes;
    }
  }

  datatype InstructionSet = Arm | Thumb2 | Mips | X86 {
    function Alignment(): nat { if X86? then 16 else 8 }

    // +1 switches to Thumb mode.
    function CodeDelta(): nat { if Thumb2? then 1 else 0 }
  }

  datatype Method =
    | NotCompiled
    | Compiled(code: Blob, mapping: Blob, vmap: Blob, gcMap: Blob,
               frameSize: nat, coreSpillMask: nat, fpSpillMask: nat)

  // A class definition; one without class data has no methods.
  datatype Klass = Klass(status: nat, methods: seq<Method>)

  datatype DexFile = DexFile(location: seq<Byte>, checksum: nat, bytes: seq<Byte>, classes: seq<Klass>)

  /** What the writer is given. The trampolines exist only when an image is compiled. */
  datatype Input = Input(magicAndVersion: seq<Byte>, adler32: nat, isa: InstructionSet, isaCode: nat,
                         oatChecksum: nat, oatBegin: nat, location: seq<Byte>, dexFiles: seq<DexFile>,
                         isImage: bool, trampolines: seq<seq<Byte>>)

  ghost predicate Valid(in_: Input) {
    && |in_.magicAndVersion| == 8 && |in_.trampolines| == 7
    && forall i :: 0 <= i < |MethodsIn(in_)| && MethodsIn(in_)[i].Compiled? ==> MethodsIn(in_)[i].code.bytes != []
  }

  // ---- numbers ---------------------------------------------------------------------------------

  // A word of four bytes, the low byte first.
  function U32(n: nat): (bytes: seq<Byte>)
    ensures |bytes| == 4
  {
    [n % 256, n / 256 % 256, n / 0x1_0000 % 256, n / 0x100_0000 % 256]
  }

  function Words(ns: seq<nat>): (bytes: seq<Byte>)
    ensures |bytes| == 4 * |ns|
  {
    if ns == [] then [] else Words(ns[..|ns| - 1]) + U32(ns[|ns| - 1])
  }

  // ---- flattening --------------------------------------------------------------------------------

  function AllClasses(dexFiles: seq<DexFile>): seq<Klass> {
    if dexFiles == [] then [] else AllClasses(dexFiles[..|dexFiles| - 1]) + dexFiles[|dexFiles| - 1].classes
  }

  function AllMethods(classes: seq<Klass>): seq<Method> {
    if classes == [] then [] else AllMethods(classes[..|classes| - 1]) + classes[|classes| - 1].methods
  }

  // ---- where the tables belong ---------------------------------------------------------------------

  const HEADER_SIZE: nat := 64
  const PAGE_SIZE: nat := 4096

  function DexRecordSize(d: DexFile): nat { 4 + |d.location| + 4 + 4 + 4 * |d.classes| }

  function ClassRecordSize(k: Klass): nat { 4 + 28 * |k.methods| }

  // The record of the i-th dex file.
  function DexRecordAt(in_: Input, i: nat): nat
    requires i <= |in_.dexFiles|
  {
    if i == 0 then HEADER_SIZE + |in_.location| else DexRecordAt(in_, i - 1) + DexRecordSize(in_.dexFiles[i - 1])
  }

  // The end of the copies of the first i dex files.
  function DexCopyEnd(in_: Input, i: nat): nat
    requires i <= |in_.dexFiles|
    decreases i, 0
  {
    if i == 0 then DexRecordAt(in_, |in_.dexFiles|) else DexCopyAt(in_, i - 1) + |in_.dexFiles[i - 1].bytes|
  }

  function DexCopyAt(in_: Input, i: nat): nat
    requires i < |in_.dexFiles|
    decreases i, 1
  {
    RoundUp(DexCopyEnd(in_, i), 4)
  }

  function ClassRecordAt(in_: Input, k: nat): nat
    requires k <= |AllClasses(in_.dexFiles)|
  {
    if k == 0 then DexCopyEnd(in_, |in_.dexFiles|)
    else ClassRecordAt(in_, k - 1) + ClassRecordSize(AllClasses(in_.dexFiles)[k - 1])
  }

  function TablesEnd(in_: Input): nat { ClassRecordAt(in_, |AllClasses(in_.dexFiles)|) }

  // Code starts on a page of its own.
  function ExecutableAt(in_: Input): nat { RoundUp(TablesEnd(in_), PAGE_SIZE) }

  // The end of the first i trampolines.
  function TrampolinesEnd(in_: Input, i: nat): nat
    requires i <= |in_.trampolines|
    decreases i, 0
  {
    if i == 0 then ExecutableAt(in_) else TrampolineAt(in_, i - 1) + |in_.trampolines[i - 1]|
  }

  function TrampolineAt(in_: Input, i: nat): nat
    requires i < |in_.trampolines|
    decreases i, 1
  {
    RoundUp(TrampolinesEnd(in_, i), in_.isa.Alignment())
  }

  function CodeStart(in_: Input): nat {
    if in_.isImage then TrampolinesEnd(in_, |in_.trampolines|) else ExecutableAt(in_)
  }

  // ---- the layout pass over the methods --------------------------------------------------------------

  // `OatMethodOffsets`.
  datatype MethodOffsets = MethodOffsets(codeOffset: nat, frameSize: nat, coreSpillMask: nat, fpSpillMask: nat,
                                         mappingOffset: nat, vmapOffset: nat, gcMapOffset: nat)

  // kStackAlignment
  const NO_METHOD: MethodOffsets := MethodOffsets(0, 16, 0, 0, 0, 0, 0)

  // The four deduplication maps.
  datatype Dedup = Dedup(code: map<Blob, nat>, mapping: map<Blob, nat>, vmap: map<Blob, nat>, gcMap: map<Blob, nat>)

  datatype Laid = Laid(offset: nat, recorded: nat, seen: map<Blob, nat>)

  // A table is laid out where it is first met; an empty one is recorded at 0.
  function LayTable(offset: nat, table: Blob, seen: map<Blob, nat>): Laid {
    if table in seen then Laid(offset, seen[table], seen)
    else
      var at := if table.bytes == [] then 0 else offset;
      Laid(offset + |table.bytes|, at, seen[table := at])
  }

  // Code is preceded by its size; what is recorded is where it is entered.
  function LayCode(offset: nat, code: Blob, delta: nat, seen: map<Blob, nat>): Laid {
    if code in seen then Laid(offset, seen[code], seen)
    else Laid(offset + 4 + |code.bytes|, offset + 4 + delta, seen[code := offset + 4 + delta])
  }

  datatype MethodLaid = MethodLaid(offset: nat, recorded: MethodOffsets, seen: Dedup)

  function LayMethod(offset: nat, m: Method, isa: InstructionSet, seen: Dedup): MethodLaid {
    if m.NotCompiled? then MethodLaid(offset, NO_METHOD, seen)
    else
      var c := LayCode(RoundUp(offset, isa.Alignment()), m.code, isa.CodeDelta(), seen.code);
      var t := LayTable(c.offset, m.mapping, seen.mapping);
      var v := LayTable(t.offset, m.vmap, seen.vmap);
      var g := LayTable(v.offset, m.gcMap, seen.gcMap);
      MethodLaid(g.offset,
                 MethodOffsets(c.recorded, m.frameSize, m.coreSpillMask, m.fpSpillMask, t.recorded, v.recorded,
                               g.recorded), Dedup(c.seen, t.seen, v.seen, g.seen))
  }

  const NONE_SEEN: Dedup := Dedup(map[], map[], map[], map[])

  // The offset and the maps after the first i methods.
  function LayMethods(in_: Input, i: nat): MethodLaid
    requires i <= |MethodsIn(in_)|
  {
    if i == 0 then MethodLaid(CodeStart(in_), NO_METHOD, NONE_SEEN)
    else
      var before := LayMethods(in_, i - 1);
      LayMethod(before.offset, MethodsIn(in_)[i - 1], in_.isa, before.seen)
  }

  // What is recorded for method i.
  function Recorded(in_: Input, i: nat): MethodOffsets
    requires i < |MethodsIn(in_)|
  {
    LayMethods(in_, i + 1).recorded
  }

  function MethodsIn(in_: Input): seq<Method> { AllMethods(AllClasses(in_.dexFiles)) }

  function FinalLayout(in_: Input): MethodLaid { LayMethods(in_, |MethodsIn(in_)|) }

  // `size_`.
  function TotalSize(in_: Input): nat { FinalLayout(in_).offset }
}
