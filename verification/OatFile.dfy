/** `OatFile`, the runtime's reader of oat files: what it finds in the bytes that `OatWriter` has written. */
module OatFile {
  import opened Bytes
  import opened OatLayout

  const UINT32: nat := 0x1_0000_0000

  // ---- the reader ----------------------------------------------------------------------------------

  // A word, the low byte first; beyond the end nothing is there.
  function Get32(oat: seq<Byte>, at: int): nat {
    if 0 <= at && at + 4 <= |oat| then
      var a: nat, b: nat, c: nat, d: nat := oat[at], oat[at + 1], oat[at + 2], oat[at + 3];
      a + 0x100 * b + 0x1_0000 * c + 0x100_0000 * d
    else 0
  }

  function Slice(oat: seq<Byte>, at: int, n: nat): seq<Byte> {
    if 0 <= at && at + n <= |oat| then oat[at..at + n] else []
  }

  // `OatHeader`.
  datatype OatHeader = OatHeader(magicAndVersion: seq<Byte>, adler32: nat, instructionSet: nat, dexFileCount: nat,
                                 executableOffset: nat, trampolineOffsets: seq<nat>, imageOatChecksum: nat,
                                 imageOatBegin: nat, imageLocation: seq<Byte>)

  function GetOatHeader(oat: seq<Byte>): OatHeader {
    OatHeader(Slice(oat, 0, 8), Get32(oat, 8), Get32(oat, 12), Get32(oat, 16), Get32(oat, 20),
              [Get32(oat, 24), Get32(oat, 28), Get32(oat, 32), Get32(oat, 36), Get32(oat, 40), Get32(oat, 44),
               Get32(oat, 48)],
              Get32(oat, 52), Get32(oat, 56), Slice(oat, 64, Get32(oat, 60)))
  }

  // `OatFile::OatDexFile`: what `Setup` keeps of the record of a dex file.
  datatype DexFileEntry = DexFileEntry(location: seq<Byte>, checksum: nat, dexFileOffset: nat, classOffsetsAt: nat)

  function GetDexFileEntry(oat: seq<Byte>, at: nat): DexFileEntry {
    var n := Get32(oat, at);
    DexFileEntry(Slice(oat, at + 4, n), Get32(oat, at + 4 + n), Get32(oat, at + 8 + n), at + 12 + n)
  }

  // Where the record of dex file i is, the records before it being of dex files with that many classes.
  function RecordAt(oat: seq<Byte>, classDefs: seq<nat>, i: nat): nat
    requires i <= |classDefs|
  {
    if i == 0 then 64 + Get32(oat, 60)
    else GetDexFileEntry(oat, RecordAt(oat, classDefs, i - 1)).classOffsetsAt + 4 * classDefs[i - 1]
  }

  lemma FirstRecord(oat: seq<Byte>, classDefs: seq<nat>)
    ensures RecordAt(oat, classDefs, 0) == 64 + Get32(oat, 60)
  {
  }

  lemma NextRecord(oat: seq<Byte>, classDefs: seq<nat>, i: nat)
    requires i < |classDefs|
    ensures var at := RecordAt(oat, classDefs, i);
            RecordAt(oat, classDefs, i + 1) == at + 12 + Get32(oat, at) + 4 * classDefs[i]
  {
  }

  // The location is not empty, and the record and the start of the dex file are within the file.
  predicate IsRecord(oat: seq<Byte>, at: nat, classDefs: nat) {
    var f := GetDexFileEntry(oat, at);
    Get32(oat, at) != 0 && f.classOffsetsAt + 4 * classDefs <= |oat| && 0 < f.dexFileOffset <= |oat|
  }

  /** `Setup`: the records one after the other. */
  method Setup(oat: seq<Byte>, classDefs: seq<nat>) returns (ok: bool, files: seq<DexFileEntry>)
    requires |classDefs| == GetOatHeader(oat).dexFileCount
    ensures |files| <= |classDefs| && (ok ==> |files| == |classDefs|)
    ensures forall i :: 0 <= i < |files| ==> files[i] == GetDexFileEntry(oat, RecordAt(oat, classDefs, i))
    ensures ok <==>
              && RecordAt(oat, classDefs, 0) <= |oat|
              && forall i :: 0 <= i < |classDefs| ==> IsRecord(oat, RecordAt(oat, classDefs, i), classDefs[i])
  {
    hide Get32, GetOatHeader, RecordAt, Slice;
    FirstRecord(oat, classDefs);
    files := [];
    var at: nat := 64;
    if at > |oat| { return false, files; }
    at := at + Get32(oat, 60);
    if at > |oat| { return false, files; }
    for i := 0 to |classDefs|
      invariant at == RecordAt(oat, classDefs, i) && |files| == i
      invariant forall k :: 0 <= k < i ==> files[k] == GetDexFileEntry(oat, RecordAt(oat, classDefs, k))
      invariant RecordAt(oat, classDefs, 0) <= |oat|
      invariant forall k :: 0 <= k < i ==> IsRecord(oat, RecordAt(oat, classDefs, k), classDefs[k])
    {
      NextRecord(oat, classDefs, i);
      var size := Get32(oat, at);
      if size == 0 { return false, files; }
      at := at + 4;
      if at > |oat| { return false, files; }
      var location := Slice(oat, at, size);
      at := at + size;
      if at > |oat| { return false, files; }
      var checksum := Get32(oat, at);
      at := at + 4;
      if at > |oat| { return false, files; }
      var dexFileOffset := Get32(oat, at);
      if dexFileOffset == 0 || dexFileOffset > |oat| { return false, files; }
      at := at + 4;
      if at > |oat| { return false, files; }
      var classOffsetsAt := at;
      at := at + 4 * classDefs[i];
      if at > |oat| { return false, files; }
      files := files + [DexFileEntry(location, checksum, dexFileOffset, classOffsetsAt)];
    }
    ok := true;
  }

  // `OatMethodOffsets` in their order in memory.
  datatype OatMethod = OatMethod(codeOffset: nat, frameSize: nat, coreSpillMask: nat, fpSpillMask: nat,
                                 mappingTableOffset: nat, vmapTableOffset: nat, gcMapOffset: nat)

  function GetOatMethod(oat: seq<Byte>, methodsAt: int, m: nat): OatMethod {
    var at := methodsAt + 28 * m;
    OatMethod(Get32(oat, at), Get32(oat, at + 4), Get32(oat, at + 8), Get32(oat, at + 12), Get32(oat, at + 16),
              Get32(oat, at + 20), Get32(oat, at + 24))
  }

  // The low bit of a code offset only says that the code is Thumb code; the size stands before the code.
  function CodeAt(o: OatMethod): nat { o.codeOffset - o.codeOffset % 2 }

  function GetCode(oat: seq<Byte>, o: OatMethod): seq<Byte> {
    Slice(oat, CodeAt(o), Get32(oat, CodeAt(o) - 4))
  }

  // ---- what it should find -------------------------------------------------------------------------

  // Offset 0 is no table.
  predicate FindsTable(oat: seq<Byte>, offset: nat, table: seq<Byte>) {
    if table == [] then offset == 0 else offset > 0 && Slice(oat, offset, |table|) == table
  }

  predicate FindsMethod(oat: seq<Byte>, isa: InstructionSet, m: Method, o: OatMethod) {
    if m.NotCompiled? then o == OatMethod(0, 16, 0, 0, 0, 0, 0)
    else
      && GetCode(oat, o) == m.code.bytes && Get32(oat, CodeAt(o) - 4) == |m.code.bytes|
      && (o.codeOffset % 2 == 1 <==> isa.Thumb2?)
      && (CodeAt(o) - 4) % (if isa.X86? then 16 else 8) == 0 && GetOatHeader(oat).executableOffset <= CodeAt(o) - 4
      && o.frameSize == m.frameSize && o.coreSpillMask == m.coreSpillMask && o.fpSpillMask == m.fpSpillMask
      && FindsTable(oat, o.mappingTableOffset, m.mapping.bytes) && FindsTable(oat, o.vmapTableOffset, m.vmap.bytes)
      && FindsTable(oat, o.gcMapOffset, m.gcMap.bytes)
  }

  // The status of a class, and its methods behind it.
  predicate FindsClass(oat: seq<Byte>, isa: InstructionSet, klass: Klass, at: nat) {
    && Get32(oat, at) == klass.status
    && forall m :: 0 <= m < |klass.methods| ==> FindsMethod(oat, isa, klass.methods[m], GetOatMethod(oat, at + 4, m))
  }

  predicate FindsDexFile(oat: seq<Byte>, isa: InstructionSet, d: DexFile, f: DexFileEntry) {
    && f.location == d.location && f.checksum == d.checksum
    && f.dexFileOffset % 4 == 0 && Slice(oat, f.dexFileOffset, |d.bytes|) == d.bytes
    && forall j :: 0 <= j < |d.classes| ==>
         FindsClass(oat, isa, d.classes[j], Get32(oat, f.classOffsetsAt + 4 * j))
  }

  predicate FindsTrampoline(oat: seq<Byte>, in_: Input, i: nat, offset: nat)
    requires i < |in_.trampolines|
  {
    if in_.isImage then
      && offset % (if in_.isa.X86? then 16 else 8) == 0
      && Slice(oat, offset, |in_.trampolines[i]|) == in_.trampolines[i]
    else offset == 0
  }

  predicate FindsHeader(oat: seq<Byte>, in_: Input) {
    var h := GetOatHeader(oat);
    && h.magicAndVersion == in_.magicAndVersion && h.adler32 == in_.adler32 && h.instructionSet == in_.isaCode
    && h.dexFileCount == |in_.dexFiles| && h.executableOffset % 4096 == 0
    && h.imageOatChecksum == in_.oatChecksum && h.imageOatBegin == in_.oatBegin && h.imageLocation == in_.location
    && |in_.trampolines| == 7
    && forall i :: 0 <= i < 7 ==> FindsTrampoline(oat, in_, i, h.trampolineOffsets[i])
  }

  function ClassDefs(in_: Input): (counts: seq<nat>)
    ensures |counts| == |in_.dexFiles|
    ensures forall i :: 0 <= i < |counts| ==> counts[i] == |in_.dexFiles[i].classes|
  {
    seq(|in_.dexFiles|, i requires 0 <= i < |in_.dexFiles| => |in_.dexFiles[i].classes|)
  }

  /** The reader finds everything the writer was given. */
  predicate FindsAll(oat: seq<Byte>, in_: Input) {
    && FindsHeader(oat, in_)
    && forall i :: 0 <= i < |in_.dexFiles| ==>
         FindsDexFile(oat, in_.isa, in_.dexFiles[i], GetDexFileEntry(oat, RecordAt(oat, ClassDefs(in_), i)))
  }

  // Every number that is written fits into a word.
  predicate FitsMethod(m: Method) {
    m.Compiled? ==> m.frameSize < UINT32 && m.coreSpillMask < UINT32 && m.fpSpillMask < UINT32
  }

  predicate FitsDexFile(d: DexFile) {
    && d.checksum < UINT32
    && forall k :: k in d.classes ==> k.status < UINT32 && forall m :: m in k.methods ==> FitsMethod(m)
  }

  predicate Fits(in_: Input) {
    && in_.adler32 < UINT32 && in_.isaCode < UINT32 && in_.oatChecksum < UINT32 && in_.oatBegin < UINT32
    && TotalSize(in_) < UINT32 && forall d :: d in in_.dexFiles ==> FitsDexFile(d)
  }
}
