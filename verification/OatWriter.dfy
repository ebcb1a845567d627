/** `OatWriter`: the layout pass of its constructor and the write pass of `Write`. */
module OatWriter {
  import opened Bytes
  import opened OutputStreams
  import opened Sequences
  import opened Alignment
  import opened OatLayout
  import opened OatBlobs
  import opened OatPieces

  // ---- nested lists, numbered --------------------------------------------------------------------------

  // The number of the first class of dex file i.
  function FirstClass(dexFiles: seq<DexFile>, i: nat): nat
    requires i <= |dexFiles|
  {
    if i == 0 then 0 else FirstClass(dexFiles, i - 1) + |dexFiles[i - 1].classes|
  }

  lemma {:induction false} ClassIsNumbered(dexFiles: seq<DexFile>, i: nat, j: nat)
    requires i < |dexFiles| && j < |dexFiles[i].classes|
    ensures FirstClass(dexFiles, i) + j < |AllClasses(dexFiles)|
    ensures AllClasses(dexFiles)[FirstClass(dexFiles, i) + j] == dexFiles[i].classes[j]
  {
    var n := |dexFiles| - 1;
    ClassesCounted(dexFiles, n);
    if i < n { ClassIsNumbered(dexFiles[..n], i, j); FirstClassOfPrefix(dexFiles, n, i); }
  }

  lemma {:induction false} FirstClassOfPrefix(dexFiles: seq<DexFile>, n: nat, i: nat)
    requires i <= n <= |dexFiles|
    ensures FirstClass(dexFiles[..n], i) == FirstClass(dexFiles, i)
  {
    if i > 0 { FirstClassOfPrefix(dexFiles, n, i - 1); }
  }

  lemma {:induction false} ClassesCounted(dexFiles: seq<DexFile>, n: nat)
    requires n <= |dexFiles|
    ensures |AllClasses(dexFiles[..n])| == FirstClass(dexFiles, n)
  {
    if n > 0 {
      ClassesCounted(dexFiles, n - 1);
      assert dexFiles[..n][..n - 1] == dexFiles[..n - 1];
    }
  }

  lemma AllCounted(dexFiles: seq<DexFile>)
    ensures |AllClasses(dexFiles)| == FirstClass(dexFiles, |dexFiles|)
  {
    ClassesCounted(dexFiles, |dexFiles|);
    assert dexFiles[..|dexFiles|] == dexFiles;
  }

  // The number of the first method of class k.
  function FirstMethod(classes: seq<Klass>, k: nat): nat
    requires k <= |classes|
  {
    if k == 0 then 0 else FirstMethod(classes, k - 1) + |classes[k - 1].methods|
  }

  lemma {:induction false} FirstMethodOfPrefix(classes: seq<Klass>, n: nat, k: nat)
    requires k <= n <= |classes|
    ensures FirstMethod(classes[..n], k) == FirstMethod(classes, k)
  {
    if k > 0 { FirstMethodOfPrefix(classes, n, k - 1); }
  }

  lemma {:induction false} MethodsCounted(classes: seq<Klass>, n: nat)
    requires n <= |classes|
    ensures |AllMethods(classes[..n])| == FirstMethod(classes, n)
  {
    if n > 0 {
      MethodsCounted(classes, n - 1);
      assert classes[..n][..n - 1] == classes[..n - 1];
    }
  }

  lemma AllMethodsCounted(classes: seq<Klass>)
    ensures |AllMethods(classes)| == FirstMethod(classes, |classes|)
  {
    MethodsCounted(classes, |classes|);
    assert classes[..|classes|] == classes;
  }

  lemma {:induction false} MethodIsNumbered(classes: seq<Klass>, k: nat, m: nat)
    requires k < |classes| && m < |classes[k].methods|
    ensures FirstMethod(classes, k) + m < |AllMethods(classes)|
    ensures AllMethods(classes)[FirstMethod(classes, k) + m] == classes[k].methods[m]
  {
    var n := |classes| - 1;
    MethodsCounted(classes, n);
    if k < n { MethodIsNumbered(classes[..n], k, m); FirstMethodOfPrefix(classes, n, k); }
  }

  // ---- what is laid out --------------------------------------------------------------------------------

  datatype OatDexFile = OatDexFile(offset: nat, dexFileOffset: nat, methodsOffsets: seq<nat>)

  datatype OatClass = OatClass(offset: nat, status: nat, methodOffsets: seq<MethodOffsets>)

  // The writer's counters; the seven trampoline counters are one here.
  datatype Stats = Stats(oatHeader: nat, location: nat, dexLocationSize: nat, dexLocationData: nat,
                         dexLocationChecksum: nat, dexFileOffset: nat, methodsOffsets: nat, dexFile: nat,
                         dexFileAlignment: nat, classStatus: nat, classMethodOffsets: nat,
                         executableAlignment: nat, trampolines: nat, trampolineAlignment: nat,
                         codeAlignment: nat, codeSize: nat, code: nat, mappingTable: nat, vmapTable: nat, gcMap: nat)
  {
    function Sum(): nat {
      oatHeader + location + dexLocationSize + dexLocationData + dexLocationChecksum + dexFileOffset + methodsOffsets +
      dexFile + dexFileAlignment + classStatus + classMethodOffsets + executableAlignment + trampolines +
      trampolineAlignment + codeAlignment + codeSize + code + mappingTable + vmapTable + gcMap
    }
  }

  const NO_STATS: Stats := Stats(0, 0, 0, 0, 0, 0, 0, 0, 0, 0, 0, 0, 0, 0, 0, 0, 0, 0, 0, 0)

  // The records of dex files are where they belong and say where their dex files and classes are.
  ghost predicate DexFilesLaid(in_: Input, files: seq<OatDexFile>) {
    && |files| == |in_.dexFiles|
    && forall i :: 0 <= i < |files| ==> DexFileLaid(in_, files[i], i)
  }

  ghost predicate DexFileLaid(in_: Input, file: OatDexFile, i: int)
    requires 0 <= i < |in_.dexFiles|
  {
    && file.offset == DexRecordAt(in_, i) && file.dexFileOffset == DexCopyAt(in_, i)
    && |file.methodsOffsets| == |in_.dexFiles[i].classes|
    && forall j :: 0 <= j < |file.methodsOffsets| ==> ClassOffset(in_, i, j, file.methodsOffsets[j])
  }

  ghost predicate ClassOffset(in_: Input, i: nat, j: nat, offset: nat)
    requires i < |in_.dexFiles| && j < |in_.dexFiles[i].classes|
  {
    var k := FirstClass(in_.dexFiles, i) + j;
    k <= |AllClasses(in_.dexFiles)| && offset == ClassRecordAt(in_, k)
  }

  ghost predicate ClassesLaid(in_: Input, classes: seq<OatClass>) {
    && |classes| == |AllClasses(in_.dexFiles)|
    && forall k :: 0 <= k < |classes| ==> ClassLaid(in_, classes[k], k)
  }

  ghost predicate ClassLaid(in_: Input, c: OatClass, k: int)
    requires 0 <= k < |AllClasses(in_.dexFiles)|
  {
    var klass := AllClasses(in_.dexFiles)[k];
    && c.offset == ClassRecordAt(in_, k) && c.status == klass.status && |c.methodOffsets| == |klass.methods|
    && forall m :: 0 <= m < |c.methodOffsets| ==> MethodRecorded(in_, k, m, c.methodOffsets[m])
  }

  ghost predicate MethodRecorded(in_: Input, k: nat, m: nat, offsets: MethodOffsets)
    requires k < |AllClasses(in_.dexFiles)|
  {
    var n := FirstMethod(AllClasses(in_.dexFiles), k) + m;
    n < |MethodsIn(in_)| && offsets == Recorded(in_, n)
  }

  // The offsets of the trampolines, or zeros.
  function TrampolineOffsets(in_: Input): seq<nat> {
    seq(|in_.trampolines|, i requires 0 <= i < |in_.trampolines| => if in_.isImage then TrampolineAt(in_, i) else 0)
  }

  // ---- the layout pass ---------------------------------------------------------------------------------

  lemma NextClass(in_: Input, i: nat, j: nat)
    requires i < |in_.dexFiles| && j < |in_.dexFiles[i].classes|
    ensures var k := FirstClass(in_.dexFiles, i) + j;
            && k < |AllClasses(in_.dexFiles)| && AllClasses(in_.dexFiles)[k] == in_.dexFiles[i].classes[j]
            && ClassRecordAt(in_, k + 1) == ClassRecordAt(in_, k) + ClassRecordSize(in_.dexFiles[i].classes[j])
  {
    ClassIsNumbered(in_.dexFiles, i, j);
  }

  lemma NextMethod(in_: Input, k: nat, m: nat)
    requires k < |AllClasses(in_.dexFiles)| && m < |AllClasses(in_.dexFiles)[k].methods|
    ensures var n := FirstMethod(AllClasses(in_.dexFiles), k) + m;
            && n < |MethodsIn(in_)| && MethodsIn(in_)[n] == AllClasses(in_.dexFiles)[k].methods[m]
            && LayMethods(in_, n + 1) ==
                 LayMethod(LayMethods(in_, n).offset, MethodsIn(in_)[n], in_.isa, LayMethods(in_, n).seen)
  {
    MethodIsNumbered(AllClasses(in_.dexFiles), k, m);
  }

  // One step of each of the positions, for loops that hide their definitions.
  lemma NextDexRecord(in_: Input, i: nat)
    requires i < |in_.dexFiles|
    ensures DexRecordAt(in_, i + 1) == DexRecordAt(in_, i) + DexRecordSize(in_.dexFiles[i])
  {
  }

  lemma NextDexCopy(in_: Input, i: nat)
    requires i < |in_.dexFiles|
    ensures DexCopyAt(in_, i) == RoundUp(DexCopyEnd(in_, i), 4) >= DexCopyEnd(in_, i)
    ensures DexCopyEnd(in_, i + 1) == DexCopyAt(in_, i) + |in_.dexFiles[i].bytes|
    ensures DexPadding(in_, i + 1) == DexPadding(in_, i) + DexCopyAt(in_, i) - DexCopyEnd(in_, i)
  {
    RoundUpIsNext(DexCopyEnd(in_, i), 4);
  }

  lemma NoPadding(in_: Input)
    ensures DexCopyEnd(in_, 0) == DexRecordAt(in_, |in_.dexFiles|) && DexPadding(in_, 0) == 0
  {
  }

  function NoOffsets(n: nat): (offsets: seq<nat>)
    ensures |offsets| == n
  {
    seq(n, i => 0)
  }

  // The padding before the first n copies.
  function DexPadding(in_: Input, n: nat): nat
    requires n <= |in_.dexFiles|
  {
    if n == 0 then 0 else DexPadding(in_, n - 1) + (4 - DexCopyEnd(in_, n - 1) % 4) % 4
  }

  class OatWriter {
    const in_: Input
    var oatDexFiles: seq<OatDexFile>
    var oatClasses: seq<OatClass>
    var executableOffset: nat
    var trampolineOffsets: seq<nat>
    var seen: Dedup
    var size: nat
    var stats: Stats

    // Everything the constructor computes.
    ghost predicate LaidOut()
      reads this
    {
      && DexFilesLaid(in_, oatDexFiles) && ClassesLaid(in_, oatClasses)
      && executableOffset == ExecutableAt(in_) && trampolineOffsets == TrampolineOffsets(in_)
      && seen == FinalLayout(in_).seen && size == TotalSize(in_)
    }

    method InitOatDexFiles(start: nat) returns (offset: nat)
      requires start == DexRecordAt(in_, 0) && oatDexFiles == []
      modifies this`oatDexFiles
      ensures offset == DexRecordAt(in_, |in_.dexFiles|) && |oatDexFiles| == |in_.dexFiles|
      ensures forall i :: 0 <= i < |oatDexFiles| ==>
                oatDexFiles[i].offset == DexRecordAt(in_, i) &&
                    |oatDexFiles[i].methodsOffsets| == |in_.dexFiles[i].classes|
    {
      hide DexRecordAt, DexRecordSize;
      offset := start;
      for i := 0 to |in_.dexFiles|
        invariant offset == DexRecordAt(in_, i) && |oatDexFiles| == i
        invariant forall k :: 0 <= k < i ==>
                    oatDexFiles[k].offset == DexRecordAt(in_, k) &&
                        |oatDexFiles[k].methodsOffsets| == |in_.dexFiles[k].classes|
      {
        NextDexRecord(in_, i);
        oatDexFiles := oatDexFiles + [OatDexFile(offset, 0, NoOffsets(|in_.dexFiles[i].classes|))];
        offset := offset + DexRecordSize(in_.dexFiles[i]);
      }
    }

    // The offsets of the copies of the dex files.
    ghost predicate RecordsPlaced(n: nat)
      reads this
    {
      && |oatDexFiles| == |in_.dexFiles| && n <= |oatDexFiles|
      && forall i :: 0 <= i < |oatDexFiles| ==>
           && oatDexFiles[i].offset == DexRecordAt(in_, i) &&
                |oatDexFiles[i].methodsOffsets| == |in_.dexFiles[i].classes|
           && (i < n ==> oatDexFiles[i].dexFileOffset == DexCopyAt(in_, i))
    }

    method InitDexFiles(start: nat) returns (offset: nat)
      requires start == DexRecordAt(in_, |in_.dexFiles|) && RecordsPlaced(0)
      modifies this`oatDexFiles, this`stats
      ensures offset == DexCopyEnd(in_, |in_.dexFiles|) && RecordsPlaced(|in_.dexFiles|)
      ensures stats == old(stats).(dexFileAlignment := stats.dexFileAlignment)
      ensures stats.dexFileAlignment == old(stats).dexFileAlignment + DexPadding(in_, |in_.dexFiles|)
    {
      hide RoundUp, DexRecordAt, DexCopyAt, DexCopyEnd, DexPadding;
      NoPadding(in_);
      offset := start;
      for i := 0 to |in_.dexFiles|
        invariant offset == DexCopyEnd(in_, i) && RecordsPlaced(i)
        invariant stats == old(stats).(dexFileAlignment := old(stats).dexFileAlignment + DexPadding(in_, i))
      {
        var original := offset;
        NextDexCopy(in_, i);
        offset := RoundUp(offset, 4);
        stats := stats.(dexFileAlignment := stats.dexFileAlignment + (offset - original));
        oatDexFiles := oatDexFiles[i := oatDexFiles[i].(dexFileOffset := offset)];
        offset := offset + |in_.dexFiles[i].bytes|;
      }
    }

    // The first n classes have their records.
    ghost predicate ClassesPlaced(n: nat)
      reads this
    {
      && |oatClasses| == n <= |AllClasses(in_.dexFiles)|
      && forall k :: 0 <= k < n ==> ClassPlaced(in_, oatClasses[k], k)
    }

    // Up to class j of dex file i the records of dex files say where the classes are.
    ghost predicate FilesLaidTo(i: nat, j: nat)
      reads this
    {
      && |oatDexFiles| == |in_.dexFiles| && i <= |oatDexFiles|
      && (forall f :: 0 <= f < |oatDexFiles| ==>
            FileHasClasses(in_, oatDexFiles[f], f,
                if f < i then |in_.dexFiles[f].classes| else if f == i then j else 0))
    }

    /** `InitOatClasses`. */
    method InitOatClasses(start: nat) returns (offset: nat)
      requires start == ClassRecordAt(in_, 0) && oatClasses == [] && RecordsPlaced(|in_.dexFiles|)
      modifies this`oatDexFiles, this`oatClasses
      ensures offset == TablesEnd(in_) && DexFilesLaid(in_, oatDexFiles) && ClassesPlaced(|AllClasses(in_.dexFiles)|)
    {
      hide ClassRecordAt, ClassRecordSize, DexRecordAt, DexCopyAt, FileHasClasses, ClassPlaced, ClassOffset, AllClasses,
           DexFileLaid;
      offset := start;
      AllCounted(in_.dexFiles);
      StartsLaid(in_, oatDexFiles);
      for i := 0 to |in_.dexFiles|
        invariant FilesLaidTo(i, 0) && ClassesPlaced(FirstClass(in_.dexFiles, i))
        invariant offset == ClassRecordAt(in_, FirstClass(in_.dexFiles, i))
      {
        for j := 0 to |in_.dexFiles[i].classes|
          invariant FirstClass(in_.dexFiles, i) + j <= |AllClasses(in_.dexFiles)|
          invariant offset == ClassRecordAt(in_, FirstClass(in_.dexFiles, i) + j)
          invariant FilesLaidTo(i, j) && ClassesPlaced(FirstClass(in_.dexFiles, i) + j)
        {
          NextClass(in_, i, j);
          var klass := in_.dexFiles[i].classes[j];
          FileGains(in_, oatDexFiles[i], i, j, offset);
          var file := oatDexFiles[i];
          oatDexFiles := oatDexFiles[i := file.(methodsOffsets := file.methodsOffsets[j := offset])];
          ClassIsPlaced(in_, FirstClass(in_.dexFiles, i) + j, offset, klass);
          oatClasses := oatClasses + [OatClass(offset, klass.status, NoMethods(|klass.methods|))];
          offset := offset + ClassRecordSize(klass);
        }
        NothingOfNext(in_, oatDexFiles, i);
      }
      FilesAreLaid(in_, oatDexFiles);
    }

    /** `InitOatCode`: code starts on a new page, with the trampolines if there are any. */
    method InitOatCode(start: nat) returns (offset: nat)
      requires start == TablesEnd(in_) && Valid(in_)
      modifies this`executableOffset, this`trampolineOffsets, this`stats
      ensures offset == CodeStart(in_) && executableOffset == ExecutableAt(in_)
      ensures trampolineOffsets == TrampolineOffsets(in_)
      ensures stats == old(stats).(executableAlignment := ExecutablePadding(in_))
    {
      hide RoundUp, TrampolinesEnd, TrampolineAt, ClassRecordAt;
      offset := start;
      RoundUpIsNext(offset, PAGE_SIZE);
      offset := RoundUp(offset, PAGE_SIZE);
      executableOffset := offset;
      ExecutablePaddingIs(in_);
      stats := stats.(executableAlignment := offset - start);
      trampolineOffsets := [];
      NoTrampolines(in_);
      for i := 0 to |in_.trampolines|
        invariant offset == (if in_.isImage then TrampolinesEnd(in_, i) else ExecutableAt(in_))
        invariant trampolineOffsets == TrampolineOffsets(in_)[..i] && executableOffset == ExecutableAt(in_)
        invariant stats == old(stats).(executableAlignment := ExecutablePadding(in_))
      {
        NextTrampoline(in_, i);
        if in_.isImage {
          offset := RoundUp(offset, in_.isa.Alignment());
          trampolineOffsets := trampolineOffsets + [offset];
          offset := offset + |in_.trampolines[i]|;
        } else {
          trampolineOffsets := trampolineOffsets + [0];
        }
      }
      assert TrampolineOffsets(in_)[..|in_.trampolines|] == TrampolineOffsets(in_);
    }

    // The first n classes know where the code of their methods is.
    ghost predicate ClassesCoded(n: nat)
      reads this
    {
      && |oatClasses| == |AllClasses(in_.dexFiles)| && n <= |oatClasses|
      && forall k :: 0 <= k < |oatClasses| ==>
           ClassCoded(in_, oatClasses[k], k, if k < n then |AllClasses(in_.dexFiles)[k].methods| else 0)
    }

    /** `InitOatCodeDexFiles`, `InitOatCodeDexFile`. */
    method InitOatCodeDexFiles(start: nat) returns (offset: nat)
      requires Valid(in_) && start == CodeStart(in_) && seen == NONE_SEEN && ClassesPlaced(|AllClasses(in_.dexFiles)|)
      modifies this`seen, this`oatClasses
      ensures offset == TotalSize(in_) && seen == FinalLayout(in_).seen && ClassesLaid(in_, oatClasses)
    {
      hide LayMethod, ClassCoded, ClassPlaced, ClassLaid, Valid, AllClasses, MethodsIn, LaidTo;
      LaysNothing(in_);
      offset := start;
      AllCounted(in_.dexFiles);
      MethodsAreCounted(in_);
      PlacedIsCoded(in_, oatClasses);
      var oatClassIndex := 0;
      ghost var classes := AllClasses(in_.dexFiles);
      for i := 0 to |in_.dexFiles|
        invariant oatClassIndex == FirstClass(in_.dexFiles, i) && ClassesCoded(oatClassIndex)
        invariant FirstMethod(classes, oatClassIndex) <= |MethodsIn(in_)|
        invariant LaidTo(in_, FirstMethod(classes, oatClassIndex), offset, seen)
      {
        for j := 0 to |in_.dexFiles[i].classes|
          invariant oatClassIndex == FirstClass(in_.dexFiles, i) + j && ClassesCoded(oatClassIndex)
          invariant FirstMethod(classes, oatClassIndex) <= |MethodsIn(in_)|
          invariant LaidTo(in_, FirstMethod(classes, oatClassIndex), offset, seen)
        {
          NextClass(in_, i, j);
          offset := InitOatCodeClassDef(offset, oatClassIndex, in_.dexFiles[i].classes[j]);
          oatClassIndex := oatClassIndex + 1;
        }
      }
      CodedIsLaid(in_, oatClasses);
      LaidToEnd(in_, offset, seen);
    }

    /** `InitOatCodeClassDef`. */
    method InitOatCodeClassDef(start: nat, k: nat, klass: Klass) returns (offset: nat)
      requires Valid(in_) && k < |AllClasses(in_.dexFiles)| && AllClasses(in_.dexFiles)[k] == klass && ClassesCoded(k)
      requires FirstMethod(AllClasses(in_.dexFiles), k) <= |MethodsIn(in_)|
      requires LaidTo(in_, FirstMethod(AllClasses(in_.dexFiles), k), start, seen)
      modifies this`seen, this`oatClasses
      ensures ClassesCoded(k + 1)
      ensures FirstMethod(AllClasses(in_.dexFiles), k + 1) <= |MethodsIn(in_)|
      ensures LaidTo(in_, FirstMethod(AllClasses(in_.dexFiles), k + 1), offset, seen)
    {
      hide LayMethod, ClassCoded, Valid, AllClasses;
      offset := start;
      ghost var first := FirstMethod(AllClasses(in_.dexFiles), k);
      for m := 0 to |klass.methods|
        invariant first + m <= |MethodsIn(in_)| && LaidTo(in_, first + m, offset, seen)
        invariant |oatClasses| == |AllClasses(in_.dexFiles)|
        invariant forall c :: 0 <= c < |oatClasses| ==>
                    ClassCoded(in_, oatClasses[c], c,
                        if c < k then |AllClasses(in_.dexFiles)[c].methods| else if c == k then m else 0)
      {
        NextMethod(in_, k, m);
        var offsets;
        CodeNotEmpty(in_, first + m);
        offset, offsets := InitOatCodeMethod(offset, klass.methods[m]);
        ClassGains(in_, oatClasses[k], k, m, offsets);
        var c := oatClasses[k];
        oatClasses := oatClasses[k := c.(methodOffsets := c.methodOffsets[m := offsets])];
      }
    }

    // Deduplicates code arrays.
    method InitCode(start: nat, code: Blob) returns (offset: nat, codeOffset: nat)
      modifies this`seen
      ensures Laid(offset, codeOffset, seen.code) == LayCode(start, code, in_.isa.CodeDelta(), old(seen.code))
      ensures seen == old(seen).(code := seen.code)
    {
      offset := start;
      codeOffset := offset + 4 + in_.isa.CodeDelta();
      if code in seen.code {
        codeOffset := seen.code[code];
      } else {
        seen := seen.(code := seen.code[code := codeOffset]);
        offset := offset + 4;
        offset := offset + |code.bytes|;
      }
    }

    // Deduplicates one kind of tables.
    method InitTable(start: nat, table: Blob, offsets: map<Blob, nat>)
      returns (offset: nat, tableOffset: nat, offsets': map<Blob, nat>)
      ensures Laid(offset, tableOffset, offsets') == LayTable(start, table, offsets)
    {
      offset, offsets' := start, offsets;
      tableOffset := if |table.bytes| == 0 then 0 else offset;
      if table in offsets {
        tableOffset := offsets[table];
      } else {
        offsets' := offsets[table := tableOffset];
        offset := offset + |table.bytes|;
      }
    }

    /** `InitOatCodeMethod`. */
    method InitOatCodeMethod(start: nat, m: Method) returns (offset: nat, offsets: MethodOffsets)
      requires m.Compiled? ==> m.code.bytes != []
      modifies this`seen
      ensures MethodLaid(offset, offsets, seen) == LayMethod(start, m, in_.isa, old(seen))
    {
      hide RoundUp, LayTable, LayCode;
      offset, offsets := start, NO_METHOD;
      if m.Compiled? {
        offset := RoundUp(offset, in_.isa.Alignment());
        var codeOffset, mappingOffset, vmapOffset, gcMapOffset, mapping, vmap, gcMap;
        offset, codeOffset := InitCode(offset, m.code);
        offset, mappingOffset, mapping := InitTable(offset, m.mapping, seen.mapping);
        offset, vmapOffset, vmap := InitTable(offset, m.vmap, seen.vmap);
        offset, gcMapOffset, gcMap := InitTable(offset, m.gcMap, seen.gcMap);
        seen := seen.(mapping := mapping, vmap := vmap, gcMap := gcMap);
        offsets := MethodOffsets(codeOffset, m.frameSize, m.coreSpillMask, m.fpSpillMask, mappingOffset, vmapOffset,
            gcMapOffset);
      }
    }

    /** The constructor: the whole layout. */
    constructor (in_: Input)
      requires Valid(in_)
      ensures this.in_ == in_ && LaidOut() && stats == PaddingStats(in_)
    {
      this.in_ := in_;
      oatDexFiles, oatClasses, executableOffset, trampolineOffsets := [], [], 0, [];
      seen, size, stats := NONE_SEEN, 0, NO_STATS;
      new;
      hide ClassesLaid, DexFilesLaid, Valid, ExecutablePadding, DexPadding, FinalLayout, ExecutableAt, TablesEnd,
           CodeStart, TrampolineOffsets, TotalSize, ClassPlaced;
      var offset := InitTables();
      offset := InitOatCode(offset);
      offset := InitOatCodeDexFiles(offset);
      size := offset;
    }

    // The three lists of records.
    method InitTables() returns (offset: nat)
      requires oatDexFiles == [] && oatClasses == [] && stats == NO_STATS
      modifies this`oatDexFiles, this`oatClasses, this`stats
      ensures offset == TablesEnd(in_) && DexFilesLaid(in_, oatDexFiles) && ClassesPlaced(|AllClasses(in_.dexFiles)|)
      ensures stats == NO_STATS.(dexFileAlignment := DexPadding(in_, |in_.dexFiles|))
    {
      hide DexFilesLaid, DexPadding, TablesEnd, ClassPlaced;
      offset := HEADER_SIZE + |in_.location|;
      offset := InitOatDexFiles(offset);
      offset := InitDexFiles(offset);
      offset := InitOatClasses(offset);
    }

    // ---- the write pass -----------------------------------------------------------------------------

    // The stream is at its end, and a buffered file would have got the same bytes.
    ghost predicate Appending(out: VectorOutputStream)
      reads out
    {
      out.Valid() && out.offset == |out.vector| && out.IsSteady()
    }

    method Emit(out: VectorOutputStream, b: seq<Byte>)
      requires Appending(out)
      modifies out
      ensures Appending(out) && out.vector == old(out.vector) + b
    {
      hide Steady, Mirrors, Highest, Run;
      OverlayAtEnd(out.vector, b);
      SteadyMore(out.Start(), |out.origin|, out.ops, Put(b));
      var ok := out.WriteFully(b);
    }

    // Leaves a gap up to a place at or after the end.
    method SeekOn(out: VectorOutputStream, expected: nat) returns (actual: int)
      requires Appending(out) && |out.vector| <= expected
      modifies out
      ensures Appending(out) && out.vector == Padded(old(out.vector), expected) && actual == expected
    {
      hide Steady, Mirrors, Highest, Run;
      SteadyMore(out.Start(), |out.origin|, out.ops, Go(expected, Set));
      actual := out.SeekTo(expected, Set);
    }

    // Leaves a gap of n bytes.
    method Skip(out: VectorOutputStream, n: nat) returns (position: int)
      requires Appending(out)
      modifies out
      ensures Appending(out) && out.vector == old(out.vector) + Zeros(n) && position == |out.vector|
    {
      hide Steady, Mirrors, Highest, Run;
      MirrorsPosition(out.vector, out.offset, out.Direct());
      SteadyMore(out.Start(), |out.origin|, out.ops, Go(n, Current));
      position := out.SeekTo(n, Current);
    }

    /** `OatDexFile::Write`. */
    method WriteOatDexFile(out: VectorOutputStream, i: nat)
      requires Appending(out) && i < |oatDexFiles| && i < |in_.dexFiles|
      modifies out, this`stats
      ensures Appending(out)
      ensures out.vector ==
              old(out.vector) +
              DexRecordBytes(in_.dexFiles[i], oatDexFiles[i].dexFileOffset, oatDexFiles[i].methodsOffsets)
      ensures stats.Sum() == old(stats).Sum() + |out.vector| - |old(out.vector)|
      ensures stats.executableAlignment == old(stats).executableAlignment
    {
      hide Appending;
      var d, file := in_.dexFiles[i], oatDexFiles[i];
      Emit(out, U32(|d.location|));
      stats := stats.(dexLocationSize := stats.dexLocationSize + 4);
      Emit(out, d.location);
      stats := stats.(dexLocationData := stats.dexLocationData + |d.location|);
      Emit(out, U32(d.checksum));
      stats := stats.(dexLocationChecksum := stats.dexLocationChecksum + 4);
      Emit(out, U32(file.dexFileOffset));
      stats := stats.(dexFileOffset := stats.dexFileOffset + 4);
      Emit(out, Words(file.methodsOffsets));
      stats := stats.(methodsOffsets := stats.methodsOffsets + 4 * |file.methodsOffsets|);
    }

    /** `OatClass::Write`. */
    method WriteOatClass(out: VectorOutputStream, k: nat)
      requires Appending(out) && k < |oatClasses|
      modifies out, this`stats
      ensures Appending(out)
      ensures out.vector == old(out.vector) + ClassRecordBytes(oatClasses[k].status, oatClasses[k].methodOffsets)
      ensures stats.Sum() == old(stats).Sum() + |out.vector| - |old(out.vector)|
      ensures stats.executableAlignment == old(stats).executableAlignment
    {
      hide Appending;
      Emit(out, U32(oatClasses[k].status));
      stats := stats.(classStatus := stats.classStatus + 4);
      Emit(out, MethodsBytes(oatClasses[k].methodOffsets));
      stats := stats.(classMethodOffsets := stats.classMethodOffsets + 28 * |oatClasses[k].methodOffsets|);
    }

    // So far: `offset` bytes written after v0, each piece in its place, every byte counted.
    ghost predicate Wrote(out: VectorOutputStream, v0: seq<Byte>, offset: nat, skipped: nat, pieces: seq<Piece>)
      reads this, out
    {
      && Appending(out) && |out.vector| == |v0| + offset && v0 <= out.vector && AllAt(out.vector, |v0|, pieces)
      && stats.Sum() + skipped == offset + PaddingStats(in_).Sum()
      && stats.executableAlignment == ExecutablePadding(in_)
    }

    /** `Write` up to the tables: the header and the location of the image. */
    method WriteHeader(out: VectorOutputStream, ghost v0: seq<Byte>)
      requires LaidOut() && Valid(in_) && Wrote(out, v0, 0, 0, [])
      modifies out, this`stats
      ensures Wrote(out, v0, DexRecordAt(in_, 0), 0, HeaderPieces(in_, executableOffset, trampolineOffsets))
    {
      hide AllAt, DexFilesLaid, ClassesLaid, TotalSize, ExecutableAt, TrampolineOffsets, FinalLayout, DexPadding,
           ExecutablePadding, Words;
      var header := HeaderBytes(in_, executableOffset, trampolineOffsets);
      SevenTrampolines(in_);
      HeaderLength(in_, executableOffset, trampolineOffsets);
      PieceAdded(out.vector, |v0|, 0, [], header);
      assert [] + [Piece(0, header)] == [Piece(0, header)];
      Emit(out, header);
      stats := stats.(oatHeader := stats.oatHeader + HEADER_SIZE);
      PieceAdded(out.vector, |v0|, HEADER_SIZE, [Piece(0, header)], in_.location);
      Emit(out, in_.location);
      stats := stats.(location := stats.location + |in_.location|);
      assert [Piece(0, header)] + [Piece(HEADER_SIZE, in_.location)] ==
             HeaderPieces(in_, executableOffset, trampolineOffsets);
    }

    /** The records of the dex files. */
    method WriteDexRecords(out: VectorOutputStream, ghost v0: seq<Byte>, ghost before: seq<Piece>)
      requires DexFilesLaid(in_, oatDexFiles) && Wrote(out, v0, DexRecordAt(in_, 0), 0, before)
      modifies out, this`stats
      ensures Wrote(out, v0, DexRecordAt(in_, |in_.dexFiles|), 0,
              before + DexRecordPieces(in_, oatDexFiles, |oatDexFiles|))
    {
      hide AllAt, DexPadding, ExecutablePadding, DexRecordAt, DexRecordBytes, Stats.Sum;
      assert before + [] == before;
      for i := 0 to |oatDexFiles|
        invariant Wrote(out, v0, DexRecordAt(in_, i), 0, before + DexRecordPieces(in_, oatDexFiles, i))
      {
        ghost var pieces := before + DexRecordPieces(in_, oatDexFiles, i);
        var d, file := in_.dexFiles[i], oatDexFiles[i];
        DexRecordFits(in_, oatDexFiles, i);
        PieceAdded(out.vector, |v0|, file.offset, pieces, DexRecordBytes(d, file.dexFileOffset, file.methodsOffsets));
        WriteOatDexFile(out, i);
        assert pieces + [Piece(file.offset, DexRecordBytes(d, file.dexFileOffset, file.methodsOffsets))] ==
               before + DexRecordPieces(in_, oatDexFiles, i + 1);
      }
    }

    /** The copies of the dex files; `ok` is false if a seek does not lead where it should. */
    method WriteDexFiles(out: VectorOutputStream, fileOffset: nat, ghost v0: seq<Byte>, ghost before: seq<Piece>)
      returns (ok: bool)
      requires DexFilesLaid(in_, oatDexFiles) && fileOffset == |v0|
      requires Wrote(out, v0, DexCopyEnd(in_, 0), 0, before)
      modifies out, this`stats
      ensures ok && Wrote(out, v0, DexCopyEnd(in_, |in_.dexFiles|), DexPadding(in_, |in_.dexFiles|),
                          before + DexCopyPieces(in_, oatDexFiles, |oatDexFiles|))
    {
      hide AllAt, ExecutablePadding, DexCopyEnd, DexCopyAt, DexPadding, RoundUp, PaddingStats, DexFilesLaid,
           Appending, Stats.Sum;
      assert before + [] == before;
      DexFilesCounted(in_, oatDexFiles);
      NoPadding(in_);
      for i := 0 to |oatDexFiles|
        invariant Wrote(out, v0, DexCopyEnd(in_, i), DexPadding(in_, i), before + DexCopyPieces(in_, oatDexFiles, i))
      {
        ghost var pieces := before + DexCopyPieces(in_, oatDexFiles, i);
        var d, file := in_.dexFiles[i], oatDexFiles[i];
        NextDexCopy(in_, i);
        DexCopyIsAt(in_, oatDexFiles, i);
        var expected := fileOffset + file.dexFileOffset;
        ghost var v := out.vector;
        var actual := SeekOn(out, expected);
        if actual != expected {
          return false;
        }
        AllPadded(v, expected, |v0|, pieces);
        PieceAdded(out.vector, |v0|, file.dexFileOffset, pieces, d.bytes);
        Emit(out, d.bytes);
        DexFileCounted(stats, |d.bytes|);
        stats := stats.(dexFile := stats.dexFile + |d.bytes|);
        assert pieces + [Piece(file.dexFileOffset, d.bytes)] == before + DexCopyPieces(in_, oatDexFiles, i + 1);
      }
      ok := true;
    }

    /** The records of the classes. */
    method WriteClassRecords(out: VectorOutputStream, ghost v0: seq<Byte>, ghost before: seq<Piece>)
      requires ClassesLaid(in_, oatClasses)
      requires Wrote(out, v0, ClassRecordAt(in_, 0), DexPadding(in_, |in_.dexFiles|), before)
      modifies out, this`stats
      ensures Wrote(out, v0, TablesEnd(in_), DexPadding(in_, |in_.dexFiles|),
              before + ClassPieces(oatClasses, |oatClasses|))
    {
      hide AllAt, DexPadding, ExecutablePadding, ClassRecordAt, ClassRecordBytes, Stats.Sum, PaddingStats;
      assert before + [] == before;
      for k := 0 to |oatClasses|
        invariant Wrote(out, v0, ClassRecordAt(in_, k), DexPadding(in_, |in_.dexFiles|),
                  before + ClassPieces(oatClasses, k))
      {
        ghost var pieces := before + ClassPieces(oatClasses, k);
        var c := oatClasses[k];
        ClassRecordFits(in_, oatClasses, k);
        PieceAdded(out.vector, |v0|, c.offset, pieces, ClassRecordBytes(c.status, c.methodOffsets));
        WriteOatClass(out, k);
        assert pieces + [Piece(c.offset, ClassRecordBytes(c.status, c.methodOffsets))] ==
               before + ClassPieces(oatClasses, k + 1);
      }
    }

    // All padding counted during layout has been skipped.
    ghost predicate WroteCode(out: VectorOutputStream, v0: seq<Byte>, offset: nat, pieces: seq<Piece>)
      reads this, out
    {
      Wrote(out, v0, offset, PaddingStats(in_).Sum(), pieces)
    }

    // `DO_TRAMPOLINE`
    method WriteTrampoline(out: VectorOutputStream, start: nat, i: nat, ghost v0: seq<Byte>, ghost pieces: seq<Piece>)
      returns (relativeOffset: nat)
      requires i < |in_.trampolines| && start == TrampolinesEnd(in_, i) && WroteCode(out, v0, start, pieces)
      modifies out, this`stats
      ensures relativeOffset == TrampolinesEnd(in_, i + 1)
      ensures WroteCode(out, v0, relativeOffset, pieces + [Piece(TrampolineAt(in_, i), in_.trampolines[i])])
    {
      hide AllAt, RoundUp, TrampolinesEnd, TrampolineAt, PaddingStats;
      NextTrampoline(in_, i);
      var aligned := RoundUp(start, in_.isa.Alignment());
      var padding := aligned - start;
      AllStay(out.vector, Zeros(padding), |v0|, pieces);
      var position := Skip(out, padding);
      stats := stats.(trampolineAlignment := stats.trampolineAlignment + padding);
      PieceAdded(out.vector, |v0|, aligned, pieces, in_.trampolines[i]);
      Emit(out, in_.trampolines[i]);
      stats := stats.(trampolines := stats.trampolines + |in_.trampolines[i]|);
      relativeOffset := start + padding + |in_.trampolines[i]|;
    }

    /** `WriteCode`: the trampolines. */
    method WriteCode(out: VectorOutputStream, fileOffset: nat, ghost v0: seq<Byte>, ghost before: seq<Piece>)
      returns (ok: bool, relativeOffset: nat)
      requires executableOffset == ExecutableAt(in_) && fileOffset == |v0| && Valid(in_)
      requires Wrote(out, v0, TablesEnd(in_), DexPadding(in_, |in_.dexFiles|), before)
      modifies out, this`stats
      ensures ok && relativeOffset == CodeStart(in_)
      ensures WroteCode(out, v0, relativeOffset,
              before + if in_.isImage then TrampolinePieces(in_, |in_.trampolines|) else [])
    {
      hide AllAt, DexPadding, RoundUp, TrampolinesEnd, TrampolineAt, ExecutablePadding, TablesEnd, Appending;
      ExecutablePaddingIs(in_);
      relativeOffset := executableOffset;
      ghost var v := out.vector;
      var position := Skip(out, stats.executableAlignment);
      if position != fileOffset + relativeOffset {
        ok := false;
        return;
      }
      AllStay(v, Zeros(stats.executableAlignment), |v0|, before);
      assert before + [] == before;
      if in_.isImage {
        NoTrampolines(in_);
        for i := 0 to |in_.trampolines|
          invariant relativeOffset == TrampolinesEnd(in_, i)
          invariant WroteCode(out, v0, relativeOffset, before + TrampolinePieces(in_, i))
        {
          relativeOffset := WriteTrampoline(out, relativeOffset, i, v0, before + TrampolinePieces(in_, i));
          assert before + TrampolinePieces(in_, i) + [Piece(TrampolineAt(in_, i), in_.trampolines[i])] ==
                 before + TrampolinePieces(in_, i + 1);
        }
      }
      ok := true;
    }

    // The blobs of d are in their places, and what follows the trampolines is just the listed ones.
    ghost predicate WroteBlobs(out: VectorOutputStream, v0: seq<Byte>, offset: nat, pieces: seq<Piece>, d: Dedup,
                               written: seq<Entry>)
      reads this, out
    {
      && WroteCode(out, v0, offset, pieces) && BlobsAt(out.vector, |v0|, d, in_.isa.CodeDelta())
      && Listed(d, written) && Filled(out.vector, |v0| + CodeStart(in_), written)
    }

    // Counts n bytes of a kind of table.
    method CountTable(kind: Kind, n: nat)
      requires !kind.CodeBlob?
      modifies this`stats
      ensures stats.Sum() == old(stats).Sum() + n && stats.executableAlignment == old(stats).executableAlignment
    {
      match kind
      case MappingTable => stats := stats.(mappingTable := stats.mappingTable + n);
      case VmapTable => stats := stats.(vmapTable := stats.vmapTable + n);
      case GcMap => stats := stats.(gcMap := stats.gcMap + n);
    }

    // One of the three tables of a method.
    method WriteTable(out: VectorOutputStream, position: nat, kind: Kind, table: Blob, recorded: nat,
                      all: map<Blob, nat>, ghost v0: seq<Byte>, ghost pieces: seq<Piece>, ghost d: Dedup,
                      ghost list: seq<Entry>)
      returns (relativeOffset: nat, ghost written: seq<Entry>)
      requires !kind.CodeBlob? && position > 0 && TableKnown(position, SeenOf(d, kind))
      requires recorded == LayTable(position, table, SeenOf(d, kind)).recorded
      requires Sub(LayTable(position, table, SeenOf(d, kind)).seen, all)
      requires WroteBlobs(out, v0, position, pieces, d, list)
      modifies out, this`stats
      ensures relativeOffset == LayTable(position, table, SeenOf(d, kind)).offset
      ensures WroteBlobs(out, v0, relativeOffset, pieces,
              With(d, kind, LayTable(position, table, SeenOf(d, kind)).seen), written)
    {
      hide AllAt, BlobsAt, Listed, Filled, With, LayTable, TableKnown, Sub, PaddingStats, Stats.Sum;
      relativeOffset, written := position, list;
      ghost var seen := SeenOf(d, kind);
      SkipsWrittenTables(position, table, seen, all);
      BlobsGrow(out.vector, |v0|, d, in_.isa.CodeDelta(), position, kind, table);
      if table in all && relativeOffset != recorded {
        ListStays(d, list, position, in_.isa.CodeDelta(), kind, table);
        assert out.vector + [] == out.vector;
      } else {
        ghost var entry := FilledMore(out.vector, |v0| + CodeStart(in_), list, kind, table);
        ListGrows(d, list, position, in_.isa.CodeDelta(), entry);
        written := list + [entry];
        AllStay(out.vector, table.bytes, |v0|, pieces);
        Emit(out, table.bytes);
        CountTable(kind, |table.bytes|);
        relativeOffset := relativeOffset + |table.bytes|;
      }
    }

    // The code of a method, preceded by its size.
    method WriteCodeArray(out: VectorOutputStream, position: nat, code: Blob, recorded: nat,
                          ghost v0: seq<Byte>, ghost pieces: seq<Piece>, ghost d: Dedup, ghost list: seq<Entry>)
      returns (relativeOffset: nat, ghost written: seq<Entry>)
      requires code.bytes != [] && CodeKnown(position, in_.isa.CodeDelta(), d.code)
      requires recorded == LayCode(position, code, in_.isa.CodeDelta(), d.code).recorded
      requires Sub(LayCode(position, code, in_.isa.CodeDelta(), d.code).seen, seen.code)
      requires WroteBlobs(out, v0, position, pieces, d, list)
      modifies out, this`stats
      ensures relativeOffset == LayCode(position, code, in_.isa.CodeDelta(), d.code).offset
      ensures WroteBlobs(out, v0, relativeOffset, pieces,
              d.(code := LayCode(position, code, in_.isa.CodeDelta(), d.code).seen), written)
    {
      hide AllAt, BlobsAt, Listed, Filled, LayCode, CodeKnown, Sub, PaddingStats, Appending, U32;
      relativeOffset, written := position, list;
      SkipsWrittenCode(position, code, in_.isa.CodeDelta(), d.code, seen.code);
      BlobsGrow(out.vector, |v0|, d, in_.isa.CodeDelta(), position, CodeBlob, code);
      var codeOffset := relativeOffset + 4 + in_.isa.CodeDelta();
      if code in seen.code && codeOffset != recorded {
        ListStays(d, list, position, in_.isa.CodeDelta(), CodeBlob, code);
        assert out.vector + [] == out.vector;
      } else {
        ghost var v := out.vector;
        ghost var entry := FilledMore(v, |v0| + CodeStart(in_), list, CodeBlob, code);
        ListGrows(d, list, position, in_.isa.CodeDelta(), entry);
        written := list + [entry];
        AllStay(v, U32(|code.bytes|) + code.bytes, |v0|, pieces);
        Emit(out, U32(|code.bytes|));
        stats := stats.(codeSize := stats.codeSize + 4);
        relativeOffset := relativeOffset + 4;
        Emit(out, code.bytes);
        stats := stats.(code := stats.code + |code.bytes|);
        relativeOffset := relativeOffset + |code.bytes|;
        assert out.vector == v + (U32(|code.bytes|) + code.bytes);
      }
    }

    // The write pass has come to method n.
    ghost predicate WroteMethods(out: VectorOutputStream, v0: seq<Byte>, offset: nat, pieces: seq<Piece>, n: nat,
                                 written: seq<Entry>)
      requires n <= |MethodsIn(in_)|
      reads this, out
    {
      offset == LayMethods(in_, n).offset && WroteBlobs(out, v0, offset, pieces, LayMethods(in_, n).seen, written)
    }

    /** `WriteCodeMethod`: the blobs of method n that are not in the file yet. */
    method WriteCodeMethod(out: VectorOutputStream, fileOffset: nat, start: nat, m: Method, offsets: MethodOffsets,
                           ghost n: nat, ghost v0: seq<Byte>, ghost pieces: seq<Piece>, ghost list: seq<Entry>)
      returns (ok: bool, relativeOffset: nat, ghost written: seq<Entry>)
      requires Valid(in_) && n < |MethodsIn(in_)| && MethodsIn(in_)[n] == m && offsets == Recorded(in_, n)
      requires SubDedup(LayMethods(in_, n + 1).seen, seen) && fileOffset == |v0|
      requires WroteMethods(out, v0, start, pieces, n, list)
      modifies out, this`stats
      ensures ok && WroteMethods(out, v0, relativeOffset, pieces, n + 1, written)
    {
      hide AllAt, BlobsAt, Listed, Filled, LayCode, LayTable, CodeKnown, TableKnown, Sub, PaddingStats, RoundUp,
           MethodsIn, Valid;
      relativeOffset, written, ok := start, list, true;
      LaysKnown(in_, n);
      ghost var d := LayMethods(in_, n).seen;
      assert LayMethods(in_, n + 1) == LayMethod(start, m, in_.isa, d);
      CodeNotEmpty(in_, n);
      if m.Compiled? {
        RoundUpIsNext(relativeOffset, in_.isa.Alignment());
        var aligned := RoundUp(relativeOffset, in_.isa.Alignment());
        var delta := aligned - relativeOffset;
        if delta != 0 {
          AllStay(out.vector, Zeros(delta), |v0|, pieces);
          BlobsStay(out.vector, Zeros(delta), |v0|, d, in_.isa.CodeDelta());
          FilledSkips(out.vector, |v0| + CodeStart(in_), list, delta);
          var position := Skip(out, delta);
          stats := stats.(codeAlignment := stats.codeAlignment + delta);
          if position != fileOffset + aligned {
            ok := false;
            return;
          }
          relativeOffset := relativeOffset + delta;
        }
        StillKnown(in_.isa, m, start, aligned, d);
        ghost var isaDelta := in_.isa.CodeDelta();
        ghost var c := LayCode(aligned, m.code, isaDelta, d.code);
        relativeOffset, written := WriteCodeArray(out, relativeOffset, m.code, offsets.codeOffset,
                                                  v0, pieces, d, written);
        ghost var d1 := d.(code := c.seen);
        relativeOffset, written := WriteTable(out, relativeOffset, MappingTable, m.mapping, offsets.mappingOffset,
                                              seen.mapping, v0, pieces, d1, written);
        ghost var d2 := d1.(mapping := LayTable(c.offset, m.mapping, d.mapping).seen);
        relativeOffset, written := WriteTable(out, relativeOffset, VmapTable, m.vmap, offsets.vmapOffset, seen.vmap,
                                              v0, pieces, d2, written);
        ghost var d3 := d2.(vmap := LayTable(LayTable(c.offset, m.mapping, d.mapping).offset, m.vmap, d.vmap).seen);
        relativeOffset, written := WriteTable(out, relativeOffset, GcMap, m.gcMap, offsets.gcMapOffset, seen.gcMap,
                                              v0, pieces, d3, written);
      }
    }

    /** `WriteCodeClassDef`. */
    method WriteCodeClassDef(out: VectorOutputStream, fileOffset: nat, start: nat, k: nat, klass: Klass,
                             ghost v0: seq<Byte>, ghost pieces: seq<Piece>, ghost list: seq<Entry>)
      returns (ok: bool, relativeOffset: nat, ghost written: seq<Entry>)
      requires Valid(in_) && k < |AllClasses(in_.dexFiles)| && AllClasses(in_.dexFiles)[k] == klass
      requires ClassesLaid(in_, oatClasses) && seen == FinalLayout(in_).seen && fileOffset == |v0|
      requires FirstMethod(AllClasses(in_.dexFiles), k) <= |MethodsIn(in_)|
      requires WroteMethods(out, v0, start, pieces, FirstMethod(AllClasses(in_.dexFiles), k), list)
      modifies out, this`stats
      ensures ok && FirstMethod(AllClasses(in_.dexFiles), k + 1) <= |MethodsIn(in_)|
      ensures WroteMethods(out, v0, relativeOffset, pieces, FirstMethod(AllClasses(in_.dexFiles), k + 1), written)
    {
      hide WroteBlobs, LayMethods, LayMethod, Valid, AllClasses, SubDedup, MethodsIn, ClassesLaid, WroteMethods;
      relativeOffset, written, ok := start, list, true;
      ghost var first := FirstMethod(AllClasses(in_.dexFiles), k);
      for m := 0 to |klass.methods|
        invariant ok && first + m <= |MethodsIn(in_)|
        invariant WroteMethods(out, v0, relativeOffset, pieces, first + m, written)
      {
        MethodOffsetsOf(in_, oatClasses, k, m);
        MapsGrow(in_, first + m + 1, |MethodsIn(in_)|);
        ok, relativeOffset, written := WriteCodeMethod(out, fileOffset, relativeOffset, klass.methods[m],
                                                       oatClasses[k].methodOffsets[m], first + m, v0, pieces, written);
      }
    }

    /** `WriteCodeDexFiles`, `WriteCodeDexFile`. */
    method WriteCodeDexFiles(out: VectorOutputStream, fileOffset: nat, start: nat,
                             ghost v0: seq<Byte>, ghost pieces: seq<Piece>)
      returns (ok: bool, relativeOffset: nat, ghost written: seq<Entry>)
      requires Valid(in_) && LaidOut() && fileOffset == |v0| && start == CodeStart(in_) &&
               WroteCode(out, v0, start, pieces)
      modifies out, this`stats
      ensures ok && WroteMethods(out, v0, relativeOffset, pieces, |MethodsIn(in_)|, written)
    {
      hide WroteBlobs, LayMethods, LayMethod, Valid, AllClasses, MethodsIn, WroteMethods, ClassesLaid, DexFilesLaid,
           FinalLayout, TotalSize, TrampolineOffsets;
      relativeOffset, written, ok := start, [], true;
      NoBlobsYet(out, v0, start, pieces);
      AllCounted(in_.dexFiles);
      MethodsAreCounted(in_);
      var oatClassIndex := 0;
      ghost var classes := AllClasses(in_.dexFiles);
      for i := 0 to |in_.dexFiles|
        invariant ok && oatClassIndex == FirstClass(in_.dexFiles, i) <= |classes|
        invariant FirstMethod(classes, oatClassIndex) <= |MethodsIn(in_)|
        invariant WroteMethods(out, v0, relativeOffset, pieces, FirstMethod(classes, oatClassIndex), written)
      {
        for j := 0 to |in_.dexFiles[i].classes|
          invariant ok && oatClassIndex == FirstClass(in_.dexFiles, i) + j <= |classes|
          invariant FirstMethod(classes, oatClassIndex) <= |MethodsIn(in_)|
          invariant WroteMethods(out, v0, relativeOffset, pieces, FirstMethod(classes, oatClassIndex), written)
        {
          NextClass(in_, i, j);
          ok, relativeOffset, written := WriteCodeClassDef(out, fileOffset, relativeOffset, oatClassIndex,
                                                           in_.dexFiles[i].classes[j], v0, pieces, written);
          oatClassIndex := oatClassIndex + 1;
        }
      }
    }

    lemma NoBlobsYet(out: VectorOutputStream, v0: seq<Byte>, offset: nat, pieces: seq<Piece>)
      requires WroteCode(out, v0, offset, pieces) && offset == CodeStart(in_)
      ensures WroteMethods(out, v0, offset, pieces, 0, [])
    {
      NothingEmitted(out.vector);
    }

    /** `Write`. On a stream that does not fail no test of the source fails; the file that follows what
        was in the stream has the size the layout computed, every object lies where the layout recorded
        it, what follows the trampolines is exactly the blobs that are not empty, each of them once, with
        zeros between them, and the counters account for every byte. */
    method Write(out: VectorOutputStream) returns (ok: bool, ghost written: seq<Entry>)
      requires Valid(in_) && LaidOut() && stats == PaddingStats(in_) && Appending(out)
      modifies out, this`stats
      ensures ok && Appending(out) && old(out.vector) <= out.vector && |out.vector| == |old(out.vector)| + size
      ensures LaidOut() && AllAt(out.vector, |old(out.vector)|, AllPieces(in_, oatDexFiles, oatClasses))
      ensures BlobsAt(out.vector, |old(out.vector)|, FinalLayout(in_).seen, in_.isa.CodeDelta())
      ensures Listed(FinalLayout(in_).seen, written) && Filled(out.vector, |old(out.vector)| + CodeStart(in_), written)
      ensures stats.Sum() == size
    {
      hide AllAt, BlobsAt, Listed, Filled, Valid, DexFilesLaid, ClassesLaid, FinalLayout, TotalSize, PaddingStats,
           ExecutableAt, TrampolineOffsets, DexPadding, CodeStart, TablesEnd, Wrote, ExecutablePadding;
      ghost var v0 := out.vector;
      var fileOffset := out.offset;
      NothingWritten(out, v0);
      WriteHeader(out, v0);
      ghost var pieces := HeaderPieces(in_, executableOffset, trampolineOffsets);
      DexFilesCounted(in_, oatDexFiles);
      WriteDexRecords(out, v0, pieces);
      pieces := pieces + DexRecordPieces(in_, oatDexFiles, |oatDexFiles|);
      NoPadding(in_);
      ok := WriteDexFiles(out, fileOffset, v0, pieces);
      pieces := pieces + DexCopyPieces(in_, oatDexFiles, |oatDexFiles|);
      WriteClassRecords(out, v0, pieces);
      pieces := pieces + ClassPieces(oatClasses, |oatClasses|);
      var relativeOffset;
      ok, relativeOffset := WriteCode(out, fileOffset, v0, pieces);
      pieces := pieces + if in_.isImage then TrampolinePieces(in_, |in_.trampolines|) else [];
      ok, relativeOffset, written := WriteCodeDexFiles(out, fileOffset, relativeOffset, v0, pieces);
      AllIsWritten(out, v0, relativeOffset, pieces, written);
      ok := fileOffset + size == out.offset && size == relativeOffset && size == stats.Sum();
    }

    lemma NothingWritten(out: VectorOutputStream, v0: seq<Byte>)
      requires Appending(out) && out.vector == v0 && stats == PaddingStats(in_)
      ensures Wrote(out, v0, 0, 0, [])
    {
    }

    lemma AllIsWritten(out: VectorOutputStream, v0: seq<Byte>, offset: nat, pieces: seq<Piece>, written: seq<Entry>)
      requires WroteMethods(out, v0, offset, pieces, |MethodsIn(in_)|, written)
      ensures offset == TotalSize(in_) && Appending(out) && v0 <= out.vector && |out.vector| == |v0| + offset
      ensures AllAt(out.vector, |v0|, pieces) && BlobsAt(out.vector, |v0|, FinalLayout(in_).seen, in_.isa.CodeDelta())
      ensures Listed(FinalLayout(in_).seen, written) && Filled(out.vector, |v0| + CodeStart(in_), written)
      ensures stats.Sum() == offset
    {
      hide AllAt, BlobsAt, Listed, Filled, LayMethods;
    }
  }

  ghost predicate ClassPlaced(in_: Input, c: OatClass, k: int)
    requires 0 <= k < |AllClasses(in_.dexFiles)|
  {
    c.offset == ClassRecordAt(in_, k) && c.status == AllClasses(in_.dexFiles)[k].status &&
    |c.methodOffsets| == |AllClasses(in_.dexFiles)[k].methods|
  }

  lemma ClassIsPlaced(in_: Input, k: nat, offset: nat, klass: Klass)
    requires k < |AllClasses(in_.dexFiles)| && AllClasses(in_.dexFiles)[k] == klass && offset == ClassRecordAt(in_, k)
    ensures ClassPlaced(in_, OatClass(offset, klass.status, NoMethods(|klass.methods|)), k)
  {
  }

  function NoMethods(n: nat): (offsets: seq<MethodOffsets>)
    ensures |offsets| == n
  {
    seq(n, i => NO_METHOD)
  }

  // The record of dex file i knows its first n classes.
  ghost predicate FileHasClasses(in_: Input, file: OatDexFile, i: int, n: nat)
    requires 0 <= i < |in_.dexFiles|
  {
    && file.offset == DexRecordAt(in_, i) && file.dexFileOffset == DexCopyAt(in_, i)
    && |file.methodsOffsets| == |in_.dexFiles[i].classes| && n <= |file.methodsOffsets|
    && forall j :: 0 <= j < n ==> ClassOffset(in_, i, j, file.methodsOffsets[j])
  }

  lemma FileGains(in_: Input, file: OatDexFile, i: nat, j: nat, offset: nat)
    requires i < |in_.dexFiles| && j < |in_.dexFiles[i].classes| && FileHasClasses(in_, file, i, j)
    requires var k := FirstClass(in_.dexFiles, i) + j;
             k <= |AllClasses(in_.dexFiles)| && offset == ClassRecordAt(in_, k)
    ensures |file.methodsOffsets| == |in_.dexFiles[i].classes|
    ensures FileHasClasses(in_, file.(methodsOffsets := file.methodsOffsets[j := offset]), i, j + 1)
  {
    assert ClassOffset(in_, i, j, offset);
    hide ClassOffset;
  }

  lemma StartsLaid(in_: Input, files: seq<OatDexFile>)
    requires |files| == |in_.dexFiles|
    requires forall i :: 0 <= i < |files| ==>
               && files[i].offset == DexRecordAt(in_, i) && |files[i].methodsOffsets| == |in_.dexFiles[i].classes|
               && files[i].dexFileOffset == DexCopyAt(in_, i)
    ensures forall i :: 0 <= i < |files| ==> FileHasClasses(in_, files[i], i, 0)
  {
  }

  lemma NothingOfNext(in_: Input, files: seq<OatDexFile>, i: nat)
    requires |files| == |in_.dexFiles| && i < |files|
    requires forall f :: 0 <= f < |files| ==>
             FileHasClasses(in_, files[f], f, if f <= i then |in_.dexFiles[f].classes| else 0)
    ensures forall f :: 0 <= f < |files| ==>
              FileHasClasses(in_, files[f], f,
                  if f < i + 1 then |in_.dexFiles[f].classes| else if f == i + 1 then 0 else 0)
  {
  }

  lemma FilesAreLaid(in_: Input, files: seq<OatDexFile>)
    requires |files| == |in_.dexFiles|
    requires forall f :: 0 <= f < |files| ==> FileHasClasses(in_, files[f], f, |in_.dexFiles[f].classes|)
    ensures DexFilesLaid(in_, files)
  {
    forall i | 0 <= i < |files| ensures DexFileLaid(in_, files[i], i) {
      assert FileHasClasses(in_, files[i], i, |in_.dexFiles[i].classes|);
    }
  }

  lemma NoTrampolines(in_: Input)
    requires Valid(in_)
    ensures TrampolinesEnd(in_, 0) == ExecutableAt(in_)
  {
  }

  lemma NextTrampoline(in_: Input, i: nat)
    requires i < |in_.trampolines|
    ensures TrampolineAt(in_, i) == RoundUp(TrampolinesEnd(in_, i), in_.isa.Alignment()) >= TrampolinesEnd(in_, i)
    ensures TrampolinesEnd(in_, i + 1) == TrampolineAt(in_, i) + |in_.trampolines[i]|
  {
    RoundUpIsNext(TrampolinesEnd(in_, i), in_.isa.Alignment());
  }

  // The layout pass has come to method n.
  ghost predicate LaidTo(in_: Input, n: nat, offset: nat, seen: Dedup)
    requires n <= |MethodsIn(in_)|
  {
    offset == LayMethods(in_, n).offset && seen == LayMethods(in_, n).seen
  }

  lemma MethodsAreCounted(in_: Input)
    ensures |MethodsIn(in_)| == FirstMethod(AllClasses(in_.dexFiles), |AllClasses(in_.dexFiles)|)
  {
    AllMethodsCounted(AllClasses(in_.dexFiles));
  }

  lemma LaysNothing(in_: Input)
    ensures LaidTo(in_, 0, CodeStart(in_), NONE_SEEN)
  {
  }

  lemma LaidToEnd(in_: Input, offset: nat, seen: Dedup)
    requires LaidTo(in_, |MethodsIn(in_)|, offset, seen)
    ensures offset == TotalSize(in_) && seen == FinalLayout(in_).seen
  {
  }

  // The record of class k knows its first n methods.
  ghost predicate ClassCoded(in_: Input, c: OatClass, k: int, n: nat)
    requires 0 <= k < |AllClasses(in_.dexFiles)|
  {
    && ClassPlaced(in_, c, k) && n <= |c.methodOffsets|
    && forall m :: 0 <= m < n ==> MethodRecorded(in_, k, m, c.methodOffsets[m])
  }

  lemma PlacedIsCoded(in_: Input, classes: seq<OatClass>)
    requires |classes| == |AllClasses(in_.dexFiles)|
    requires forall k :: 0 <= k < |classes| ==> ClassPlaced(in_, classes[k], k)
    ensures forall k :: 0 <= k < |classes| ==> ClassCoded(in_, classes[k], k, 0)
  {
  }

  lemma CodeNotEmpty(in_: Input, n: nat)
    requires Valid(in_) && n < |MethodsIn(in_)|
    ensures MethodsIn(in_)[n].Compiled? ==> MethodsIn(in_)[n].code.bytes != []
  {
  }

  lemma ClassGains(in_: Input, c: OatClass, k: nat, m: nat, offsets: MethodOffsets)
    requires k < |AllClasses(in_.dexFiles)| && m < |AllClasses(in_.dexFiles)[k].methods| && ClassCoded(in_, c, k, m)
    requires MethodRecorded(in_, k, m, offsets)
    ensures |c.methodOffsets| == |AllClasses(in_.dexFiles)[k].methods|
    ensures ClassCoded(in_, c.(methodOffsets := c.methodOffsets[m := offsets]), k, m + 1)
  {
    hide MethodRecorded;
  }

  lemma CodedIsLaid(in_: Input, classes: seq<OatClass>)
    requires |classes| == |AllClasses(in_.dexFiles)|
    requires forall k :: 0 <= k < |classes| ==> ClassCoded(in_, classes[k], k, |AllClasses(in_.dexFiles)[k].methods|)
    ensures ClassesLaid(in_, classes)
  {
    hide MethodRecorded;
    forall k | 0 <= k < |classes| ensures ClassLaid(in_, classes[k], k) {
      assert ClassCoded(in_, classes[k], k, |AllClasses(in_.dexFiles)[k].methods|);
    }
  }

  // The counters after the layout pass.
  function PaddingStats(in_: Input): Stats {
    NO_STATS.(dexFileAlignment := DexPadding(in_, |in_.dexFiles|), executableAlignment := ExecutablePadding(in_))
  }

  function ExecutablePadding(in_: Input): nat { (PAGE_SIZE - TablesEnd(in_) % PAGE_SIZE) % PAGE_SIZE }

  lemma OverlayAtEnd(v: seq<Byte>, b: seq<Byte>)
    ensures Overlay(v, |v|, b) == v + b
  {
  }

  lemma ExecutablePaddingIs(in_: Input)
    ensures ExecutableAt(in_) == TablesEnd(in_) + ExecutablePadding(in_)
  {
  }

  // ---- pieces ------------------------------------------------------------------------------------------

  lemma PieceAdded(v: seq<Byte>, base: nat, offset: nat, ps: seq<Piece>, b: seq<Byte>)
    requires AllAt(v, base, ps) && |v| == base + offset
    ensures AllAt(v + b, base, ps + [Piece(offset, b)])
  {
    AllStay(v, b, base, ps);
    AtEnd(v, b);
  }

  function HeaderPieces(in_: Input, executableOffset: nat, trampolineOffsets: seq<nat>): seq<Piece> {
    [Piece(0, HeaderBytes(in_, executableOffset, trampolineOffsets)), Piece(HEADER_SIZE, in_.location)]
  }

  lemma HeaderLength(in_: Input, executableOffset: nat, trampolineOffsets: seq<nat>)
    requires Valid(in_) && |trampolineOffsets| == 7
    ensures |HeaderBytes(in_, executableOffset, trampolineOffsets)| == HEADER_SIZE
  {
  }

  // The records of the first n dex files, where the layout recorded them.
  function DexRecordPieces(in_: Input, files: seq<OatDexFile>, n: nat): seq<Piece>
    requires n <= |files| && n <= |in_.dexFiles|
  {
    if n == 0 then []
    else
      var file := files[n - 1];
      DexRecordPieces(in_, files, n - 1) +
      [Piece(file.offset, DexRecordBytes(in_.dexFiles[n - 1], file.dexFileOffset, file.methodsOffsets))]
  }

  lemma DexRecordFits(in_: Input, files: seq<OatDexFile>, i: nat)
    requires DexFilesLaid(in_, files) && i < |files|
    ensures files[i].offset == DexRecordAt(in_, i)
    ensures DexRecordAt(in_, i + 1) == DexRecordAt(in_, i) +
              |DexRecordBytes(in_.dexFiles[i], files[i].dexFileOffset, files[i].methodsOffsets)|
  {
    assert DexFileLaid(in_, files[i], i);
  }

  lemma SevenTrampolines(in_: Input)
    requires Valid(in_)
    ensures |TrampolineOffsets(in_)| == 7
  {
  }

  // The copies of the first n dex files, where the layout recorded them.
  function DexCopyPieces(in_: Input, files: seq<OatDexFile>, n: nat): seq<Piece>
    requires n <= |files| && n <= |in_.dexFiles|
  {
    if n == 0 then []
    else DexCopyPieces(in_, files, n - 1) + [Piece(files[n - 1].dexFileOffset, in_.dexFiles[n - 1].bytes)]
  }

  lemma DexFilesCounted(in_: Input, files: seq<OatDexFile>)
    requires DexFilesLaid(in_, files)
    ensures |files| == |in_.dexFiles|
  {
  }

  lemma DexCopyIsAt(in_: Input, files: seq<OatDexFile>, i: nat)
    requires DexFilesLaid(in_, files) && i < |files| == |in_.dexFiles|
    ensures files[i].dexFileOffset == DexCopyAt(in_, i)
  {
    assert DexFileLaid(in_, files[i], i);
  }

  lemma DexFileCounted(stats: Stats, n: nat)
    ensures stats.(dexFile := stats.dexFile + n).Sum() == stats.Sum() + n
  {
  }

  lemma AllPadded(v: seq<Byte>, n: nat, base: nat, ps: seq<Piece>)
    requires AllAt(v, base, ps)
    ensures AllAt(Padded(v, n), base, ps) && v <= Padded(v, n)
  {
    if n > |v| { AllStay(v, Zeros(n - |v|), base, ps); }
  }

  // The records of the first n classes, where the layout recorded them.
  function ClassPieces(classes: seq<OatClass>, n: nat): seq<Piece>
    requires n <= |classes|
  {
    if n == 0 then []
    else
      var c := classes[n - 1];
      ClassPieces(classes, n - 1) + [Piece(c.offset, ClassRecordBytes(c.status, c.methodOffsets))]
  }

  lemma ClassRecordFits(in_: Input, classes: seq<OatClass>, k: nat)
    requires ClassesLaid(in_, classes) && k < |classes|
    ensures classes[k].offset == ClassRecordAt(in_, k)
    ensures ClassRecordAt(in_, k + 1) ==
            ClassRecordAt(in_, k) + |ClassRecordBytes(classes[k].status, classes[k].methodOffsets)|
  {
    assert ClassLaid(in_, classes[k], k);
  }

  function TrampolinePieces(in_: Input, n: nat): seq<Piece>
    requires n <= |in_.trampolines|
  {
    if n == 0 then [] else TrampolinePieces(in_, n - 1) + [Piece(TrampolineAt(in_, n - 1), in_.trampolines[n - 1])]
  }

  // Alignment and the earlier blobs of a method only move the offset on.
  lemma StillKnown(isa: InstructionSet, m: Method, start: nat, aligned: nat, d: Dedup)
    requires m.Compiled? && m.code.bytes != [] && Known(start, isa, d) &&
             0 < start <= aligned == RoundUp(start, isa.Alignment())
    ensures var c := LayCode(aligned, m.code, isa.CodeDelta(), d.code);
            var t := LayTable(c.offset, m.mapping, d.mapping);
            var v := LayTable(t.offset, m.vmap, d.vmap);
            && CodeKnown(aligned, isa.CodeDelta(), d.code) && TableKnown(c.offset, d.mapping)
            && TableKnown(t.offset, d.vmap) && TableKnown(v.offset, d.gcMap)
            && 0 < aligned <= c.offset <= t.offset <= v.offset
  {
    hide LayTable, LayCode, CodeKnown, TableKnown, Sub, RoundUp;
    CodeKnownLater(start, aligned, isa.CodeDelta(), d.code);
    LayCodeKeeps(aligned, m.code, isa.CodeDelta(), d.code);
    var c := LayCode(aligned, m.code, isa.CodeDelta(), d.code);
    TableKnownLater(start, c.offset, d.mapping);
    LayTableKeeps(c.offset, m.mapping, d.mapping);
    var t := LayTable(c.offset, m.mapping, d.mapping);
    TableKnownLater(start, t.offset, d.vmap);
    LayTableKeeps(t.offset, m.vmap, d.vmap);
    var v := LayTable(t.offset, m.vmap, d.vmap);
    TableKnownLater(start, v.offset, d.gcMap);
  }

  lemma MethodOffsetsOf(in_: Input, classes: seq<OatClass>, k: nat, m: nat)
    requires ClassesLaid(in_, classes) && k < |AllClasses(in_.dexFiles)| && m < |AllClasses(in_.dexFiles)[k].methods|
    ensures k < |classes| && m < |classes[k].methodOffsets|
    ensures var n := FirstMethod(AllClasses(in_.dexFiles), k) + m;
            && n < |MethodsIn(in_)| && MethodsIn(in_)[n] == AllClasses(in_.dexFiles)[k].methods[m]
            && classes[k].methodOffsets[m] == Recorded(in_, n)
  {
    hide LayMethods;
    assert ClassLaid(in_, classes[k], k);
    assert MethodRecorded(in_, k, m, classes[k].methodOffsets[m]);
    NextMethod(in_, k, m);
  }

  // Header, records, copies and trampolines, each where the layout recorded it.
  function AllPieces(in_: Input, files: seq<OatDexFile>, classes: seq<OatClass>): seq<Piece>
    requires |files| <= |in_.dexFiles|
  {
    HeaderPieces(in_, ExecutableAt(in_), TrampolineOffsets(in_)) + DexRecordPieces(in_, files, |files|) +
    DexCopyPieces(in_, files, |files|) + ClassPieces(classes, |classes|) +
    if in_.isImage then TrampolinePieces(in_, |in_.trampolines|) else []
  }

  // Where a table of a method is read.
  ghost predicate TableReads(v: seq<Byte>, base: nat, table: Blob, offset: nat) {
    if table.bytes == [] then offset == 0 else At(v, base + offset, table.bytes)
  }

  lemma TableIsRead(v: seq<Byte>, base: nat, d: Dedup, delta: nat, kind: Kind, table: Blob, offset: nat)
    requires BlobsAt(v, base, d, delta) && !kind.CodeBlob? && table in SeenOf(d, kind) &&
             SeenOf(d, kind)[table] == offset
    requires table.bytes == [] ==> offset == 0
    ensures TableReads(v, base, table, offset)
  {
    hide BlobsAt, At;
    if table.bytes != [] { BlobIsAt(v, base, d, delta, kind, table); }
  }

  // The maps lead to the blobs of the method.
  ghost predicate Leads(d: Dedup, m: Method, o: MethodOffsets)
    requires m.Compiled?
  {
    && m.code in d.code && d.code[m.code] == o.codeOffset
    && m.mapping in d.mapping && d.mapping[m.mapping] == o.mappingOffset
    && m.vmap in d.vmap && d.vmap[m.vmap] == o.vmapOffset
    && m.gcMap in d.gcMap && d.gcMap[m.gcMap] == o.gcMapOffset
  }

  ghost predicate ReadsBack(v: seq<Byte>, base: nat, delta: nat, m: Method, o: MethodOffsets)
    requires m.Compiled?
  {
    && At(v, base + o.codeOffset - delta - 4, U32(|m.code.bytes|) + m.code.bytes)
    && TableReads(v, base, m.mapping, o.mappingOffset) && TableReads(v, base, m.vmap, o.vmapOffset)
    && TableReads(v, base, m.gcMap, o.gcMapOffset)
  }

  lemma LeadsBack(v: seq<Byte>, base: nat, isa: InstructionSet, d: Dedup, offset: nat, m: Method, o: MethodOffsets)
    requires BlobsAt(v, base, d, isa.CodeDelta()) && Known(offset, isa, d) && m.Compiled? && m.code.bytes != [] &&
             Leads(d, m, o)
    ensures ReadsBack(v, base, isa.CodeDelta(), m, o)
  {
    hide BlobsAt, At, Known, TableReads, U32, Placed, First, Content, CodeKnown, TableKnown;
    EmptyAtZero(offset, isa, d);
    CodeIsRead(v, base, d, isa.CodeDelta(), m.code);
    TableIsRead(v, base, d, isa.CodeDelta(), MappingTable, m.mapping, o.mappingOffset);
    TableIsRead(v, base, d, isa.CodeDelta(), VmapTable, m.vmap, o.vmapOffset);
    TableIsRead(v, base, d, isa.CodeDelta(), GcMap, m.gcMap, o.gcMapOffset);
  }

  lemma CodeIsRead(v: seq<Byte>, base: nat, d: Dedup, delta: nat, code: Blob)
    requires BlobsAt(v, base, d, delta) && code in d.code && code.bytes != []
    ensures At(v, base + d.code[code] - delta - 4, U32(|code.bytes|) + code.bytes)
  {
    hide BlobsAt, At, U32;
    BlobIsAt(v, base, d, delta, CodeBlob, code);
  }

  /** Reading the finished file back: the offsets recorded for a compiled method lead to exactly its own
      code, preceded by its size, and to its own tables; an empty table is recorded at 0. */
  lemma MethodReadsBack(in_: Input, v: seq<Byte>, base: nat, n: nat)
    requires Valid(in_) && n < |MethodsIn(in_)| && MethodsIn(in_)[n].Compiled?
    requires BlobsAt(v, base, FinalLayout(in_).seen, in_.isa.CodeDelta())
    ensures ReadsBack(v, base, in_.isa.CodeDelta(), MethodsIn(in_)[n], Recorded(in_, n))
  {
    CodeNotEmpty(in_, n);
    RecordedIsFinal(in_, n);
    LaysKnown(in_, |MethodsIn(in_)|);
    hide *;
    LeadsBack(v, base, in_.isa, FinalLayout(in_).seen, FinalLayout(in_).offset, MethodsIn(in_)[n], Recorded(in_, n));
  }

  lemma EmptyAtZero(offset: nat, isa: InstructionSet, d: Dedup)
    requires Known(offset, isa, d)
    ensures forall t :: t in d.mapping && t.bytes == [] ==> d.mapping[t] == 0
    ensures forall t :: t in d.vmap && t.bytes == [] ==> d.vmap[t] == 0
    ensures forall t :: t in d.gcMap && t.bytes == [] ==> d.gcMap[t] == 0
  {
  }

  // What is recorded for a method is what the maps say at the end.
  lemma RecordedIsFinal(in_: Input, n: nat)
    requires Valid(in_) && n < |MethodsIn(in_)| && MethodsIn(in_)[n].Compiled?
    ensures Leads(FinalLayout(in_).seen, MethodsIn(in_)[n], Recorded(in_, n))
  {
    MapsGrow(in_, n + 1, |MethodsIn(in_)|);
    var before := LayMethods(in_, n);
    hide RoundUp, MethodsIn, Valid;
    assert LayMethods(in_, n + 1) == LayMethod(before.offset, MethodsIn(in_)[n], in_.isa, before.seen);
    hide LayMethods;
  }
}
