/** What `OatWriter` has written, `OatFile` reads: every method's own code and tables, by way of the bytes. */
module OatReadBack {
  import opened Alignment
  import opened Bytes
  import opened OutputStreams
  import opened OatLayout
  import opened OatBlobs
  import opened OatPieces
  import opened OatWriter
  import opened OatFile

  // ---- words and parts -----------------------------------------------------------------------------

  lemma DigitsOf(n: nat)
    requires n < UINT32
    ensures n == n % 256 + 0x100 * (n / 256 % 256) + 0x1_0000 * (n / 0x1_0000 % 256) +
                 0x100_0000 * (n / 0x100_0000 % 256)
  {
    var a, b, c := n / 256, n / 0x1_0000, n / 0x100_0000;
    assert n == 256 * a + n % 256;
    assert a / 256 == b && b / 256 == c;
    assert a == 256 * b + a % 256;
    assert b == 256 * c + b % 256;
    assert c < 256;
  }

  lemma WordIsRead(oat: seq<Byte>, at: nat, n: nat)
    requires At(oat, at, U32(n)) && n < UINT32
    ensures Get32(oat, at) == n
  {
    DigitsOf(n);
    var w := oat[at..at + 4];
    assert w[0] == oat[at] && w[1] == oat[at + 1] && w[2] == oat[at + 2] && w[3] == oat[at + 3];
  }

  // A part of a part.
  lemma PartIsAt(oat: seq<Byte>, at: int, b: seq<Byte>, k: int, part: seq<Byte>)
    requires At(oat, at, b) && At(b, k, part)
    ensures At(oat, at + k, part)
  {
    forall i | 0 <= i < |part| ensures oat[at + k + i] == part[i] {
      assert oat[at..at + |b|][k + i] == oat[at + (k + i)] && b[k..k + |part|][i] == b[k + i];
    }
    assert oat[at + k..at + k + |part|] == part;
  }

  lemma SliceIsRead(oat: seq<Byte>, at: nat, b: seq<Byte>)
    requires At(oat, at, b)
    ensures Slice(oat, at, |b|) == b
  {
  }

  lemma PrefixAt(a: seq<Byte>, b: seq<Byte>)
    ensures At(a + b, 0, a) && At(a + b, |a|, b)
  {
  }

  lemma {:induction false} WordsAre(ns: seq<nat>, i: nat)
    requires i < |ns|
    ensures At(Words(ns), 4 * i, U32(ns[i]))
  {
    var n := |ns| - 1;
    LastWord(ns);
    hide U32, At;
    PrefixAt(Words(ns[..n]), U32(ns[n]));
    if i < n {
      WordsAre(ns[..n], i);
      PartIsAt(Words(ns), 0, Words(ns[..n]), 4 * i, U32(ns[i]));
    }
  }

  lemma LastWord(ns: seq<nat>)
    requires ns != []
    ensures var n := |ns| - 1; Words(ns) == Words(ns[..n]) + U32(ns[n]) && |Words(ns[..n])| == 4 * n
  {
  }

  lemma {:induction false} WordIsReadOf(oat: seq<Byte>, at: nat, ns: seq<nat>, i: nat)
    requires At(oat, at, Words(ns)) && i < |ns| && ns[i] < UINT32
    ensures Get32(oat, at + 4 * i) == ns[i]
  {
    WordsAre(ns, i);
    WordInside(oat, at, Words(ns), 4 * i, ns[i]);
  }

  lemma WordInside(oat: seq<Byte>, at: nat, b: seq<Byte>, k: nat, n: nat)
    requires At(oat, at, b) && At(b, k, U32(n)) && n < UINT32
    ensures Get32(oat, at + k) == n
  {
    hide *;
    PartIsAt(oat, at, b, k, U32(n));
    WordIsRead(oat, at + k, n);
  }

  lemma {:induction false} MethodsAre(offsets: seq<MethodOffsets>, m: nat)
    requires m < |offsets|
    ensures At(MethodsBytes(offsets), 28 * m, Words(MethodWords(offsets[m])))
  {
    var n := |offsets| - 1;
    LastMethod(offsets);
    hide Words, At;
    PrefixAt(MethodsBytes(offsets[..n]), Words(MethodWords(offsets[n])));
    if m < n {
      MethodsAre(offsets[..n], m);
      PartIsAt(MethodsBytes(offsets), 0, MethodsBytes(offsets[..n]), 28 * m, Words(MethodWords(offsets[m])));
    }
  }

  lemma LastMethod(offsets: seq<MethodOffsets>)
    requires offsets != []
    ensures var n := |offsets| - 1;
            && MethodsBytes(offsets) == MethodsBytes(offsets[..n]) + Words(MethodWords(offsets[n]))
            && |MethodsBytes(offsets[..n])| == 28 * n
  {
  }

  // ---- records ---------------------------------------------------------------------------------------

  ghost predicate FitsOffsets(o: MethodOffsets) { forall i :: 0 <= i < 7 ==> MethodWords(o)[i] < UINT32 }

  // The words of a method, in the order in which the reader takes them.
  lemma {:induction false} MethodIsRead(oat: seq<Byte>, at: nat, offsets: seq<MethodOffsets>, m: nat)
    requires At(oat, at, MethodsBytes(offsets)) && m < |offsets| && FitsOffsets(offsets[m])
    ensures var o := offsets[m];
            GetOatMethod(oat, at, m) ==
            OatMethod(o.codeOffset, o.frameSize, o.coreSpillMask, o.fpSpillMask, o.mappingOffset, o.vmapOffset,
                      o.gcMapOffset)
  {
    hide At, Get32, Words, MethodsBytes;
    MethodsAre(offsets, m);
    var ns := MethodWords(offsets[m]);
    PartIsAt(oat, at, MethodsBytes(offsets), 28 * m, Words(ns));
    WordIsReadOf(oat, at + 28 * m, ns, 0);
    WordIsReadOf(oat, at + 28 * m, ns, 1);
    WordIsReadOf(oat, at + 28 * m, ns, 2);
    WordIsReadOf(oat, at + 28 * m, ns, 3);
    WordIsReadOf(oat, at + 28 * m, ns, 4);
    WordIsReadOf(oat, at + 28 * m, ns, 5);
    WordIsReadOf(oat, at + 28 * m, ns, 6);
  }

  lemma {:induction false} ClassIsRead(oat: seq<Byte>, at: nat, status: nat, offsets: seq<MethodOffsets>)
    requires At(oat, at, ClassRecordBytes(status, offsets)) && status < UINT32
    ensures Get32(oat, at) == status && At(oat, at + 4, MethodsBytes(offsets))
  {
    hide At, Get32, MethodsBytes;
    PrefixAt(U32(status), MethodsBytes(offsets));
    PartIsAt(oat, at, ClassRecordBytes(status, offsets), 0, U32(status));
    PartIsAt(oat, at, ClassRecordBytes(status, offsets), 4, MethodsBytes(offsets));
    WordIsRead(oat, at, status);
  }

  lemma {:induction false} DexRecordIsRead(oat: seq<Byte>, at: nat, d: DexFile, dexFileOffset: nat,
                                           classOffsets: seq<nat>)
    requires At(oat, at, DexRecordBytes(d, dexFileOffset, classOffsets))
    requires |d.location| < UINT32 && d.checksum < UINT32 && dexFileOffset < UINT32
    ensures var n := |d.location|;
            && Get32(oat, at) == n
            && GetDexFileEntry(oat, at) == DexFileEntry(d.location, d.checksum, dexFileOffset, at + 12 + n)
            && At(oat, at + 12 + n, Words(classOffsets))
  {
    hide At, Get32, Words, Slice;
    var n, b := |d.location|, DexRecordBytes(d, dexFileOffset, classOffsets);
    DexRecordParts(d, dexFileOffset, classOffsets);
    PartIsAt(oat, at, b, 0, U32(n));
    PartIsAt(oat, at, b, 4, d.location);
    PartIsAt(oat, at, b, 4 + n, U32(d.checksum));
    PartIsAt(oat, at, b, 8 + n, U32(dexFileOffset));
    PartIsAt(oat, at, b, 12 + n, Words(classOffsets));
    WordIsRead(oat, at, n);
    SliceIsRead(oat, at + 4, d.location);
    WordIsRead(oat, at + 4 + n, d.checksum);
    WordIsRead(oat, at + 8 + n, dexFileOffset);
  }

  lemma {:induction false} DexRecordParts(d: DexFile, dexFileOffset: nat, classOffsets: seq<nat>)
    ensures var n, b := |d.location|, DexRecordBytes(d, dexFileOffset, classOffsets);
            && At(b, 0, U32(n)) && At(b, 4, d.location) && At(b, 4 + n, U32(d.checksum))
            && At(b, 8 + n, U32(dexFileOffset)) && At(b, 12 + n, Words(classOffsets))
  {
    LengthsOf(|d.location|, d.checksum, dexFileOffset);
    hide U32, Words, At;
    var a := U32(|d.location|) + d.location;
    var b := a + U32(d.checksum);
    var c := b + U32(dexFileOffset);
    PrefixAt(U32(|d.location|), d.location);
    PrefixAt(a, U32(d.checksum));
    PrefixAt(b, U32(dexFileOffset));
    PrefixAt(c, Words(classOffsets));
    var all := c + Words(classOffsets);
    PartIsAt(all, 0, c, 0, b);
    PartIsAt(all, 0, b, 0, a);
    PartIsAt(all, 0, a, 0, U32(|d.location|));
    PartIsAt(all, 0, a, 4, d.location);
    PartIsAt(all, 0, b, |a|, U32(d.checksum));
    PartIsAt(all, 0, c, |b|, U32(dexFileOffset));
  }

  lemma LengthsOf(a: nat, b: nat, c: nat)
    ensures |U32(a)| == |U32(b)| == |U32(c)| == 4
  {
  }

  lemma {:induction false} HeaderIsRead(oat: seq<Byte>, in_: Input, executableOffset: nat, trampolineOffsets: seq<nat>)
    requires At(oat, 0, HeaderBytes(in_, executableOffset, trampolineOffsets)) && At(oat, 64, in_.location)
    requires Valid(in_) && |trampolineOffsets| == 7 && (forall i :: 0 <= i < 7 ==> trampolineOffsets[i] < UINT32)
    requires in_.adler32 < UINT32 && in_.isaCode < UINT32 && in_.oatChecksum < UINT32 && in_.oatBegin < UINT32
    requires |in_.dexFiles| < UINT32 && |in_.location| < UINT32 && executableOffset < UINT32
    ensures GetOatHeader(oat) ==
            OatHeader(in_.magicAndVersion, in_.adler32, in_.isaCode, |in_.dexFiles|, executableOffset,
                      trampolineOffsets, in_.oatChecksum, in_.oatBegin, in_.location)
    ensures Get32(oat, 60) == |in_.location|
  {
    hide At, Get32, Words, Slice;
    var ns := [in_.adler32, in_.isaCode, |in_.dexFiles|, executableOffset] + trampolineOffsets +
              [in_.oatChecksum, in_.oatBegin, |in_.location|];
    var b := in_.magicAndVersion + Words(ns);
    PrefixAt(in_.magicAndVersion, Words(ns));
    PartIsAt(oat, 0, b, 0, in_.magicAndVersion);
    PartIsAt(oat, 0, b, 8, Words(ns));
    SliceIsRead(oat, 0, in_.magicAndVersion);
    forall i | 0 <= i < 14 ensures Get32(oat, 8 + 4 * i) == ns[i] { WordIsReadOf(oat, 8, ns, i); }
    SliceIsRead(oat, 64, in_.location);
    assert forall i :: 0 <= i < 7 ==> ns[4 + i] == trampolineOffsets[i];
    assert Get32(oat, 8) == ns[0] && Get32(oat, 12) == ns[1] && Get32(oat, 16) == ns[2] && Get32(oat, 20) == ns[3] by {
      assert 8 + 4 * 0 == 8 && 8 + 4 * 1 == 12 && 8 + 4 * 2 == 16 && 8 + 4 * 3 == 20;
    }
    HeaderTrampolines(oat, ns);
    assert Get32(oat, 52) == ns[11] && Get32(oat, 56) == ns[12] && Get32(oat, 60) == ns[13] by {
      assert 8 + 4 * 11 == 52 && 8 + 4 * 12 == 56 && 8 + 4 * 13 == 60;
    }
    assert ns[4..11] == trampolineOffsets;
  }

  lemma HeaderTrampolines(oat: seq<Byte>, ns: seq<nat>)
    requires |ns| == 14 && forall i :: 0 <= i < 14 ==> Get32(oat, 8 + 4 * i) == ns[i]
    ensures [Get32(oat, 24), Get32(oat, 28), Get32(oat, 32), Get32(oat, 36), Get32(oat, 40), Get32(oat, 44),
             Get32(oat, 48)] == ns[4..11]
  {
    hide Get32;
    assert 8 + 4 * 4 == 24 && 8 + 4 * 5 == 28 && 8 + 4 * 6 == 32 && 8 + 4 * 7 == 36;
    assert 8 + 4 * 8 == 40 && 8 + 4 * 9 == 44 && 8 + 4 * 10 == 48;
    assert Get32(oat, 8 + 4 * 4) == ns[4] && Get32(oat, 8 + 4 * 5) == ns[5] && Get32(oat, 8 + 4 * 6) == ns[6];
    assert Get32(oat, 8 + 4 * 7) == ns[7] && Get32(oat, 8 + 4 * 8) == ns[8] && Get32(oat, 8 + 4 * 9) == ns[9];
    assert Get32(oat, 8 + 4 * 10) == ns[10];
  }

  // ---- what the writer leaves behind -------------------------------------------------------------------

  // What `Write` ensures, of the bytes from the start of the oat file on.
  ghost predicate IsWritten(in_: Input, files: seq<OatDexFile>, classes: seq<OatClass>, oat: seq<Byte>) {
    && Valid(in_) && Fits(in_) && DexFilesLaid(in_, files) && ClassesLaid(in_, classes)
    && AllAt(oat, 0, AllPieces(in_, files, classes)) && |oat| == TotalSize(in_)
    && BlobsAt(oat, 0, FinalLayout(in_).seen, in_.isa.CodeDelta())
  }

  lemma {:induction false} HasDexRecord(in_: Input, files: seq<OatDexFile>, n: nat, i: nat)
    requires i < n <= |files| <= |in_.dexFiles|
    ensures Piece(files[i].offset, DexRecordBytes(in_.dexFiles[i], files[i].dexFileOffset, files[i].methodsOffsets))
              in DexRecordPieces(in_, files, n)
  {
    hide DexRecordBytes;
    if i < n - 1 { HasDexRecord(in_, files, n - 1, i); }
  }

  lemma {:induction false} HasDexCopy(in_: Input, files: seq<OatDexFile>, n: nat, i: nat)
    requires i < n <= |files| <= |in_.dexFiles|
    ensures Piece(files[i].dexFileOffset, in_.dexFiles[i].bytes) in DexCopyPieces(in_, files, n)
  {
    if i < n - 1 { HasDexCopy(in_, files, n - 1, i); }
  }

  lemma {:induction false} HasClassRecord(classes: seq<OatClass>, n: nat, k: nat)
    requires k < n <= |classes|
    ensures Piece(classes[k].offset, ClassRecordBytes(classes[k].status, classes[k].methodOffsets))
              in ClassPieces(classes, n)
  {
    hide ClassRecordBytes;
    if k < n - 1 { HasClassRecord(classes, n - 1, k); }
  }

  lemma {:induction false} HasTrampoline(in_: Input, n: nat, i: nat)
    requires i < n <= |in_.trampolines|
    ensures Piece(TrampolineAt(in_, i), in_.trampolines[i]) in TrampolinePieces(in_, n)
  {
    hide TrampolineAt;
    if i < n - 1 { HasTrampoline(in_, n - 1, i); }
  }

  lemma HeaderIsThere(in_: Input, files: seq<OatDexFile>, classes: seq<OatClass>, oat: seq<Byte>)
    requires IsWritten(in_, files, classes, oat)
    ensures At(oat, 0, HeaderBytes(in_, ExecutableAt(in_), TrampolineOffsets(in_))) && At(oat, 64, in_.location)
  {
    hide At, Valid, Fits, DexFileLaid, ClassesLaid, BlobsAt, HeaderBytes, DexRecordPieces, DexCopyPieces, ClassPieces,
         TrampolinePieces, ExecutableAt, TrampolineOffsets, TotalSize;
    assert Piece(0, HeaderBytes(in_, ExecutableAt(in_), TrampolineOffsets(in_))) in AllPieces(in_, files, classes);
    assert Piece(HEADER_SIZE, in_.location) in AllPieces(in_, files, classes);
  }

  lemma DexFileIsThere(in_: Input, files: seq<OatDexFile>, classes: seq<OatClass>, oat: seq<Byte>, i: nat)
    requires IsWritten(in_, files, classes, oat) && i < |in_.dexFiles|
    ensures |files| == |in_.dexFiles| && DexFileLaid(in_, files[i], i)
    ensures var f := files[i];
            At(oat, DexRecordAt(in_, i), DexRecordBytes(in_.dexFiles[i], f.dexFileOffset, f.methodsOffsets))
    ensures At(oat, DexCopyAt(in_, i), in_.dexFiles[i].bytes)
  {
    hide At, Valid, Fits, ClassesLaid, BlobsAt, HeaderPieces, DexRecordPieces, DexCopyPieces, ClassPieces,
         TrampolinePieces, DexRecordBytes, DexRecordAt, DexCopyAt, ClassOffset, TotalSize;
    HasDexRecord(in_, files, |files|, i);
    HasDexCopy(in_, files, |files|, i);
    var f := files[i];
    assert Piece(f.offset, DexRecordBytes(in_.dexFiles[i], f.dexFileOffset, f.methodsOffsets))
             in AllPieces(in_, files, classes);
    assert Piece(f.dexFileOffset, in_.dexFiles[i].bytes) in AllPieces(in_, files, classes);
  }

  lemma ClassIsThere(in_: Input, files: seq<OatDexFile>, classes: seq<OatClass>, oat: seq<Byte>, k: nat)
    requires IsWritten(in_, files, classes, oat) && k < |AllClasses(in_.dexFiles)|
    ensures |classes| == |AllClasses(in_.dexFiles)| && ClassLaid(in_, classes[k], k)
    ensures At(oat, ClassRecordAt(in_, k), ClassRecordBytes(classes[k].status, classes[k].methodOffsets))
  {
    hide At, Valid, Fits, DexFileLaid, BlobsAt, HeaderPieces, DexRecordPieces, DexCopyPieces, ClassPieces,
         TrampolinePieces, ClassRecordBytes, ClassRecordAt, MethodRecorded, TotalSize, AllClasses;
    HasClassRecord(classes, |classes|, k);
    assert Piece(classes[k].offset, ClassRecordBytes(classes[k].status, classes[k].methodOffsets))
             in AllPieces(in_, files, classes);
  }

  lemma TrampolineIsThere(in_: Input, files: seq<OatDexFile>, classes: seq<OatClass>, oat: seq<Byte>, i: nat)
    requires IsWritten(in_, files, classes, oat) && in_.isImage && i < |in_.trampolines|
    ensures At(oat, TrampolineAt(in_, i), in_.trampolines[i])
  {
    hide At, Valid, Fits, DexFileLaid, ClassesLaid, BlobsAt, HeaderPieces, DexRecordPieces, DexCopyPieces, ClassPieces,
         TrampolinePieces, TrampolineAt, TotalSize;
    HasTrampoline(in_, |in_.trampolines|, i);
    assert Piece(TrampolineAt(in_, i), in_.trampolines[i]) in AllPieces(in_, files, classes);
  }

  // ---- everything is found -------------------------------------------------------------------------------

  lemma ExecutableFits(in_: Input)
    requires Valid(in_)
    ensures ExecutableAt(in_) <= CodeStart(in_) <= TotalSize(in_)
  {
    TrampolinesFollow(in_, |in_.trampolines|);
    MapsGrow(in_, 0, |MethodsIn(in_)|);
  }

  lemma {:induction false} TrampolinesFollow(in_: Input, i: nat)
    requires i <= |in_.trampolines|
    ensures TrampolinesEnd(in_, i) >= ExecutableAt(in_)
  {
    hide RoundUp, ExecutableAt;
    if i > 0 {
      TrampolinesFollow(in_, i - 1);
      RoundUpIsNext(TrampolinesEnd(in_, i - 1), in_.isa.Alignment());
    }
  }

  lemma {:induction false} RecordsTakeRoom(in_: Input, i: nat)
    requires i <= |in_.dexFiles|
    ensures DexRecordAt(in_, i) >= i
  {
    if i > 0 { RecordsTakeRoom(in_, i - 1); }
  }

  lemma DexFilesFit(in_: Input, files: seq<OatDexFile>, classes: seq<OatClass>, oat: seq<Byte>)
    requires IsWritten(in_, files, classes, oat)
    ensures |in_.dexFiles| < UINT32
  {
    if in_.dexFiles != [] {
      var n := |in_.dexFiles| - 1;
      DexFileIsThere(in_, files, classes, oat, n);
      RecordsTakeRoom(in_, n);
      RecordIsLong(in_.dexFiles[n], files[n].dexFileOffset, files[n].methodsOffsets);
    }
  }

  lemma RecordIsLong(d: DexFile, dexFileOffset: nat, classOffsets: seq<nat>)
    ensures |DexRecordBytes(d, dexFileOffset, classOffsets)| == 12 + |d.location| + 4 * |classOffsets|
  {
  }

  lemma AtFits(oat: seq<Byte>, at: int, b: seq<Byte>)
    requires At(oat, at, b)
    ensures at + |b| <= |oat|
  {
  }

  lemma TrampolineIsFound(in_: Input, files: seq<OatDexFile>, classes: seq<OatClass>, oat: seq<Byte>, i: nat)
    requires IsWritten(in_, files, classes, oat) && i < |in_.trampolines|
    ensures TrampolineOffsets(in_)[i] < UINT32 && FindsTrampoline(oat, in_, i, TrampolineOffsets(in_)[i])
  {
    hide IsWritten, TrampolineAt, Slice, At;
    WrittenFits(in_, files, classes, oat);
    if in_.isImage {
      TrampolineIsThere(in_, files, classes, oat, i);
      AtFits(oat, TrampolineAt(in_, i), in_.trampolines[i]);
      SliceIsRead(oat, TrampolineAt(in_, i), in_.trampolines[i]);
      TrampolineAligned(in_, i);
    }
  }

  lemma TrampolineAligned(in_: Input, i: nat)
    requires i < |in_.trampolines|
    ensures TrampolineAt(in_, i) % in_.isa.Alignment() == 0
  {
    hide RoundUp;
    RoundUpIsNext(TrampolinesEnd(in_, i), in_.isa.Alignment());
  }

  lemma WrittenFits(in_: Input, files: seq<OatDexFile>, classes: seq<OatClass>, oat: seq<Byte>)
    requires IsWritten(in_, files, classes, oat)
    ensures Valid(in_) && Fits(in_) && |oat| == TotalSize(in_) < UINT32 && |in_.trampolines| == 7
  {
  }

  lemma HeaderIsFound(in_: Input, files: seq<OatDexFile>, classes: seq<OatClass>, oat: seq<Byte>)
    requires IsWritten(in_, files, classes, oat)
    ensures FindsHeader(oat, in_) && Get32(oat, 60) == |in_.location|
    ensures GetOatHeader(oat).executableOffset == ExecutableAt(in_)
  {
    hide IsWritten, FindsTrampoline, At, Get32, Slice, ExecutableAt, TrampolineOffsets, Words;
    WrittenFits(in_, files, classes, oat);
    HeaderIsThere(in_, files, classes, oat);
    AtFits(oat, 64, in_.location);
    ExecutableFits(in_);
    DexFilesFit(in_, files, classes, oat);
    SevenTrampolines(in_);
    forall i | 0 <= i < 7
      ensures TrampolineOffsets(in_)[i] < UINT32 && FindsTrampoline(oat, in_, i, TrampolineOffsets(in_)[i])
    {
      TrampolineIsFound(in_, files, classes, oat, i);
    }
    HeaderIsRead(oat, in_, ExecutableAt(in_), TrampolineOffsets(in_));
    ExecutableAligned(in_);
  }

  lemma ExecutableAligned(in_: Input)
    ensures ExecutableAt(in_) % 4096 == 0
  {
    hide RoundUp;
    RoundUpIsNext(TablesEnd(in_), PAGE_SIZE);
  }

  lemma FitsEach(in_: Input, i: nat)
    requires Fits(in_) && i < |in_.dexFiles|
    ensures FitsDexFile(in_.dexFiles[i])
  {
  }

  lemma EntryIsRead(in_: Input, files: seq<OatDexFile>, classes: seq<OatClass>, oat: seq<Byte>, i: nat)
    requires IsWritten(in_, files, classes, oat) && i < |in_.dexFiles|
    ensures |files| == |in_.dexFiles| && DexFileLaid(in_, files[i], i)
    ensures var at, d := DexRecordAt(in_, i), in_.dexFiles[i];
            && Get32(oat, at) == |d.location|
            && GetDexFileEntry(oat, at) ==
               DexFileEntry(d.location, d.checksum, DexCopyAt(in_, i), at + 12 + |d.location|)
            && At(oat, at + 12 + |d.location|, Words(files[i].methodsOffsets))
  {
    hide IsWritten, At, Get32, Slice, DexRecordAt, DexCopyAt, Words, GetDexFileEntry, DexRecordBytes, ClassOffset;
    WrittenFits(in_, files, classes, oat);
    DexFileIsThere(in_, files, classes, oat, i);
    var d, f := in_.dexFiles[i], files[i];
    AtFits(oat, DexRecordAt(in_, i), DexRecordBytes(d, f.dexFileOffset, f.methodsOffsets));
    AtFits(oat, DexCopyAt(in_, i), d.bytes);
    RecordIsLong(d, f.dexFileOffset, f.methodsOffsets);
    FitsEach(in_, i);
    DexRecordIsRead(oat, DexRecordAt(in_, i), d, f.dexFileOffset, f.methodsOffsets);
  }

  // Walking the records leads from one to the next.
  lemma {:induction false} RecordsAreWalked(in_: Input, files: seq<OatDexFile>, classes: seq<OatClass>,
                                            oat: seq<Byte>, i: nat)
    requires IsWritten(in_, files, classes, oat) && i <= |in_.dexFiles|
    ensures RecordAt(oat, ClassDefs(in_), i) == DexRecordAt(in_, i)
  {
    hide IsWritten, At, Get32, Slice, GetDexFileEntry, FindsHeader, Words;
    HeaderIsFound(in_, files, classes, oat);
    if i > 0 {
      RecordsAreWalked(in_, files, classes, oat, i - 1);
      EntryIsRead(in_, files, classes, oat, i - 1);
    }
  }

  lemma TableIsFound(oat: seq<Byte>, table: Blob, offset: nat)
    requires TableReads(oat, 0, table, offset) && (table.bytes != [] ==> offset > 0)
    ensures FindsTable(oat, offset, table.bytes) && offset <= |oat|
  {
  }

  lemma CodeIsFound(oat: seq<Byte>, code: Blob, o: OatMethod, delta: nat)
    requires delta <= 1 && o.codeOffset >= delta + 4 && (o.codeOffset - delta) % 2 == 0 && |code.bytes| < UINT32
    requires At(oat, o.codeOffset - delta - 4, U32(|code.bytes|) + code.bytes)
    ensures CodeAt(o) == o.codeOffset - delta && (o.codeOffset % 2 == 1 <==> delta == 1)
    ensures Get32(oat, CodeAt(o) - 4) == |code.bytes| && GetCode(oat, o) == code.bytes
  {
    hide At, Get32, U32, Slice;
    CodeWord(|code.bytes|);
    PrefixAt(U32(|code.bytes|), code.bytes);
    var at: nat := o.codeOffset - delta - 4;
    PartIsAt(oat, at, U32(|code.bytes|) + code.bytes, 0, U32(|code.bytes|));
    PartIsAt(oat, at, U32(|code.bytes|) + code.bytes, 4, code.bytes);
    WordIsRead(oat, at, |code.bytes|);
    SliceIsRead(oat, at + 4, code.bytes);
  }

  lemma CodeWord(n: nat)
    ensures |U32(n)| == 4
  {
  }

  // What the maps lead to is behind offset 0.
  lemma OffsetsArePositive(in_: Input, m: Method, o: MethodOffsets)
    requires Valid(in_) && m.Compiled? && Leads(FinalLayout(in_).seen, m, o)
    ensures m.mapping.bytes != [] ==> o.mappingOffset > 0
    ensures m.vmap.bytes != [] ==> o.vmapOffset > 0
    ensures m.gcMap.bytes != [] ==> o.gcMapOffset > 0
    ensures var code := o.codeOffset - in_.isa.CodeDelta() - 4;
            code >= CodeStart(in_) && code % in_.isa.Alignment() == 0
  {
    hide LayMethods, CodeStart, Valid, MethodsIn;
    LaysKnown(in_, |MethodsIn(in_)|);
    CodeIsPlaced(in_, |MethodsIn(in_)|);
  }

  lemma EvenCode(isa: InstructionSet, at: nat)
    requires at % isa.Alignment() == 0
    ensures at % 2 == 0 && at % (if isa.X86? then 16 else 8) == 0
  {
    var n := isa.Alignment();
    var q := at / n;
    if isa.X86? {
      assert at == 16 * q == 8 * q * 2;
      MultipleMod(8 * q, 2);
    } else {
      assert at == 8 * q == 4 * q * 2;
      MultipleMod(4 * q, 2);
    }
  }

  lemma WordsFit(o: MethodOffsets, end: nat)
    requires end < UINT32 && o.codeOffset <= end
    requires o.mappingOffset <= end && o.vmapOffset <= end && o.gcMapOffset <= end
    requires o.frameSize < UINT32 && o.coreSpillMask < UINT32 && o.fpSpillMask < UINT32
    ensures FitsOffsets(o)
  {
  }

  lemma CompiledIsFound(in_: Input, files: seq<OatDexFile>, classes: seq<OatClass>, oat: seq<Byte>, n: nat,
                        o: OatMethod)
    requires IsWritten(in_, files, classes, oat) && n < |MethodsIn(in_)| && MethodsIn(in_)[n].Compiled?
    requires FitsMethod(MethodsIn(in_)[n])
    requires var r := Recorded(in_, n);
             o == OatMethod(r.codeOffset, r.frameSize, r.coreSpillMask, r.fpSpillMask, r.mappingOffset, r.vmapOffset,
                            r.gcMapOffset)
    ensures FitsOffsets(Recorded(in_, n)) && FindsMethod(oat, in_.isa, MethodsIn(in_)[n], o)
  {
    hide IsWritten, At, Get32, Slice, TableReads, FindsTable, U32, GetCode, CodeAt, FindsHeader, LayMethods, MethodsIn,
         ExecutableAt, CodeStart, GetOatHeader, FitsOffsets, Leads, Recorded, TotalSize, Valid, Fits;
    WrittenFits(in_, files, classes, oat);
    HeaderIsFound(in_, files, classes, oat);
    ExecutableFits(in_);
    var m, r, delta := MethodsIn(in_)[n], Recorded(in_, n), in_.isa.CodeDelta();
    WrittenReadsBack(in_, files, classes, oat, n);
    RecordedIsFinal(in_, n);
    OffsetsArePositive(in_, m, r);
    EvenCode(in_.isa, r.codeOffset - delta - 4);
    CodeWord(|m.code.bytes|);
    AtFits(oat, r.codeOffset - delta - 4, U32(|m.code.bytes|) + m.code.bytes);
    CodeIsFound(oat, m.code, o, delta);
    TableIsFound(oat, m.mapping, r.mappingOffset);
    TableIsFound(oat, m.vmap, r.vmapOffset);
    TableIsFound(oat, m.gcMap, r.gcMapOffset);
    RecordedFrame(in_, n);
    WordsFit(r, |oat|);
  }

  lemma RecordedFrame(in_: Input, n: nat)
    requires n < |MethodsIn(in_)|
    ensures var m, r := MethodsIn(in_)[n], Recorded(in_, n);
            if m.NotCompiled? then r == MethodOffsets(0, 16, 0, 0, 0, 0, 0)
            else r.frameSize == m.frameSize && r.coreSpillMask == m.coreSpillMask && r.fpSpillMask == m.fpSpillMask
  {
    hide LayCode, LayTable, RoundUp, MethodsIn;
    var before := LayMethods(in_, n);
    assert LayMethods(in_, n + 1) == LayMethod(before.offset, MethodsIn(in_)[n], in_.isa, before.seen);
    hide LayMethods;
  }

  lemma WrittenReadsBack(in_: Input, files: seq<OatDexFile>, classes: seq<OatClass>, oat: seq<Byte>, n: nat)
    requires IsWritten(in_, files, classes, oat) && n < |MethodsIn(in_)| && MethodsIn(in_)[n].Compiled?
    ensures ReadsBack(oat, 0, in_.isa.CodeDelta(), MethodsIn(in_)[n], Recorded(in_, n))
    ensures MethodsIn(in_)[n].code.bytes != []
  {
    CodeNotEmpty(in_, n);
    hide Valid, Fits, AllAt, ReadsBack, MethodsIn, Recorded, BlobsAt, DexFilesLaid, ClassesLaid, TotalSize, FinalLayout;
    MethodReadsBack(in_, oat, 0, n);
  }

  lemma MethodIsFound(in_: Input, files: seq<OatDexFile>, classes: seq<OatClass>, oat: seq<Byte>, k: nat, m: nat)
    requires IsWritten(in_, files, classes, oat) && k < |AllClasses(in_.dexFiles)|
    requires m < |AllClasses(in_.dexFiles)[k].methods| && FitsMethod(AllClasses(in_.dexFiles)[k].methods[m])
    requires |classes| == |AllClasses(in_.dexFiles)|
    requires At(oat, ClassRecordAt(in_, k) + 4, MethodsBytes(classes[k].methodOffsets))
    ensures FindsMethod(oat, in_.isa, AllClasses(in_.dexFiles)[k].methods[m],
                        GetOatMethod(oat, ClassRecordAt(in_, k) + 4, m))
  {
    hide IsWritten, At, Get32, FindsMethod, ClassRecordAt, MethodsBytes, AllClasses, MethodsIn, Recorded, LayMethods,
         ClassesLaid;
    WrittenClasses(in_, files, classes, oat);
    MethodOffsetsOf(in_, classes, k, m);
    var n := FirstMethod(AllClasses(in_.dexFiles), k) + m;
    var r := Recorded(in_, n);
    RecordedFrame(in_, n);
    var o := OatMethod(r.codeOffset, r.frameSize, r.coreSpillMask, r.fpSpillMask, r.mappingOffset, r.vmapOffset,
                       r.gcMapOffset);
    if MethodsIn(in_)[n].Compiled? {
      CompiledIsFound(in_, files, classes, oat, n, o);
    } else {
      NothingIsFound(oat, in_.isa, MethodsIn(in_)[n], o, r);
    }
    MethodIsRead(oat, ClassRecordAt(in_, k) + 4, classes[k].methodOffsets, m);
  }

  lemma WrittenClasses(in_: Input, files: seq<OatDexFile>, classes: seq<OatClass>, oat: seq<Byte>)
    requires IsWritten(in_, files, classes, oat)
    ensures ClassesLaid(in_, classes)
  {
  }

  lemma NothingIsFound(oat: seq<Byte>, isa: InstructionSet, m: Method, o: OatMethod, r: MethodOffsets)
    requires m.NotCompiled? && o == OatMethod(0, 16, 0, 0, 0, 0, 0) && r == MethodOffsets(0, 16, 0, 0, 0, 0, 0)
    ensures FitsOffsets(r) && FindsMethod(oat, isa, m, o)
  {
  }

  lemma ClassIsFound(in_: Input, files: seq<OatDexFile>, classes: seq<OatClass>, oat: seq<Byte>, k: nat)
    requires IsWritten(in_, files, classes, oat) && k < |AllClasses(in_.dexFiles)|
    requires AllClasses(in_.dexFiles)[k].status < UINT32
    requires forall m :: m in AllClasses(in_.dexFiles)[k].methods ==> FitsMethod(m)
    ensures FindsClass(oat, in_.isa, AllClasses(in_.dexFiles)[k], ClassRecordAt(in_, k))
    ensures ClassRecordAt(in_, k) < UINT32
  {
    hide IsWritten, At, Get32, FindsMethod, ClassRecordAt, MethodsBytes, ClassRecordBytes, AllClasses, MethodRecorded,
         GetOatMethod, FitsMethod;
    WrittenFits(in_, files, classes, oat);
    ClassIsThere(in_, files, classes, oat, k);
    var c, at := classes[k], ClassRecordAt(in_, k);
    AtFits(oat, at, ClassRecordBytes(c.status, c.methodOffsets));
    ClassIsRead(oat, at, c.status, c.methodOffsets);
    forall m | 0 <= m < |AllClasses(in_.dexFiles)[k].methods|
      ensures FindsMethod(oat, in_.isa, AllClasses(in_.dexFiles)[k].methods[m], GetOatMethod(oat, at + 4, m))
    {
      assert AllClasses(in_.dexFiles)[k].methods[m] in AllClasses(in_.dexFiles)[k].methods;
      MethodIsFound(in_, files, classes, oat, k, m);
    }
  }

  lemma DexFileIsFound(in_: Input, files: seq<OatDexFile>, classes: seq<OatClass>, oat: seq<Byte>, i: nat)
    requires IsWritten(in_, files, classes, oat) && i < |in_.dexFiles|
    ensures FindsDexFile(oat, in_.isa, in_.dexFiles[i], GetDexFileEntry(oat, RecordAt(oat, ClassDefs(in_), i)))
  {
    hide IsWritten, At, Get32, Slice, DexRecordAt, DexCopyAt, Words, GetDexFileEntry, FindsClass, ClassOffset,
         ClassRecordAt, AllClasses, DexRecordBytes;
    WrittenFits(in_, files, classes, oat);
    FitsEach(in_, i);
    RecordsAreWalked(in_, files, classes, oat, i);
    EntryIsRead(in_, files, classes, oat, i);
    DexFileIsThere(in_, files, classes, oat, i);
    var d, f, at := in_.dexFiles[i], files[i], DexRecordAt(in_, i) + 12 + |in_.dexFiles[i].location|;
    SliceIsRead(oat, DexCopyAt(in_, i), d.bytes);
    DexCopyAligned(in_, i);
    forall j | 0 <= j < |d.classes| ensures FindsClass(oat, in_.isa, d.classes[j], Get32(oat, at + 4 * j)) {
      ClassOfFile(in_, f, i, j);
      assert d.classes[j] in d.classes;
      var k := FirstClass(in_.dexFiles, i) + j;
      ClassIsFound(in_, files, classes, oat, k);
      WordIsReadOf(oat, at, f.methodsOffsets, j);
    }
  }

  // `Setup` takes the record, unless its location is empty.
  lemma RecordIsTaken(in_: Input, files: seq<OatDexFile>, classes: seq<OatClass>, oat: seq<Byte>, i: nat)
    requires IsWritten(in_, files, classes, oat) && i < |in_.dexFiles|
    ensures var d, at := in_.dexFiles[i], RecordAt(oat, ClassDefs(in_), i);
            && (IsRecord(oat, at, |d.classes|) <==> d.location != [])
            && GetDexFileEntry(oat, at).location == d.location
  {
    hide IsWritten, At, Get32, Slice, DexRecordAt, DexCopyAt, Words, GetDexFileEntry, ClassOffset, RecordAt;
    WrittenFits(in_, files, classes, oat);
    RecordsAreWalked(in_, files, classes, oat, i);
    EntryIsRead(in_, files, classes, oat, i);
    DexFileIsThere(in_, files, classes, oat, i);
    AtFits(oat, DexRecordAt(in_, i) + 12 + |in_.dexFiles[i].location|, Words(files[i].methodsOffsets));
    AtFits(oat, DexCopyAt(in_, i), in_.dexFiles[i].bytes);
    CopiesFollow(in_, i);
  }

  lemma {:induction false} RecordsFollow(in_: Input, i: nat)
    requires i <= |in_.dexFiles|
    ensures DexRecordAt(in_, i) >= HEADER_SIZE
  {
    if i > 0 { RecordsFollow(in_, i - 1); }
  }

  lemma {:induction false} CopiesFollow(in_: Input, i: nat)
    requires i < |in_.dexFiles|
    ensures DexCopyAt(in_, i) > 0
  {
    hide RoundUp, DexRecordAt;
    RoundUpIsNext(DexCopyEnd(in_, i), 4);
    if i > 0 { CopiesFollow(in_, i - 1); } else { RecordsFollow(in_, |in_.dexFiles|); }
  }

  lemma ClassOfFile(in_: Input, f: OatDexFile, i: nat, j: nat)
    requires i < |in_.dexFiles| && j < |in_.dexFiles[i].classes| && DexFileLaid(in_, f, i)
    ensures var k := FirstClass(in_.dexFiles, i) + j;
            && k < |AllClasses(in_.dexFiles)| && AllClasses(in_.dexFiles)[k] == in_.dexFiles[i].classes[j]
            && f.methodsOffsets[j] == ClassRecordAt(in_, k)
  {
    hide ClassRecordAt, AllClasses;
    NextClass(in_, i, j);
    assert ClassOffset(in_, i, j, f.methodsOffsets[j]);
  }

  lemma DexCopyAligned(in_: Input, i: nat)
    requires i < |in_.dexFiles|
    ensures DexCopyAt(in_, i) % 4 == 0
  {
    hide RoundUp;
    RoundUpIsNext(DexCopyEnd(in_, i), 4);
  }

  /** The reader finds everything the writer was given: header, dex files, and for every class its status and for
      every method its own code, size, frame and tables. */
  lemma AllIsFound(in_: Input, files: seq<OatDexFile>, classes: seq<OatClass>, oat: seq<Byte>)
    requires IsWritten(in_, files, classes, oat)
    ensures FindsAll(oat, in_)
  {
    hide IsWritten, FindsHeader, FindsDexFile, GetDexFileEntry, RecordAt;
    HeaderIsFound(in_, files, classes, oat);
    forall i | 0 <= i < |in_.dexFiles|
      ensures FindsDexFile(oat, in_.isa, in_.dexFiles[i], GetDexFileEntry(oat, RecordAt(oat, ClassDefs(in_), i)))
    {
      DexFileIsFound(in_, files, classes, oat, i);
    }
  }

  // ---- writing and reading ---------------------------------------------------------------------------------

  lemma AllRebased(v: seq<Byte>, base: nat, ps: seq<Piece>)
    requires AllAt(v, base, ps) && base <= |v|
    ensures AllAt(v[base..], 0, ps)
  {
    forall p | p in ps ensures At(v[base..], 0 + p.at, p.bytes) { Rebased(v, base, p.at, p.bytes); }
  }

  lemma Rebased(v: seq<Byte>, base: nat, at: nat, b: seq<Byte>)
    requires At(v, base + at, b) && base <= |v|
    ensures At(v[base..], at, b)
  {
    assert v[base..][at..at + |b|] == v[base + at..base + at + |b|];
  }

  lemma BlobsRebased(in_: Input, v: seq<Byte>, base: nat)
    requires Valid(in_) && BlobsAt(v, base, FinalLayout(in_).seen, in_.isa.CodeDelta()) && base <= |v|
    ensures BlobsAt(v[base..], 0, FinalLayout(in_).seen, in_.isa.CodeDelta())
  {
    hide LayMethods, MethodsIn, At, Content, Valid;
    LaysKnown(in_, |MethodsIn(in_)|);
    var d, delta := FinalLayout(in_).seen, in_.isa.CodeDelta();
    forall k, b | b in SeenOf(d, k)
      ensures Placed(d, k, b) ==> At(v[base..], 0 + First(d, k, b, delta), Content(k, b))
    {
      if Placed(d, k, b) { Rebased(v, base, First(d, k, b, delta), Content(k, b)); }
    }
  }

  // What `Write` ensures is enough, wherever in a stream the oat file begins.
  lemma StreamHoldsFile(in_: Input, files: seq<OatDexFile>, classes: seq<OatClass>, v: seq<Byte>, base: nat)
    requires Valid(in_) && Fits(in_) && DexFilesLaid(in_, files) && ClassesLaid(in_, classes)
    requires AllAt(v, base, AllPieces(in_, files, classes)) && |v| == base + TotalSize(in_)
    requires BlobsAt(v, base, FinalLayout(in_).seen, in_.isa.CodeDelta())
    ensures IsWritten(in_, files, classes, v[base..])
  {
    AllRebased(v, base, AllPieces(in_, files, classes));
    BlobsRebased(in_, v, base);
    hide Valid, Fits, DexFilesLaid, ClassesLaid, AllAt, BlobsAt, FinalLayout, TotalSize, FindsAll, AllPieces;
  }

  lemma RecordsBegin(in_: Input, files: seq<OatDexFile>, classes: seq<OatClass>, oat: seq<Byte>)
    requires IsWritten(in_, files, classes, oat)
    ensures RecordAt(oat, ClassDefs(in_), 0) <= |oat|
  {
    hide IsWritten, At, Get32, FindsHeader, GetOatHeader;
    WrittenFits(in_, files, classes, oat);
    HeaderIsFound(in_, files, classes, oat);
    HeaderIsThere(in_, files, classes, oat);
    AtFits(oat, 64, in_.location);
  }

  // The reader's walk over the records of a written file.
  lemma SetupSucceeds(in_: Input, files: seq<OatDexFile>, classes: seq<OatClass>, oat: seq<Byte>)
    requires IsWritten(in_, files, classes, oat)
    ensures RecordAt(oat, ClassDefs(in_), 0) <= |oat|
    ensures forall i :: 0 <= i < |in_.dexFiles| ==>
              (IsRecord(oat, RecordAt(oat, ClassDefs(in_), i), ClassDefs(in_)[i]) <==>
               in_.dexFiles[i].location != [])
  {
    hide IsWritten, IsRecord, RecordAt;
    forall i | 0 <= i < |in_.dexFiles|
      ensures IsRecord(oat, RecordAt(oat, ClassDefs(in_), i), ClassDefs(in_)[i]) <==> in_.dexFiles[i].location != []
    {
      RecordIsTaken(in_, files, classes, oat, i);
    }
    RecordsBegin(in_, files, classes, oat);
  }

  /** An oat file from its layout to what the runtime finds in its bytes; it takes the file unless a dex file has
      an empty location. */
  method WriteAndRead(in_: Input, out: VectorOutputStream) returns (ok: bool, found: seq<DexFileEntry>)
    requires Valid(in_) && Fits(in_) && out.Valid() && out.offset == |out.vector| && out.IsSteady()
    modifies out
    ensures old(out.vector) <= out.vector && FindsAll(out.vector[|old(out.vector)|..], in_)
    ensures ok <==> forall i :: 0 <= i < |in_.dexFiles| ==> in_.dexFiles[i].location != []
    ensures ok ==> |found| == |in_.dexFiles| && forall i :: 0 <= i < |found| ==>
              FindsDexFile(out.vector[|old(out.vector)|..], in_.isa, in_.dexFiles[i], found[i])
  {
    hide Valid, Fits, DexFilesLaid, ClassesLaid, AllAt, BlobsAt, FinalLayout, FindsHeader, Listed, Filled, AllPieces,
         PaddingStats, Steady, Mirrors, Highest, Run, ExecutableAt, TrampolineOffsets, CodeStart, IsWritten,
         FindsDexFile, RecordAt, IsRecord, GetDexFileEntry;
    var writer := new OatWriter(in_);
    var base := |out.vector|;
    ghost var written;
    ok, written := writer.Write(out);
    ghost var oat := out.vector[base..];
    StreamHoldsFile(in_, writer.oatDexFiles, writer.oatClasses, out.vector, base);
    AllIsFound(in_, writer.oatDexFiles, writer.oatClasses, oat);
    SetupSucceeds(in_, writer.oatDexFiles, writer.oatClasses, oat);
    HeaderCounts(oat, in_);
    ok, found := Setup(out.vector[base..], ClassDefs(in_));
  }

  lemma HeaderCounts(oat: seq<Byte>, in_: Input)
    requires FindsHeader(oat, in_)
    ensures GetOatHeader(oat).dexFileCount == |in_.dexFiles|
  {
    hide FindsTrampoline, GetOatHeader;
  }
}
