/** `ElfStripper::Strip`: the kept sections of an ELF file are moved together in place, over the sections
    that are dropped, while the old section headers are still read from the same file. */
module ElfStripper {
  import opened Bytes
  import opened OutputStreams
  import opened Sequences
  import opened Alignment
  import OatLayout

  // ---- the parts of an ELF file that matter here -------------------------------------------------------

  const EHDR_SIZE: nat := 52
  const SHDR_SIZE: nat := 40
  const SHT_STRTAB: nat := 3

  function Get16(b: seq<Byte>, at: nat): nat
    requires at + 2 <= |b|
  {
    b[at] as nat + 256 * b[at + 1] as nat
  }

  function Get32(b: seq<Byte>, at: nat): nat
    requires at + 4 <= |b|
  {
    b[at] as nat + 256 * b[at + 1] as nat + 0x1_0000 * b[at + 2] as nat + 0x100_0000 * b[at + 3] as nat
  }

  function SectionHeaderOffset(b: seq<Byte>): nat
    requires |b| >= EHDR_SIZE
  {
    Get32(b, 32)
  }

  function SectionHeaderNum(b: seq<Byte>): nat
    requires |b| >= EHDR_SIZE
  {
    Get16(b, 48)
  }

  function NameSection(b: seq<Byte>): nat
    requires |b| >= EHDR_SIZE
  {
    Get16(b, 50)
  }

  ghost predicate HasHeaders(b: seq<Byte>) {
    |b| >= EHDR_SIZE && SectionHeaderOffset(b) + SHDR_SIZE * SectionHeaderNum(b) <= |b|
  }

  // Section header i, as it is in the file.
  function Header(b: seq<Byte>, i: nat): (h: seq<Byte>)
    requires HasHeaders(b) && i < SectionHeaderNum(b)
    ensures |h| == SHDR_SIZE
  {
    HeaderFits(b, i);
    b[SectionHeaderOffset(b) + SHDR_SIZE * i..SectionHeaderOffset(b) + SHDR_SIZE * i + SHDR_SIZE]
  }

  lemma HeaderFits(b: seq<Byte>, i: nat)
    requires HasHeaders(b) && i < SectionHeaderNum(b)
    ensures SectionHeaderOffset(b) + SHDR_SIZE * i + SHDR_SIZE <= |b|
  {
  }

  // The fields of a section header.
  function NameOf(h: seq<Byte>): nat
    requires |h| == SHDR_SIZE
  {
    Get32(h, 0)
  }

  function TypeOf(h: seq<Byte>): nat
    requires |h| == SHDR_SIZE
  {
    Get32(h, 4)
  }

  function OffsetOf(h: seq<Byte>): nat
    requires |h| == SHDR_SIZE
  {
    Get32(h, 16)
  }

  function SizeOf(h: seq<Byte>): nat
    requires |h| == SHDR_SIZE
  {
    Get32(h, 20)
  }

  function AlignOf(h: seq<Byte>): nat
    requires |h| == SHDR_SIZE
  {
    Get32(h, 32)
  }

  // The same header with another offset.
  function Moved(h: seq<Byte>, offset: nat): (m: seq<Byte>)
    requires |h| == SHDR_SIZE
    ensures |m| == SHDR_SIZE
  {
    h[..16] + OatLayout.U32(offset) + h[20..]
  }

  lemma WordReads(n: nat)
    requires n < 0x1_0000_0000
    ensures Get32(OatLayout.U32(n), 0) == n
  {
    var a, b, c := n / 256, n / 0x1_0000, n / 0x100_0000;
    assert n == 256 * a + n % 256 && a == 256 * b + a % 256 && b == 256 * c + b % 256;
  }

  lemma MovedReads(h: seq<Byte>, offset: nat)
    requires |h| == SHDR_SIZE && offset < 0x1_0000_0000
    ensures OffsetOf(Moved(h, offset)) == offset
    ensures SizeOf(Moved(h, offset)) == SizeOf(h) && NameOf(Moved(h, offset)) == NameOf(h)
    ensures AlignOf(Moved(h, offset)) == AlignOf(h)
    ensures Moved(h, offset)[..16] == h[..16] && Moved(h, offset)[20..] == h[20..]
  {
    WordReads(offset);
    var m, w := Moved(h, offset), OatLayout.U32(offset);
    assert m[16] == w[0] && m[17] == w[1] && m[18] == w[2] && m[19] == w[3];
    hide Moved, OatLayout.U32;
  }

  // ---- the headers as the ELF specification lists their fields ------------------------------------------

  function U16(n: nat): (bytes: seq<Byte>)
    ensures |bytes| == 2
  {
    [n % 256, n / 256 % 256]
  }

  /** `Elf32_Shdr` */
  datatype SectionHeader =
    SectionHeader(name: nat, typ: nat, flags: nat, addr: nat, offset: nat, size: nat, link: nat, info: nat,
                  addralign: nat, entsize: nat)
  {
    function Fields(): seq<nat> { [name, typ, flags, addr, offset, size, link, info, addralign, entsize] }
  }

  /** `Elf32_Ehdr` */
  datatype FileHeader =
    FileHeader(ident: seq<Byte>, typ: nat, machine: nat, version: nat, entry: nat, phoff: nat, shoff: nat, flags: nat,
               ehsize: nat, phentsize: nat, phnum: nat, shentsize: nat, shnum: nat, shstrndx: nat)

  // Numbers of 32 bits, and of 16 bits, one after the other.
  ghost predicate WordsAt(b: seq<Byte>, at: nat, ns: seq<nat>) {
    at + 4 * |ns| <= |b| && forall k :: 0 <= k < |ns| ==> b[at + 4 * k..][..4] == OatLayout.U32(ns[k])
  }

  ghost predicate HalvesAt(b: seq<Byte>, at: nat, ns: seq<nat>) {
    at + 2 * |ns| <= |b| && forall k :: 0 <= k < |ns| ==> b[at + 2 * k..][..2] == U16(ns[k])
  }

  ghost predicate IsSectionHeader(h: seq<Byte>, s: SectionHeader) { |h| == SHDR_SIZE && WordsAt(h, 0, s.Fields()) }

  ghost predicate BeginsWith(b: seq<Byte>, e: FileHeader) {
    && |b| >= EHDR_SIZE && |e.ident| == 16 && b[..16] == e.ident
    && HalvesAt(b, 16, [e.typ, e.machine])
    && WordsAt(b, 20, [e.version, e.entry, e.phoff, e.shoff, e.flags])
    && HalvesAt(b, 40, [e.ehsize, e.phentsize, e.phnum, e.shentsize, e.shnum, e.shstrndx])
  }

  lemma WordIsRead(b: seq<Byte>, at: nat, ns: seq<nat>, k: nat)
    requires WordsAt(b, at, ns) && k < |ns| && ns[k] < 0x1_0000_0000
    ensures Get32(b, at + 4 * k) == ns[k]
  {
    WordReads(ns[k]);
    var w := b[at + 4 * k..][..4];
    assert w[0] == b[at + 4 * k] && w[1] == b[at + 4 * k + 1] && w[2] == b[at + 4 * k + 2] && w[3] == b[at + 4 * k + 3];
    hide OatLayout.U32;
  }

  lemma HalfIsRead(b: seq<Byte>, at: nat, ns: seq<nat>, k: nat)
    requires HalvesAt(b, at, ns) && k < |ns| && ns[k] < 0x1_0000
    ensures Get16(b, at + 2 * k) == ns[k]
  {
    var w := b[at + 2 * k..][..2];
    assert w[0] == b[at + 2 * k] && w[1] == b[at + 2 * k + 1];
  }

  /** What is read from a section header are the fields of these names. */
  lemma SectionHeaderIsRead(h: seq<Byte>, s: SectionHeader)
    requires IsSectionHeader(h, s) && forall n :: n in s.Fields() ==> n < 0x1_0000_0000
    ensures NameOf(h) == s.name && TypeOf(h) == s.typ && OffsetOf(h) == s.offset && SizeOf(h) == s.size
    ensures AlignOf(h) == s.addralign
  {
    hide Get32, WordsAt;
    var ns := s.Fields();
    assert ns[0] in ns && ns[1] in ns && ns[4] in ns && ns[5] in ns && ns[8] in ns;
    WordIsRead(h, 0, ns, 0);
    WordIsRead(h, 0, ns, 1);
    WordIsRead(h, 0, ns, 4);
    WordIsRead(h, 0, ns, 5);
    WordIsRead(h, 0, ns, 8);
  }

  /** And only the offset of a moved section changes. */
  lemma MovedHeader(h: seq<Byte>, s: SectionHeader, offset: nat)
    requires IsSectionHeader(h, s)
    ensures IsSectionHeader(Moved(h, offset), s.(offset := offset))
  {
    var m, old_, new_ := Moved(h, offset), s.Fields(), s.(offset := offset).Fields();
    forall k | 0 <= k < 10 ensures m[4 * k..][..4] == OatLayout.U32(new_[k]) {
      if k == 4 {
        assert m[16..][..4] == OatLayout.U32(offset);
      } else {
        assert m[4 * k..][..4] == h[4 * k..][..4] && new_[k] == old_[k];
      }
    }
  }

  lemma FileHeaderIsRead(b: seq<Byte>, e: FileHeader)
    requires BeginsWith(b, e) && e.shoff < 0x1_0000_0000 && e.shnum < 0x1_0000 && e.shstrndx < 0x1_0000
    ensures SectionHeaderOffset(b) == e.shoff && SectionHeaderNum(b) == e.shnum && NameSection(b) == e.shstrndx
  {
    hide Get32, Get16, WordsAt, HalvesAt;
    WordIsRead(b, 20, [e.version, e.entry, e.phoff, e.shoff, e.flags], 3);
    var halves := [e.ehsize, e.phentsize, e.phnum, e.shentsize, e.shnum, e.shstrndx];
    HalfIsRead(b, 40, halves, 4);
    HalfIsRead(b, 40, halves, 5);
  }

  // The text that starts at a position.
  function TextAt(b: seq<Byte>, at: nat): string
    decreases |b| - at
  {
    if at >= |b| || b[at] == 0 then "" else [b[at] as char] + TextAt(b, at + 1)
  }

  // A text that ends with a zero byte.
  ghost predicate TextIs(b: seq<Byte>, at: nat, text: string) {
    && at + |text| < |b| && b[at + |text|] == 0
    && forall k :: 0 <= k < |text| ==> b[at + k] as char == text[k] != '\0'
  }

  lemma {:induction false} TextIsRead(b: seq<Byte>, at: nat, text: string)
    requires TextIs(b, at, text)
    ensures TextAt(b, at) == text
    decreases |text|
  {
    if text != [] {
      assert b[at + 0] as char == text[0];
      TextIsRead(b, at + 1, text[1..]);
    }
  }

  function SectionName(b: seq<Byte>, i: nat): string
    requires HasHeaders(b) && i < SectionHeaderNum(b) && NameSection(b) < SectionHeaderNum(b)
  {
    TextAt(b, OffsetOf(Header(b, NameSection(b))) + NameOf(Header(b, i)))
  }

  predicate IsDropped(name: string) {
    ".debug" <= name || name == ".strtab" || name == ".symtab"
  }

  const NEEDED_SECTIONS := {".dynsym", ".dynstr", ".hash", ".rodata", ".text", ".data", ".dynamic", ".shstrtab"}
  const DEBUGGING_SECTIONS := {".debug", ".debug_frame", ".debug_info", ".debug_line", ".strtab", ".symtab"}

  /** Of the sections that such a file usually has, those for debugging and static linking are dropped. */
  lemma UsualSections(name: string)
    ensures name in NEEDED_SECTIONS ==> !IsDropped(name)
    ensures name in DEBUGGING_SECTIONS ==> IsDropped(name)
  {
    if name in DEBUGGING_SECTIONS {
      assert ".debug" <= name || name == ".strtab" || name == ".symtab";
    } else if name in NEEDED_SECTIONS {
      assert name[1] != 's' || name == ".shstrtab";
      assert ".strtab"[1] == ".symtab"[1] == 's';
      assert ".debug"[1] == 'd' && ".debug"[2] == 'e' && (name[1] != 'd' || name[2] != 'e');
    }
  }

  predicate IsKept(b: seq<Byte>, i: nat)
    requires HasHeaders(b) && i < SectionHeaderNum(b) && NameSection(b) < SectionHeaderNum(b)
  {
    NameOf(Header(b, i)) == 0 || !IsDropped(SectionName(b, i))
  }

  /** Sections sorted by offset, disjoint, aligned and followed by the header table; the name table is one,
      and exactly the first section has no name. */
  ghost predicate WellFormed(b: seq<Byte>) {
    && HasHeaders(b) && 2 <= SectionHeaderNum(b) && NameSection(b) < SectionHeaderNum(b)
    && EHDR_SIZE <= OffsetOf(Header(b, 1)) && TypeOf(Header(b, NameSection(b))) == SHT_STRTAB
    && (forall i :: 0 <= i < SectionHeaderNum(b) ==>
          && (NameOf(Header(b, i)) == 0 <==> i == 0)
          && NameOf(Header(b, i)) < SizeOf(Header(b, NameSection(b))))
    && (forall i :: 1 <= i < SectionHeaderNum(b) ==> SectionFits(b, i))
  }

  // The section is aligned and ends before the next one, or before the header table.
  ghost predicate SectionFits(b: seq<Byte>, i: nat)
    requires HasHeaders(b) && i < SectionHeaderNum(b)
  {
    && (AlignOf(Header(b, i)) > 1 ==> OffsetOf(Header(b, i)) % AlignOf(Header(b, i)) == 0)
    && OffsetOf(Header(b, i)) + SizeOf(Header(b, i)) <=
       if i + 1 < SectionHeaderNum(b) then OffsetOf(Header(b, i + 1)) else SectionHeaderOffset(b)
  }

  // ---- where sections go -------------------------------------------------------------------------------

  // The kept ones among the first i sections.
  function Kept(b: seq<Byte>, i: nat): seq<nat>
    requires HasHeaders(b) && NameSection(b) < SectionHeaderNum(b) && i <= SectionHeaderNum(b)
  {
    if i == 0 then [] else Kept(b, i - 1) + if IsKept(b, i - 1) then [i - 1] else []
  }

  function AlignUp(x: nat, n: nat): nat { if n > 1 then RoundUp(x, n) else x }

  type Shdr = h: seq<Byte> | |h| == SHDR_SIZE witness Zeros(40)

  // The end of kept section k, when the sections start at `start`; section 0 occupies nothing.
  function NewEnd(start: nat, kept: seq<Shdr>, k: nat): nat
    requires k < |kept|
    decreases k, 0
  {
    if k == 0 then start else NewOffset(start, kept, k) + SizeOf(kept[k])
  }

  function NewOffset(start: nat, kept: seq<Shdr>, k: nat): nat
    requires 0 < k < |kept|
    decreases k, -1
  {
    AlignUp(NewEnd(start, kept, k - 1), AlignOf(kept[k]))
  }

  lemma AlignUpIsNext(x: nat, n: nat, y: nat)
    requires x <= y && (n > 1 ==> y % n == 0)
    ensures x <= AlignUp(x, n) <= y
  {
    if n > 1 {
      RoundUpIsNext(x, n);
      hide RoundUp;
      Multiples(RoundUp(x, n), y, n);
    }
  }

  // Multiples of n are at least n apart.
  lemma Multiples(a: nat, b: nat, n: nat)
    requires n > 0 && a % n == 0 && b % n == 0 && a < b + n
    ensures a <= b
  {
    var p, q := a / n, b / n;
    assert a == p * n && b == q * n;
    assert p > q ==> p * n >= (q + 1) * n;
  }

  lemma AlignUpIsAligned(x: nat, n: nat)
    requires n > 1
    ensures AlignUp(x, n) % n == 0
  {
    RoundUpIsNext(x, n);
  }

  // ---- kept sections keep their order and only move forward ------------------------------------------------

  // The headers of the numbered sections.
  function Headers(b: seq<Byte>, ids: seq<nat>): (hs: seq<Shdr>)
    requires HasHeaders(b) && forall k :: 0 <= k < |ids| ==> ids[k] < SectionHeaderNum(b)
    ensures |hs| == |ids| && forall k :: 0 <= k < |ids| ==> hs[k] == Header(b, ids[k])
  {
    if ids == [] then [] else Headers(b, ids[..|ids| - 1]) + [Header(b, ids[|ids| - 1])]
  }

  lemma {:induction false} KeptAscend(b: seq<Byte>, i: nat)
    requires HasHeaders(b) && NameSection(b) < SectionHeaderNum(b) && i <= SectionHeaderNum(b)
    ensures forall x: nat :: x in Kept(b, i) <==> x < i && IsKept(b, x)
    ensures forall k :: 0 <= k < |Kept(b, i)| ==> Kept(b, i)[k] < i
    ensures forall j, k :: 0 <= j < k < |Kept(b, i)| ==> Kept(b, i)[j] < Kept(b, i)[k]
    ensures |Kept(b, i)| <= i
  {
    hide IsKept;
    if i > 0 { KeptAscend(b, i - 1); }
  }

  lemma {:induction false} SectionsAscend(b: seq<Byte>, i: nat, j: nat)
    requires WellFormed(b) && 1 <= i < j < SectionHeaderNum(b)
    ensures OffsetOf(Header(b, i)) + SizeOf(Header(b, i)) <= OffsetOf(Header(b, j))
    decreases j - i
  {
    hide Header, OffsetOf, SizeOf, AlignOf, HasHeaders, SectionHeaderNum, SectionHeaderOffset, NameOf, TypeOf,
         NameSection;
    assert SectionFits(b, i);
    if i + 1 < j { SectionsAscend(b, i + 1, j); assert SectionFits(b, i + 1); }
  }

  // What Strip keeps of the file b, and where its sections start.
  ghost function KeptIn(b: seq<Byte>): seq<nat>
    requires WellFormed(b)
  {
    Kept(b, SectionHeaderNum(b))
  }

  ghost function KeptHeaders(b: seq<Byte>): (hs: seq<Shdr>)
    requires WellFormed(b)
    ensures |hs| == |KeptIn(b)| && forall k :: 0 <= k < |hs| ==>
            KeptIn(b)[k] < SectionHeaderNum(b) && hs[k] == Header(b, KeptIn(b)[k])
  {
    KeptAscend(b, SectionHeaderNum(b));
    Headers(b, KeptIn(b))
  }

  ghost function Start(b: seq<Byte>): nat
    requires WellFormed(b)
  {
    OffsetOf(Header(b, 1))
  }

  // A kept section is aligned and lies between the kept ones before and after it.
  lemma KeptSectionFits(b: seq<Byte>, k: nat)
    requires WellFormed(b) && k < |KeptHeaders(b)|
    ensures var hs := KeptHeaders(b);
            && (k > 0 ==> && (AlignOf(hs[k]) > 1 ==> OffsetOf(hs[k]) % AlignOf(hs[k]) == 0)
                          && Start(b) <= OffsetOf(hs[k]) && OffsetOf(hs[k]) + SizeOf(hs[k]) <= SectionHeaderOffset(b))
            && (0 < k && k + 1 < |hs| ==> OffsetOf(hs[k]) + SizeOf(hs[k]) <= OffsetOf(hs[k + 1]))
            && Start(b) <= SectionHeaderOffset(b)
  {
    hide Header, OffsetOf, SizeOf, AlignOf, NameOf, TypeOf, IsKept, Kept;
    var ids, hs := KeptIn(b), KeptHeaders(b);
    KeptAscend(b, SectionHeaderNum(b));
    EndsBeforeHeaders(b, 1);
    if k > 0 {
      assert ids[k - 1] < ids[k];
      assert SectionFits(b, ids[k]);
      EndsBeforeHeaders(b, ids[k]);
      if ids[k] > 1 { SectionsAscend(b, 1, ids[k]); }
      if k + 1 < |hs| { SectionsAscend(b, ids[k], ids[k + 1]); }
    }
  }

  /** Every kept section moves to an earlier place or stays, and its new place ends before its old end. */
  lemma {:induction false} SectionsMoveForward(b: seq<Byte>, k: nat)
    requires WellFormed(b) && k < |KeptHeaders(b)|
    ensures k > 0 ==>
              && NewEnd(Start(b), KeptHeaders(b), k - 1) <= NewOffset(Start(b), KeptHeaders(b), k) <=
                   OffsetOf(KeptHeaders(b)[k])
              && OffsetOf(KeptHeaders(b)[k]) + SizeOf(KeptHeaders(b)[k]) <= SectionHeaderOffset(b)
    ensures Start(b) <= NewEnd(Start(b), KeptHeaders(b), k) <= SectionHeaderOffset(b)
    ensures k + 1 < |KeptHeaders(b)| ==> NewEnd(Start(b), KeptHeaders(b), k) <= OffsetOf(KeptHeaders(b)[k + 1])
  {
    hide Start, KeptHeaders, OffsetOf, SizeOf, AlignOf, AlignUp, WellFormed, HasHeaders, SectionHeaderOffset, RoundUp;
    KeptSectionFits(b, k);
    if k > 0 {
      SectionsMoveForward(b, k - 1);
      AlignUpIsNext(NewEnd(Start(b), KeptHeaders(b), k - 1), AlignOf(KeptHeaders(b)[k]), OffsetOf(KeptHeaders(b)[k]));
    }
    if k + 1 < |KeptHeaders(b)| { KeptSectionFits(b, k + 1); }
  }

  lemma EndsBeforeHeaders(b: seq<Byte>, i: nat)
    requires WellFormed(b) && 1 <= i < SectionHeaderNum(b)
    ensures OffsetOf(Header(b, i)) + SizeOf(Header(b, i)) <= SectionHeaderOffset(b)
  {
    hide Header, OffsetOf, SizeOf, AlignOf, NameOf, TypeOf;
    var last := SectionHeaderNum(b) - 1;
    assert SectionFits(b, last);
    if i < last { SectionsAscend(b, i, last); }
  }

  // The header that is written for a kept section.
  function Relocated(h: Shdr, offset: nat): Shdr { if OffsetOf(h) == offset then h else Moved(h, offset) }

  // ---- the moves -----------------------------------------------------------------------------------------

  // Only what lies between `start` and `end` has changed.
  ghost predicate Unchanged(b: seq<Byte>, v: seq<Byte>, start: nat, end: nat) {
    |v| == |b| && forall p :: 0 <= p < |b| && (p < start || p >= end) ==> v[p] == b[p]
  }

  ghost predicate SectionsAt(b: seq<Byte>, v: seq<Byte>, k: nat)
    requires WellFormed(b) && k < |KeptHeaders(b)|
  {
    forall i :: 1 <= i <= k ==> SectionAt(b, v, i)
  }

  /** After the first k moves: the moved sections are intact, and nothing at or beyond the end of the last
      of them has changed, nor anything before the sections. */
  ghost predicate MovedTo(b: seq<Byte>, v: seq<Byte>, k: nat)
    requires WellFormed(b) && k < |KeptHeaders(b)|
  {
    Unchanged(b, v, Start(b), NewEnd(Start(b), KeptHeaders(b), k)) && SectionsAt(b, v, k)
  }

  ghost predicate SectionAt(b: seq<Byte>, v: seq<Byte>, i: nat)
    requires WellFormed(b) && 1 <= i < |KeptHeaders(b)|
  {
    var h, new_ := KeptHeaders(b)[i], NewOffset(Start(b), KeptHeaders(b), i);
    new_ + SizeOf(h) <= |v| && OffsetOf(h) + SizeOf(h) <= |b| &&
    v[new_..new_ + SizeOf(h)] == b[OffsetOf(h)..OffsetOf(h) + SizeOf(h)]
  }

  lemma {:induction false} EndsAscend(b: seq<Byte>, i: nat, k: nat)
    requires WellFormed(b) && i <= k < |KeptHeaders(b)|
    ensures NewEnd(Start(b), KeptHeaders(b), i) <= NewEnd(Start(b), KeptHeaders(b), k)
    decreases k
  {
    hide Header, OffsetOf, SizeOf, AlignOf, KeptHeaders, AlignUp;
    if i < k {
      EndsAscend(b, i, k - 1);
      SectionsMoveForward(b, k);
    }
  }

  // Where the next section is and where it goes.
  lemma NextMove(b: seq<Byte>, k: nat)
    requires WellFormed(b) && k + 1 < |KeptHeaders(b)|
    ensures var h, new_ := KeptHeaders(b)[k + 1], NewOffset(Start(b), KeptHeaders(b), k + 1);
            && Start(b) <= NewEnd(Start(b), KeptHeaders(b), k) <= new_ <= OffsetOf(h) && OffsetOf(h) + SizeOf(h) <= |b|
            && NewEnd(Start(b), KeptHeaders(b), k + 1) == new_ + SizeOf(h)
  {
    hide Header, OffsetOf, SizeOf, AlignOf, KeptHeaders, AlignUp, WellFormed;
    SectionsMoveForward(b, k + 1);
    SectionsMoveForward(b, k);
    HeadersInside(b);
  }

  // The file after the next move.
  ghost function MoveNext(b: seq<Byte>, v: seq<Byte>, k: nat): (v': seq<Byte>)
    requires WellFormed(b) && k + 1 < |KeptHeaders(b)| && |v| == |b|
    ensures |v'| == |v|
  {
    NextMove(b, k);
    var h := KeptHeaders(b)[k + 1];
    Overlay(v, NewOffset(Start(b), KeptHeaders(b), k + 1), v[OffsetOf(h)..OffsetOf(h) + SizeOf(h)])
  }

  /** One move, or a section that is already in place. */
  lemma MovesOn(b: seq<Byte>, v: seq<Byte>, k: nat)
    requires WellFormed(b) && k + 1 < |KeptHeaders(b)| && |v| == |b| && MovedTo(b, v, k)
    ensures MovedTo(b, MoveNext(b, v, k), k + 1)
    ensures OffsetOf(KeptHeaders(b)[k + 1]) == NewOffset(Start(b), KeptHeaders(b), k + 1) ==> MoveNext(b, v, k) == v
  {
    hide Unchanged, MoveNext, SectionAt, KeptHeaders, WellFormed, NewEnd, NewOffset, Start;
    UnchangedOn(b, v, k);
    JustMoved(b, v, k);
    forall i | 1 <= i <= k ensures SectionAt(b, MoveNext(b, v, k), i) { EarlierStays(b, v, i, k); }
    MoveInPlace(b, v, k);
  }

  lemma MoveInPlace(b: seq<Byte>, v: seq<Byte>, k: nat)
    requires WellFormed(b) && k + 1 < |KeptHeaders(b)| && |v| == |b|
    ensures OffsetOf(KeptHeaders(b)[k + 1]) == NewOffset(Start(b), KeptHeaders(b), k + 1) ==> MoveNext(b, v, k) == v
  {
    NextMove(b, k);
    hide Header, OffsetOf, SizeOf, AlignOf, KeptHeaders, WellFormed, NewEnd, NewOffset, Start, Overlay;
    var h := KeptHeaders(b)[k + 1];
    OverlaySame(v, OffsetOf(h), SizeOf(h));
  }

  lemma UnchangedOn(b: seq<Byte>, v: seq<Byte>, k: nat)
    requires WellFormed(b) && k + 1 < |KeptHeaders(b)| && |v| == |b|
    requires Unchanged(b, v, Start(b), NewEnd(Start(b), KeptHeaders(b), k))
    ensures Unchanged(b, MoveNext(b, v, k), Start(b), NewEnd(Start(b), KeptHeaders(b), k + 1))
  {
    NextMove(b, k);
    hide Header, OffsetOf, SizeOf, AlignOf, KeptHeaders, WellFormed, NewEnd, NewOffset, Start, Overlay;
    var h := KeptHeaders(b)[k + 1];
    OverlayKeeps(v, NewOffset(Start(b), KeptHeaders(b), k + 1), v[OffsetOf(h)..OffsetOf(h) + SizeOf(h)]);
  }

  // A section that was moved before lies before the place that is written now.
  lemma EarlierStays(b: seq<Byte>, v: seq<Byte>, i: nat, k: nat)
    requires WellFormed(b) && 1 <= i <= k && k + 1 < |KeptHeaders(b)| && |v| == |b| && SectionAt(b, v, i)
    ensures SectionAt(b, MoveNext(b, v, k), i)
  {
    EndsAscend(b, i, k);
    NextMove(b, k);
    EndOfSection(b, i);
    hide Header, OffsetOf, SizeOf, AlignOf, KeptHeaders, WellFormed, NewEnd, NewOffset, Start, Overlay;
    var h := KeptHeaders(b)[k + 1];
    OverlayKeeps(v, NewOffset(Start(b), KeptHeaders(b), k + 1), v[OffsetOf(h)..OffsetOf(h) + SizeOf(h)]);
    var g, at := KeptHeaders(b)[i], NewOffset(Start(b), KeptHeaders(b), i);
    assert MoveNext(b, v, k)[at..at + SizeOf(g)] == v[at..at + SizeOf(g)];
  }

  lemma EndOfSection(b: seq<Byte>, i: nat)
    requires WellFormed(b) && 1 <= i < |KeptHeaders(b)|
    ensures NewEnd(Start(b), KeptHeaders(b), i) == NewOffset(Start(b), KeptHeaders(b), i) + SizeOf(KeptHeaders(b)[i])
  {
  }

  lemma JustMoved(b: seq<Byte>, v: seq<Byte>, k: nat)
    requires WellFormed(b) && k + 1 < |KeptHeaders(b)| && |v| == |b|
    requires Unchanged(b, v, Start(b), NewEnd(Start(b), KeptHeaders(b), k))
    ensures SectionAt(b, MoveNext(b, v, k), k + 1)
  {
    hide Header, OffsetOf, SizeOf, AlignOf, KeptHeaders, WellFormed, NewEnd, NewOffset, Start, Overlay, Unchanged;
    NextMove(b, k);
    var h, new_ := KeptHeaders(b)[k + 1], NewOffset(Start(b), KeptHeaders(b), k + 1);
    var old_, size := OffsetOf(h), SizeOf(h);
    SliceUnchanged(b, v, Start(b), NewEnd(Start(b), KeptHeaders(b), k), old_, size);
    OverlayHas(v, new_, v[old_..old_ + size]);
  }

  lemma SliceUnchanged(b: seq<Byte>, v: seq<Byte>, start: nat, end: nat, at: nat, n: nat)
    requires Unchanged(b, v, start, end) && end <= at && at + n <= |b|
    ensures v[at..at + n] == b[at..at + n]
  {
  }

  lemma OverlayHas(v: seq<Byte>, at: nat, w: seq<Byte>)
    requires at + |w| <= |v|
    ensures |Overlay(v, at, w)| == |v| && Overlay(v, at, w)[at..at + |w|] == w
  {
  }

  lemma OverlayKeeps(v: seq<Byte>, at: nat, w: seq<Byte>)
    requires at + |w| <= |v|
    ensures |Overlay(v, at, w)| == |v|
    ensures forall p :: 0 <= p < |v| && (p < at || p >= at + |w|) ==> Overlay(v, at, w)[p] == v[p]
  {
  }

  lemma OverlaySame(v: seq<Byte>, at: nat, n: nat)
    requires at + n <= |v|
    ensures Overlay(v, at, v[at..at + n]) == v
  {
  }

  lemma HeadersInside(b: seq<Byte>)
    requires WellFormed(b)
    ensures |KeptHeaders(b)| > 0 && SectionHeaderOffset(b) + SHDR_SIZE * |KeptHeaders(b)| <= |b|
    ensures KeptIn(b)[0] == 0 && |KeptHeaders(b)| <= SectionHeaderNum(b) && Start(b) >= EHDR_SIZE
  {
    hide IsKept;
    KeptAscend(b, SectionHeaderNum(b));
    FirstKept(b, SectionHeaderNum(b));
  }

  lemma {:induction false} FirstKept(b: seq<Byte>, i: nat)
    requires WellFormed(b) && 0 < i <= SectionHeaderNum(b)
    ensures Kept(b, i) != [] && Kept(b, i)[0] == 0
  {
    if i > 1 { FirstKept(b, i - 1); } else { assert NameOf(Header(b, 0)) == 0; }
  }

  // ---- stripping -----------------------------------------------------------------------------------------

  // memmove to an earlier place
  method Memmove(file: array<Byte>, dst: nat, src: nat, n: nat)
    requires dst <= src && src + n <= file.Length
    modifies file
    ensures file[..] == Overlay(old(file[..]), dst, old(file[src..src + n]))
  {
    ghost var was := file[..];
    ghost var moved := file[src..src + n];
    for i := 0 to n
      invariant forall p :: 0 <= p < file.Length ==> file[p] == if dst <= p < dst + i then moved[p - dst] else was[p]
    {
      assert file[src + i] == was[src + i] == moved[i];
      file[dst + i] := file[src + i];
    }
  }

  method Memcpy(file: array<Byte>, dst: nat, bytes: seq<Byte>)
    requires dst + |bytes| <= file.Length
    modifies file
    ensures file[..] == Overlay(old(file[..]), dst, bytes)
  {
    ghost var was := file[..];
    for i := 0 to |bytes|
      invariant forall p :: 0 <= p < file.Length ==> file[p] == if dst <= p < dst + i then bytes[p - dst] else was[p]
    {
      file[dst + i] := bytes[i];
    }
  }

  // The new headers: the old ones of the kept sections, with their new offsets.
  ghost predicate Renewed(b: seq<Byte>, headers: seq<Shdr>, k: nat)
    requires WellFormed(b) && k < |KeptHeaders(b)|
  {
    && |headers| == |KeptHeaders(b)|
    && forall i :: 0 <= i < |headers| ==> headers[i] == if 1 <= i <= k then NewHeader(b, i) else KeptHeaders(b)[i]
  }

  ghost function NewHeader(b: seq<Byte>, i: nat): Shdr
    requires WellFormed(b) && 1 <= i < |KeptHeaders(b)|
  {
    Relocated(KeptHeaders(b)[i], NewOffset(Start(b), KeptHeaders(b), i))
  }

  // One step of the first loop.
  lemma KeptOneMore(b: seq<Byte>, i: nat)
    requires WellFormed(b) && i < SectionHeaderNum(b)
    requires forall k :: 0 <= k < |Kept(b, i)| ==> Kept(b, i)[k] < SectionHeaderNum(b)
    ensures Kept(b, i + 1) == if IsKept(b, i) then Kept(b, i) + [i] else Kept(b, i)
    ensures IsKept(b, i) ==> Headers(b, Kept(b, i) + [i]) == Headers(b, Kept(b, i)) + [Header(b, i)]
  {
    hide IsKept, Header;
    assert (Kept(b, i) + [i])[..|Kept(b, i)|] == Kept(b, i);
  }

  /** The first loop: the headers of the sections to keep, and their numbers. */
  method CollectSections(file: array<Byte>) returns (headers: seq<Shdr>, originals: seq<nat>)
    requires WellFormed(file[..])
    ensures originals == KeptIn(file[..]) && headers == KeptHeaders(file[..])
  {
    hide Header, IsDropped, TextAt, OffsetOf, NameOf, SectionFits, Kept, Headers;
    var b := file[..];
    KeptNone(b);
    headers, originals := [], [];
    for i := 0 to SectionHeaderNum(b)
      invariant originals == Kept(b, i) && (forall k :: 0 <= k < |originals| ==> originals[k] < SectionHeaderNum(b))
      invariant headers == Headers(b, originals)
    {
      KeptOneMore(b, i);
      var h := Header(b, i);
      if NameOf(h) == 0 || !IsDropped(TextAt(b, OffsetOf(Header(b, NameSection(b))) + NameOf(h))) {
        headers := headers + [h];
        originals := originals + [i];
      }
    }
    KeptHeadersAre(b);
  }

  lemma KeptNone(b: seq<Byte>)
    requires WellFormed(b)
    ensures Kept(b, 0) == [] && Headers(b, []) == []
  {
  }

  lemma KeptHeadersAre(b: seq<Byte>)
    requires WellFormed(b) && forall k :: 0 <= k < |KeptIn(b)| ==> KeptIn(b)[k] < SectionHeaderNum(b)
    ensures KeptHeaders(b) == Headers(b, KeptIn(b))
  {
  }

  ghost function LastKept(b: seq<Byte>): (k: nat)
    requires WellFormed(b)
    ensures k + 1 == |KeptHeaders(b)| == |KeptIn(b)|
  {
    HeadersInside(b);
    |KeptHeaders(b)| - 1
  }

  // One round of the second loop; `old_` was read from the file as it is now.
  method MoveSection(file: array<Byte>, start: nat, old_: Shdr, headers: seq<Shdr>, i: nat, ghost b: seq<Byte>)
    returns (offset: nat, newHeaders: seq<Shdr>)
    requires WellFormed(b) && 0 < i < |KeptHeaders(b)| && |headers| == |KeptHeaders(b)|
    requires MovedTo(b, file[..], i - 1) && Renewed(b, headers, i - 1) &&
             start == NewEnd(Start(b), KeptHeaders(b), i - 1)
    requires old_ == KeptHeaders(b)[i] == headers[i]
    modifies file
    ensures MovedTo(b, file[..], i) && Renewed(b, newHeaders, i) && offset == NewEnd(Start(b), KeptHeaders(b), i)
  {
    hide MovedTo, KeptHeaders, KeptIn, WellFormed, Start, Header, Overlay, Moved, Renewed, AlignUp, NewHeader, OffsetOf,
         SizeOf, AlignOf;
    MovedLength(b, file[..], i - 1);
    MovesOn(b, file[..], i - 1);
    NextMove(b, i - 1);
    RenewedOn(b, headers, i - 1);
    offset, newHeaders := start, headers;
    if AlignOf(old_) > 1 { offset := AlignUp(offset, AlignOf(old_)); }
    NoAlignment(start, AlignOf(old_));
    if OffsetOf(old_) != offset {
      Memmove(file, offset, OffsetOf(old_), SizeOf(old_));
      newHeaders := headers[i := Moved(headers[i], offset)];
    }
    offset := offset + SizeOf(old_);
  }

  lemma NoAlignment(x: nat, n: nat)
    ensures n <= 1 ==> AlignUp(x, n) == x
  {
  }

  lemma MovedLength(b: seq<Byte>, v: seq<Byte>, k: nat)
    requires WellFormed(b) && k < |KeptHeaders(b)| && MovedTo(b, v, k)
    ensures |v| == |b|
  {
  }

  /** The second loop: every kept section is moved, and its header renewed; the old headers are read from
      the file, where no move has reached them. */
  method MoveSections(file: array<Byte>, kept: seq<Shdr>, originals: seq<nat>, ghost b: seq<Byte>)
    returns (headers: seq<Shdr>, offset: nat)
    requires WellFormed(b) && file[..] == b && originals == KeptIn(b) && kept == KeptHeaders(b)
    modifies file
    ensures offset == NewEnd(Start(b), KeptHeaders(b), LastKept(b))
    ensures MovedTo(b, file[..], LastKept(b)) && Renewed(b, headers, LastKept(b)) && HeadersSay(b, headers)
  {
    hide *;
    FirstSection(b);
    headers, offset := kept, OffsetOf(Header(file[..], 1));
    HeadersInside(b);
    NothingMoved(b, kept);
    KeptPairs(b);
    for i := 1 to |kept|
      invariant MovedTo(b, file[..], i - 1) && Renewed(b, headers, i - 1)
      invariant offset == NewEnd(Start(b), KeptHeaders(b), i - 1)
    {
      OldHeaderIntact(b, file[..], i - 1);
      NextHeader(b, headers, i - 1);
      var old_ := Header(file[..], originals[i]);
      offset, headers := MoveSection(file, offset, old_, headers, i, b);
    }
    RenewedSay(b, headers);
  }

  lemma FirstSection(b: seq<Byte>)
    requires WellFormed(b)
    ensures HasHeaders(b) && 1 < SectionHeaderNum(b) && |Header(b, 1)| == SHDR_SIZE
  {
  }

  lemma KeptPairs(b: seq<Byte>)
    requires WellFormed(b)
    ensures |KeptIn(b)| == |KeptHeaders(b)| && LastKept(b) + 1 == |KeptHeaders(b)|
  {
  }

  lemma NothingMoved(b: seq<Byte>, kept: seq<Shdr>)
    requires WellFormed(b) && kept == KeptHeaders(b) && kept != []
    ensures MovedTo(b, b, 0) && Renewed(b, kept, 0) && OffsetOf(Header(b, 1)) == NewEnd(Start(b), KeptHeaders(b), 0)
  {
  }

  lemma SameHeaderTable(b: seq<Byte>, v: seq<Byte>, start: nat)
    requires |v| == |b| >= EHDR_SIZE && start >= EHDR_SIZE && forall p :: 0 <= p < start && p < |b| ==> v[p] == b[p]
    ensures SectionHeaderOffset(v) == SectionHeaderOffset(b) && SectionHeaderNum(v) == SectionHeaderNum(b)
  {
  }

  // No move has reached the header table.
  lemma OldHeaderIntact(b: seq<Byte>, v: seq<Byte>, k: nat)
    requires WellFormed(b) && k + 1 < |KeptHeaders(b)| && MovedTo(b, v, k)
    ensures |v| == |b| && HasHeaders(v) && KeptIn(b)[k + 1] < SectionHeaderNum(v)
    ensures Header(v, KeptIn(b)[k + 1]) == KeptHeaders(b)[k + 1]
  {
    hide NewEnd, NewOffset, IsKept, Kept, SectionsAt, SectionFits, Get32, Get16;
    SectionsMoveForward(b, k);
    HeadersInside(b);
    var n := KeptIn(b)[k + 1];
    SameHeaderTable(b, v, Start(b));
    HeaderFits(b, n);
    SliceUnchanged(b, v, Start(b), NewEnd(Start(b), KeptHeaders(b), k),
                   SectionHeaderOffset(b) + SHDR_SIZE * n, SHDR_SIZE);
  }

  lemma NextHeader(b: seq<Byte>, headers: seq<Shdr>, k: nat)
    requires WellFormed(b) && k + 1 < |KeptHeaders(b)| && Renewed(b, headers, k)
    ensures |headers| == |KeptHeaders(b)| && headers[k + 1] == KeptHeaders(b)[k + 1]
  {
  }

  lemma RenewedOn(b: seq<Byte>, headers: seq<Shdr>, k: nat)
    requires WellFormed(b) && k + 1 < |KeptHeaders(b)| && Renewed(b, headers, k)
    ensures |headers| == |KeptHeaders(b)|
    ensures var new_ := NewOffset(Start(b), KeptHeaders(b), k + 1);
            if OffsetOf(headers[k + 1]) == new_ then Renewed(b, headers, k + 1)
            else Renewed(b, headers[k + 1 := Moved(headers[k + 1], new_)], k + 1)
  {
    hide KeptHeaders, WellFormed, NewOffset, OffsetOf, Moved;
  }

  // ---- the new header table --------------------------------------------------------------------------------

  function HeaderTable(headers: seq<Shdr>): (t: seq<Byte>)
    ensures |t| == SHDR_SIZE * |headers|
  {
    if headers == [] then [] else HeaderTable(headers[..|headers| - 1]) + headers[|headers| - 1]
  }

  lemma {:induction false} HeaderInTable(headers: seq<Shdr>, i: nat)
    requires i < |headers|
    ensures HeaderTable(headers)[SHDR_SIZE * i..SHDR_SIZE * i + SHDR_SIZE] == headers[i]
  {
    var n := |headers| - 1;
    var first, last := HeaderTable(headers[..n]), headers[n];
    assert HeaderTable(headers) == first + last;
    if i < n {
      HeaderInTable(headers[..n], i);
      hide HeaderTable;
      FrontOf(first, last, SHDR_SIZE * i, SHDR_SIZE * i + SHDR_SIZE);
    }
  }

  lemma FrontOf(a: seq<Byte>, b: seq<Byte>, i: nat, j: nat)
    requires i <= j <= |a|
    ensures (a + b)[i..j] == a[i..j]
  {
  }

  // The table of headers lies at shoff, and the ELF header says so.
  ghost predicate TableAt(v: seq<Byte>, shoff: nat, headers: seq<Shdr>) {
    && EHDR_SIZE <= |v| && shoff + |HeaderTable(headers)| <= |v| &&
         v[shoff..shoff + |HeaderTable(headers)|] == HeaderTable(headers)
    && v[32..36] == OatLayout.U32(shoff) && v[48..50] == U16(|headers|)
  }

  // Up to `start` only the two fields of the ELF header have changed.
  ghost predicate PrefixKept(b: seq<Byte>, v: seq<Byte>, start: nat) {
    |v| == |b| && forall p :: 0 <= p < start && p < |b| && !(32 <= p < 36) && !(48 <= p < 50) ==> v[p] == b[p]
  }

  /** Then the ELF header is the old one but for the place and the number of the section headers. */
  lemma NewFileHeader(b: seq<Byte>, v: seq<Byte>, start: nat, shoff: nat, headers: seq<Shdr>, e: FileHeader)
    requires BeginsWith(b, e) && PrefixKept(b, v, start) && start >= EHDR_SIZE && TableAt(v, shoff, headers)
    ensures BeginsWith(v, e.(shoff := shoff, shnum := |headers|))
  {
    hide OatLayout.U32, U16, HeaderTable;
    assert v[..16] == b[..16];
    HalvesStay(b, v, 16, [e.typ, e.machine]);
    var words: seq<nat> := [e.version, e.entry, e.phoff, e.shoff, e.flags];
    var words' := words[3 := shoff];
    forall k | 0 <= k < 5 ensures v[20 + 4 * k..][..4] == OatLayout.U32(words'[k]) {
      if k == 3 { assert v[32..][..4] == v[32..36]; } else { assert v[20 + 4 * k..][..4] == b[20 + 4 * k..][..4]; }
    }
    var halves: seq<nat> := [e.ehsize, e.phentsize, e.phnum, e.shentsize, e.shnum, e.shstrndx];
    var halves' := halves[4 := |headers|];
    forall k | 0 <= k < 6 ensures v[40 + 2 * k..][..2] == U16(halves'[k]) {
      if k == 4 { assert v[48..][..2] == v[48..50]; } else { assert v[40 + 2 * k..][..2] == b[40 + 2 * k..][..2]; }
    }
    assert words' == [e.version, e.entry, e.phoff, shoff, e.flags];
    assert halves' == [e.ehsize, e.phentsize, e.phnum, e.shentsize, |headers|, e.shstrndx];
  }

  lemma HalvesStay(b: seq<Byte>, v: seq<Byte>, at: nat, ns: seq<nat>)
    requires HalvesAt(b, at, ns) && at + 2 * |ns| <= |v|
    requires forall p :: at <= p < at + 2 * |ns| ==> v[p] == b[p]
    ensures HalvesAt(v, at, ns)
  {
    hide U16;
    forall k | 0 <= k < |ns| ensures v[at + 2 * k..][..2] == U16(ns[k]) {
      assert v[at + 2 * k..][..2] == b[at + 2 * k..][..2];
    }
  }

  // The new header of kept section i says where it is, at an aligned place, and nothing else has changed.
  ghost predicate HeaderSays(b: seq<Byte>, h: Shdr, i: nat)
    requires WellFormed(b) && 1 <= i < |KeptHeaders(b)|
  {
    var old_, new_ := KeptHeaders(b)[i], NewOffset(Start(b), KeptHeaders(b), i);
    && OffsetOf(h) == new_ && (AlignOf(old_) > 1 ==> new_ % AlignOf(old_) == 0)
    && h[..16] == old_[..16] && h[20..] == old_[20..]
    && SizeOf(h) == SizeOf(old_) && NameOf(h) == NameOf(old_) && AlignOf(h) == AlignOf(old_)
  }

  ghost predicate HeadersSay(b: seq<Byte>, headers: seq<Shdr>)
    requires WellFormed(b)
  {
    && |headers| == |KeptHeaders(b)| && (headers != [] ==> headers[0] == KeptHeaders(b)[0])
    && forall i :: 1 <= i < |headers| ==> HeaderSays(b, headers[i], i)
  }

  lemma OffsetFits(h: Shdr)
    ensures OffsetOf(h) < 0x1_0000_0000
  {
  }

  lemma RelocatedSays(h: Shdr, offset: nat)
    requires offset <= OffsetOf(h)
    ensures var m := Relocated(h, offset);
            && OffsetOf(m) == offset && m[..16] == h[..16] && m[20..] == h[20..]
            && SizeOf(m) == SizeOf(h) && NameOf(m) == NameOf(h) && AlignOf(m) == AlignOf(h)
  {
    OffsetFits(h);
    MovedReads(h, offset);
    hide OffsetOf, SizeOf, NameOf, AlignOf, OatLayout.U32;
  }

  lemma NewHeaderSays(b: seq<Byte>, i: nat)
    requires WellFormed(b) && 1 <= i < |KeptHeaders(b)|
    ensures HeaderSays(b, NewHeader(b, i), i)
  {
    hide KeptHeaders, WellFormed, NewEnd, Start, OffsetOf, SizeOf, NameOf, AlignOf, Relocated, RoundUp;
    var old_ := KeptHeaders(b)[i];
    SectionsMoveForward(b, i);
    RelocatedSays(old_, NewOffset(Start(b), KeptHeaders(b), i));
    if AlignOf(old_) > 1 { AlignUpIsAligned(NewEnd(Start(b), KeptHeaders(b), i - 1), AlignOf(old_)); }
  }

  lemma RenewedSay(b: seq<Byte>, headers: seq<Shdr>)
    requires WellFormed(b) && Renewed(b, headers, LastKept(b))
    ensures HeadersSay(b, headers)
  {
    hide KeptHeaders, WellFormed, NewHeader, HeaderSays;
    forall i | 1 <= i < |headers| ensures HeaderSays(b, headers[i], i) { NewHeaderSays(b, i); }
  }

  /** What the finished file is: the kept sections at their new places, the new header table behind them
      with the headers saying so, and everything before them as it was. */
  ghost predicate Stripped(b: seq<Byte>, v: seq<Byte>, headers: seq<Shdr>, length: nat)
    requires WellFormed(b)
  {
    && |v| == |b| && length == NewEnd(Start(b), KeptHeaders(b), LastKept(b)) + |HeaderTable(headers)| <= |b|
    && SectionsAt(b, v, LastKept(b)) && HeadersSay(b, headers)
    && TableAt(v, NewEnd(Start(b), KeptHeaders(b), LastKept(b)), headers) && PrefixKept(b, v, Start(b))
  }

  lemma OverlayLeaves(v: seq<Byte>, at: nat, w: seq<Byte>, p: nat, n: nat)
    requires at + |w| <= |v| && p + n <= |v| && (at + |w| <= p || p + n <= at)
    ensures |Overlay(v, at, w)| == |v| && Overlay(v, at, w)[p..p + n] == v[p..p + n]
  {
  }

  // A write behind the sections or before them leaves them alone.
  lemma SectionsStay(b: seq<Byte>, v: seq<Byte>, at: nat, w: seq<Byte>)
    requires WellFormed(b) && |v| == |b| && SectionsAt(b, v, LastKept(b)) && at + |w| <= |v|
    requires at >= NewEnd(Start(b), KeptHeaders(b), LastKept(b)) || at + |w| <= Start(b)
    ensures SectionsAt(b, Overlay(v, at, w), LastKept(b))
  {
    hide Overlay, KeptHeaders, WellFormed, NewEnd, NewOffset, Start, OffsetOf, SizeOf, SectionAt;
    forall i | 1 <= i <= LastKept(b) ensures SectionAt(b, Overlay(v, at, w), i) { OneSectionStays(b, v, at, w, i); }
  }

  lemma OneSectionStays(b: seq<Byte>, v: seq<Byte>, at: nat, w: seq<Byte>, i: nat)
    requires WellFormed(b) && |v| == |b| && 1 <= i <= LastKept(b) && SectionAt(b, v, i) && at + |w| <= |v|
    requires at >= NewEnd(Start(b), KeptHeaders(b), LastKept(b)) || at + |w| <= Start(b)
    ensures SectionAt(b, Overlay(v, at, w), i)
  {
    hide KeptHeaders, WellFormed, NewEnd, NewOffset, Start, OffsetOf, SizeOf, Overlay;
    EndOfSection(b, i);
    EndsAscend(b, i, LastKept(b));
    NextMove(b, i - 1);
    OverlayLeaves(v, at, w, NewOffset(Start(b), KeptHeaders(b), i), SizeOf(KeptHeaders(b)[i]));
  }

  // The three last writes.
  lemma TableWritten(v0: seq<Byte>, shoff: nat, headers: seq<Shdr>)
    requires EHDR_SIZE <= shoff && shoff + |HeaderTable(headers)| <= |v0|
    ensures var v1 := Overlay(v0, shoff, HeaderTable(headers));
            && |v1| == |v0| && |U16(|headers|)| == 2 && |OatLayout.U32(shoff)| == 4
            && var v2 := Overlay(v1, 48, U16(|headers|));
               |v2| == |v0| && TableAt(Overlay(v2, 32, OatLayout.U32(shoff)), shoff, headers)
  {
    var table, w16, w32 := HeaderTable(headers), U16(|headers|), OatLayout.U32(shoff);
    hide Overlay, HeaderTable, U16, OatLayout.U32;
    OverlayHas(v0, shoff, table);
    var v1 := Overlay(v0, shoff, table);
    OverlayHas(v1, 48, w16);
    OverlayLeaves(v1, 48, w16, shoff, |table|);
    var v2 := Overlay(v1, 48, w16);
    OverlayHas(v2, 32, w32);
    OverlayLeaves(v2, 32, w32, shoff, |table|);
    OverlayLeaves(v2, 32, w32, 48, 2);
  }

  lemma PrefixStays(b: seq<Byte>, v: seq<Byte>, start: nat, at: nat, w: seq<Byte>)
    requires PrefixKept(b, v, start) && at + |w| <= |v|
    requires at >= start || (at == 48 && |w| == 2) || (at == 32 && |w| == 4)
    ensures PrefixKept(b, Overlay(v, at, w), start)
  {
    hide Overlay;
    OverlayKeeps(v, at, w);
  }

  /** `Strip`. Every kept section is intact at its new place; the new header table follows them and holds
      the kept headers in order, changed in their offsets only; the ELF header says where it is and how
      long; and the file has not become longer. */
  method Strip(file: array<Byte>) returns (length: nat, ghost headers: seq<Shdr>)
    requires WellFormed(file[..])
    modifies file
    ensures Stripped(old(file[..]), file[..], headers, length)
  {
    hide *;
    ghost var b := file[..];
    var sections, originals := CollectSections(file);
    var offset;
    sections, offset := MoveSections(file, sections, originals, b);
    headers := sections;
    TableFits(b, file[..], sections);
    TableWritten(file[..], offset, sections);
    IsStripped(b, file[..], sections);
    FinishedIs(file[..], offset, sections);
    Memcpy(file, offset, HeaderTable(sections));
    length := offset + |HeaderTable(sections)|;
    Memcpy(file, 48, U16(|sections|));
    Memcpy(file, 32, OatLayout.U32(offset));
  }

  lemma TableFits(b: seq<Byte>, v: seq<Byte>, headers: seq<Shdr>)
    requires WellFormed(b) && MovedTo(b, v, LastKept(b)) && Renewed(b, headers, LastKept(b))
    ensures |v| == |b| && |b| >= 52 && NewEnd(Start(b), KeptHeaders(b), LastKept(b)) + |HeaderTable(headers)| <= |b|
    ensures 52 <= EHDR_SIZE <= Start(b) <= NewEnd(Start(b), KeptHeaders(b), LastKept(b))
  {
    HeadersInside(b);
    SectionsMoveForward(b, LastKept(b));
    hide NewEnd, NewOffset, SectionsAt;
  }

  // The file after the three last writes.
  ghost function Finished(v: seq<Byte>, shoff: nat, headers: seq<Shdr>): seq<Byte>
    requires 52 <= EHDR_SIZE <= shoff && shoff + |HeaderTable(headers)| <= |v|
  {
    TableWritten(v, shoff, headers);
    Overlay(Overlay(Overlay(v, shoff, HeaderTable(headers)), 48, U16(|headers|)), 32, OatLayout.U32(shoff))
  }

  lemma IsStripped(b: seq<Byte>, v: seq<Byte>, headers: seq<Shdr>)
    requires WellFormed(b) && MovedTo(b, v, LastKept(b)) && Renewed(b, headers, LastKept(b)) && |v| == |b|
    requires 52 <= EHDR_SIZE <= Start(b) <= NewEnd(Start(b), KeptHeaders(b), LastKept(b))
    requires NewEnd(Start(b), KeptHeaders(b), LastKept(b)) + |HeaderTable(headers)| <= |b|
    ensures var shoff := NewEnd(Start(b), KeptHeaders(b), LastKept(b));
            Stripped(b, Finished(v, shoff, headers), headers, shoff + |HeaderTable(headers)|)
  {
    hide *;
    var shoff := NewEnd(Start(b), KeptHeaders(b), LastKept(b));
    var table, w16, w32 := HeaderTable(headers), U16(|headers|), OatLayout.U32(shoff);
    StartsKept(b, v, LastKept(b));
    TableWritten(v, shoff, headers);
    var v1 := Overlay(v, shoff, table);
    SectionsStay(b, v, shoff, table);
    PrefixStays(b, v, Start(b), shoff, table);
    var v2 := Overlay(v1, 48, w16);
    SectionsStay(b, v1, 48, w16);
    PrefixStays(b, v1, Start(b), 48, w16);
    SectionsStay(b, v2, 32, w32);
    PrefixStays(b, v2, Start(b), 32, w32);
    FinishedIs(v, shoff, headers);
    StrippedIs(b, Finished(v, shoff, headers), headers);
  }

  lemma StartsKept(b: seq<Byte>, v: seq<Byte>, k: nat)
    requires WellFormed(b) && k < |KeptHeaders(b)| && MovedTo(b, v, k)
    ensures SectionsAt(b, v, k) && PrefixKept(b, v, Start(b))
  {
    hide SectionsAt, WellFormed, KeptHeaders, NewEnd, NewOffset;
  }

  lemma StrippedIs(b: seq<Byte>, v: seq<Byte>, headers: seq<Shdr>)
    requires WellFormed(b) && |v| == |b| && SectionsAt(b, v, LastKept(b)) && Renewed(b, headers, LastKept(b))
    requires TableAt(v, NewEnd(Start(b), KeptHeaders(b), LastKept(b)), headers) && PrefixKept(b, v, Start(b))
    requires NewEnd(Start(b), KeptHeaders(b), LastKept(b)) + |HeaderTable(headers)| <= |b|
    ensures Stripped(b, v, headers, NewEnd(Start(b), KeptHeaders(b), LastKept(b)) + |HeaderTable(headers)|)
  {
    hide SectionsAt, WellFormed, KeptHeaders, NewEnd, NewOffset, Renewed, TableAt, PrefixKept, HeaderTable, HeadersSay,
         Start, HeaderSays, KeptIn, LastKept;
    KeptPairs(b);
    RenewedSay(b, headers);
  }

  lemma FinishedIs(v: seq<Byte>, shoff: nat, headers: seq<Shdr>)
    requires 52 <= EHDR_SIZE <= shoff && shoff + |HeaderTable(headers)| <= |v|
    ensures |Overlay(v, shoff, HeaderTable(headers))| == |v| && |U16(|headers|)| == 2 && |OatLayout.U32(shoff)| == 4
    ensures |Overlay(Overlay(v, shoff, HeaderTable(headers)), 48, U16(|headers|))| == |v|
    ensures Finished(v, shoff, headers) ==
            Overlay(Overlay(Overlay(v, shoff, HeaderTable(headers)), 48, U16(|headers|)), 32, OatLayout.U32(shoff))
    ensures |Finished(v, shoff, headers)| == |v|
  {
  }
}
