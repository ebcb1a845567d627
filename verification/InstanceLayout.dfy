/** Linking the instance fields of a class and copying its instances into the image: the methods that
    keep the hierarchy of `ReferenceOffsets` laid out and its bitmaps right, and the one that uses them. */
module InstanceLayout {
  import opened Sequences
  import opened FieldLayout
  import opened ReferenceOffsets

  class Klass {
    const superClass: Klass?
    const isReferenceRoot: bool   // java.lang.ref.Reference itself
    const isReference: bool       // the inherited flag kAccClassIsReference
    const ifields: array<ArtField>
    var numReferenceInstanceFields: nat
    var objectSize: nat
    var referenceInstanceOffsets: Word

    constructor (superClass: Klass?, isReferenceRoot: bool, isReference: bool, ifields: array<ArtField>)
      ensures this.superClass == superClass && this.ifields == ifields
      ensures this.isReferenceRoot == isReferenceRoot && this.isReference == isReference
    {
      this.superClass, this.ifields := superClass, ifields;
      this.isReferenceRoot, this.isReference := isReferenceRoot, isReference;
      numReferenceInstanceFields, objectSize, referenceInstanceOffsets := 0, 0, Zeros(32);
    }
  }

  function ViewOf(f: ArtField): FieldView
    reads f
  {
    FieldView(f.name, f.descriptor, f.offset)
  }

  function FieldViews(fields: seq<ArtField>): (views: seq<FieldView>)
    reads fields
    ensures |views| == |fields| && forall i :: 0 <= i < |fields| ==> views[i] == ViewOf(fields[i])
  {
    if fields == [] then [] else FieldViews(fields[..|fields| - 1]) + [ViewOf(fields[|fields| - 1])]
  }

  function View(k: Klass): ClassView
    reads k, k.ifields, set f | f in k.ifields[..]
  {
    ClassView(FieldViews(k.ifields[..]), k.numReferenceInstanceFields, k.isReferenceRoot, k.objectSize)
  }

  function Views(chain: seq<Klass>): (h: seq<ClassView>)
    reads chain, (set k | k in chain :: k.ifields), (set k, f | k in chain && f in k.ifields[..] :: f)
    ensures |h| == |chain| && forall i :: 0 <= i < |chain| ==> h[i] == View(chain[i])
  {
    if chain == [] then [] else Views(chain[..|chain| - 1]) + [View(chain[|chain| - 1])]
  }

  // The classes from the root down to the last one.
  ghost predicate IsChain(chain: seq<Klass>) {
    && (chain != [] ==> chain[0].superClass == null)
    && forall i :: 0 < i < |chain| ==> chain[i].superClass == chain[i - 1]
  }

  // The classes above k, the root first.
  ghost predicate ChainAbove(above: seq<Klass>, k: Klass) {
    IsChain(above) && k !in above && (if above == [] then k.superClass == null else k.superClass == above[|above| - 1])
  }

  // No storage of k is part of the classes above.
  ghost predicate Apart(above: seq<Klass>, k: Klass)
    reads k.ifields, (set c | c in above :: c.ifields)
  {
    && Distinct(k.ifields[..])
    && forall c :: c in above ==> c.ifields != k.ifields && forall f :: f in c.ifields[..] ==> f !in k.ifields[..]
  }

  lemma StartIsAligned(h: seq<ClassView>)
    requires Hierarchy(h)
    ensures StartOf(h, |h|) % 4 == 0
  {
    hide LaidOut;
    if h != [] { SizeIsAligned(h[|h| - 1], StartOf(h, |h| - 1)); }
  }

  lemma SizeIsAligned(c: ClassView, start: nat)
    requires LaidOut(c, start)
    ensures c.size % 4 == 0
  {
    hide EndAt, OffsetAt;
    EndsAreAligned(KindsOf(c.fields), start, |c.fields|);
  }

  lemma ReferencesLead(sorted: seq<ArtField>, start: nat)
    requires Sorted(sorted)
    ensures |Arranged(sorted, start)| == |sorted|
    ensures forall i :: 0 <= i < |sorted| ==> (Arranged(sorted, start)[i].Kind().Ref? <==> i < Leading(sorted))
  {
    hide Sorted, Shape, Arranged;
    var r, w := ArrangedShape(sorted, start);
    var ks := Kinds(Arranged(sorted, start));
    forall i | 0 <= i < |sorted| ensures ks[i].Ref? <==> i < r { ShapeAt(ks, r, w, Pulled(ks, r, w, start), i); }
  }

  lemma LinkedIsLaidOut(k: Klass, start: nat, sorted: seq<ArtField>)
    requires start % 4 == 0 && Sorted(sorted) && k.ifields[..] == Arranged(sorted, start)
    requires PlacedTo(k.ifields[..], start, k.ifields.Length) && k.objectSize == EndOf(Kinds(k.ifields[..]), start)
    requires k.isReferenceRoot ==> ReferentIsLast(k.ifields[..])
    requires k.numReferenceInstanceFields == Leading(sorted) - if k.isReferenceRoot then 1 else 0
    ensures LaidOut(View(k), start)
  {
    hide Sorted, Arranged, EndAt, OffsetAt, Leading;
    ReferencesLead(sorted, start);
    assert KindsOf(View(k).fields) == Kinds(k.ifields[..]);
    OnlyReferences(sorted, start);
  }

  /** `LinkInstanceFields`: the fields of k are laid out after those of its superclass; `ok` is false where
      the source's checks on java.lang.ref.Reference abort. */
  method LinkInstanceFields(k: Klass, ghost above: seq<Klass>) returns (ok: bool)
    requires ChainAbove(above, k) && Hierarchy(Views(above)) && Apart(above, k)
    modifies k, k.ifields, set f | f in k.ifields[..]
    ensures Views(above) == old(Views(above)) && multiset(k.ifields[..]) == multiset(old(k.ifields[..]))
    ensures ok == (k.isReferenceRoot ==> ReferentIsLast(k.ifields[..]))
    ensures ok ==> Hierarchy(Views(above) + [View(k)])
  {
    hide Sorted, Arranged, EndOf, PlacedTo, LaidOut, Hierarchy, Leading, View, Kinds, ReferentIsLast, Distinct;
    var start := 0;
    if k.superClass != null {
      SizeOfLast(above);
      start := k.superClass.objectSize;
    }
    StartIsAligned(Views(above));
    ghost var sorted;
    var size, numReferences;
    size, numReferences, ok, sorted := LinkFields(k.ifields, start, k.isReferenceRoot);
    k.numReferenceInstanceFields := numReferences;
    k.objectSize := size;
    forall i | 0 <= i < |above| ensures View(above[i]) == old(View(above[i])) {
      assert above[i] in above;
    }
    assert Views(above) == old(Views(above));
    ArrangedContents(sorted, start);
    if ok {
      LinkedIsLaidOut(k, start, sorted);
      Extends(Views(above), View(k));
    }
  }

  lemma SizeOfLast(chain: seq<Klass>)
    requires chain != []
    ensures StartOf(Views(chain), |chain|) == chain[|chain| - 1].objectSize
  {
  }

  lemma Extends(h: seq<ClassView>, c: ClassView)
    requires Hierarchy(h) && LaidOut(c, StartOf(h, |h|))
    ensures Hierarchy(h + [c])
  {
    hide LaidOut;
    forall i | 0 <= i <= |h| ensures LaidOut((h + [c])[i], StartOf(h + [c], i)) {
      assert StartOf(h + [c], i) == StartOf(h, i);
    }
  }

  // `CLASS_BIT_FROM_OFFSET` or-ed into the word.
  function SetBit(w: Word, offset: nat): Word
    requires CanEncode(offset)
  {
    w[offset / 4 := true]
  }

  // The word after the first n offsets, none of which overflowed.
  ghost predicate Marked(w: Word, first: Word, offsets: seq<nat>) {
    && (forall o: nat :: o in offsets ==> CanEncode(o))
    && forall b :: 0 <= b < 32 ==> (w[b] <==> first[b] || exists o: nat :: o in offsets && o / 4 == b)
  }

  lemma MarkOneMore(w: Word, first: Word, offsets: seq<nat>, n: nat)
    requires n < |offsets| && Marked(w, first, offsets[..n]) && CanEncode(offsets[n])
    ensures Marked(SetBit(w, offsets[n]), first, offsets[..n + 1])
  {
    var after := offsets[..n + 1];
    assert after == offsets[..n] + [offsets[n]];
    forall b | 0 <= b < 32
      ensures SetBit(w, offsets[n])[b] <==> first[b] || exists o: nat :: o in after && o / 4 == b
    {
      if b == offsets[n] / 4 { assert offsets[n] in after; }
      if o: nat :| o in offsets[..n] && o / 4 == b { assert o in after; }
    }
  }

  lemma MarkedIsMark(w: Word, first: Word, offsets: seq<nat>)
    requires Marked(w, first, offsets)
    ensures w == Mark(first, offsets)
  {
  }

  // `CreateReferenceOffsets`: one bit for each reference of the class, or the marker.
  method CreateReferenceOffsets(k: Klass, first: Word) returns (word: Word)
    requires k.numReferenceInstanceFields <= k.ifields.Length
    ensures word == Mark(first, References(View(k)))
  {
    hide Mark, Marked;
    word := first;
    ghost var offsets := References(View(k));
    NothingMarkedYet(first);
    var i := 0;
    while i < k.numReferenceInstanceFields
      invariant i <= k.numReferenceInstanceFields
      invariant Marked(word, first, offsets[..i])
    {
      var byteOffset := k.ifields[i].offset;
      assert byteOffset == offsets[i];
      if CanEncode(byteOffset) {
        MarkOneMore(word, first, offsets, i);
        word := SetBit(word, byteOffset);
      } else {
        word := CLASS_WALK_SUPER;
        OverflowMarks(first, offsets, byteOffset);
        return;
      }
      i := i + 1;
    }
    assert offsets[..i] == offsets;
    MarkedIsMark(word, first, offsets);
  }

  // Every class has its word.
  ghost predicate HasBitmap(k: Klass, h: seq<ClassView>)
    reads k
  {
    Counted(h) && k.referenceInstanceOffsets == Bitmap(Refs(h))
  }

  lemma BitmapGrows(h: seq<ClassView>, c: ClassView)
    requires Counted(h) && c.numReferences <= |c.fields|
    ensures Counted(h + [c])
    ensures Bitmap(Refs(h + [c])) ==
            if Bitmap(Refs(h)) == CLASS_WALK_SUPER then CLASS_WALK_SUPER else Mark(Bitmap(Refs(h)), References(c))
  {
    hide Mark;
    assert Refs(h + [c])[..|h|] == Refs(h);
  }

  /** `CreateReferenceInstanceOffsets`, after the superclass's own. */
  method CreateReferenceInstanceOffsets(k: Klass, ghost above: seq<Klass>)
    requires ChainAbove(above, k)
    requires k.numReferenceInstanceFields <= k.ifields.Length && Counted(Views(above))
    requires above != [] ==> HasBitmap(above[|above| - 1], Views(above))
    modifies k`referenceInstanceOffsets
    ensures HasBitmap(k, Views(above) + [View(k)])
  {
    hide Mark, References, FieldViews, Bitmap, Counted;
    var word: Word := Zeros(32);
    BitmapGrows(Views(above), View(k));
    NoneAbove();
    if k.superClass != null {
      word := k.superClass.referenceInstanceOffsets;
      if word == CLASS_WALK_SUPER {
        k.referenceInstanceOffsets := word;
        return;
      }
    }
    word := CreateReferenceOffsets(k, word);
    ghost var h := Views(above) + [View(k)];
    k.referenceInstanceOffsets := word;
    assert Views(above) + [View(k)] == h;
  }

  lemma NoneAbove()
    ensures Bitmap([]) == Zeros(32) && Zeros(32) != CLASS_WALK_SUPER
  {
    NothingMarked();
  }

  lemma NothingMarkedYet(w: Word)
    ensures Marked(w, w, [])
  {
  }

  lemma OverflowMarks(w: Word, offsets: seq<nat>, o: nat)
    requires o in offsets && !CanEncode(o)
    ensures Mark(w, offsets) == CLASS_WALK_SUPER
  {
  }

  // ---- using the bitmap ---------------------------------------------------------------------------

  // `CLZ` of a word that is not zero.
  function Clz(w: Word, b: nat): (n: nat)
    requires b <= 32 && exists i :: b <= i < 32 && w[i]
    ensures b <= n < 32 && w[n] && forall i :: b <= i < n ==> !w[i]
    decreases 32 - b
  {
    if w[b] then b else Clz(w, b + 1)
  }

  lemma {:induction false} DecodeFirst(w: Word, b: nat, n: nat)
    requires b <= n < 32 && w[n] && forall i :: b <= i < n ==> !w[i]
    ensures Decode(w, b) == [4 * n] + Decode(w[n := false], b)
    decreases n - b
  {
    if b < n { DecodeFirst(w, b + 1, n); }
    else { DecodeSame(w, w[n := false], n + 1); }
  }

  lemma {:induction false} DecodeSame(v: Word, w: Word, b: nat)
    requires b <= 32 && forall i :: b <= i < 32 ==> v[i] == w[i]
    ensures Decode(v, b) == Decode(w, b)
    decreases 32 - b
  {
    if b < 32 { DecodeSame(v, w, b + 1); }
  }

  lemma {:induction false} DecodeNothing(w: Word, b: nat)
    requires b <= 32 && forall i :: b <= i < 32 ==> !w[i]
    ensures Decode(w, b) == []
    decreases 32 - b
  {
    if b < 32 { DecodeNothing(w, b + 1); }
  }

  /** The object lies in the image from word `at` on; its words at the visited offsets are relocated, nothing
      else has changed. */
  ghost predicate Relocated(orig: seq<int>, was: seq<int>, now: seq<int>, at: nat, visited: seq<nat>,
                            relocate: int -> int)
  {
    && |was| == |now| && at + |orig| <= |now|
    && forall j :: 0 <= j < |now| ==>
         now[j] == if at <= j < at + |orig| && 4 * (j - at) in visited then relocate(orig[j - at]) else was[j]
  }

  lemma RelocateOne(orig: seq<int>, was: seq<int>, now: seq<int>, at: nat, visited: seq<nat>, relocate: int -> int,
                    o: nat)
    requires Relocated(orig, was, now, at, visited, relocate) && o % 4 == 0 && o / 4 < |orig|
    ensures at + o / 4 < |now|
    ensures Relocated(orig, was, now[at + o / 4 := relocate(orig[o / 4])], at, visited + [o], relocate)
  {
    forall j | 0 <= j ensures 4 * j in visited + [o] <==> 4 * j in visited || j == o / 4 {
      if j == o / 4 { assert 4 * j == o; }
    }
  }

  // The reference at an offset, replaced by the address of its object in the image.
  method FixupWord(orig: seq<int>, image: array<int>, at: nat, relocate: int -> int, o: nat,
                   ghost was: seq<int>, ghost visited: seq<nat>)
    requires Relocated(orig, was, image[..], at, visited, relocate) && o % 4 == 0 && o / 4 < |orig|
    modifies image
    ensures Relocated(orig, was, image[..], at, visited + [o], relocate)
  {
    hide Relocated;
    RelocateOne(orig, was, image[..], at, visited, relocate, o);
    ghost var now := image[..];
    image[at + o / 4] := relocate(orig[o / 4]);
    assert image[..] == now[at + o / 4 := relocate(orig[o / 4])];
  }

  // The offsets all lie in the object.
  ghost predicate Within(offsets: seq<nat>, words: nat) {
    forall o: nat :: o in offsets ==> o % 4 == 0 && o / 4 < words
  }

  // Bit by bit.
  method FixupByBitmap(word: Word, orig: seq<int>, image: array<int>, at: nat, relocate: int -> int,
                       ghost was: seq<int>, ghost before: seq<nat>)
    returns (ghost visited: seq<nat>)
    requires Within(Decode(word, 0), |orig|) && Relocated(orig, was, image[..], at, before, relocate)
    modifies image
    ensures visited == before + Decode(word, 0) && Relocated(orig, was, image[..], at, visited, relocate)
  {
    hide Relocated, Decode;
    visited := before;
    var refOffsets: Word := word;
    while exists i :: 0 <= i < 32 && refOffsets[i]
      invariant before + Decode(word, 0) == visited + Decode(refOffsets, 0)
      invariant forall o: nat :: o in Decode(refOffsets, 0) ==> o in Decode(word, 0)
      invariant Relocated(orig, was, image[..], at, visited, relocate)
      decreases |Decode(refOffsets, 0)|
    {
      var shift := Clz(refOffsets, 0);
      DecodeFirst(refOffsets, 0, shift);
      assert 4 * shift in Decode(word, 0);
      FixupWord(orig, image, at, relocate, 4 * shift, was, visited);
      assert visited + ([4 * shift] + Decode(refOffsets[shift := false], 0)) ==
             visited + [4 * shift] + Decode(refOffsets[shift := false], 0);
      visited := visited + [4 * shift];
      refOffsets := refOffsets[shift := false];
    }
    DecodeNothing(refOffsets, 0);
    assert visited + [] == visited;
  }

  // The walk from class n - 1 of the hierarchy up to the root.
  function WalkFrom(h: seq<ClassView>, n: nat): seq<nat>
    requires Counted(h) && n <= |h|
  {
    Walk(Refs(h[..n]))
  }

  lemma WalkStep(h: seq<ClassView>, n: nat)
    requires Counted(h) && 0 < n <= |h|
    ensures WalkFrom(h, n) == References(h[n - 1]) + WalkFrom(h, n - 1)
  {
    assert Refs(h[..n])[..n - 1] == Refs(h[..n - 1]);
  }

  // One class of the superclass walk.
  method FixupOneClass(k: Klass, orig: seq<int>, image: array<int>, at: nat, relocate: int -> int, ghost was: seq<int>,
                       ghost before: seq<nat>)
    requires Relocated(orig, was, image[..], at, before, relocate)
    requires k.numReferenceInstanceFields <= k.ifields.Length && Within(References(View(k)), |orig|)
    modifies image
    ensures Relocated(orig, was, image[..], at, before + References(View(k)), relocate)
  {
    hide Relocated;
    ghost var offsets := References(View(k));
    ghost var visited := before;
    for i := 0 to k.numReferenceInstanceFields
      invariant visited == before + offsets[..i] && offsets == References(View(k))
      invariant Relocated(orig, was, image[..], at, visited, relocate)
    {
      var fieldOffset := k.ifields[i].offset;
      assert fieldOffset == offsets[i] && offsets[i] in offsets;
      FixupWord(orig, image, at, relocate, fieldOffset, was, visited);
      visited := visited + [fieldOffset];
      assert offsets[..i + 1] == offsets[..i] + [offsets[i]];
    }
    assert offsets[..|offsets|] == offsets;
  }

  ghost predicate WalkWithin(h: seq<ClassView>, words: nat) {
    Counted(h) && forall c :: c in h ==> Within(References(c), words)
  }

  lemma ClassWithin(k: Klass, h: seq<ClassView>, n: nat, words: nat)
    requires 0 < n <= |h| && WalkWithin(h, words) && h[n - 1] == View(k)
    ensures k.numReferenceInstanceFields <= k.ifields.Length && Within(References(View(k)), words)
  {
    hide FieldViews, Within, References;
    assert h[n - 1] in h;
    SameLength(k);
  }

  lemma ChainStep(chain: seq<Klass>, n: nat)
    requires IsChain(chain) && 0 < n <= |chain|
    ensures |Views(chain)| == |chain| && Views(chain)[n - 1] == View(chain[n - 1])
    ensures n == 1 ==> chain[n - 1].superClass == null
    ensures n > 1 ==> chain[n - 1].superClass == chain[n - 2]
  {
  }

  // From the class up to the root.
  method FixupByWalk(k: Klass, orig: seq<int>, image: array<int>, at: nat, relocate: int -> int,
                     ghost chain: seq<Klass>, ghost was: seq<int>, ghost before: seq<nat>)
    returns (ghost visited: seq<nat>)
    requires IsChain(chain) && chain != [] && chain[|chain| - 1] == k && WalkWithin(Views(chain), |orig|)
    requires Relocated(orig, was, image[..], at, before, relocate)
    modifies image
    ensures Counted(Views(chain)) && visited == before + Walk(Refs(Views(chain)))
    ensures Relocated(orig, was, image[..], at, visited, relocate)
  {
    hide Relocated, WalkWithin, Walk, View, References, IsChain, Counted, WalkFrom, Views;
    ghost var h := Views(chain);
    ChainStep(chain, |chain|);
    CountedWalk(h, |orig|);
    visited := before;
    WholeWalk(h);
    var klass: Klass? := k;
    ghost var n := |chain|;
    while klass != null
      invariant 0 <= n <= |chain| && (klass == null <==> n == 0) && (n > 0 ==> klass == chain[n - 1])
      invariant h == Views(chain) && before + Walk(Refs(h)) == visited + WalkFrom(h, n)
      invariant Relocated(orig, was, image[..], at, visited, relocate)
      decreases n
    {
      ChainStep(chain, n);
      ClassWithin(klass, h, n, |orig|);
      WalkStep(h, n);
      FixupOneClass(klass, orig, image, at, relocate, was, visited);
      assert visited + (References(View(klass)) + WalkFrom(h, n - 1)) ==
             visited + References(View(klass)) + WalkFrom(h, n - 1);
      visited := visited + References(View(klass));
      klass := klass.superClass;
      n := n - 1;
    }
    assert visited + [] == visited;
  }

  lemma CountedWalk(h: seq<ClassView>, words: nat)
    requires WalkWithin(h, words)
    ensures Counted(h)
  {
  }

  lemma WholeWalk(h: seq<ClassView>)
    requires Counted(h)
    ensures WalkFrom(h, |h|) == Walk(Refs(h)) && WalkFrom(h, 0) == []
  {
    assert h[..|h|] == h;
  }

  // `FindDeclaredInstanceField` for the referent: an index, or the number of fields.
  method FindDeclared(k: Klass) returns (i: nat)
    ensures i == IndexOfField(View(k).fields, REFERENT, OBJECT)
  {
    i := 0;
    while i < k.ifields.Length && !(k.ifields[i].name == REFERENT && k.ifields[i].descriptor == OBJECT)
      invariant i <= k.ifields.Length
      invariant forall j :: 0 <= j < i ==>
                !(View(k).fields[j].name == REFERENT && View(k).fields[j].descriptor == OBJECT)
    {
      assert View(k).fields[i] == ViewOf(k.ifields[i]);
      i := i + 1;
    }
    assert i < k.ifields.Length ==> View(k).fields[i] == ViewOf(k.ifields[i]);
  }

  // `FindInstanceField` for the referent, which is not null here.
  method FindInstanceField(k: Klass, ghost chain: seq<Klass>, ghost h: seq<ClassView>) returns (field: ArtField)
    requires IsChain(chain) && chain != [] && chain[|chain| - 1] == k && h == Views(chain) && FindReferent(h).Found?
    ensures field.offset == h[FindReferent(h).klass].fields[FindReferent(h).index].offset
  {
    hide FindReferent, View, IsChain, IndexOfField, FieldViews, Views;
    var klass := k;
    ghost var n := |chain|;
    ChainStep(chain, n);
    SearchStep(h, n);
    while true
      invariant 0 < n <= |chain| && klass == chain[n - 1]
      invariant FindReferent(h[..n]) == FindReferent(h)
      decreases n
    {
      ChainStep(chain, n);
      SearchStep(h, n);
      var i := FindDeclared(klass);
      SameLength(klass);
      if i < klass.ifields.Length {
        field := klass.ifields[i];
        FieldOffset(klass, i);
        return;
      }
      klass := klass.superClass;
      n := n - 1;
    }
  }

  lemma SameLength(k: Klass)
    ensures |View(k).fields| == k.ifields.Length
  {
  }

  lemma FieldOffset(k: Klass, i: nat)
    requires i < k.ifields.Length
    ensures View(k).fields[i].offset == k.ifields[i].offset
  {
  }

  lemma SearchStep(h: seq<ClassView>, n: nat)
    requires 0 < n <= |h|
    ensures h[..|h|] == h
    ensures Declares(h[n - 1]) ==> FindReferent(h[..n]) == Found(n - 1, IndexOfField(h[n - 1].fields, REFERENT, OBJECT))
    ensures !Declares(h[n - 1]) ==> FindReferent(h[..n]) == FindReferent(h[..n - 1])
    ensures FindReferent([]) == NotFound && h[..0] == []
  {
    assert h[..n][..n - 1] == h[..n - 1];
  }

  lemma {:induction false} VisitsWithin(h: seq<ClassView>, words: nat)
    requires Hierarchy(h) && Counted(h) && h != [] && h[|h| - 1].size <= 4 * words
    ensures WalkWithin(h, words) && Within(Walk(Refs(h)), words)
    ensures Bitmap(Refs(h)) != CLASS_WALK_SUPER ==> Within(Decode(Bitmap(Refs(h)), 0), words)
    ensures FindReferent(h).Found? ==>
              var o := h[FindReferent(h).klass].fields[FindReferent(h).index].offset; o % 4 == 0 && o / 4 < words
  {
    hide LaidOut, Hierarchy;
    forall i, j | At(h, i, j) ensures h[i].fields[j].offset % 4 == 0 && h[i].fields[j].offset / 4 < words {
      FieldWithin(h, i, j);
    }
    forall c, o: nat | c in h && o in References(c) ensures o % 4 == 0 && o / 4 < words {
      var i :| 0 <= i < |h| && h[i] == c;
      var j :| 0 <= j < |References(c)| && References(c)[j] == o;
      assert At(h, i, j);
    }
    forall o: nat | o in Walk(Refs(h)) ensures o % 4 == 0 && o / 4 < words {
      var i, j := FoundByWalk(h, o);
    }
    WalkIsAligned(h);
    if Bitmap(Refs(h)) != CLASS_WALK_SUPER { BitmapMeansWalk(Refs(h)); }
    if FindReferent(h).Found? { assert At(h, FindReferent(h).klass, FindReferent(h).index); }
  }

  lemma FieldWithin(h: seq<ClassView>, i: int, j: int)
    requires Hierarchy(h) && At(h, i, j)
    ensures h[i].fields[j].offset % 4 == 0 && h[i].fields[j].offset + 4 <= h[|h| - 1].size
  {
    hide LaidOut;
    SlotInClass(h[i], StartOf(h, i), j);
    StartsAscend(h, i + 1, |h|);
  }

  // All offsets that are visited lie in the object.
  ghost predicate VisitsFit(h: seq<ClassView>, isReference: bool, words: nat) {
    && WalkWithin(h, words) && (isReference ==> FindReferent(h).Found?)
    && Within(Visits(h, isReference), words)
  }

  lemma WithinBoth(a: seq<nat>, b: seq<nat>, words: nat)
    ensures Within(a + b, words) <==> Within(a, words) && Within(b, words)
  {
    assert forall o: nat :: o in a + b <==> o in a || o in b;
  }

  // The parts of what is visited: the fields, and then the referent.
  lemma VisitsParts(h: seq<ClassView>, isReference: bool) returns (fields: seq<nat>, referent: seq<nat>)
    requires Counted(h) && (isReference ==> FindReferent(h).Found?)
    ensures Visits(h, isReference) == fields + referent
    ensures fields == if Bitmap(Refs(h)) == CLASS_WALK_SUPER then Walk(Refs(h)) else Decode(Bitmap(Refs(h)), 0)
    ensures referent == if isReference then [h[FindReferent(h).klass].fields[FindReferent(h).index].offset] else []
  {
    hide Bitmap, Walk, Decode, FindReferent;
    fields := if Bitmap(Refs(h)) == CLASS_WALK_SUPER then Walk(Refs(h)) else Decode(Bitmap(Refs(h)), 0);
    referent := if isReference then [h[FindReferent(h).klass].fields[FindReferent(h).index].offset] else [];
  }

  lemma InstancesFit(h: seq<ClassView>, isReference: bool, words: nat)
    requires Hierarchy(h) && Counted(h) && h != [] && h[|h| - 1].size <= 4 * words
    requires isReference ==> FindReferent(h).Found?
    ensures VisitsFit(h, isReference, words)
  {
    hide LaidOut, Hierarchy, Walk, Decode, WalkWithin, Bitmap, FindReferent, Visits, Counted;
    VisitsWithin(h, words);
    var fields, referent := VisitsParts(h, isReference);
    WithinBoth(fields, referent, words);
  }

  // The static fields of a class follow the instance fields of java.lang.Class in its object.
  lemma StaticsFit(h: seq<ClassView>, statics: ClassView, words: nat)
    requires Hierarchy(h + [statics]) && Counted(h + [statics]) && statics.size <= 4 * words
    ensures VisitsFit([statics], false, words)
  {
    hide LaidOut, Hierarchy, Bitmap, Decode, Visits, FindReferent, Refs, Walk;
    StaticRefs(h, statics);
    StaticWithin(h, statics, words);
    if Bitmap([References(statics)]) != CLASS_WALK_SUPER { BitmapMeansWalk([References(statics)]); }
    var fields, referent := VisitsParts([statics], false);
    WithinBoth(fields, referent, words);
    hide References;
    assert Within(fields, words) && Within(referent, words);
  }

  lemma StaticWithin(h: seq<ClassView>, statics: ClassView, words: nat)
    requires Hierarchy(h + [statics]) && statics.numReferences <= |statics.fields| && statics.size <= 4 * words
    ensures Within(References(statics), words)
  {
    hide LaidOut, Hierarchy;
    forall o: nat | o in References(statics) ensures o % 4 == 0 && o / 4 < words {
      var j :| 0 <= j < |References(statics)| && References(statics)[j] == o;
      FieldWithin(h + [statics], |h|, j);
    }
  }

  lemma WalkMore(refs: seq<seq<nat>>, r: seq<nat>)
    ensures Walk(refs + [r]) == r + Walk(refs)
  {
    assert (refs + [r])[..|refs|] == refs;
  }

  lemma RefsMore(h: seq<ClassView>, c: ClassView)
    requires Counted(h + [c])
    ensures Counted(h) && c.numReferences <= |c.fields| && Refs(h + [c]) == Refs(h) + [References(c)]
  {
    hide References;
    assert c in h + [c] && forall x :: x in h ==> x in h + [c];
  }

  lemma StaticRefs(h: seq<ClassView>, statics: ClassView)
    requires Hierarchy(h + [statics]) && Counted(h + [statics])
    ensures Counted(h) && Counted([statics])
    ensures Refs([statics]) == [References(statics)] && Walk([References(statics)]) == References(statics)
    ensures Refs(h + [statics]) == Refs(h) + [References(statics)]
    ensures Walk(Refs(h + [statics])) == References(statics) + Walk(Refs(h)) && Aligned([References(statics)])
  {
    hide LaidOut, Hierarchy, References, Walk, Refs;
    RefsMore(h, statics);
    RefsMore([], statics);
    NoRefs();
    assert [] + [statics] == [statics];
    WalkMore(Refs(h), References(statics));
    WalkMore([], References(statics));
    assert [] + [References(statics)] == [References(statics)] && References(statics) + [] == References(statics);
    WalkIsAligned(h + [statics]);
    forall o: nat | o in References(statics) ensures o % 4 == 0 { assert o in Walk(Refs(h + [statics])); }
  }

  lemma NoRefs()
    ensures Refs([]) == [] && Walk([]) == []
  {
  }

  // Array classes are made without linking: they have no word, and no referent.
  ghost predicate HasNoBitmap(k: Klass)
    reads k
  {
    k.referenceInstanceOffsets == Zeros(32) && !k.isReference
  }

  lemma NothingToVisit()
    ensures Zeros(32) != CLASS_WALK_SUPER && Decode(Zeros(32), 0) == []
  {
    NothingMarked();
    DecodeNothing(Zeros(32), 0);
  }

  /** `FixupFields`: rewrites the words that `Visits` lists, and no other word. Static fields are those of a
      class without a superclass, which is no reference. */
  method FixupFields(k: Klass, orig: seq<int>, image: array<int>, at: nat, relocate: int -> int,
                     ghost chain: seq<Klass>, ghost h: seq<ClassView>, ghost was: seq<int>, ghost before: seq<nat>)
    returns (ghost visited: seq<nat>)
    requires IsChain(chain) && chain != [] && chain[|chain| - 1] == k && h == Views(chain)
    requires HasNoBitmap(k) || (HasBitmap(k, h) && VisitsFit(h, k.isReference, |orig|))
    requires Relocated(orig, was, image[..], at, before, relocate)
    modifies image
    ensures HasNoBitmap(k) ==> visited == before
    ensures HasBitmap(k, h) && VisitsFit(h, k.isReference, |orig|) ==> visited == before + Visits(h, k.isReference)
    ensures Relocated(orig, was, image[..], at, visited, relocate)
  {
    hide Relocated, WalkWithin, Walk, Decode, References, FindReferent, Within, View, Bitmap, IsChain, Views;
    NothingToVisit();
    NothingWithin(|orig|);
    if HasBitmap(k, h) && VisitsFit(h, k.isReference, |orig|) { FieldsFit(h, k.isReference, |orig|); }
    if k.referenceInstanceOffsets != CLASS_WALK_SUPER {
      visited := FixupByBitmap(k.referenceInstanceOffsets, orig, image, at, relocate, was, before);
    } else {
      visited := FixupByWalk(k, orig, image, at, relocate, chain, was, before);
    }
    if k.isReference {
      var field := FindInstanceField(k, chain, h);
      FixupWord(orig, image, at, relocate, field.offset, was, visited);
      visited := visited + [field.offset];
    }
    assert HasBitmap(k, h) && VisitsFit(h, k.isReference, |orig|) ==> before + Visits(h, k.isReference) == visited;
    assert before + [] == before;
  }

  lemma NothingWithin(words: nat)
    ensures Within([], words)
  {
  }

  lemma FieldsFit(h: seq<ClassView>, isReference: bool, words: nat)
    requires VisitsFit(h, isReference, words)
    ensures Bitmap(Refs(h)) != CLASS_WALK_SUPER ==> Within(Decode(Bitmap(Refs(h)), 0), words)
    ensures isReference ==>
              var o := h[FindReferent(h).klass].fields[FindReferent(h).index].offset; o % 4 == 0 && o / 4 < words
  {
    hide WalkWithin, Walk, Decode, Bitmap, FindReferent, Visits;
    CountedWalk(h, words);
    var fields, referent := VisitsParts(h, isReference);
    WithinBoth(fields, referent, words);
    assert isReference ==> referent[0] in referent;
  }

  /** In the object of a class the instance fields of java.lang.Class and the static fields together visit
      every word that holds a reference, once, and no other word. */
  lemma ClassObjectVisits(h: seq<ClassView>, statics: ClassView)
    requires Hierarchy(h + [statics]) && Counted(h + [statics])
    requires forall i :: 0 <= i <= |h| ==> !(h + [statics])[i].isReferenceRoot
    ensures Counted(h) && Counted([statics])
    ensures VisitsEachReferenceOnce(h + [statics], Visits(h, false) + Visits([statics], false))
  {
    hide LaidOut, Hierarchy, HoldsReference, References, Walk, Refs, Visits, Distinct;
    var g := h + [statics];
    StaticRefs(h, statics);
    assert g[..|g| - 1] == h;
    PrefixIsHierarchy(g);
    FieldVisits(h);
    FieldVisits(g);
    PlainInstances(g);
    WalkIsDistinct(g);
    PrefixIsDistinct(References(statics), Walk(Refs(h)));
    StaticVisits(statics);
    JoinedOnce(Visits([statics], false), References(statics), Visits(h, false), Walk(Refs(h)));
  }

  lemma PrefixIsDistinct(a: seq<nat>, b: seq<nat>)
    requires Distinct(a + b)
    ensures Distinct(a)
  {
    assert forall i :: 0 <= i < |a| ==> (a + b)[i] == a[i];
  }

  // Two lists without repetition, of the elements of two parts of a third.
  lemma JoinedOnce(mine: seq<nat>, a: seq<nat>, theirs: seq<nat>, b: seq<nat>)
    requires Distinct(a + b) && Distinct(mine) && Distinct(theirs)
    requires (forall o: nat :: o in mine <==> o in a) && (forall o: nat :: o in theirs <==> o in b)
    ensures Distinct(theirs + mine) && forall o: nat :: o in theirs + mine <==> o in a + b
  {
    forall i | 0 <= i < |theirs| ensures theirs[i] !in mine {
      assert theirs[i] in b;
      if theirs[i] in a { NotInBoth(a, b, theirs[i]); }
    }
    JoinIsDistinct(theirs, mine);
  }

  lemma NotInBoth(a: seq<nat>, b: seq<nat>, x: nat)
    requires Distinct(a + b) && x in a
    ensures x !in b
  {
    var i :| 0 <= i < |a| && a[i] == x;
    forall j | 0 <= j < |b| ensures b[j] != x {
      assert (a + b)[i] == x && (a + b)[|a| + j] == b[j];
    }
  }

  lemma StaticVisits(statics: ClassView)
    requires Counted([statics]) && Refs([statics]) == [References(statics)] && Aligned([References(statics)])
    requires Walk([References(statics)]) == References(statics) && Distinct(References(statics))
    ensures Distinct(Visits([statics], false))
    ensures forall o: nat :: o in Visits([statics], false) <==> o in References(statics)
  {
    if Bitmap([References(statics)]) != CLASS_WALK_SUPER { BitmapMeansWalk([References(statics)]); }
    hide Bitmap, Walk, Decode, References, Refs, Counted;
    var fields, referent := VisitsParts([statics], false);
    assert fields + [] == fields;
  }
}
