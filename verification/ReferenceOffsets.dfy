/** Reference bitmaps: `ClassLinker::CreateReferenceInstanceOffsets` records where the references of
    an object are, `ImageWriter::FixupFields` uses the record. A word is a sequence of 32 bits, the
    high bit first; bit b stands for byte offset 4 * b. */
module ReferenceOffsets {
  import opened Sequences
  import opened FieldLayout

  function Zeros(n: nat): (bits: seq<bool>)
    ensures |bits| == n && forall b :: 0 <= b < n ==> !bits[b]
  {
    seq(n, b => false)
  }

  type Word = w: seq<bool> | |w| == 32 witness Zeros(32)

  // The marker 3: the two lowest bits.
  const CLASS_WALK_SUPER: Word := Zeros(32)[30 := true][31 := true]

  // ---- what the words mean -----------------------------------------------------------------------

  predicate CanEncode(offset: nat) { offset / 4 < 32 }

  // The word after the offsets of one class have been added.
  ghost function Mark(w: Word, offsets: seq<nat>): Word {
    if exists o: nat :: o in offsets && !CanEncode(o) then CLASS_WALK_SUPER
    else seq(32, b requires 0 <= b < 32 => w[b] || exists o: nat :: o in offsets && o / 4 == b)
  }

  // refs[i] are the reference offsets declared by the i-th class from the root.
  ghost function Bitmap(refs: seq<seq<nat>>): Word {
    if refs == [] then Zeros(32)
    else
      var above := Bitmap(refs[..|refs| - 1]);
      if above == CLASS_WALK_SUPER then above else Mark(above, refs[|refs| - 1])
  }

  // What the superclass walk visits, from the class up.
  function Walk(refs: seq<seq<nat>>): seq<nat> {
    if refs == [] then [] else refs[|refs| - 1] + Walk(refs[..|refs| - 1])
  }

  // What decoding the word visits, from bit b on.
  function Decode(w: Word, b: nat): seq<nat>
    requires b <= 32
    decreases 32 - b
  {
    if b == 32 then [] else (if w[b] then [4 * b] else []) + Decode(w, b + 1)
  }

  ghost predicate Aligned(refs: seq<seq<nat>>) {
    forall o: nat :: o in Walk(refs) ==> o % 4 == 0
  }

  lemma WalkGrows(refs: seq<seq<nat>>)
    requires refs != []
    ensures forall o: nat :: o in Walk(refs[..|refs| - 1]) ==> o in Walk(refs)
    ensures forall o: nat :: o in refs[|refs| - 1] ==> o in Walk(refs)
    ensures forall o: nat :: o in Walk(refs) ==> o in refs[|refs| - 1] || o in Walk(refs[..|refs| - 1])
  {
  }

  // The word is the marker or says exactly which offsets are references.
  ghost predicate Encodes(w: Word, offsets: seq<nat>) {
    w == CLASS_WALK_SUPER || forall o: nat :: o in offsets <==> 0 <= o < 128 && o % 4 == 0 && w[o / 4]
  }

  lemma MarkEncodes(w: Word, before: seq<nat>, offsets: seq<nat>, after: seq<nat>)
    requires w != CLASS_WALK_SUPER && Encodes(w, before) && (forall o: nat :: o in offsets ==> o % 4 == 0)
    requires forall o: nat :: o in after <==> o in offsets || o in before
    ensures Encodes(Mark(w, offsets), after)
  {
  }

  lemma {:induction false} BitmapEncodes(refs: seq<seq<nat>>)
    requires Aligned(refs)
    ensures Encodes(Bitmap(refs), Walk(refs))
  {
    if refs != [] {
      var above := refs[..|refs| - 1];
      WalkGrows(refs);
      forall o: nat | o in Walk(above) ensures o % 4 == 0 { assert o in Walk(refs); }
      forall o: nat | o in refs[|refs| - 1] ensures o % 4 == 0 { assert o in Walk(refs); }
      BitmapEncodes(above);
      if Bitmap(above) != CLASS_WALK_SUPER {
        MarkEncodes(Bitmap(above), Walk(above), refs[|refs| - 1], Walk(refs));
      }
    }
  }

  lemma {:induction false} DecodeFinds(w: Word, b: nat, k: nat)
    requires b <= 32
    ensures 4 * k in Decode(w, b) <==> b <= k < 32 && w[k]
    ensures forall o: nat :: o in Decode(w, b) ==> o % 4 == 0
    decreases 32 - b
  {
    if b < 32 { DecodeFinds(w, b + 1, k); }
  }

  lemma {:induction false} DecodeIsDistinct(w: Word, b: nat)
    requires b <= 32
    ensures Distinct(Decode(w, b))
    decreases 32 - b
  {
    if b < 32 {
      DecodeIsDistinct(w, b + 1);
      DecodeFinds(w, b + 1, b);
    }
  }

  /** Bit by bit or by walking the superclasses, the same offsets are visited; by bits each of them once. */
  lemma BitmapMeansWalk(refs: seq<seq<nat>>)
    requires Aligned(refs) && Bitmap(refs) != CLASS_WALK_SUPER
    ensures Distinct(Decode(Bitmap(refs), 0))
    ensures forall o: nat :: o in Decode(Bitmap(refs), 0) <==> o in Walk(refs)
  {
    BitmapEncodes(refs);
    DecodeIsDistinct(Bitmap(refs), 0);
    forall o: nat ensures o in Decode(Bitmap(refs), 0) <==> o in Walk(refs) {
      DecodeFinds(Bitmap(refs), 0, o / 4);
      if o % 4 == 0 { assert o == 4 * (o / 4); }
    }
  }

  /** A class that overflowed has only subclasses that overflowed. */
  lemma {:induction false} OverflowIsInherited(refs: seq<seq<nat>>, n: nat)
    requires 0 < n <= |refs| && Bitmap(refs[..n]) == CLASS_WALK_SUPER
    ensures Bitmap(refs) == CLASS_WALK_SUPER
  {
    if n < |refs| {
      assert refs[..|refs| - 1][..n] == refs[..n];
      OverflowIsInherited(refs[..|refs| - 1], n);
    } else {
      assert refs[..n] == refs;
    }
  }

  // ---- hierarchies as values -----------------------------------------------------------------------

  datatype FieldView = FieldView(name: string, descriptor: string, offset: nat)

  // isReferenceRoot: this is java.lang.ref.Reference.
  datatype ClassView = ClassView(fields: seq<FieldView>, numReferences: nat, isReferenceRoot: bool, size: nat)

  function KindsOf(fields: seq<FieldView>): (ks: seq<Kind>)
    ensures |ks| == |fields| && forall i :: 0 <= i < |fields| ==> ks[i] == KindOf(fields[i].descriptor)
  {
    seq(|fields|, i requires 0 <= i < |fields| => KindOf(fields[i].descriptor))
  }

  function OffsetsOf(fields: seq<FieldView>): (offsets: seq<nat>)
    ensures |offsets| == |fields| && forall i :: 0 <= i < |fields| ==> offsets[i] == fields[i].offset
  {
    seq(|fields|, i requires 0 <= i < |fields| => fields[i].offset)
  }

  // All references of the class, the hidden one of java.lang.ref.Reference included.
  function AllReferences(c: ClassView): nat { c.numReferences + if c.isReferenceRoot then 1 else 0 }

  // What `LinkFields` leaves behind for a class whose superclass's instances end at start.
  ghost predicate LaidOut(c: ClassView, start: nat) {
    && start % 4 == 0 && AllReferences(c) <= |c.fields|
    && (forall i :: 0 <= i < |c.fields| ==> c.fields[i].offset == OffsetAt(KindsOf(c.fields), start, i))
    && c.size == EndOf(KindsOf(c.fields), start)
    && (forall i :: 0 <= i < |c.fields| ==> (KindOf(c.fields[i].descriptor).Ref? <==> i < AllReferences(c)))
    && (c.isReferenceRoot ==> AllReferences(c) == |c.fields| && c.fields[c.numReferences].name == "referent")
  }

  function StartOf(h: seq<ClassView>, i: nat): nat
    requires i <= |h|
  {
    if i == 0 then 0 else h[i - 1].size
  }

  // The classes from the root of the hierarchy down.
  ghost predicate Hierarchy(h: seq<ClassView>) {
    forall i :: 0 <= i < |h| ==> LaidOut(h[i], StartOf(h, i))
  }

  function References(c: ClassView): seq<nat>
    requires c.numReferences <= |c.fields|
  {
    OffsetsOf(c.fields[..c.numReferences])
  }

  function Refs(h: seq<ClassView>): (refs: seq<seq<nat>>)
    requires forall c :: c in h ==> c.numReferences <= |c.fields|
    ensures |refs| == |h| && forall i :: 0 <= i < |h| ==> refs[i] == References(h[i])
  {
    seq(|h|, i requires 0 <= i < |h| => References(h[i]))
  }

  // ---- layout along the hierarchy ----------------------------------------------------------------

  ghost predicate At(h: seq<ClassView>, i: int, j: int) { 0 <= i < |h| && 0 <= j < |h[i].fields| }

  function Width(f: FieldView): nat { Size(KindOf(f.descriptor)) }

  lemma SlotInClass(c: ClassView, start: nat, j: nat)
    requires LaidOut(c, start) && j < |c.fields|
    ensures start <= c.fields[j].offset && c.fields[j].offset + Width(c.fields[j]) <= c.size
    ensures IsNatural(c.fields[j].offset, KindOf(c.fields[j].descriptor)) && c.fields[j].offset % 4 == 0
    ensures forall k :: j < k < |c.fields| ==> c.fields[j].offset + Width(c.fields[j]) <= c.fields[k].offset
    ensures c.size % 4 == 0 && c.size >= start
  {
    hide OffsetAt, EndAt;
    var ks := KindsOf(c.fields);
    SlotsAreDisjoint(ks, start, j, |ks|);
    forall k | j < k < |c.fields| ensures c.fields[j].offset + Width(c.fields[j]) <= c.fields[k].offset {
      SlotsAreDisjoint(ks, start, j, k);
    }
    EndsAreAligned(ks, start, |ks|);
  }

  lemma SizeGrows(c: ClassView, start: nat)
    requires LaidOut(c, start)
    ensures c.size >= start
  {
    hide EndAt, OffsetAt;
    EndsAreAligned(KindsOf(c.fields), start, |c.fields|);
  }

  lemma {:induction false} StartsAscend(h: seq<ClassView>, i: nat, j: nat)
    requires Hierarchy(h) && i <= j <= |h|
    ensures StartOf(h, i) <= StartOf(h, j)
    decreases j
  {
    hide LaidOut;
    if i < j {
      StartsAscend(h, i, j - 1);
      SizeGrows(h[j - 1], StartOf(h, j - 1));
    }
  }

  /** Along every hierarchy the fields of all classes lie apart, aligned to their sizes, in the order of
      the classes, within the object. */
  lemma FieldsAreApart(h: seq<ClassView>, i: nat, j: nat, i': nat, j': nat)
    requires Hierarchy(h) && At(h, i, j) && At(h, i', j') && (i < i' || (i == i' && j < j'))
    ensures h[i].fields[j].offset + Width(h[i].fields[j]) <= h[i'].fields[j'].offset
    ensures h[i'].fields[j'].offset + Width(h[i'].fields[j']) <= h[|h| - 1].size
    ensures IsNatural(h[i].fields[j].offset, KindOf(h[i].fields[j].descriptor))
  {
    hide LaidOut;
    SlotInClass(h[i], StartOf(h, i), j);
    SlotInClass(h[i'], StartOf(h, i'), j');
    if i < i' { StartsAscend(h, i + 1, i'); }
    StartsAscend(h, i' + 1, |h|);
  }

  // ---- what is visited ---------------------------------------------------------------------------

  ghost predicate Counted(h: seq<ClassView>) { forall c :: c in h ==> c.numReferences <= |c.fields| }

  // Field j of class i is a reference that is counted as one.
  ghost predicate IsReference(h: seq<ClassView>, i: int, j: int) { At(h, i, j) && j < h[i].numReferences }

  lemma {:induction false} WalkFinds(h: seq<ClassView>, i: nat, j: nat)
    requires Counted(h) && IsReference(h, i, j)
    ensures h[i].fields[j].offset in Walk(Refs(h))
  {
    assert Refs(h)[..|h| - 1] == Refs(h[..|h| - 1]);
    WalkGrows(Refs(h));
    if i < |h| - 1 { WalkFinds(h[..|h| - 1], i, j); }
    else { assert References(h[i])[j] == h[i].fields[j].offset; }
  }

  lemma {:induction false} FoundByWalk(h: seq<ClassView>, o: nat) returns (i: nat, j: nat)
    requires Counted(h) && o in Walk(Refs(h))
    ensures IsReference(h, i, j) && h[i].fields[j].offset == o
  {
    assert Refs(h)[..|h| - 1] == Refs(h[..|h| - 1]);
    WalkGrows(Refs(h));
    if o in References(h[|h| - 1]) {
      i := |h| - 1;
      j :| 0 <= j < |References(h[i])| && References(h[i])[j] == o;
    } else {
      i, j := FoundByWalk(h[..|h| - 1], o);
    }
  }

  lemma WalkIsAligned(h: seq<ClassView>)
    requires Hierarchy(h) && Counted(h)
    ensures Aligned(Refs(h))
  {
    hide LaidOut;
    forall o: nat | o in Walk(Refs(h)) ensures o % 4 == 0 {
      var i, j := FoundByWalk(h, o);
      SlotInClass(h[i], StartOf(h, i), j);
    }
  }

  lemma PrefixIsHierarchy(h: seq<ClassView>)
    requires Hierarchy(h) && h != []
    ensures Hierarchy(h[..|h| - 1])
  {
    hide LaidOut;
    var g := h[..|h| - 1];
    forall i | 0 <= i < |g| ensures LaidOut(g[i], StartOf(g, i)) { assert StartOf(g, i) == StartOf(h, i); }
  }

  lemma OwnAreDistinct(h: seq<ClassView>, n: nat)
    requires Hierarchy(h) && Counted(h) && n < |h|
    ensures Distinct(References(h[n]))
  {
    hide LaidOut, Hierarchy;
    var mine := References(h[n]);
    forall a, b | 0 <= a < b < |mine| ensures mine[a] != mine[b] { FieldsAreApart(h, n, a, n, b); }
  }

  lemma DistinctFromAbove(h: seq<ClassView>, o: nat)
    requires Hierarchy(h) && Counted(h) && h != [] && o in References(h[|h| - 1])
    ensures o !in Walk(Refs(h[..|h| - 1]))
  {
    hide LaidOut, Hierarchy;
    var n := |h| - 1;
    var a :| 0 <= a < |References(h[n])| && References(h[n])[a] == o;
    if o in Walk(Refs(h[..n])) {
      var i, j := FoundByWalk(h[..n], o);
      FieldsAreApart(h, i, j, n, a);
    }
  }

  lemma {:induction false} WalkIsDistinct(h: seq<ClassView>)
    requires Hierarchy(h) && Counted(h)
    ensures Distinct(Walk(Refs(h)))
  {
    hide LaidOut, Hierarchy, References;
    if h != [] {
      var n := |h| - 1;
      PrefixIsHierarchy(h);
      WalkIsDistinct(h[..n]);
      OwnAreDistinct(h, n);
      assert Refs(h)[..n] == Refs(h[..n]);
      forall o: nat | o in References(h[n]) ensures o !in Walk(Refs(h[..n])) { DistinctFromAbove(h, o); }
      JoinIsDistinct(References(h[n]), Walk(Refs(h[..n])));
    }
  }

  // The offsets below are all smaller than those of the class itself.
  lemma WalkAscends(h: seq<ClassView>, o: nat, o': nat)
    requires Hierarchy(h) && Counted(h) && h != []
    requires o in Walk(Refs(h[..|h| - 1])) && o' in References(h[|h| - 1])
    ensures o < o'
  {
    hide LaidOut;
    var n := |h| - 1;
    var i, j := FoundByWalk(h[..n], o);
    var j' :| 0 <= j' < |References(h[n])| && References(h[n])[j'] == o';
    FieldsAreApart(h, i, j, n, j');
  }

  ghost predicate Natural(offsets: seq<nat>) { forall o: nat :: o in offsets <==> o == 120 || o == 124 }

  ghost predicate Overflows(offsets: seq<nat>) { exists o :: o in offsets && !CanEncode(o) }

  lemma MarkBits(w: Word, before: seq<nat>, offsets: seq<nat>, after: seq<nat>, b: nat)
    requires w != CLASS_WALK_SUPER && Encodes(w, before) && (forall o: nat :: o in offsets ==> o % 4 == 0)
    requires forall o: nat :: o in after <==> o in offsets || o in before
    requires !Overflows(offsets) && b < 32
    ensures Mark(w, offsets)[b] <==> 4 * b in after
  {
    assert 4 * b in before <==> w[b];
    assert 4 * b in offsets <==> exists o: nat :: o in offsets && o / 4 == b;
  }

  lemma MarkOverflows(w: Word, before: seq<nat>, offsets: seq<nat>, after: seq<nat>)
    requires w != CLASS_WALK_SUPER && Encodes(w, before) && (forall o: nat :: o in offsets ==> o % 4 == 0)
    requires forall o: nat :: o in after <==> o in offsets || o in before
    ensures Mark(w, offsets) == CLASS_WALK_SUPER <==> Overflows(after) || Natural(after)
  {
    if Overflows(offsets) {
      var o :| o in offsets && !CanEncode(o);
      assert o in after;
    } else {
      assert !Overflows(after);
      hide Mark, Overflows;
      var m := Mark(w, offsets);
      forall b: nat | b < 32 ensures m[b] <==> 4 * b in after { MarkBits(w, before, offsets, after, b); }
      BitsNatural(m, after);
    }
  }

  lemma BitsNatural(m: Word, after: seq<nat>)
    requires forall o: nat :: o in after ==> o % 4 == 0 && CanEncode(o)
    requires forall b: nat :: b < 32 ==> (m[b] <==> 4 * b in after)
    ensures m == CLASS_WALK_SUPER <==> Natural(after)
  {
    if m == CLASS_WALK_SUPER {
      assert m[30] && m[31];
      forall o: nat | o in after ensures o == 120 || o == 124 { assert o == 4 * (o / 4) && m[o / 4]; }
    }
    if Natural(after) {
      forall b: nat | b < 32 ensures m[b] == CLASS_WALK_SUPER[b] { assert m[b] <==> 4 * b in after; }
    }
  }

  lemma OverflowedAbove(h: seq<ClassView>)
    requires Hierarchy(h) && Counted(h) && h != []
    requires Overflows(Walk(Refs(h[..|h| - 1]))) || Natural(Walk(Refs(h[..|h| - 1])))
    ensures Overflows(Walk(Refs(h))) || Natural(Walk(Refs(h)))
  {
    hide LaidOut, Hierarchy;
    var n := |h| - 1;
    assert Refs(h)[..n] == Refs(h[..n]);
    WalkGrows(Refs(h));
    if Natural(Walk(Refs(h[..n]))) && References(h[n]) != [] {
      var o := References(h[n])[0];
      WalkAscends(h, 124, o);
      WalkIsAligned(h);
      assert o in Walk(Refs(h)) && !CanEncode(o);
    }
  }

  /** Exactly when a class's bitmap is the walk marker: some reference of the class or of a class above
      it lies at or beyond byte 128, or the only references are at 120 and 124. */
  lemma {:induction false} OverflowsExactly(h: seq<ClassView>)
    requires Hierarchy(h) && Counted(h)
    ensures Bitmap(Refs(h)) == CLASS_WALK_SUPER <==> Overflows(Walk(Refs(h))) || Natural(Walk(Refs(h)))
  {
    hide LaidOut, Hierarchy, Encodes, Mark, Natural, Overflows;
    if h == [] {
      NothingMarked();
    } else {
      var n := |h| - 1;
      PrefixIsHierarchy(h);
      OverflowsExactly(h[..n]);
      assert Refs(h)[..n] == Refs(h[..n]);
      if Bitmap(Refs(h[..n])) == CLASS_WALK_SUPER {
        OverflowedAbove(h);
      } else {
        WalkIsAligned(h);
        WalkIsAligned(h[..n]);
        BitmapEncodes(Refs(h[..n]));
        WalkGrows(Refs(h));
        forall o: nat | o in References(h[n]) ensures o % 4 == 0 { assert o in Walk(Refs(h)); }
        MarkOverflows(Bitmap(Refs(h[..n])), Walk(Refs(h[..n])), References(h[n]), Walk(Refs(h)));
      }
    }
  }

  lemma NothingMarked()
    ensures Zeros(32) != CLASS_WALK_SUPER && !Overflows([]) && !Natural([])
  {
    assert !Zeros(32)[31] && CLASS_WALK_SUPER[31];
    assert 120 !in [];
  }

  // ---- java.lang.ref.Reference.referent ------------------------------------------------------------

  const REFERENT := "referent"
  const OBJECT := "Ljava/lang/Object;"

  datatype Lookup = NotFound | Found(klass: nat, index: nat)

  // `FindDeclaredInstanceField`.
  function IndexOfField(fields: seq<FieldView>, name: string, descriptor: string): (i: nat)
    ensures i <= |fields|
    ensures i < |fields| ==> fields[i].name == name && fields[i].descriptor == descriptor
    ensures forall k :: 0 <= k < i ==> !(fields[k].name == name && fields[k].descriptor == descriptor)
  {
    if fields == [] || (fields[0].name == name && fields[0].descriptor == descriptor) then 0
    else 1 + IndexOfField(fields[1..], name, descriptor)
  }

  predicate Declares(c: ClassView) { IndexOfField(c.fields, REFERENT, OBJECT) < |c.fields| }

  // `FindInstanceField`: the class itself first, then its superclasses.
  function FindReferent(h: seq<ClassView>): (found: Lookup)
    ensures found.Found? ==>
              && found.klass < |h| && Declares(h[found.klass])
              && found.index == IndexOfField(h[found.klass].fields, REFERENT, OBJECT)
    ensures found.Found? ==> forall k :: found.klass < k < |h| ==> !Declares(h[k])
    ensures found.NotFound? ==> forall c :: c in h ==> !Declares(c)
  {
    if h == [] then NotFound
    else if Declares(h[|h| - 1]) then Found(|h| - 1, IndexOfField(h[|h| - 1].fields, REFERENT, OBJECT))
    else FindReferent(h[..|h| - 1])
  }

  // The offsets `FixupFields` rewrites in an instance of the last class.
  ghost function Visits(h: seq<ClassView>, isReference: bool): seq<nat>
    requires Counted(h) && (isReference ==> FindReferent(h).Found?)
  {
    (if Bitmap(Refs(h)) == CLASS_WALK_SUPER then Walk(Refs(h)) else Decode(Bitmap(Refs(h)), 0)) +
    (if isReference then [h[FindReferent(h).klass].fields[FindReferent(h).index].offset] else [])
  }

  // A word of the object that holds a reference.
  ghost predicate HoldsReference(h: seq<ClassView>, o: nat) {
    exists i, j :: At(h, i, j) && KindOf(h[i].fields[j].descriptor).Ref? && h[i].fields[j].offset == o
  }

  // Dex files do not declare the same field twice in a class.
  ghost predicate FieldsDiffer(h: seq<ClassView>) {
    forall i, j, k :: At(h, i, j) && At(h, i, k) && j != k ==>
      h[i].fields[j].name != h[i].fields[k].name || h[i].fields[j].descriptor != h[i].fields[k].descriptor
  }

  // Class r is java.lang.ref.Reference, and its referent is declared as the library declares it.
  ghost predicate ReferenceRoot(h: seq<ClassView>, r: nat) {
    && r < |h| && h[r].isReferenceRoot && (forall i :: 0 <= i < |h| && i != r ==> !h[i].isReferenceRoot)
    && h[r].numReferences < |h[r].fields|
    && h[r].fields[h[r].numReferences].name == REFERENT && h[r].fields[h[r].numReferences].descriptor == OBJECT
  }

  // A class below declares a field that looks like the referent.
  ghost predicate Shadowed(h: seq<ClassView>, r: nat) { exists i :: r < i < |h| && Declares(h[i]) }

  ghost predicate VisitsEachReferenceOnce(h: seq<ClassView>, visits: seq<nat>) {
    Distinct(visits) && forall o: nat :: o in visits <==> HoldsReference(h, o)
  }

  lemma FieldVisits(h: seq<ClassView>)
    requires Hierarchy(h) && Counted(h)
    ensures Distinct(Visits(h, false)) && forall o: nat :: o in Visits(h, false) <==> o in Walk(Refs(h))
  {
    hide LaidOut, Hierarchy;
    WalkIsAligned(h);
    WalkIsDistinct(h);
    if Bitmap(Refs(h)) != CLASS_WALK_SUPER { BitmapMeansWalk(Refs(h)); }
  }

  lemma ReferencesCounted(h: seq<ClassView>, i: int, j: int)
    requires Hierarchy(h) && At(h, i, j)
    ensures KindOf(h[i].fields[j].descriptor).Ref? <==> j < AllReferences(h[i])
  {
    assert LaidOut(h[i], StartOf(h, i));
  }

  /** In an instance of a class that is not a `java.lang.ref.Reference`, every word that holds a
      reference is rewritten exactly once, and no other word. */
  lemma PlainInstances(h: seq<ClassView>)
    requires Hierarchy(h) && Counted(h) && forall i :: 0 <= i < |h| ==> !h[i].isReferenceRoot
    ensures VisitsEachReferenceOnce(h, Visits(h, false))
  {
    hide LaidOut, Hierarchy;
    FieldVisits(h);
    forall o: nat ensures o in Walk(Refs(h)) <==> HoldsReference(h, o) {
      if o in Walk(Refs(h)) {
        var i, j := FoundByWalk(h, o);
        ReferencesCounted(h, i, j);
      }
      if HoldsReference(h, o) {
        var i, j :| At(h, i, j) && KindOf(h[i].fields[j].descriptor).Ref? && h[i].fields[j].offset == o;
        ReferencesCounted(h, i, j);
        WalkFinds(h, i, j);
      }
    }
  }

  // A slot belongs to one field.
  lemma SameSlot(h: seq<ClassView>, i: int, j: int, i': int, j': int)
    requires Hierarchy(h) && At(h, i, j) && At(h, i', j') && h[i].fields[j].offset == h[i'].fields[j'].offset
    ensures i == i' && j == j'
  {
    hide LaidOut, Hierarchy;
    if i < i' || (i == i' && j < j') { FieldsAreApart(h, i, j, i', j'); }
    if i' < i || (i == i' && j' < j) { FieldsAreApart(h, i', j', i, j); }
  }

  // What the walk leaves out.
  lemma WalkLeavesReferent(h: seq<ClassView>, r: nat, o: nat)
    requires Hierarchy(h) && Counted(h) && ReferenceRoot(h, r)
    ensures HoldsReference(h, o) <==> o in Walk(Refs(h)) || o == h[r].fields[h[r].numReferences].offset
    ensures h[r].fields[h[r].numReferences].offset !in Walk(Refs(h))
  {
    hide LaidOut, Hierarchy;
    var n := h[r].numReferences;
    var hidden := h[r].fields[n].offset;
    ReferencesCounted(h, r, n);
    if hidden in Walk(Refs(h)) {
      var i, j := FoundByWalk(h, hidden);
      SameSlot(h, i, j, r, n);
    }
    if o in Walk(Refs(h)) {
      var i, j := FoundByWalk(h, o);
      ReferencesCounted(h, i, j);
    }
    if HoldsReference(h, o) {
      var i, j :| At(h, i, j) && KindOf(h[i].fields[j].descriptor).Ref? && h[i].fields[j].offset == o;
      ReferencesCounted(h, i, j);
      if j < h[i].numReferences { WalkFinds(h, i, j); }
    }
  }

  lemma FindsReferent(h: seq<ClassView>, r: nat)
    requires ReferenceRoot(h, r) && FieldsDiffer(h)
    ensures FindReferent(h).Found?
    ensures !Shadowed(h, r) ==> FindReferent(h) == Found(r, h[r].numReferences)
    ensures Shadowed(h, r) ==> FindReferent(h).klass > r
  {
    var n := h[r].numReferences;
    var k := IndexOfField(h[r].fields, REFERENT, OBJECT);
    assert k <= n;
    if k < n { assert At(h, r, k) && At(h, r, n); }
    assert Declares(h[r]);
  }

  lemma ShadowedMisses(h: seq<ClassView>, r: nat)
    requires Hierarchy(h) && Counted(h) && ReferenceRoot(h, r) && FieldsDiffer(h) && Shadowed(h, r)
    ensures FindReferent(h).Found? && h[r].fields[h[r].numReferences].offset !in Visits(h, true)
  {
    hide LaidOut, Hierarchy, Shadowed, HoldsReference, Walk, Decode, FieldsDiffer;
    FieldVisits(h);
    FindsReferent(h, r);
    var found := FindReferent(h);
    var hidden := h[r].fields[h[r].numReferences].offset;
    assert Visits(h, true) == Visits(h, false) + [h[found.klass].fields[found.index].offset];
    WalkLeavesReferent(h, r, hidden);
    if h[found.klass].fields[found.index].offset == hidden {
      SameSlot(h, found.klass, found.index, r, h[r].numReferences);
    }
  }

  lemma UnshadowedFinds(h: seq<ClassView>, r: nat)
    requires Hierarchy(h) && Counted(h) && ReferenceRoot(h, r) && FieldsDiffer(h) && !Shadowed(h, r)
    ensures FindReferent(h).Found? && h[r].fields[h[r].numReferences].offset in Visits(h, true)
    ensures VisitsEachReferenceOnce(h, Visits(h, true))
  {
    hide LaidOut, Hierarchy, Shadowed, HoldsReference, Walk, Decode, FieldsDiffer;
    FieldVisits(h);
    FindsReferent(h, r);
    var hidden := h[r].fields[h[r].numReferences].offset;
    assert Visits(h, true) == Visits(h, false) + [hidden];
    WalkLeavesReferent(h, r, hidden);
    forall o: nat ensures o in Visits(h, true) <==> HoldsReference(h, o) { WalkLeavesReferent(h, r, o); }
  }

  /** In an instance of a subclass of `java.lang.ref.Reference`, every word that holds a reference is
      rewritten exactly once, and no other word, exactly when no class below `Reference` declares a
      field of its own called `referent` of type `Object`. Otherwise the hidden referent is missed. */
  lemma ReferenceInstances(h: seq<ClassView>, r: nat)
    requires Hierarchy(h) && Counted(h) && ReferenceRoot(h, r) && FieldsDiffer(h)
    ensures FindReferent(h).Found?
    ensures VisitsEachReferenceOnce(h, Visits(h, true)) <==> !Shadowed(h, r)
    ensures h[r].fields[h[r].numReferences].offset in Visits(h, true) <==> !Shadowed(h, r)
  {
    hide LaidOut, Hierarchy, Shadowed, Visits, FieldsDiffer;
    if Shadowed(h, r) {
      ShadowedMisses(h, r);
      ReferencesCounted(h, r, h[r].numReferences);
      assert HoldsReference(h, h[r].fields[h[r].numReferences].offset);
    } else {
      UnshadowedFinds(h, r);
    }
  }

  /** What is visited in an instance of a subclass of `java.lang.ref.Reference`: every reference, but for the
      referent when it is hidden. */
  lemma ReferenceVisits(h: seq<ClassView>, r: nat, o: nat)
    requires Hierarchy(h) && Counted(h) && ReferenceRoot(h, r) && FieldsDiffer(h)
    ensures FindReferent(h).Found?
    ensures o in Visits(h, true) <==>
              HoldsReference(h, o) && !(Shadowed(h, r) && o == h[r].fields[h[r].numReferences].offset)
  {
    hide LaidOut, Hierarchy, Shadowed, HoldsReference, Walk, Decode, FieldsDiffer;
    FieldVisits(h);
    FindsReferent(h, r);
    WalkLeavesReferent(h, r, o);
    var found := FindReferent(h);
    var offset := h[found.klass].fields[found.index].offset;
    assert Visits(h, true) == Visits(h, false) + [offset];
    if Shadowed(h, r) {
      DeclaredIsReference(h, found.klass);
      assert IsReference(h, found.klass, found.index);
      WalkFinds(h, found.klass, found.index);
    }
  }

  // A field of type Object is a reference, and counted as one unless it is the real referent.
  lemma DeclaredIsReference(h: seq<ClassView>, i: nat)
    requires Hierarchy(h) && i < |h| && Declares(h[i]) && !h[i].isReferenceRoot
    ensures IndexOfField(h[i].fields, REFERENT, OBJECT) < h[i].numReferences
  {
    hide LaidOut, Hierarchy;
    ReferencesCounted(h, i, IndexOfField(h[i].fields, REFERENT, OBJECT));
  }

  // `java.lang.Object`, `java.lang.ref.Reference`, and a subclass with a field that looks like the referent.
  const OBJECT_VIEW :=
    ClassView([FieldView("klass", "Ljava/lang/Class;", 0), FieldView("monitor", "I", 4)], 1, false, 8)
  const SHADOWING: seq<ClassView> := [
    OBJECT_VIEW,
    ClassView([FieldView(REFERENT, OBJECT, 8)], 0, true, 12),
    ClassView([FieldView(REFERENT, OBJECT, 12)], 1, false, 16)]

  lemma OneReference(start: nat)
    requires start % 4 == 0
    ensures OffsetAt([Kind.Ref], start, 0) == start && EndOf([Kind.Ref], start) == start + 4
  {
  }

  lemma OneFieldIsLaidOut(c: ClassView, f: FieldView, start: nat)
    requires c.fields == [f] && KindOf(f.descriptor).Ref? && f.offset == start && start % 4 == 0
    requires c.size == start + 4 && AllReferences(c) == 1 && (c.isReferenceRoot ==> f.name == REFERENT)
    ensures LaidOut(c, start)
  {
    hide KindOf, OffsetAt, EndOf;
    OneReference(start);
    assert KindsOf(c.fields) == [Kind.Ref];
    assert c.isReferenceRoot ==> c.numReferences == 0;
  }

  lemma HeaderEnds(ks: seq<Kind>)
    requires ks == [Kind.Ref, Narrow]
    ensures OffsetAt(ks, 0, 0) == 0 && OffsetAt(ks, 0, 1) == 4 && EndOf(ks, 0) == 8
  {
    hide AlignFor;
    AlignForIs(0, Kind.Ref);
    AlignForIs(4, Narrow);
    assert EndAt(ks, 0, 0) == 0 && EndAt(ks, 0, 1) == 4;
  }

  lemma ObjectIsLaidOut()
    ensures LaidOut(OBJECT_VIEW, 0)
  {
    hide OffsetAt, EndOf;
    var ks := KindsOf(OBJECT_VIEW.fields);
    assert KindOf("Ljava/lang/Class;").Ref? && KindOf("I").Narrow?;
    assert ks == [Kind.Ref, Narrow];
    HeaderEnds(ks);
  }

  lemma ShadowingIsLaidOut()
    ensures LaidOut(SHADOWING[0], 0) && LaidOut(SHADOWING[1], 8) && LaidOut(SHADOWING[2], 12)
  {
    hide LaidOut;
    assert KindOf(OBJECT).Ref?;
    ObjectIsLaidOut();
    OneFieldIsLaidOut(SHADOWING[1], FieldView(REFERENT, OBJECT, 8), 8);
    OneFieldIsLaidOut(SHADOWING[2], FieldView(REFERENT, OBJECT, 12), 12);
  }

  lemma ShadowingIsHierarchy()
    ensures Hierarchy(SHADOWING) && Counted(SHADOWING) && ReferenceRoot(SHADOWING, 1) && FieldsDiffer(SHADOWING)
  {
    hide LaidOut;
    ShadowingIsLaidOut();
    assert StartOf(SHADOWING, 0) == 0 && StartOf(SHADOWING, 1) == 8 && StartOf(SHADOWING, 2) == 12;
    assert |"klass"| != |"monitor"|;
  }

  lemma ShadowingIsShadowed()
    ensures Shadowed(SHADOWING, 1) && HoldsReference(SHADOWING, 8)
  {
    assert Declares(SHADOWING[2]);
    assert At(SHADOWING, 1, 0) && KindOf(SHADOWING[1].fields[0].descriptor).Ref?;
  }

  /** There are such hierarchies, with everything else in order: the referent at offset 8 is missed. */
  lemma ReferentCanBeMissed()
    ensures Hierarchy(SHADOWING) && Counted(SHADOWING) && ReferenceRoot(SHADOWING, 1) && FieldsDiffer(SHADOWING)
    ensures FindReferent(SHADOWING).Found? && HoldsReference(SHADOWING, 8) && 8 !in Visits(SHADOWING, true)
  {
    hide Hierarchy, Counted, FieldsDiffer, Shadowed, HoldsReference, Visits;
    ShadowingIsHierarchy();
    ShadowingIsShadowed();
    ReferenceVisits(SHADOWING, 1, 8);
  }
}
