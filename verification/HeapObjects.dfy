/** The objects of the heap as the image writer sees them: words of 32 bits, and a class whose hierarchy says
    which of them hold references. */
module HeapObjects {
  import opened Sequences
  import opened Options
  import opened FieldLayout
  import opened ReferenceOffsets
  import opened InstanceLayout

  // A class object also holds the static fields of the class it stands for.
  datatype ObjectKind = Instance | ObjectArray | DataArray | ClassObject

  class HeapObject {
    const address: int
    const words: seq<int>             // word 0 is the class, word 1 the monitor
    const kind: ObjectKind
    const isString: bool
    const text: string                // the characters, of a string
    const chain: seq<Klass>           // from java.lang.Object down to the object's class
    const hierarchy: seq<ClassView>   // how those classes were laid out
    const root: Option<nat>           // the place of java.lang.ref.Reference in the hierarchy
    const statics: seq<Klass>         // of a class object, the class whose static fields it holds
    const staticViews: seq<ClassView>

    constructor (address: int, words: seq<int>, kind: ObjectKind, isString: bool, text: string, chain: seq<Klass>,
                 hierarchy: seq<ClassView>, root: Option<nat>, statics: seq<Klass>, staticViews: seq<ClassView>)
      ensures this.address == address && this.words == words && this.kind == kind
      ensures this.isString == isString && this.text == text
      ensures this.chain == chain && this.hierarchy == hierarchy && this.root == root
      ensures this.statics == statics && this.staticViews == staticViews
    {
      this.address, this.words, this.kind, this.isString, this.text := address, words, kind, isString, text;
      this.chain, this.hierarchy, this.root := chain, hierarchy, root;
      this.statics, this.staticViews := statics, staticViews;
    }

    function SizeOf(): nat { 4 * |words| }
  }

  // ---- linked classes ----------------------------------------------------------------------------

  predicate IsArray(o: HeapObject) { o.kind.ObjectArray? || o.kind.DataArray? }

  // The classes of the object are linked, and the object records how they were laid out.
  ghost predicate Described(o: HeapObject)
    reads o.chain, (set k | k in o.chain :: k.ifields), (set k, f | k in o.chain && f in k.ifields[..] :: f)
    reads o.statics, (set k | k in o.statics :: k.ifields), (set k, f | k in o.statics && f in k.ifields[..] :: f)
  {
    && IsChain(o.chain) && o.chain != [] && Views(o.chain) == o.hierarchy
    && (o.chain[|o.chain| - 1].isReference <==> o.root.Some?)
    && (if IsArray(o) then HasNoBitmap(o.chain[|o.chain| - 1]) else HasBitmap(o.chain[|o.chain| - 1], o.hierarchy))
    && IsChain(o.statics) && Views(o.statics) == o.staticViews
    && forall k :: k in o.statics ==> !k.isReference && HasBitmap(k, o.staticViews)
  }

  lemma OneStatic(o: HeapObject)
    requires WellFormed(o) && Described(o) && o.kind.ClassObject?
    ensures |o.statics| == 1
  {
  }

  // java.lang.Object declares the class and the monitor, an int.
  ghost predicate HasHeader(h: seq<ClassView>) {
    h != [] && !h[0].isReferenceRoot && h[0].numReferences == 1 && |h[0].fields| == 2 &&
    h[0].fields[1].descriptor == "I"
  }

  ghost predicate RootIsKnown(h: seq<ClassView>, root: Option<nat>) {
    if root.Some? then ReferenceRoot(h, root.value) && FieldsDiffer(h)
    else forall i :: 0 <= i < |h| ==> !h[i].isReferenceRoot
  }

  // Everything the object holds: of a class object, the static fields as well.
  function WholeHierarchy(o: HeapObject): seq<ClassView> {
    o.hierarchy + o.staticViews
  }

  // What the heap guarantees of an object. The third word of an array is its length.
  ghost predicate WellFormed(o: HeapObject) {
    && |o.staticViews| == (if o.kind.ClassObject? then 1 else 0)
    && HasHeader(o.hierarchy) && RootIsKnown(WholeHierarchy(o), o.root) && (o.root.Some? ==> o.kind.Instance?)
    && Hierarchy(WholeHierarchy(o)) && Counted(WholeHierarchy(o))
    && (o.kind.ObjectArray? ==> |o.words| >= 3 && o.words[2] == |o.words| - 3)
    && if IsArray(o) then |o.words| >= 3 && forall i :: 0 < i < |o.hierarchy| ==> o.hierarchy[i].fields == []
       else o.SizeOf() == WholeHierarchy(o)[|WholeHierarchy(o)| - 1].size
  }

  // ---- which words hold references ------------------------------------------------------------------

  /** By the declarations: the fields of reference type, and the elements of an array of references. */
  ghost predicate HoldsAReference(o: HeapObject, i: nat) {
    HoldsReference(WholeHierarchy(o), 4 * i) || (o.kind.ObjectArray? && 3 <= i < |o.words|)
  }

  // The referent, of an instance of a class that hides it.
  ghost predicate IsHiddenReferent(o: HeapObject, i: nat)
    requires WellFormed(o)
  {
    o.root.Some? && Shadowed(o.hierarchy, o.root.value) &&
    4 * i == o.hierarchy[o.root.value].fields[o.hierarchy[o.root.value].numReferences].offset
  }

  // The elements of an array of references.
  function Elements(n: nat): (offsets: seq<nat>)
    ensures |offsets| == n && forall i :: 0 <= i < n ==> offsets[i] == 4 * (3 + i)
  {
    seq(n, i requires 0 <= i < n => 4 * (3 + i))
  }

  // The words `FixupObject` rewrites: the class first, then by kind.
  ghost function Visited(o: HeapObject): seq<nat>
    requires WellFormed(o)
  {
    Countings(o);
    match o.kind
    case Instance => [0] + Visits(o.hierarchy, o.root.Some?)
    case ObjectArray => [0] + Elements(|o.words| - 3)
    case DataArray => [0]
    case ClassObject => [0] + Visits(o.hierarchy, false) + Visits(o.staticViews, false)
  }

  lemma Countings(o: HeapObject)
    requires WellFormed(o)
    ensures Counted(o.hierarchy) && (o.root.Some? ==> o.kind.Instance? && FindReferent(o.hierarchy).Found?)
    ensures o.kind.ClassObject? ==> Counted(o.staticViews)
  {
    hide Hierarchy, FindReferent, HoldsReference, LaidOut;
    assert forall c :: c in o.hierarchy ==> c in WholeHierarchy(o);
    if o.root.Some? {
      assert WholeHierarchy(o) == o.hierarchy;
      FindsReferent(o.hierarchy, o.root.value);
    }
    if o.kind.ClassObject? { assert o.staticViews[0] in WholeHierarchy(o); }
  }

  lemma HeaderOffsets(c: ClassView)
    requires LaidOut(c, 0) && HasHeader([c])
    ensures c.fields[0].offset == 0 && c.fields[1].offset == 4
    ensures KindOf(c.fields[0].descriptor).Ref? && !KindOf(c.fields[1].descriptor).Ref?
  {
    hide AlignFor, EndOf;
    var ks := KindsOf(c.fields);
    AlignForIs(0, ks[0]);
    AlignForIs(4, ks[1]);
    assert EndAt(ks, 0, 0) == 0;
    assert EndAt(ks, 0, 1) == 4;
  }

  // The class is a reference, the monitor is none.
  lemma HeaderOf(h: seq<ClassView>)
    requires Hierarchy(h) && HasHeader(h)
    ensures HoldsReference(h, 0) && !HoldsReference(h, 4)
  {
    hide LaidOut, Hierarchy;
    assert LaidOut(h[0], 0) by { FirstIsLaidOut(h); }
    HeaderOffsets(h[0]);
    assert At(h, 0, 0) && At(h, 0, 1);
    if HoldsReference(h, 4) {
      var i, j :| At(h, i, j) && KindOf(h[i].fields[j].descriptor).Ref? && h[i].fields[j].offset == 4;
      SameSlot(h, i, j, 0, 1);
    }
  }

  lemma FirstIsLaidOut(h: seq<ClassView>)
    requires Hierarchy(h) && h != []
    ensures LaidOut(h[0], 0)
  {
    hide LaidOut;
    assert StartOf(h, 0) == 0;
  }

  lemma ReferentIsNotFirst(h: seq<ClassView>, r: nat)
    requires Hierarchy(h) && HasHeader(h) && ReferenceRoot(h, r)
    ensures h[r].fields[h[r].numReferences].offset != 0
  {
    hide LaidOut, Hierarchy;
    FirstIsLaidOut(h);
    HeaderOffsets(h[0]);
    assert At(h, r, h[r].numReferences) && At(h, 0, 0);
    if h[r].fields[h[r].numReferences].offset == 0 { SameSlot(h, r, h[r].numReferences, 0, 0); }
  }

  lemma InstanceVisits(o: HeapObject, i: nat)
    requires WellFormed(o) && o.kind.Instance?
    ensures 4 * i in Visited(o) <==> HoldsAReference(o, i) && !IsHiddenReferent(o, i)
  {
    hide LaidOut, Hierarchy, Visits, HoldsReference, Shadowed, FieldsDiffer, HasHeader;
    var h := o.hierarchy;
    assert WholeHierarchy(o) == h;
    Countings(o);
    HeaderOf(h);
    if o.root.Some? {
      ReferenceVisits(h, o.root.value, 4 * i);
      ReferentIsNotFirst(h, o.root.value);
    } else {
      PlainInstances(h);
    }
  }

  lemma ArrayVisits(o: HeapObject, i: nat)
    requires WellFormed(o) && IsArray(o)
    ensures 4 * i in Visited(o) <==> HoldsAReference(o, i)
  {
    hide LaidOut, Hierarchy;
    var h := o.hierarchy;
    assert WholeHierarchy(o) == h;
    HeaderOf(h);
    FirstIsLaidOut(h);
    HeaderOffsets(h[0]);
    if o.kind.ObjectArray? && 3 <= i < |o.words| { assert Elements(|o.words| - 3)[i - 3] == 4 * i; }
  }

  lemma ClassVisits(o: HeapObject, i: nat)
    requires WellFormed(o) && o.kind.ClassObject?
    ensures 4 * i in Visited(o) <==> HoldsAReference(o, i)
  {
    hide LaidOut, Hierarchy, Visits, HoldsReference, HasHeader;
    var g := o.hierarchy + o.staticViews;
    assert WholeHierarchy(o) == g && o.staticViews == [o.staticViews[0]];
    ClassObjectVisits(o.hierarchy, o.staticViews[0]);
    HeaderGrows(o.hierarchy, o.staticViews[0]);
    HeaderOf(g);
  }

  lemma HeaderGrows(h: seq<ClassView>, c: ClassView)
    requires HasHeader(h)
    ensures HasHeader(h + [c])
  {
  }

  /** Exactly the words that hold references are rewritten, but for a hidden referent. The monitor is not. */
  lemma VisitedMeans(o: HeapObject, i: nat)
    requires WellFormed(o)
    ensures 4 * i in Visited(o) <==> HoldsAReference(o, i) && !IsHiddenReferent(o, i)
    ensures !HoldsAReference(o, 1)
  {
    MonitorIsPlain(o);
    hide Visited, HoldsAReference, Hierarchy, HasHeader, Counted, RootIsKnown;
    match o.kind
    case Instance => InstanceVisits(o, i);
    case ClassObject => ClassVisits(o, i);
    case _ => ArrayVisits(o, i);
  }

  lemma MonitorIsPlain(o: HeapObject)
    requires WellFormed(o)
    ensures !HoldsAReference(o, 1)
  {
    hide LaidOut, Hierarchy, HoldsReference;
    assert HasHeader(WholeHierarchy(o));
    HeaderOf(WholeHierarchy(o));
  }

  lemma HiddenIsReference(o: HeapObject, i: nat)
    requires WellFormed(o) && IsHiddenReferent(o, i)
    ensures HoldsAReference(o, i)
  {
    hide LaidOut, Hierarchy, Shadowed, FieldsDiffer, HasHeader;
    var h := o.hierarchy;
    assert WholeHierarchy(o) == h;
    ReferencesCounted(h, o.root.value, h[o.root.value].numReferences);
  }

  /** All of them lie in the object. */
  lemma FieldsFitObject(o: HeapObject)
    requires WellFormed(o) && !IsArray(o)
    ensures VisitsFit(o.hierarchy, o.root.Some?, |o.words|)
    ensures o.kind.ClassObject? ==> VisitsFit(o.staticViews, false, |o.words|)
  {
    hide LaidOut, Hierarchy, VisitsFit, FindReferent;
    Countings(o);
    var g := WholeHierarchy(o);
    if o.kind.ClassObject? {
      PrefixIsHierarchy(g);
      assert g[..|g| - 1] == o.hierarchy;
      StartsAscend(g, |g| - 1, |g|);
      assert o.staticViews == [o.staticViews[0]];
      StaticsFit(o.hierarchy, o.staticViews[0], |o.words|);
    } else {
      assert g == o.hierarchy;
    }
    InstancesFit(o.hierarchy, o.root.Some?, |o.words|);
  }

  lemma ObjectHasHeader(o: HeapObject)
    requires WellFormed(o)
    ensures |o.words| >= 2
  {
    hide LaidOut, Hierarchy;
    var g := WholeHierarchy(o);
    FirstIsLaidOut(g);
    HeaderOffsets(g[0]);
    FieldWithin(g, 0, 1);
  }

  // ---- the copy ---------------------------------------------------------------------------------------

  // The words of the copy.
  ghost function Fixed(o: HeapObject, relocate: int -> int): (words: seq<int>)
    requires WellFormed(o)
    ensures |words| == |o.words|
  {
    seq(|o.words|, i requires 0 <= i < |o.words| =>
      if 4 * i in Visited(o) then relocate(o.words[i]) else if i == 1 then 0 else o.words[i])
  }

  /** In the copy every reference is relocated but for a hidden referent, which keeps its old address; the
      monitor is cleared; everything else stays. */
  lemma FixedAt(o: HeapObject, relocate: int -> int, i: nat)
    requires WellFormed(o) && i < |o.words|
    ensures HoldsAReference(o, i) && !IsHiddenReferent(o, i) ==> Fixed(o, relocate)[i] == relocate(o.words[i])
    ensures HoldsAReference(o, i) && IsHiddenReferent(o, i) ==> Fixed(o, relocate)[i] == o.words[i]
    ensures !HoldsAReference(o, i) ==> Fixed(o, relocate)[i] == if i == 1 then 0 else o.words[i]
  {
    hide WellFormed, HoldsAReference, IsHiddenReferent, Visited;
    VisitedMeans(o, i);
  }

  // Copied, the monitor cleared, and the visited words relocated.
  lemma RelocatedIsFixed(o: HeapObject, before: seq<int>, now: seq<int>, at: nat, relocate: int -> int)
    requires WellFormed(o) && |o.words| >= 2 && at + |o.words| <= |before|
    requires Relocated(o.words, Overlay(before, at, o.words[1 := 0]), now, at, Visited(o), relocate)
    ensures now == Overlay(before, at, Fixed(o, relocate))
  {
    hide WellFormed, HoldsAReference, IsHiddenReferent, Visited;
  }
}
