/** `ImageWriter`: assigning every live object a slot of the image, and copying the objects there with
    their references relocated. */
module ImageWriter {
  import opened Alignment
  import opened HeapObjects
  import opened InstanceLayout
  import opened ReferenceOffsets
  import opened Sequences

  // Every object is visited once, and all strings have one size.
  ghost predicate Heap(live: seq<HeapObject>) {
    && Distinct(live) && (forall o :: o in live ==> |o.words| >= 2)
    && forall o, p :: o in live && p in live && o.isString && p.isString ==> |o.words| == |p.words|
  }

  // The intern table knows live strings by their text.
  ghost predicate Interned(interns: map<string, HeapObject>, live: seq<HeapObject>) {
    forall t :: t in interns ==> interns[t] in live && interns[t].isString && interns[t].text == t
  }

  // ---- slots -----------------------------------------------------------------------------------------

  // Where slot i starts when the objects in `slots` follow each other after the header.
  function SlotStart(header: nat, slots: seq<HeapObject>, i: nat): nat
    requires i <= |slots|
  {
    if i == 0 then header else SlotStart(header, slots, i - 1) + RoundUp(slots[i - 1].SizeOf(), 8)
  }

  // The object whose slot o uses.
  function Owner(interns: map<string, HeapObject>, o: HeapObject): HeapObject {
    if o.isString && o.text in interns then interns[o.text] else o
  }

  // The objects with slots of their own lie one after the other.
  ghost predicate Lined(header: nat, end: nat, offsets: map<HeapObject, nat>, slots: seq<HeapObject>) {
    && Distinct(slots) && end == SlotStart(header, slots, |slots|)
    && forall i :: 0 <= i < |slots| ==> slots[i] in offsets && offsets[slots[i]] == SlotStart(header, slots, i)
  }

  // Everything else that has an offset is a string that shares the slot of its representative.
  ghost predicate Owned(offsets: map<HeapObject, nat>, slots: seq<HeapObject>, interns: map<string, HeapObject>) {
    && (forall o :: o in slots ==> o in offsets && Owner(interns, o) == o && (o.isString ==> o.text in interns))
    && forall o :: o in offsets ==>
         (o.isString ==> o.text in interns) && Owner(interns, o) in slots &&
         Owner(interns, o) in offsets && offsets[o] == offsets[Owner(interns, o)]
  }

  ghost predicate Tiled(header: nat, end: nat, offsets: map<HeapObject, nat>, slots: seq<HeapObject>,
                        interns: map<string, HeapObject>)
  {
    Lined(header, end, offsets, slots) && Owned(offsets, slots, interns)
  }

  lemma {:induction false} SlotsAscend(header: nat, slots: seq<HeapObject>, i: nat, j: nat)
    requires i <= j <= |slots| && header % 8 == 0
    ensures SlotStart(header, slots, i) <= SlotStart(header, slots, j) && SlotStart(header, slots, j) % 8 == 0
    ensures i < j ==> SlotStart(header, slots, i) + slots[i].SizeOf() <= SlotStart(header, slots, j)
    decreases j
  {
    hide RoundUp, HeapObject.SizeOf;
    if j > 0 {
      SlotsAscend(header, slots, if i < j then i else j - 1, j - 1);
      RoundUpIsNext(slots[j - 1].SizeOf(), 8);
      EightsAdd(SlotStart(header, slots, j - 1), RoundUp(slots[j - 1].SizeOf(), 8));
    }
  }

  lemma EightsAdd(a: nat, b: nat)
    requires a % 8 == 0 && b % 8 == 0
    ensures (a + b) % 8 == 0
  {
    var x, y := a / 8, b / 8;
    assert a + b == 8 * (x + y);
  }

  lemma {:induction false} SlotStartPrefix(header: nat, slots: seq<HeapObject>, o: HeapObject, i: nat)
    requires i <= |slots|
    ensures SlotStart(header, slots + [o], i) == SlotStart(header, slots, i)
  {
    if i > 0 { SlotStartPrefix(header, slots, o, i - 1); }
  }

  // The slot an object uses is its owner's.
  lemma OwnersSlot(header: nat, end: nat, offsets: map<HeapObject, nat>, slots: seq<HeapObject>,
                   interns: map<string, HeapObject>, a: HeapObject) returns (i: nat)
    requires Tiled(header, end, offsets, slots, interns) && a in offsets
    ensures i < |slots| && slots[i] == Owner(interns, a) && offsets[a] == SlotStart(header, slots, i)
    ensures slots[i].isString ==> slots[i].text in interns && Owner(interns, slots[i]) == slots[i]
    ensures a.isString ==> a.text in interns
  {
    hide SlotStart, Owner;
    i :| 0 <= i < |slots| && slots[i] == Owner(interns, a);
    assert slots[i] in slots;
  }

  ghost predicate TextsKept(interns: map<string, HeapObject>) {
    forall t :: t in interns ==> interns[t].isString && interns[t].text == t
  }

  lemma OwnersAgree(interns: map<string, HeapObject>, a: HeapObject, b: HeapObject)
    requires TextsKept(interns) && (a.isString ==> a.text in interns) && (b.isString ==> b.text in interns)
    ensures Owner(interns, a) == Owner(interns, b) <==> a == b || (a.isString && b.isString && a.text == b.text)
  {
  }

  /** Slots are aligned to 8 bytes, fill the image from the header to its end, do not overlap, and are
      shared exactly by strings with the same text. */
  lemma SlotsAreShared(header: nat, end: nat, offsets: map<HeapObject, nat>, slots: seq<HeapObject>,
                       interns: map<string, HeapObject>, a: HeapObject, b: HeapObject)
    requires Tiled(header, end, offsets, slots, interns) && TextsKept(interns) && header % 8 == 0
    requires a in offsets && b in offsets && Owner(interns, a).SizeOf() > 0 && Owner(interns, b).SizeOf() > 0
    ensures offsets[a] % 8 == 0 && header <= offsets[a] && offsets[a] + Owner(interns, a).SizeOf() <= end
    ensures offsets[a] == offsets[b] <==> a == b || (a.isString && b.isString && a.text == b.text)
    ensures offsets[a] < offsets[b] ==> offsets[a] + Owner(interns, a).SizeOf() <= offsets[b]
  {
    var i := OwnersSlot(header, end, offsets, slots, interns, a);
    var j := OwnersSlot(header, end, offsets, slots, interns, b);
    OwnersAgree(interns, a, b);
    hide Owner, SlotStart, HeapObject.SizeOf, TextsKept;
    SlotsAscend(header, slots, 0, i);
    SlotsAscend(header, slots, i, |slots|);
    FirstSlot(header, slots);
    if i < j { SlotsAscend(header, slots, i, j); }
    if j < i { SlotsAscend(header, slots, j, i); }
  }

  lemma FirstSlot(header: nat, slots: seq<HeapObject>)
    ensures SlotStart(header, slots, 0) == header
  {
  }

  // ---- assigning slots -----------------------------------------------------------------------------------

  // What the walk keeps.
  ghost predicate Walked(header: nat, end: nat, offsets: map<HeapObject, nat>, slots: seq<HeapObject>,
                         interns: map<string, HeapObject>, live: seq<HeapObject>, visited: seq<HeapObject>)
  {
    && Tiled(header, end, offsets, slots, interns) && Interned(interns, live)
    && (forall o :: o in visited ==> o in offsets)
    && forall o :: o in offsets ==>
         o in live && (o in visited || (o.isString && o.text in interns && interns[o.text] == o))
  }

  lemma LinedMore(header: nat, end: nat, offsets: map<HeapObject, nat>, slots: seq<HeapObject>, o: HeapObject)
    requires Lined(header, end, offsets, slots) && o !in offsets
    ensures Lined(header, end + RoundUp(o.SizeOf(), 8), offsets[o := end], slots + [o])
  {
    hide SlotStart, RoundUp;
    var slots' := slots + [o];
    assert o !in slots;
    forall i | 0 <= i <= |slots| ensures SlotStart(header, slots', i) == SlotStart(header, slots, i) {
      SlotStartPrefix(header, slots, o, i);
    }
    LastSlot(header, slots, o);
  }

  lemma LastSlot(header: nat, slots: seq<HeapObject>, o: HeapObject)
    ensures SlotStart(header, slots + [o], |slots| + 1) == SlotStart(header, slots, |slots|) + RoundUp(o.SizeOf(), 8)
  {
    hide RoundUp;
    SlotStartPrefix(header, slots, o, |slots|);
  }

  lemma OwnedMore(offsets: map<HeapObject, nat>, slots: seq<HeapObject>, interns: map<string, HeapObject>,
                  o: HeapObject, end: nat)
    requires Owned(offsets, slots, interns) && o !in offsets
    requires Owner(interns, o) == o && (o.isString ==> o.text in interns)
    ensures Owned(offsets[o := end], slots + [o], interns)
  {
    hide Owner;
    forall x | x in offsets[o := end] ensures Owner(interns, x) in slots + [o] {
      assert x != o ==> Owner(interns, x) in slots;
    }
  }

  // A new slot at the end.
  lemma Assigned(header: nat, end: nat, offsets: map<HeapObject, nat>, slots: seq<HeapObject>,
                 interns: map<string, HeapObject>, o: HeapObject)
    requires Tiled(header, end, offsets, slots, interns) && o !in offsets
    requires Owner(interns, o) == o && (o.isString ==> o.text in interns)
    ensures Tiled(header, end + RoundUp(o.SizeOf(), 8), offsets[o := end], slots + [o], interns)
  {
    hide Lined, Owned;
    LinedMore(header, end, offsets, slots, o);
    OwnedMore(offsets, slots, interns, o, end);
  }

  lemma AddressedTo(header: nat, end: nat, offsets: map<HeapObject, nat>, slots: seq<HeapObject>,
                    interns: map<string, HeapObject>, o: HeapObject)
    requires Tiled(header, end, offsets, slots, interns) && o !in offsets && o.isString && o.text in interns
    requires Owner(interns, o) in slots
    ensures Owner(interns, o) in offsets
    ensures Tiled(header, end, offsets[o := offsets[Owner(interns, o)]], slots, interns)
  {
    hide SlotStart;
    var i :| 0 <= i < |slots| && slots[i] == Owner(interns, o);
    assert o !in slots;
  }

  // Interning a new text changes nothing for objects that have offsets.
  lemma InternedMore(header: nat, end: nat, offsets: map<HeapObject, nat>, slots: seq<HeapObject>,
                     interns: map<string, HeapObject>, o: HeapObject)
    requires Tiled(header, end, offsets, slots, interns) && o.isString && o.text !in interns
    ensures Tiled(header, end, offsets, slots, interns[o.text := o])
  {
    hide SlotStart;
    var interns' := interns[o.text := o];
    forall x | x in offsets ensures Owner(interns', x) == Owner(interns, x) {
    }
    forall x | x in slots ensures Owner(interns', x) == Owner(interns, x) {
    }
  }

  class ImageWriter {
    const imageBegin: nat
    const image: array<int>               // words
    const header: nat
    const objects: map<int, HeapObject>   // the heap, by address
    var imageEnd: nat
    var offsets: map<HeapObject, nat>
    var interns: map<string, HeapObject>
    ghost var slots: seq<HeapObject>

    constructor (imageBegin: nat, image: array<int>, header: nat, objects: map<int, HeapObject>,
                 interns: map<string, HeapObject>)
      requires header % 8 == 0
      ensures this.imageBegin == imageBegin && this.image == image && this.header == header
      ensures this.objects == objects && this.interns == interns
      ensures imageEnd == header && offsets == map[] && slots == []
    {
      this.imageBegin, this.image, this.header, this.objects := imageBegin, image, header, objects;
      this.interns := interns;
      imageEnd, offsets, slots := header, map[], [];
    }

    // `String::Intern`: the first string with a text stands for all.
    method Intern(s: HeapObject) returns (interned: HeapObject)
      requires s.isString
      modifies this`interns
      ensures interns == if s.text in old(interns) then old(interns) else old(interns)[s.text := s]
      ensures interned == interns[s.text]
    {
      if s.text !in interns { interns := interns[s.text := s]; }
      interned := interns[s.text];
    }

    method AssignImageOffset(o: HeapObject)
      requires Tiled(header, imageEnd, offsets, slots, interns) && o !in offsets
      requires Owner(interns, o) == o && (o.isString ==> o.text in interns)
      modifies this`offsets, this`imageEnd, this`slots
      ensures Tiled(header, imageEnd, offsets, slots, interns) && slots == old(slots) + [o]
      ensures offsets == old(offsets)[o := old(imageEnd)]
    {
      Assigned(header, imageEnd, offsets, slots, interns, o);
      offsets := offsets[o := imageEnd];
      imageEnd := imageEnd + RoundUp(o.SizeOf(), 8);
      slots := slots + [o];
    }

    // A string that is not its own representative.
    method PointToInterned(o: HeapObject, interned: HeapObject)
      requires Tiled(header, imageEnd, offsets, slots, interns) && o !in offsets && o.isString
      requires o.text in interns && interned == interns[o.text] && interned != o
      requires interned.isString && interned.text == o.text
      modifies this`offsets, this`imageEnd, this`slots
      ensures Tiled(header, imageEnd, offsets, slots, interns) && interned in offsets
      ensures offsets.Keys == old(offsets.Keys) + {o, interned}
      ensures forall x :: x in old(offsets) ==> offsets[x] == old(offsets)[x]
    {
      hide Tiled;
      if interned !in offsets {
        // It comes later in the walk: allocate its location early.
        AssignImageOffset(interned);
      } else {
        InternedHasSlot(header, imageEnd, offsets, slots, interns, interned);
      }
      AddressedTo(header, imageEnd, offsets, slots, interns, o);
      offsets := offsets[o := offsets[interned]];
    }

    /** `CalculateNewObjectOffsetsCallback`. */
    method AssignObject(o: HeapObject, ghost live: seq<HeapObject>, ghost visited: seq<HeapObject>)
      requires Walked(header, imageEnd, offsets, slots, interns, live, visited) && o in live && o !in visited
      modifies this`offsets, this`imageEnd, this`slots, this`interns
      ensures Walked(header, imageEnd, offsets, slots, interns, live, visited + [o])
    {
      hide Tiled, Owner;
      OwnerIsSelf(interns, o);
      if o.isString {
        if o in offsets {
          return;
        }
        if o.text !in interns { InternedMore(header, imageEnd, offsets, slots, interns, o); }
        var interned := Intern(o);
        if o != interned {
          PointToInterned(o, interned);
          return;
        }
        OwnerIsSelf(interns, o);
      }
      AssignImageOffset(o);
    }

    /** `CalculateNewObjectOffsets`: every live object gets an offset. */
    method CalculateNewObjectOffsets(live: seq<HeapObject>)
      requires Heap(live) && Interned(interns, live) && header % 8 == 0
      requires imageEnd == header && offsets == map[] && slots == []
      modifies this`offsets, this`imageEnd, this`slots, this`interns
      ensures Tiled(header, imageEnd, offsets, slots, interns) && Interned(interns, live)
      ensures forall o :: o in live <==> o in offsets
    {
      hide Tiled;
      EmptyIsTiled(header, interns);
      for i := 0 to |live|
        invariant Walked(header, imageEnd, offsets, slots, interns, live, live[..i])
      {
        assert live[..i + 1] == live[..i] + [live[i]];
        assert live[i] !in live[..i];
        AssignObject(live[i], live, live[..i]);
      }
      assert live[..|live|] == live;
    }

    // memcpy.
    method Memcpy(words: seq<int>, dst: nat)
      requires dst + |words| <= image.Length
      modifies image
      ensures image[..] == Overlay(old(image[..]), dst, words)
    {
      for i := 0 to |words|
        invariant forall j :: 0 <= j < image.Length ==>
                    image[j] == if dst <= j < dst + i then words[j - dst] else old(image[j])
      {
        image[dst + i] := words[i];
      }
    }

    // `FixupObjectArray`: every element.
    method FixupObjectArray(o: HeapObject, dst: nat, relocate: int -> int, ghost was: seq<int>)
      requires WellFormed(o) && o.kind.ObjectArray? && Relocated(o.words, was, image[..], dst, [0], relocate)
      modifies image
      ensures Relocated(o.words, was, image[..], dst, [0] + Elements(|o.words| - 3), relocate)
    {
      hide Relocated;
      assert [0] + Elements(0) == [0];
      for i := 0 to o.words[2]
        invariant Relocated(o.words, was, image[..], dst, [0] + Elements(i), relocate)
      {
        FixupWord(o.words, image, dst, relocate, 4 * (3 + i), was, [0] + Elements(i));
        assert [0] + Elements(i) + [4 * (3 + i)] == [0] + Elements(i + 1);
      }
    }

    // `FixupInstanceFields`: with the word of the object's class.
    method FixupInstanceFields(o: HeapObject, dst: nat, relocate: int -> int, ghost was: seq<int>)
      returns (ghost visited: seq<nat>)
      requires WellFormed(o) && Described(o) && !o.kind.ObjectArray?
      requires Relocated(o.words, was, image[..], dst, [0], relocate)
      modifies image
      ensures Relocated(o.words, was, image[..], dst, visited, relocate)
      ensures o.kind.DataArray? ==> visited == [0]
      ensures !o.kind.DataArray? ==>
                && Counted(o.hierarchy) && (o.root.Some? ==> FindReferent(o.hierarchy).Found?)
                && visited == [0] + Visits(o.hierarchy, o.root.Some?)
    {
      hide Relocated, WellFormed, VisitsFit, IsChain, Views, Bitmap, Visits, FindReferent;
      Countings(o);
      if !IsArray(o) { FieldsFitObject(o); }
      var klass := o.chain[|o.chain| - 1];
      visited := FixupFields(klass, o.words, image, dst, relocate, o.chain, o.hierarchy, was, [0]);
    }

    // `FixupStaticFields`, of a class.
    method FixupStaticFields(o: HeapObject, dst: nat, relocate: int -> int, ghost was: seq<int>, ghost before: seq<nat>)
      requires WellFormed(o) && Described(o) && o.kind.ClassObject?
      requires Relocated(o.words, was, image[..], dst, before, relocate)
      modifies image
      ensures Counted(o.staticViews)
      ensures Relocated(o.words, was, image[..], dst, before + Visits(o.staticViews, false), relocate)
    {
      hide Relocated, WellFormed, VisitsFit, IsChain, Views, Bitmap, Visits, FindReferent;
      Countings(o);
      FieldsFitObject(o);
      OneStatic(o);
      ghost var visited := FixupFields(o.statics[0], o.words, image, dst, relocate, o.statics, o.staticViews,
                                       was, before);
    }

    // `FixupObject`: the class pointer, and then by kind.
    method FixupObject(o: HeapObject, dst: nat, relocate: int -> int, ghost was: seq<int>)
      requires WellFormed(o) && Described(o) && Relocated(o.words, was, image[..], dst, [], relocate)
      modifies image
      ensures Relocated(o.words, was, image[..], dst, Visited(o), relocate)
    {
      hide Relocated, WellFormed, Described, Visits, FindReferent, Counted;
      ObjectHasHeader(o);
      FixupWord(o.words, image, dst, relocate, 0, was, []);
      assert [] + [0] == [0];
      if o.kind.ClassObject? {
        ghost var visited := FixupInstanceFields(o, dst, relocate, was);
        FixupStaticFields(o, dst, relocate, was, visited);
      } else if o.kind.ObjectArray? {
        FixupObjectArray(o, dst, relocate, was);
      } else {
        ghost var visited := FixupInstanceFields(o, dst, relocate, was);
      }
      Countings(o);
    }

    /** `CopyAndFixupObjectsCallback`: the object's words, with the monitor cleared and references
        relocated, replace whatever its slot held. */
    method CopyAndFixupObject(o: HeapObject)
      requires o in offsets && offsets[o] % 4 == 0 && offsets[o] / 4 + |o.words| <= image.Length
      requires WellFormed(o) && Described(o)
      modifies image
      ensures image[..] ==
              Overlay(old(image[..]), offsets[o] / 4, Fixed(o, Relocation(imageBegin, offsets, objects)))
    {
      hide WellFormed, Described, Relocated, Fixed, Visited;
      var dst := offsets[o] / 4;
      var relocate := Relocation(imageBegin, offsets, objects);
      ObjectHasHeader(o);
      Memcpy(o.words, dst);
      image[dst + 1] := 0;
      ghost var was := image[..];
      assert was == Overlay(old(image[..]), dst, o.words[1 := 0]);
      NothingRelocated(o.words, was, dst, relocate);
      FixupObject(o, dst, relocate, was);
      RelocatedIsFixed(o, old(image[..]), image[..], dst, relocate);
    }

    /** `CopyAndFixupObjects`, in any order: each slot ends up holding the object copied to it last. */
    method CopyAndFixupObjects(order: seq<HeapObject>)
      requires Tiled(header, imageEnd, offsets, slots, interns) && Heap(order) && Interned(interns, order)
      requires (forall o :: o in order <==> o in offsets) && imageEnd <= 4 * image.Length && header % 8 == 0
      requires forall o :: o in order ==> WellFormed(o) && Described(o)
      modifies image
      ensures forall o :: o in order ==> Shows(image[..], Relocation(imageBegin, offsets, objects), offsets, order, o)
    {
      hide Tiled, Fixed, Shows, Overlay, Owner, Heap, Interned, WellFormed, Described;
      var relocate := Relocation(imageBegin, offsets, objects);
      for i := 0 to |order|
        invariant forall o :: o in order ==> Described(o)
        invariant forall o :: o in order[..i] ==> Shows(image[..], relocate, offsets, order[..i], o)
      {
        var x := order[i];
        assert x in order;
        SlotFits(header, imageEnd, offsets, slots, interns, order, x);
        ghost var was := image[..];
        CopyAndFixupObject(x);
        assert order[..i + 1] == order[..i] + [x];
        ghost var done := order[..i + 1];
        forall o | o in done ensures Shows(image[..], relocate, offsets, done, o) {
          OneCopied(header, imageEnd, offsets, slots, interns, order, i, o, was, relocate);
        }
      }
      assert order[..|order|] == order;
    }
  }

  lemma NothingRelocated(words: seq<int>, was: seq<int>, at: nat, relocate: int -> int)
    requires at + |words| <= |was|
    ensures Relocated(words, was, was, at, [], relocate)
  {
  }

  lemma InternedHasSlot(header: nat, end: nat, offsets: map<HeapObject, nat>, slots: seq<HeapObject>,
                        interns: map<string, HeapObject>, o: HeapObject)
    requires Tiled(header, end, offsets, slots, interns) && o in offsets && Owner(interns, o) == o
    ensures o in slots
  {
  }

  lemma OwnerIsSelf(interns: map<string, HeapObject>, o: HeapObject)
    ensures !o.isString || o.text !in interns || interns[o.text] == o ==> Owner(interns, o) == o
  {
  }

  lemma EmptyIsTiled(header: nat, interns: map<string, HeapObject>)
    ensures Tiled(header, header, map[], [], interns)
  {
  }

  // ---- copying -----------------------------------------------------------------------------------------

  /** `GetImageAddress` of the object that lies at x in the heap. */
  function ImageAddress(imageBegin: nat, offsets: map<HeapObject, nat>, objects: map<int, HeapObject>, x: int): int {
    if x == 0 then 0 else if x in objects && objects[x] in offsets then imageBegin + offsets[objects[x]] else x
  }

  function Relocation(imageBegin: nat, offsets: map<HeapObject, nat>, objects: map<int, HeapObject>): int -> int {
    x => ImageAddress(imageBegin, offsets, objects, x)
  }

  ghost predicate Holds(v: seq<int>, at: nat, words: seq<int>) { at + |words| <= |v| && v[at..at + |words|] == words }

  // The last object copied to the slot of o.
  function LastAt(order: seq<HeapObject>, offsets: map<HeapObject, nat>, o: HeapObject): (last: HeapObject)
    requires o in order && forall x :: x in order ==> x in offsets
    ensures last in order && offsets[last] == offsets[o]
  {
    var n := |order| - 1;
    if offsets[order[n]] == offsets[o] then order[n] else LastAt(order[..n], offsets, o)
  }

  lemma OwnerIsLive(interns: map<string, HeapObject>, live: seq<HeapObject>, o: HeapObject)
    requires Heap(live) && Interned(interns, live) && o in live
    ensures Owner(interns, o) in live && |Owner(interns, o).words| == |o.words| >= 2 && TextsKept(interns)
  {
  }

  // The object fits in its slot.
  lemma SlotFits(header: nat, end: nat, offsets: map<HeapObject, nat>, slots: seq<HeapObject>,
                 interns: map<string, HeapObject>, live: seq<HeapObject>, o: HeapObject)
    requires Tiled(header, end, offsets, slots, interns) && Heap(live) && Interned(interns, live) && header % 8 == 0
    requires (forall x :: x in live ==> x in offsets) && o in live
    ensures offsets[o] % 4 == 0 && offsets[o] + 4 * |o.words| <= end
  {
    hide Tiled, Owner;
    OwnerIsLive(interns, live, o);
    SlotsAreShared(header, end, offsets, slots, interns, o, o);
  }

  lemma LastAtGrows(order: seq<HeapObject>, i: nat, offsets: map<HeapObject, nat>, o: HeapObject)
    requires i < |order| && o in order[..i + 1] && forall x :: x in order ==> x in offsets
    ensures offsets[order[i]] == offsets[o] ==> LastAt(order[..i + 1], offsets, o) == order[i]
    ensures offsets[order[i]] != offsets[o] ==>
            o in order[..i] && LastAt(order[..i + 1], offsets, o) == LastAt(order[..i], offsets, o)
  {
    assert order[..i + 1][..i] == order[..i];
    assert order[..i + 1] == order[..i] + [order[i]];
  }

  lemma HoldsOverlaid(v: seq<int>, at: nat, words: seq<int>, at': nat, words': seq<int>)
    requires at + |words| <= |v|
    ensures Holds(Overlay(v, at, words), at, words)
    ensures Holds(v, at', words') && (at + |words| <= at' || at' + |words'| <= at) ==>
              Holds(Overlay(v, at, words), at', words')
  {
    var r := Overlay(v, at, words);
    assert r[at..at + |words|] == words;
    if Holds(v, at', words') && (at + |words| <= at' || at' + |words'| <= at) {
      assert r[at'..at' + |words'|] == v[at'..at' + |words'|];
    }
  }

  lemma SlotsApart(header: nat, end: nat, offsets: map<HeapObject, nat>, slots: seq<HeapObject>,
                   interns: map<string, HeapObject>, live: seq<HeapObject>, x: HeapObject, y: HeapObject)
    requires Tiled(header, end, offsets, slots, interns) && Heap(live) && Interned(interns, live) && header % 8 == 0
    requires x in live && y in live && x in offsets && y in offsets && offsets[x] != offsets[y]
    ensures offsets[x] / 4 + |x.words| <= offsets[y] / 4 || offsets[y] / 4 + |y.words| <= offsets[x] / 4
  {
    hide Tiled, Owner, Heap, Interned;
    OwnerIsLive(interns, live, x);
    OwnerIsLive(interns, live, y);
    SlotsAreShared(header, end, offsets, slots, interns, x, y);
    SlotsAreShared(header, end, offsets, slots, interns, y, x);
  }

  ghost predicate Copyable(order: seq<HeapObject>, offsets: map<HeapObject, nat>) {
    forall x :: x in order ==> x in offsets && WellFormed(x)
  }

  // The slot of o holds the object copied to it last.
  ghost predicate Shows(v: seq<int>, relocate: int -> int, offsets: map<HeapObject, nat>, order: seq<HeapObject>,
                        o: HeapObject)
  {
    && Copyable(order, offsets) && o in order
    && Holds(v, offsets[o] / 4, Fixed(LastAt(order, offsets, o), relocate))
  }

  lemma OneCopied(header: nat, end: nat, offsets: map<HeapObject, nat>, slots: seq<HeapObject>,
                  interns: map<string, HeapObject>, order: seq<HeapObject>, i: nat, o: HeapObject, was: seq<int>,
                  relocate: int -> int)
    requires Tiled(header, end, offsets, slots, interns) && Heap(order) && Interned(interns, order) && header % 8 == 0
    requires Copyable(order, offsets) && i < |order| && o in order[..i + 1]
    requires o in order[..i] ==> Shows(was, relocate, offsets, order[..i], o)
    requires offsets[order[i]] / 4 + |order[i].words| <= |was|
    ensures Shows(Overlay(was, offsets[order[i]] / 4, Fixed(order[i], relocate)), relocate, offsets, order[..i + 1], o)
  {
    var x := order[i];
    var last := LastAfter(order, i, offsets, o);
    FixedLength(x, relocate);
    FixedLength(last, relocate);
    hide Tiled, Fixed, Holds, Overlay, Owner, Heap, Interned, LastAt, Copyable, WellFormed;
    HoldsOverlaid(was, offsets[x] / 4, Fixed(x, relocate), offsets[last] / 4, Fixed(last, relocate));
    if offsets[x] != offsets[last] { SlotsApart(header, end, offsets, slots, interns, order, x, last); }
  }

  lemma LastAfter(order: seq<HeapObject>, i: nat, offsets: map<HeapObject, nat>, o: HeapObject)
    returns (last: HeapObject)
    requires Copyable(order, offsets) && i < |order| && o in order[..i + 1]
    ensures Copyable(order[..i], offsets) && Copyable(order[..i + 1], offsets) && WellFormed(order[i]) &&
            WellFormed(last)
    ensures last in order && last in offsets && offsets[last] == offsets[o] &&
            LastAt(order[..i + 1], offsets, o) == last
    ensures offsets[order[i]] == offsets[last] ==> last == order[i]
    ensures offsets[order[i]] != offsets[last] ==> o in order[..i] && LastAt(order[..i], offsets, o) == last
  {
    hide WellFormed;
    LastAtGrows(order, i, offsets, o);
    assert Copyable(order[..i], offsets) && Copyable(order[..i + 1], offsets);
    last := LastAt(order[..i + 1], offsets, o);
  }

  lemma FixedLength(o: HeapObject, relocate: int -> int)
    requires WellFormed(o)
    ensures |Fixed(o, relocate)| == |o.words|
  {
    hide WellFormed;
  }

  // ---- what the image holds --------------------------------------------------------------------------------

  // Every object knows its address, and every reference leads to a live object.
  ghost predicate HeapIsClosed(live: seq<HeapObject>, objects: map<int, HeapObject>) {
    && (forall o :: o in live ==> WellFormed(o) && o.address != 0 && o.address in objects && objects[o.address] == o)
    && forall o, i :: o in live && 0 <= i < |o.words| && HoldsAReference(o, i) && o.words[i] != 0 ==>
         o.words[i] in objects && objects[o.words[i]] in live
  }

  // The word in the image for a reference of the heap: null, or the address of the slot of its target.
  ghost predicate Leads(word: int, reference: int, imageBegin: nat, offsets: map<HeapObject, nat>,
                        objects: map<int, HeapObject>)
  {
    if reference == 0 then word == 0
    else reference in objects && objects[reference] in offsets && word == imageBegin + offsets[objects[reference]]
  }

  // Every reference of x is right in the copy at word `at` of the image.
  ghost predicate LeadsRight(v: seq<int>, at: nat, x: HeapObject, imageBegin: nat, offsets: map<HeapObject, nat>,
                             objects: map<int, HeapObject>)
  {
    at + |x.words| <= |v| &&
    forall i :: 0 <= i < |x.words| && HoldsAReference(x, i) ==>
      Leads(v[at + i], x.words[i], imageBegin, offsets, objects)
  }

  // The hidden referent of x, left as it was, is wrong in the image.
  ghost predicate ReferentIsLost(x: HeapObject, imageBegin: nat, offsets: map<HeapObject, nat>,
                                 objects: map<int, HeapObject>)
    requires WellFormed(x)
  {
    exists i :: 0 <= i < |x.words| && IsHiddenReferent(x, i) && x.words[i] != 0 &&
      ImageAddress(imageBegin, offsets, objects, x.words[i]) != x.words[i]
  }

  lemma LastIsCopied(order: seq<HeapObject>, offsets: map<HeapObject, nat>, o: HeapObject)
    requires o in order && forall x :: x in order ==> x in offsets
    ensures LastAt(order, offsets, o) in order && offsets[LastAt(order, offsets, o)] == offsets[o]
  {
  }

  lemma WordIsRight(v: seq<int>, at: nat, x: HeapObject, i: nat, imageBegin: nat, offsets: map<HeapObject, nat>,
                    objects: map<int, HeapObject>)
    requires WellFormed(x) && Holds(v, at, Fixed(x, Relocation(imageBegin, offsets, objects)))
    requires i < |x.words| && HoldsAReference(x, i)
    requires x.words[i] != 0 ==> x.words[i] in objects && objects[x.words[i]] in offsets
    ensures at + |x.words| <= |v|
    ensures Leads(v[at + i], x.words[i], imageBegin, offsets, objects) <==>
            !(IsHiddenReferent(x, i) && x.words[i] != 0 &&
              ImageAddress(imageBegin, offsets, objects, x.words[i]) != x.words[i])
  {
    hide WellFormed, HoldsAReference, IsHiddenReferent, Visited;
    var relocate := Relocation(imageBegin, offsets, objects);
    FixedLength(x, relocate);
    FixedAt(x, relocate, i);
    assert v[at + i] == v[at..at + |x.words|][i];
    assert relocate(x.words[i]) == ImageAddress(imageBegin, offsets, objects, x.words[i]);
    hide Fixed;
  }

  /** Whatever the order of copying: in the slot of o lies an object, o itself unless its slot is shared, whose
      references all lead to the slots of their targets, exactly when it has no hidden referent that should have
      moved. */
  lemma ImageIsRight(v: seq<int>, imageBegin: nat, offsets: map<HeapObject, nat>, objects: map<int, HeapObject>,
                     order: seq<HeapObject>, o: HeapObject)
    requires HeapIsClosed(order, objects) && (forall x :: x in order ==> x in offsets)
    requires o in order && Shows(v, Relocation(imageBegin, offsets, objects), offsets, order, o)
    ensures var x := LastAt(order, offsets, o);
            LeadsRight(v, offsets[o] / 4, x, imageBegin, offsets, objects) <==>
            !ReferentIsLost(x, imageBegin, offsets, objects)
  {
    hide WellFormed, HoldsAReference, IsHiddenReferent, LastAt, Fixed, Relocation, ImageAddress, Leads, Holds;
    var x, at := LastAt(order, offsets, o), offsets[o] / 4;
    LastIsCopied(order, offsets, o);
    FixedLength(x, Relocation(imageBegin, offsets, objects));
    LengthHeld(v, at, Fixed(x, Relocation(imageBegin, offsets, objects)));
    forall i | 0 <= i < |x.words|
      ensures IsHiddenReferent(x, i) ==> HoldsAReference(x, i)
      ensures HoldsAReference(x, i) ==>
                (Leads(v[at + i], x.words[i], imageBegin, offsets, objects) <==>
                 !(IsHiddenReferent(x, i) && x.words[i] != 0 &&
                   ImageAddress(imageBegin, offsets, objects, x.words[i]) != x.words[i]))
    {
      if IsHiddenReferent(x, i) { HiddenIsReference(x, i); }
      if HoldsAReference(x, i) { WordIsRight(v, at, x, i, imageBegin, offsets, objects); }
    }
  }

  lemma LengthHeld(v: seq<int>, at: nat, words: seq<int>)
    requires Holds(v, at, words)
    ensures at + |words| <= |v|
  {
  }

  // No object copied after position k goes to the slot of o.
  ghost predicate LastThere(order: seq<HeapObject>, offsets: map<HeapObject, nat>, k: nat)
    requires forall x :: x in order ==> x in offsets
  {
    k < |order| && forall j :: k < j < |order| ==> offsets[order[j]] != offsets[order[k]]
  }

  lemma {:induction false} LastAtIsLast(order: seq<HeapObject>, offsets: map<HeapObject, nat>, o: HeapObject, k: nat)
    requires o in order && (forall x :: x in order ==> x in offsets) && LastThere(order, offsets, k)
    requires offsets[order[k]] == offsets[o]
    ensures LastAt(order, offsets, o) == order[k]
  {
    var n := |order| - 1;
    assert forall x :: x in order[..n] ==> x in order;
    if k < n { LastAtIsLast(order[..n], offsets, o, k); }
  }

  /** An object whose slot is not shared is in the image as itself; equal strings are there as the one of
      them that was copied last. */
  lemma SlotHoldsEqual(header: nat, end: nat, offsets: map<HeapObject, nat>, slots: seq<HeapObject>,
                       interns: map<string, HeapObject>, order: seq<HeapObject>, o: HeapObject)
    requires Tiled(header, end, offsets, slots, interns) && Heap(order) && Interned(interns, order) && header % 8 == 0
    requires (forall x :: x in order ==> x in offsets) && o in order
    ensures var last := LastAt(order, offsets, o);
            last == o || (o.isString && last.isString && last.text == o.text)
  {
    hide Tiled, Owner;
    var last := LastAt(order, offsets, o);
    OwnerIsLive(interns, order, o);
    OwnerIsLive(interns, order, last);
    SlotsAreShared(header, end, offsets, slots, interns, o, last);
  }
}
