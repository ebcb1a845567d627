/** Virtual method tables: `ClassLinker::LinkVirtualMethods`.

    The table of a class is specified in closed form from the superclass's table and the methods the
    class declares. */
module MethodTables {

  // Name and prototype; two methods have the same name and signature when these are equal.
  type Signature = string

  class ArtMethod {
    const signature: Signature
    const isFinal: bool
    const isPublic: bool
    const isAbstract: bool
    var methodIndex: nat
    var isMiranda: bool

    constructor (signature: Signature, isFinal: bool, isPublic: bool, isAbstract: bool)
      ensures this.signature == signature && this.isFinal == isFinal
      ensures this.isPublic == isPublic && this.isAbstract == isAbstract && !isMiranda
    {
      this.signature, this.isFinal, this.isPublic, this.isAbstract := signature, isFinal, isPublic, isAbstract;
      methodIndex, isMiranda := 0, false;
    }
  }

  // The source stores method indices in 16 bits.
  const INDEX_LIMIT := 0x1_0000

  ghost predicate DistinctSignatures(methods: seq<ArtMethod>) {
    forall i, j :: 0 <= i < j < |methods| ==> methods[i].signature != methods[j].signature
  }

  // ---- the virtual table, in closed form -----------------------------------------------------------

  /** The slot of the table that the method overrides: the first one with its signature that the class
      may access; the length of the table if there is none. */
  function OverriddenSlot(table: seq<ArtMethod>, m: ArtMethod, canAccess: ArtMethod -> bool): (j: nat)
    ensures j <= |table|
    ensures j < |table| ==> table[j].signature == m.signature && canAccess(table[j])
    ensures forall k :: 0 <= k < j ==> !(table[k].signature == m.signature && canAccess(table[k]))
  {
    if table == [] || (table[0].signature == m.signature && canAccess(table[0])) then 0
    else 1 + OverriddenSlot(table[1..], m, canAccess)
  }

  // Which of the methods overrides slot j, or the number of methods.
  function Overrider(table: seq<ArtMethod>, methods: seq<ArtMethod>, j: nat, canAccess: ArtMethod -> bool): (i: nat)
    ensures i <= |methods|
    ensures i < |methods| ==> OverriddenSlot(table, methods[i], canAccess) == j
    ensures forall k :: 0 <= k < i ==> OverriddenSlot(table, methods[k], canAccess) != j
  {
    if methods == [] || OverriddenSlot(table, methods[0], canAccess) == j then 0
    else 1 + Overrider(table, methods[1..], j, canAccess)
  }

  // The inherited slots, each with the method that overrides it.
  function Replaced(table: seq<ArtMethod>, methods: seq<ArtMethod>, canAccess: ArtMethod -> bool): (r: seq<ArtMethod>)
    ensures |r| == |table|
    ensures forall j :: 0 <= j < |table| ==>
              r[j] == var i := Overrider(table, methods, j, canAccess); if i < |methods| then methods[i] else table[j]
  {
    seq(|table|, j requires 0 <= j < |table| =>
      var i := Overrider(table, methods, j, canAccess); if i < |methods| then methods[i] else table[j])
  }

  // The methods that override nothing, in the order they are declared.
  function Added(table: seq<ArtMethod>, methods: seq<ArtMethod>, canAccess: ArtMethod -> bool): seq<ArtMethod> {
    if methods == [] then []
    else
      var last := methods[|methods| - 1];
      Added(table, methods[..|methods| - 1], canAccess) +
      if OverriddenSlot(table, last, canAccess) == |table| then [last] else []
  }

  function VTable(table: seq<ArtMethod>, methods: seq<ArtMethod>, canAccess: ArtMethod -> bool): seq<ArtMethod> {
    Replaced(table, methods, canAccess) + Added(table, methods, canAccess)
  }

  // Some method overrides a final method.
  ghost predicate OverridesFinal(table: seq<ArtMethod>, methods: seq<ArtMethod>, canAccess: ArtMethod -> bool) {
    exists m :: m in methods &&
      var j := OverriddenSlot(table, m, canAccess); j < |table| && table[j].isFinal
  }

  lemma {:induction false} AddedFacts(table: seq<ArtMethod>, methods: seq<ArtMethod>, canAccess: ArtMethod -> bool,
                                      m: ArtMethod)
    ensures m in Added(table, methods, canAccess) <==> m in methods && OverriddenSlot(table, m, canAccess) == |table|
    ensures |Added(table, methods, canAccess)| <= |methods|
  {
    if methods != [] {
      AddedFacts(table, methods[..|methods| - 1], canAccess, m);
      assert methods == methods[..|methods| - 1] + [methods[|methods| - 1]];
    }
  }

  /** An inherited slot keeps its name and signature; its method changes only to a declared method that
      may access what it replaces. */
  lemma SlotsKeepSignatures(table: seq<ArtMethod>, methods: seq<ArtMethod>, canAccess: ArtMethod -> bool, j: nat)
    requires j < |table|
    ensures |VTable(table, methods, canAccess)| >= |table|
    ensures var m := VTable(table, methods, canAccess)[j];
            m.signature == table[j].signature && (m == table[j] || (m in methods && canAccess(table[j])))
  {
    var i := Overrider(table, methods, j, canAccess);
    if i < |methods| { assert methods[i] in methods; }
  }

  /** Unless the link fails, no final method is displaced. */
  lemma FinalMethodsStay(table: seq<ArtMethod>, methods: seq<ArtMethod>, canAccess: ArtMethod -> bool, j: nat)
    requires j < |table| && table[j].isFinal && !OverridesFinal(table, methods, canAccess)
    ensures VTable(table, methods, canAccess)[j] == table[j]
  {
    hide Added;
    forall m | m in methods ensures OverriddenSlot(table, m, canAccess) != j {
    }
  }

  // Where a declared method ends up: its overridden slot, or after the inherited ones.
  ghost predicate OnlyIn(vtable: seq<ArtMethod>, m: ArtMethod, at: nat) {
    at < |vtable| && vtable[at] == m && forall j :: 0 <= j < |vtable| && vtable[j] == m ==> j == at
  }

  lemma {:induction false} AddedPlace(table: seq<ArtMethod>, methods: seq<ArtMethod>, canAccess: ArtMethod -> bool,
                                      m: ArtMethod)
    returns (at: nat)
    requires DistinctSignatures(methods) && m in methods && OverriddenSlot(table, m, canAccess) == |table|
    ensures OnlyIn(Added(table, methods, canAccess), m, at)
  {
    var n := |methods| - 1;
    var before := methods[..n];
    if m == methods[n] {
      at := |Added(table, before, canAccess)|;
      assert m !in before;
      AddedFacts(table, before, canAccess, m);
    } else {
      assert m in before;
      at := AddedPlace(table, before, canAccess, m);
    }
  }

  lemma ReplacedPlace(table: seq<ArtMethod>, methods: seq<ArtMethod>, canAccess: ArtMethod -> bool, m: ArtMethod,
                      j: nat)
    requires DistinctSignatures(methods) && m in methods && m !in table && j < |table|
    ensures Replaced(table, methods, canAccess)[j] == m <==> j == OverriddenSlot(table, m, canAccess)
  {
    hide OverriddenSlot;
    var i :| 0 <= i < |methods| && methods[i] == m;
    var k := Overrider(table, methods, j, canAccess);
    assert k < i ==> methods[k].signature != m.signature;
    if k < |methods| { SlotSignature(table, methods[k], canAccess); }
    SlotSignature(table, m, canAccess);
  }

  lemma SlotSignature(table: seq<ArtMethod>, m: ArtMethod, canAccess: ArtMethod -> bool)
    ensures OverriddenSlot(table, m, canAccess) <= |table|
    ensures OverriddenSlot(table, m, canAccess) < |table| ==>
              table[OverriddenSlot(table, m, canAccess)].signature == m.signature
  {
  }

  /** Every declared virtual method occupies exactly one slot of the table. */
  lemma EachMethodHasOneSlot(table: seq<ArtMethod>, methods: seq<ArtMethod>, canAccess: ArtMethod -> bool, m: ArtMethod)
    returns (at: nat)
    requires DistinctSignatures(methods) && m in methods && m !in table
    ensures OnlyIn(VTable(table, methods, canAccess), m, at)
    ensures at == OverriddenSlot(table, m, canAccess) || at >= |table| == OverriddenSlot(table, m, canAccess)
  {
    hide Added, Overrider, DistinctSignatures;
    var slot := OverriddenSlot(table, m, canAccess);
    forall j | 0 <= j < |table| ensures Replaced(table, methods, canAccess)[j] == m <==> j == slot {
      ReplacedPlace(table, methods, canAccess, m, j);
    }
    AddedFacts(table, methods, canAccess, m);
    at := slot;
    if slot == |table| {
      at := AddedPlace(table, methods, canAccess, m);
      at := |table| + at;
    }
  }

  // ---- linking the virtual methods -----------------------------------------------------------------

  // The slot number, in the width the source stores it.
  ghost predicate Indexed(vtable: seq<ArtMethod>)
    reads vtable
  {
    forall j :: 0 <= j < |vtable| ==> vtable[j].methodIndex == j % INDEX_LIMIT
  }

  // The table as it stands is searched; what it shows is what the superclass's table shows.
  lemma NextOverride(table: seq<ArtMethod>, methods: seq<ArtMethod>, i: nat, canAccess: ArtMethod -> bool, j: nat)
    requires DistinctSignatures(methods) && i < |methods|
    requires j < |VTable(table, methods[..i], canAccess)|
    ensures var t := VTable(table, methods[..i], canAccess);
            t[j].signature == methods[i].signature ==> j < |table| && t[j] == table[j]
    ensures j < |table| ==> VTable(table, methods[..i], canAccess)[j].signature == table[j].signature
  {
    hide OverriddenSlot, Added;
    var before := methods[..i];
    if j < |table| {
      var k := Overrider(table, before, j, canAccess);
      if k < |before| { SlotSignature(table, before[k], canAccess); }
      assert k < |before| ==> methods[k].signature != methods[i].signature;
    } else {
      var m := Added(table, before, canAccess)[j - |table|];
      AddedFacts(table, before, canAccess, m);
      var k :| 0 <= k < |before| && before[k] == m;
      assert methods[k].signature != methods[i].signature;
    }
  }

  lemma ReplacedGrowsAt(table: seq<ArtMethod>, methods: seq<ArtMethod>, i: nat, canAccess: ArtMethod -> bool, j: nat)
    requires DistinctSignatures(methods) && i < |methods| && j < |table|
    ensures var r, r' := Replaced(table, methods[..i], canAccess), Replaced(table, methods[..i + 1], canAccess);
            && |r| == |r'| == |table|
            && r'[j] == if j == OverriddenSlot(table, methods[i], canAccess) then methods[i] else r[j]
  {
    hide OverriddenSlot;
    OverriderGrows(table, methods, i, canAccess, j);
  }

  lemma OverridersGrow(table: seq<ArtMethod>, methods: seq<ArtMethod>, i: nat, canAccess: ArtMethod -> bool)
    requires DistinctSignatures(methods) && i < |methods|
    ensures var s := OverriddenSlot(table, methods[i], canAccess);
            && |Replaced(table, methods[..i], canAccess)| == |table|
            && Replaced(table, methods[..i + 1], canAccess) ==
               if s < |table| then Replaced(table, methods[..i], canAccess)[s := methods[i]]
               else Replaced(table, methods[..i], canAccess)
  {
    hide OverriddenSlot, Replaced, Overrider, DistinctSignatures;
    var s := OverriddenSlot(table, methods[i], canAccess);
    var r, r' := Replaced(table, methods[..i], canAccess), Replaced(table, methods[..i + 1], canAccess);
    SlotSignature(table, methods[i], canAccess);
    ReplacedLength(table, methods[..i], canAccess);
    ReplacedLength(table, methods[..i + 1], canAccess);
    forall j | 0 <= j < |table| ensures r'[j] == if j == s then methods[i] else r[j] {
      ReplacedGrowsAt(table, methods, i, canAccess, j);
    }
  }

  lemma OverriderGrows(table: seq<ArtMethod>, methods: seq<ArtMethod>, i: nat, canAccess: ArtMethod -> bool, j: nat)
    requires DistinctSignatures(methods) && i < |methods| && j < |table|
    ensures var a, b := Overrider(table, methods[..i], j, canAccess), Overrider(table, methods[..i + 1], j, canAccess);
            if OverriddenSlot(table, methods[i], canAccess) == j then b == i else if a < i then b == a else b == i + 1
  {
    hide OverriddenSlot;
    var before, after := methods[..i], methods[..i + 1];
    var a, b := Overrider(table, before, j, canAccess), Overrider(table, after, j, canAccess);
    assert forall k :: 0 <= k < i ==> before[k] == after[k] == methods[k];
    assert after[i] == methods[i];
    if OverriddenSlot(table, methods[i], canAccess) == j {
      SlotSignature(table, methods[i], canAccess);
      forall k | 0 <= k < i ensures OverriddenSlot(table, methods[k], canAccess) != j {
        SlotSignature(table, methods[k], canAccess);
        assert methods[k].signature != methods[i].signature;
      }
    }
  }

  // One method linked: its slot is replaced, or it is appended.
  lemma VTableGrows(table: seq<ArtMethod>, methods: seq<ArtMethod>, i: nat, canAccess: ArtMethod -> bool)
    requires DistinctSignatures(methods) && i < |methods|
    ensures var s, t := OverriddenSlot(table, methods[i], canAccess), VTable(table, methods[..i], canAccess);
            && |t| >= |table|
            && VTable(table, methods[..i + 1], canAccess) ==
                 if s < |table| then t[s := methods[i]] else t + [methods[i]]
  {
    hide Replaced, OverriddenSlot;
    OverridersGrow(table, methods, i, canAccess);
    SlotSignature(table, methods[i], canAccess);
    ReplacedLength(table, methods[..i], canAccess);
    assert methods[..i + 1][..i] == methods[..i];
  }

  lemma ReplacedLength(table: seq<ArtMethod>, methods: seq<ArtMethod>, canAccess: ArtMethod -> bool)
    ensures |Replaced(table, methods, canAccess)| == |table|
  {
  }

  // `SetMethodIndex` takes 16 bits.
  method SetMethodIndex(m: ArtMethod, index: nat)
    modifies m`methodIndex
    ensures m.methodIndex == index % INDEX_LIMIT
  {
    m.methodIndex := index % INDEX_LIMIT;
  }

  // The inner loop: the first slot of the table under construction that the method overrides.
  method FindOverridden(vtable: seq<ArtMethod>, m: ArtMethod, canAccess: ArtMethod -> bool) returns (j: nat)
    ensures j == OverriddenSlot(vtable, m, canAccess)
  {
    j := 0;
    while j < |vtable| && !(vtable[j].signature == m.signature && canAccess(vtable[j]))
      invariant j <= |vtable|
      invariant forall k :: 0 <= k < j ==> !(vtable[k].signature == m.signature && canAccess(vtable[k]))
    {
      j := j + 1;
    }
  }

  // Searching the table under construction finds what searching the superclass's table would find.
  lemma SameOverride(table: seq<ArtMethod>, methods: seq<ArtMethod>, i: nat, canAccess: ArtMethod -> bool)
    requires DistinctSignatures(methods) && i < |methods|
    ensures var s, t := OverriddenSlot(table, methods[i], canAccess), VTable(table, methods[..i], canAccess);
            && |t| >= |table|
            && OverriddenSlot(t, methods[i], canAccess) == (if s < |table| then s else |t|)
            && (s < |table| ==> t[s] == table[s])
            && (methods[i] !in table ==> methods[i] !in t)
  {
    hide VTable;
    var s, t := OverriddenSlot(table, methods[i], canAccess), VTable(table, methods[..i], canAccess);
    VTableGrows(table, methods, i, canAccess);
    forall j | 0 <= j < |t|
      ensures t[j].signature == methods[i].signature ==> j < |table| && t[j] == table[j]
      ensures j < |table| ==> t[j].signature == table[j].signature
    {
      NextOverride(table, methods, i, canAccess, j);
    }
  }

  /** `LinkVirtualMethods`: `superTable` is the superclass's table, `locals` are the virtual methods the
      class declares. It fails exactly when a final method is overridden or the table needs more than
      65535 slots; otherwise the method in slot j of the table has index j. */
  method LinkVirtualMethods(superTable: seq<ArtMethod>, locals: seq<ArtMethod>, canAccess: ArtMethod -> bool)
    returns (ok: bool, vtable: seq<ArtMethod>)
    requires DistinctSignatures(locals) && (forall m :: m in locals ==> m !in superTable)
    requires Indexed(superTable)
    modifies locals
    ensures ok <==>
              !OverridesFinal(superTable, locals, canAccess) && |VTable(superTable, locals, canAccess)| < INDEX_LIMIT
    ensures ok ==> vtable == VTable(superTable, locals, canAccess) && Indexed(vtable)
    ensures Indexed(superTable) && forall m :: m in locals ==> m.isMiranda == old(m.isMiranda)
  {
    hide VTable, OverriddenSlot, DistinctSignatures;
    vtable := superTable;
    StartsWithSuper(superTable, canAccess);
    assert locals[..0] == [];
    for i := 0 to |locals|
      invariant vtable == VTable(superTable, locals[..i], canAccess) && Indexed(vtable) && Indexed(superTable)
      invariant !OverridesFinal(superTable, locals[..i], canAccess)
      invariant forall m :: m in locals ==> m.isMiranda == old(m.isMiranda)
    {
      VTableGrows(superTable, locals, i, canAccess);
      SameOverride(superTable, locals, i, canAccess);
      var j := FindOverridden(vtable, locals[i], canAccess);
      if j < |vtable| {
        if vtable[j].isFinal {
          return false, vtable;
        }
        vtable := vtable[j := locals[i]];
      } else {
        vtable := vtable + [locals[i]];
      }
      SetMethodIndex(locals[i], j);
      assert locals[i] !in superTable;
    }
    assert locals[..|locals|] == locals;
    ok := |vtable| < INDEX_LIMIT;
  }

  lemma StartsWithSuper(table: seq<ArtMethod>, canAccess: ArtMethod -> bool)
    ensures VTable(table, [], canAccess) == table
  {
  }
}
