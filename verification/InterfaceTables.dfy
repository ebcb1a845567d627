/** Interface tables: `ClassLinker::LinkInterfaceMethods`. */
module InterfaceTables {
  import opened Sequences
  import opened MethodTables

  datatype IfEntry = IfEntry(iface: Klass, methods: seq<ArtMethod>)

  class Klass {
    const superClass: Klass?
    const isInterface: bool
    const directInterfaces: seq<Klass>
    const linkOrder: nat            // classes are linked after what they extend and implement
    var virtualMethods: seq<ArtMethod>
    var vtable: seq<ArtMethod>
    var iftable: seq<IfEntry>

    constructor (superClass: Klass?, isInterface: bool, directInterfaces: seq<Klass>, linkOrder: nat,
                 virtualMethods: seq<ArtMethod>)
      ensures this.superClass == superClass && this.isInterface == isInterface
      ensures this.directInterfaces == directInterfaces && this.linkOrder == linkOrder
      ensures this.virtualMethods == virtualMethods && vtable == [] && iftable == []
    {
      this.superClass, this.isInterface, this.directInterfaces := superClass, isInterface, directInterfaces;
      this.linkOrder, this.virtualMethods, vtable, iftable := linkOrder, virtualMethods, [], [];
    }
  }

  // ---- which interfaces a class has ----------------------------------------------------------------

  /** The interfaces of a class: those of its superclass, its direct ones, and theirs. Only links to
      classes linked earlier count, which for a class being linked is all of them. */
  ghost function AllInterfaces(k: Klass): set<Klass>
    decreases k.linkOrder
  {
    (if k.superClass != null && k.superClass.linkOrder < k.linkOrder then AllInterfaces(k.superClass) else {}) +
    (set d | d in k.directInterfaces && d.linkOrder < k.linkOrder) +
    (set d, x | d in k.directInterfaces && d.linkOrder < k.linkOrder && x in AllInterfaces(d) :: x)
  }

  // The interfaces of an interface of a class are interfaces of the class.
  lemma {:induction false} InterfacesAreClosed(k: Klass, x: Klass, y: Klass)
    requires x in AllInterfaces(k) && y in AllInterfaces(x)
    ensures y in AllInterfaces(k)
    decreases k.linkOrder
  {
    if k.superClass != null && k.superClass.linkOrder < k.linkOrder && x in AllInterfaces(k.superClass) {
      InterfacesAreClosed(k.superClass, x, y);
    } else if !(x in k.directInterfaces && x.linkOrder < k.linkOrder) {
      var d :| d in k.directInterfaces && d.linkOrder < k.linkOrder && x in AllInterfaces(d);
      InterfacesAreClosed(d, x, y);
    }
  }

  ghost predicate Ordered(k: Klass) {
    && (k.superClass != null ==> k.superClass.linkOrder < k.linkOrder)
    && forall d :: d in k.directInterfaces ==> d.linkOrder < k.linkOrder
  }

  function Interfaces(table: seq<IfEntry>): (ifaces: seq<Klass>)
    ensures |ifaces| == |table| && forall i :: 0 <= i < |table| ==> ifaces[i] == table[i].iface
  {
    seq(|table|, i requires 0 <= i < |table| => table[i].iface)
  }

  ghost function Members<T>(s: seq<T>): set<T> { set x | x in s }

  // The table lists the class's interfaces, each once.
  ghost predicate TableOk(k: Klass)
    reads k
  {
    Distinct(Interfaces(k.iftable)) && Members(Interfaces(k.iftable)) == AllInterfaces(k)
  }

  // ---- flattening ------------------------------------------------------------------------------------

  // Appends those not listed yet.
  function AddAll(table: seq<Klass>, more: seq<Klass>): seq<Klass> {
    if more == [] then table
    else
      var t := AddAll(table, more[..|more| - 1]);
      if more[|more| - 1] in t then t else t + [more[|more| - 1]]
  }

  lemma {:induction false} AddAllFacts(table: seq<Klass>, more: seq<Klass>)
    requires Distinct(table)
    ensures Distinct(AddAll(table, more)) && table <= AddAll(table, more)
    ensures forall x :: x in AddAll(table, more) <==> x in table || x in more
  {
    if more != [] {
      AddAllFacts(table, more[..|more| - 1]);
      assert more == more[..|more| - 1] + [more[|more| - 1]];
    }
  }

  function SuperInterfaces(k: Klass): seq<Klass>
    reads k
  {
    Interfaces(k.iftable)
  }

  // The superclass's interfaces, then each direct one followed by its own.
  function Flatten(table: seq<Klass>, direct: seq<Klass>): seq<Klass>
    reads direct
  {
    if direct == [] then table
    else
      var t, d := Flatten(table, direct[..|direct| - 1]), direct[|direct| - 1];
      if d in t then t else AddAll(t + [d], SuperInterfaces(d))
  }

  // The given interfaces and theirs.
  ghost function Reach(direct: seq<Klass>): set<Klass> {
    (set d | d in direct) + (set d, x | d in direct && x in AllInterfaces(d) :: x)
  }

  // Closed as sets of interfaces of classes are.
  ghost predicate Closed(inherited: set<Klass>) {
    forall x :: x in inherited ==> AllInterfaces(x) <= inherited
  }

  lemma ReachIsClosed(direct: seq<Klass>, x: Klass)
    requires x in Reach(direct)
    ensures AllInterfaces(x) <= Reach(direct)
  {
    if x !in direct {
      var d :| d in direct && x in AllInterfaces(d);
      forall y | y in AllInterfaces(x) ensures y in Reach(direct) { InterfacesAreClosed(d, x, y); }
    }
  }

  lemma ReachOneMore(direct: seq<Klass>, d: Klass)
    ensures Reach(direct + [d]) == Reach(direct) + {d} + AllInterfaces(d)
  {
    hide AllInterfaces;
    assert forall e :: e in direct + [d] <==> e in direct || e == d;
  }

  // One round of the flattening loop.
  lemma FlattenOneMore(t: seq<Klass>, inherited: set<Klass>, direct: seq<Klass>, d: Klass)
    requires Members(t) == inherited + Reach(direct) && Closed(inherited) && Distinct(t)
    requires Distinct(SuperInterfaces(d)) && Members(SuperInterfaces(d)) == AllInterfaces(d)
    ensures var t' := if d in t then t else AddAll(t + [d], SuperInterfaces(d));
            Distinct(t') && t <= t' && Members(t') == inherited + Reach(direct + [d])
  {
    hide AllInterfaces, Reach;
    ReachOneMore(direct, d);
    if d in t {
      assert d in Members(t);
      if d in Reach(direct) { ReachIsClosed(direct, d); }
    } else {
      AddAllFacts(t + [d], SuperInterfaces(d));
      var t' := AddAll(t + [d], SuperInterfaces(d));
      assert t <= t + [d] <= t';
      forall x | x in Members(t') ensures x in Members(t) || x == d || x in AllInterfaces(d) {
        assert x in t + [d] || x in Members(SuperInterfaces(d));
      }
      forall x | x in Members(t) || x == d || x in AllInterfaces(d) ensures x in Members(t') {
        if x in AllInterfaces(d) { assert x in Members(SuperInterfaces(d)); }
      }
    }
  }

  ghost predicate TablesOk(direct: seq<Klass>)
    reads direct
  {
    forall d :: d in direct ==> TableOk(d)
  }

  lemma {:induction false} FlattenFacts(table: seq<Klass>, inherited: set<Klass>, direct: seq<Klass>)
    requires Distinct(table) && Members(table) == inherited && Closed(inherited) && TablesOk(direct)
    ensures Distinct(Flatten(table, direct)) && table <= Flatten(table, direct)
    ensures Members(Flatten(table, direct)) == inherited + Reach(direct)
  {
    hide AllInterfaces, Reach, AddAll, Closed;
    if direct == [] {
      assert Reach([]) == {} by { ReachNothing(); }
    } else {
      var n := |direct| - 1;
      FlattenFacts(table, inherited, direct[..n]);
      assert TableOk(direct[n]);
      FlattenOneMore(Flatten(table, direct[..n]), inherited, direct[..n], direct[n]);
      assert direct == direct[..n] + [direct[n]];
    }
  }

  lemma ReachNothing()
    ensures Reach([]) == {}
  {
  }

  ghost function Inherited(k: Klass): set<Klass> {
    if k.superClass != null && k.superClass.linkOrder < k.linkOrder then AllInterfaces(k.superClass) else {}
  }

  lemma InheritedIsClosed(k: Klass)
    ensures Closed(Inherited(k))
  {
    forall x, y | x in Inherited(k) && y in AllInterfaces(x) ensures y in Inherited(k) {
      InterfacesAreClosed(k.superClass, x, y);
    }
  }

  function SuperTable(k: Klass): seq<Klass>
    reads k, k.superClass
  {
    if k.superClass == null then [] else Interfaces(k.superClass.iftable)
  }

  /** The flattened table keeps the superclass's table as a prefix, lists no interface twice, and lists
      exactly the interfaces of the class. */
  lemma FlattenedTable(k: Klass)
    requires Ordered(k) && (k.superClass != null ==> TableOk(k.superClass)) && TablesOk(k.directInterfaces)
    ensures var t := Flatten(SuperTable(k), k.directInterfaces);
            Distinct(t) && SuperTable(k) <= t && Members(t) == AllInterfaces(k)
  {
    hide Reach, AddAll, Closed, Flatten;
    InheritedIsClosed(k);
    FlattenFacts(SuperTable(k), Inherited(k), k.directInterfaces);
    assert AllInterfaces(k) == Inherited(k) + Reach(k.directInterfaces) by { InterfacesSplit(k); }
  }

  lemma InterfacesSplit(k: Klass)
    requires Ordered(k)
    ensures AllInterfaces(k) == Inherited(k) + Reach(k.directInterfaces)
  {
  }

  /** Flattening the interface hierarchy; fails on a class that is not an interface. */
  method FlattenInterfaces(k: Klass) returns (ok: bool, iftable: seq<Klass>)
    ensures ok <==> forall d :: d in k.directInterfaces ==> d.isInterface
    ensures ok ==> iftable == Flatten(SuperTable(k), k.directInterfaces)
  {
    iftable := SuperTable(k);
    assert k.directInterfaces[..0] == [];
    for i := 0 to |k.directInterfaces|
      invariant iftable == Flatten(SuperTable(k), k.directInterfaces[..i])
      invariant forall d :: d in k.directInterfaces[..i] ==> d.isInterface
    {
      var d := k.directInterfaces[i];
      assert k.directInterfaces[..i + 1] == k.directInterfaces[..i] + [d];
      if !d.isInterface {
        return false, iftable;
      }
      if d !in iftable {
        iftable := iftable + [d];
        ghost var before := iftable;
        var supers := SuperInterfaces(d);
        assert supers[..0] == [];
        for j := 0 to |supers|
          invariant iftable == AddAll(before, supers[..j])
        {
          assert supers[..j + 1][..j] == supers[..j];
          if supers[j] !in iftable {
            iftable := iftable + [supers[j]];
          }
        }
        assert supers[..|supers|] == supers;
      }
    }
    assert k.directInterfaces[..|k.directInterfaces|] == k.directInterfaces;
    ok := true;
  }

  // ---- finding the implementations ---------------------------------------------------------------------

  // The last of the first n slots with the signature, or -1.
  function LastSlot(vtable: seq<ArtMethod>, signature: Signature, n: nat): (k: int)
    requires n <= |vtable|
    ensures -1 <= k < n && (k >= 0 ==> vtable[k].signature == signature)
    ensures forall j :: k < j < n ==> vtable[j].signature != signature
  {
    if n == 0 then -1 else if vtable[n - 1].signature == signature then n - 1 else LastSlot(vtable, signature, n - 1)
  }

  function Implementation(vtable: seq<ArtMethod>, m: ArtMethod): int { LastSlot(vtable, m.signature, |vtable|) }

  // The implementation may not be called through the interface.
  predicate Blocked(vtable: seq<ArtMethod>, m: ArtMethod) {
    var k := Implementation(vtable, m);
    k >= 0 && !vtable[k].isAbstract && !vtable[k].isPublic
  }

  // The entry for an interface method: its implementation, or a miranda method standing for it.
  ghost predicate EntryOk(vtable: seq<ArtMethod>, mirandas: seq<ArtMethod>, m: ArtMethod, entry: ArtMethod) {
    && entry.signature == m.signature && !Blocked(vtable, m)
    && var k := Implementation(vtable, m); if k >= 0 then entry == vtable[k] else entry in mirandas
  }

  // No two mirandas share a signature, and none has that of a method in the table.
  ghost predicate MirandasOk(vtable: seq<ArtMethod>, mirandas: seq<ArtMethod>) {
    DistinctSignatures(mirandas) && forall m :: m in mirandas ==> Implementation(vtable, m) < 0
  }

  ghost predicate RowOk(vtable: seq<ArtMethod>, mirandas: seq<ArtMethod>, methods: seq<ArtMethod>, row: seq<ArtMethod>)
  {
    |row| == |methods| && forall j :: 0 <= j < |row| ==> EntryOk(vtable, mirandas, methods[j], row[j])
  }

  lemma RowStaysOk(vtable: seq<ArtMethod>, mirandas: seq<ArtMethod>, more: seq<ArtMethod>, methods: seq<ArtMethod>,
                   row: seq<ArtMethod>)
    requires RowOk(vtable, mirandas, methods, row) && mirandas <= more
    ensures RowOk(vtable, more, methods, row)
  {
  }

  method FindImplementation(vtable: seq<ArtMethod>, m: ArtMethod) returns (k: int)
    ensures k == Implementation(vtable, m)
  {
    k := |vtable| - 1;
    while k >= 0 && vtable[k].signature != m.signature
      invariant -1 <= k < |vtable|
      invariant forall j :: k < j < |vtable| ==> vtable[j].signature != m.signature
    {
      k := k - 1;
    }
  }

  /** The miranda is a copy of the interface method: nothing about it is its own but its place. */
  ghost predicate IsCloneOf(x: ArtMethod, m: ArtMethod) {
    && x.signature == m.signature && x.isFinal == m.isFinal
    && x.isPublic == m.isPublic && x.isAbstract == m.isAbstract
  }

  // The entry for one interface method, with a new miranda if none stands for it yet.
  method ResolveMethod(vtable: seq<ArtMethod>, m: ArtMethod, mirandas: seq<ArtMethod>)
    returns (ok: bool, entry: ArtMethod, more: seq<ArtMethod>)
    requires MirandasOk(vtable, mirandas)
    ensures ok == !Blocked(vtable, m) && MirandasOk(vtable, more) && mirandas <= more
    ensures ok ==> EntryOk(vtable, more, m, entry)
    ensures more == mirandas || (more == mirandas + [entry] && fresh(entry) && IsCloneOf(entry, m))
  {
    var k := FindImplementation(vtable, m);
    more := mirandas;
    if k >= 0 {
      entry, ok := vtable[k], vtable[k].isAbstract || vtable[k].isPublic;
      return;
    }
    ok := true;
    for mir := 0 to |mirandas|
      invariant forall j :: 0 <= j < mir ==> mirandas[j].signature != m.signature
    {
      if mirandas[mir].signature == m.signature {
        entry := mirandas[mir];
        return;
      }
    }
    entry := new ArtMethod(m.signature, m.isFinal, m.isPublic, m.isAbstract);
    more := mirandas + [entry];
  }

  // The method array of one interface.
  method ResolveInterface(vtable: seq<ArtMethod>, methods: seq<ArtMethod>, mirandas: seq<ArtMethod>)
    returns (ok: bool, row: seq<ArtMethod>, more: seq<ArtMethod>)
    requires MirandasOk(vtable, mirandas)
    ensures ok <==> forall m :: m in methods ==> !Blocked(vtable, m)
    ensures MirandasOk(vtable, more) && mirandas <= more
    ensures ok ==> RowOk(vtable, more, methods, row)
    ensures forall x :: x in more ==>
            x in mirandas || (fresh(x) && exists m :: m in methods && IsCloneOf(x, m))
  {
    hide Blocked, MirandasOk, IsCloneOf;
    row, more := [], mirandas;
    for j := 0 to |methods|
      invariant MirandasOk(vtable, more) && mirandas <= more
      invariant forall m :: m in methods[..j] ==> !Blocked(vtable, m)
      invariant RowOk(vtable, more, methods[..j], row)
      invariant forall x :: x in more ==>
                x in mirandas || (fresh(x) && exists m :: m in methods && IsCloneOf(x, m))
    {
      ghost var before := more;
      var entry;
      assert methods[j] in methods;
      ok, entry, more := ResolveMethod(vtable, methods[j], more);
      if !ok {
        return;
      }
      RowStaysOk(vtable, before, more, methods[..j], row);
      assert methods[..j + 1] == methods[..j] + [methods[j]];
      row := row + [entry];
    }
    assert methods[..|methods|] == methods;
    ok := true;
  }

  // ---- linking the interface methods ---------------------------------------------------------------------

  // Method arrays are as long as the interfaces' method lists.
  ghost predicate Sized(table: seq<IfEntry>)
    reads Interfaces(table)
  {
    forall i :: 0 <= i < |table| ==> |table[i].methods| == |Interfaces(table)[i].virtualMethods|
  }

  ghost predicate RowsOk(table: seq<IfEntry>, vtable: seq<ArtMethod>, mirandas: seq<ArtMethod>)
    reads Interfaces(table)
  {
    forall i :: 0 <= i < |table| ==> RowOk(vtable, mirandas, Interfaces(table)[i].virtualMethods, table[i].methods)
  }

  ghost predicate NothingBlocked(ifaces: seq<Klass>, vtable: seq<ArtMethod>)
    reads ifaces
  {
    forall x :: x in ifaces ==> forall m :: m in x.virtualMethods ==> !Blocked(vtable, m)
  }

  // Each miranda is a copy of a method of some interface.
  ghost predicate Needed(mirandas: seq<ArtMethod>, ifaces: seq<Klass>)
    reads ifaces
  {
    forall x :: x in mirandas ==>
        exists f :: f in ifaces && exists m :: m in f.virtualMethods && IsCloneOf(x, m)
  }

  // The method arrays of all interfaces.
  method ResolveInterfaces(ifaces: seq<Klass>, vtable: seq<ArtMethod>)
    returns (ok: bool, table: seq<IfEntry>, mirandas: seq<ArtMethod>)
    ensures ok <==> NothingBlocked(ifaces, vtable)
    ensures ok ==> Interfaces(table) == ifaces && RowsOk(table, vtable, mirandas)
    ensures MirandasOk(vtable, mirandas) && Needed(mirandas, ifaces) && forall x :: x in mirandas ==> fresh(x)
  {
    hide Blocked, MirandasOk, RowOk, IsCloneOf;
    table, mirandas := [], [];
    NoMirandas(vtable);
    for i := 0 to |ifaces|
      invariant MirandasOk(vtable, mirandas) && Needed(mirandas, ifaces) && forall x :: x in mirandas ==> fresh(x)
      invariant NothingBlocked(ifaces[..i], vtable)
      invariant Interfaces(table) == ifaces[..i] && RowsOk(table, vtable, mirandas)
    {
      ghost var before := mirandas;
      var row;
      assert ifaces[i] in ifaces;
      ok, row, mirandas := ResolveInterface(vtable, ifaces[i].virtualMethods, mirandas);
      if !ok {
        return;
      }
      RowsStayOk(table, vtable, before, mirandas);
      assert ifaces[..i + 1] == ifaces[..i] + [ifaces[i]];
      table := table + [IfEntry(ifaces[i], row)];
    }
    assert ifaces[..|ifaces|] == ifaces;
    ok := true;
  }

  lemma NoMirandas(vtable: seq<ArtMethod>)
    ensures MirandasOk(vtable, [])
  {
  }

  lemma RowsStayOk(table: seq<IfEntry>, vtable: seq<ArtMethod>, mirandas: seq<ArtMethod>, more: seq<ArtMethod>)
    requires RowsOk(table, vtable, mirandas) && mirandas <= more
    ensures RowsOk(table, vtable, more)
  {
    hide RowOk;
    forall i | 0 <= i < |table|
      ensures RowOk(vtable, more, Interfaces(table)[i].virtualMethods, table[i].methods)
    {
      RowStaysOk(vtable, mirandas, more, Interfaces(table)[i].virtualMethods, table[i].methods);
    }
  }

  // Appends the mirandas to the class's methods and to its table.
  method AppendMirandas(k: Klass, mirandas: seq<ArtMethod>)
    requires Indexed(k.vtable) && DistinctSignatures(mirandas) && forall m :: m in mirandas ==> m !in k.vtable
    modifies k, set m | m in mirandas
    ensures k.virtualMethods == old(k.virtualMethods) + mirandas && k.vtable == old(k.vtable) + mirandas
    ensures k.iftable == old(k.iftable)
    ensures Indexed(k.vtable) && forall m :: m in mirandas ==> m.isMiranda
  {
    var oldVtableCount := |k.vtable|;
    for i := 0 to |mirandas|
      invariant k.virtualMethods == old(k.virtualMethods) + mirandas[..i] && k.vtable == old(k.vtable) + mirandas[..i]
      invariant k.iftable == old(k.iftable)
      invariant Indexed(k.vtable) && forall j :: 0 <= j < i ==> mirandas[j].isMiranda
    {
      assert mirandas[i] in mirandas && mirandas[i] !in k.vtable;
      mirandas[i].isMiranda := true;
      SetMethodIndex(mirandas[i], oldVtableCount + i);
      k.virtualMethods := k.virtualMethods + [mirandas[i]];
      k.vtable := k.vtable + [mirandas[i]];
    }
  }

  lemma {:induction false} InterfacesAreOlder(k: Klass, x: Klass)
    requires x in AllInterfaces(k)
    ensures x.linkOrder < k.linkOrder
    decreases k.linkOrder
  {
    if k.superClass != null && k.superClass.linkOrder < k.linkOrder && x in AllInterfaces(k.superClass) {
      InterfacesAreOlder(k.superClass, x);
    } else if !(x in k.directInterfaces && x.linkOrder < k.linkOrder) {
      var d :| d in k.directInterfaces && d.linkOrder < k.linkOrder && x in AllInterfaces(d);
      InterfacesAreOlder(d, x);
    }
  }

  /** `LinkInterfaceMethods`. It fails exactly when the class implements something that is not an
      interface, or an interface method's implementation is neither abstract nor public. Otherwise the
      table lists the class's interfaces, each once and the inherited ones first, and for a class that
      is not an interface every method of every interface has its entry. */
  method LinkInterfaceMethods(k: Klass) returns (ok: bool, ghost mirandas: seq<ArtMethod>)
    requires Ordered(k) && k.iftable == [] && Indexed(k.vtable) && TablesOk(k.directInterfaces)
    requires k.superClass != null ==> TableOk(k.superClass) && Sized(k.superClass.iftable)
    modifies k
    ensures ok <==> (forall d :: d in k.directInterfaces ==> d.isInterface) &&
                    (k.isInterface || old(NothingBlocked(Flatten(SuperTable(k), k.directInterfaces), k.vtable)))
    ensures ok ==> TableOk(k) && SuperTable(k) <= Interfaces(k.iftable)
    ensures ok && !k.isInterface ==>
              && k.vtable == old(k.vtable) + mirandas && k.virtualMethods == old(k.virtualMethods) + mirandas
              && Indexed(k.vtable) && MirandasOk(old(k.vtable), mirandas) && Needed(mirandas, Interfaces(k.iftable))
              && RowsOk(k.iftable, old(k.vtable), mirandas)
              && forall m :: m in mirandas ==> m.isMiranda && fresh(m)
    ensures ok && k.isInterface ==> k.vtable == old(k.vtable) && k.virtualMethods == old(k.virtualMethods)
  {
    hide Blocked, MirandasOk, RowOk, AllInterfaces, Flatten, RowsOk, Needed, Indexed;
    mirandas := [];
    NoMirandas(k.vtable);
    if |k.directInterfaces| == 0 && (k.superClass == null || k.superClass.iftable == []) {
      NoInterfaces(k);
      return true, [];
    }
    if |k.directInterfaces| == 0 && forall e :: e in k.superClass.iftable ==> e.methods == [] {
      MarkersOnly(k);
      k.iftable := k.superClass.iftable;
      return true, [];
    }
    var ifaces;
    ok, ifaces := FlattenInterfaces(k);
    if !ok {
      return;
    }
    FlattenedTable(k);
    OthersAreOlder(k);
    if k.isInterface {
      k.iftable := Bare(ifaces);
      return;
    }
    var table, stubs;
    ghost var unblocked := NothingBlocked(ifaces, k.vtable);
    assert unblocked == old(NothingBlocked(Flatten(SuperTable(k), k.directInterfaces), k.vtable));
    ok, table, stubs := ResolveInterfaces(ifaces, k.vtable);
    assert ok == unblocked;
    k.iftable := table;
    if !ok {
      return;
    }
    mirandas := stubs;
    MirandasAreNew(k.vtable, stubs);
    AppendMirandas(k, stubs);
  }

  // Entries without method arrays.
  function Bare(ifaces: seq<Klass>): (table: seq<IfEntry>)
    ensures Interfaces(table) == ifaces
  {
    seq(|ifaces|, i requires 0 <= i < |ifaces| => IfEntry(ifaces[i], []))
  }

  lemma MirandasAreNew(vtable: seq<ArtMethod>, mirandas: seq<ArtMethod>)
    requires MirandasOk(vtable, mirandas)
    ensures DistinctSignatures(mirandas) && forall m :: m in mirandas ==> m !in vtable
  {
  }

  lemma OthersAreOlder(k: Klass)
    ensures k !in AllInterfaces(k)
  {
    if k in AllInterfaces(k) { InterfacesAreOlder(k, k); }
  }

  lemma NoInterfaces(k: Klass)
    requires Ordered(k) && k.directInterfaces == [] && k.iftable == []
    requires k.superClass != null ==> TableOk(k.superClass) && k.superClass.iftable == []
    ensures TableOk(k) && SuperTable(k) == [] == Flatten(SuperTable(k), k.directInterfaces)
    ensures NothingBlocked([], k.vtable) && RowsOk([], k.vtable, []) && Needed([], [])
  {
  }

  lemma MarkersOnly(k: Klass)
    requires Ordered(k) && k.directInterfaces == [] && k.superClass != null
    requires TableOk(k.superClass) && Sized(k.superClass.iftable)
    requires forall e :: e in k.superClass.iftable ==> e.methods == []
    ensures Members(Interfaces(k.superClass.iftable)) == AllInterfaces(k) && k !in Interfaces(k.superClass.iftable)
    ensures SuperTable(k) == Interfaces(k.superClass.iftable) == Flatten(SuperTable(k), k.directInterfaces)
    ensures NothingBlocked(SuperTable(k), k.vtable) && RowsOk(k.superClass.iftable, k.vtable, [])
    ensures Needed([], Interfaces(k.superClass.iftable))
  {
    OthersAreOlder(k);
    assert Members(Interfaces(k.superClass.iftable)) == AllInterfaces(k);
    forall x | x in SuperTable(k) ensures x.virtualMethods == [] {
      var i :| 0 <= i < |SuperTable(k)| && SuperTable(k)[i] == x;
      assert k.superClass.iftable[i] in k.superClass.iftable;
    }
  }

  // ---- what the tables mean together ---------------------------------------------------------------------

  lemma {:induction false} LastSlotAfter(a: seq<ArtMethod>, b: seq<ArtMethod>, signature: Signature, n: nat)
    requires n <= |b|
    ensures LastSlot(a + b, signature, |a| + n) ==
            if LastSlot(b, signature, n) >= 0 then |a| + LastSlot(b, signature, n) else LastSlot(a, signature, |a|)
    decreases n
  {
    if n > 0 { LastSlotAfter(a, b, signature, n - 1); }
    else { LastSlotPrefix(a, b, signature, |a|); }
  }

  lemma {:induction false} LastSlotPrefix(a: seq<ArtMethod>, b: seq<ArtMethod>, signature: Signature, n: nat)
    requires n <= |a|
    ensures LastSlot(a + b, signature, n) == LastSlot(a, signature, n)
  {
    if n > 0 { LastSlotPrefix(a, b, signature, n - 1); }
  }

  /** Every interface method entry is a method of the final table with the same name and signature: the
      one a search of that table from its end finds. */
  lemma EntriesAreInTheTable(vtable: seq<ArtMethod>, mirandas: seq<ArtMethod>, methods: seq<ArtMethod>,
                             row: seq<ArtMethod>, j: nat)
    requires MirandasOk(vtable, mirandas) && RowOk(vtable, mirandas, methods, row) && j < |row|
    ensures row[j].signature == methods[j].signature
    ensures var k := Implementation(vtable + mirandas, methods[j]); k >= 0 && (vtable + mirandas)[k] == row[j]
  {
    var m := methods[j];
    assert EntryOk(vtable, mirandas, m, row[j]);
    LastSlotAfter(vtable, mirandas, m.signature, |mirandas|);
    var k := LastSlot(mirandas, m.signature, |mirandas|);
    if Implementation(vtable, m) >= 0 {
      if k >= 0 { assert mirandas[k] in mirandas && Implementation(vtable, mirandas[k]) < 0; }
    } else {
      var i :| 0 <= i < |mirandas| && mirandas[i] == row[j];
      assert k == i;
    }
  }

  /** A miranda is the only method of the final table with its signature. */
  lemma MirandasAreUnique(vtable: seq<ArtMethod>, mirandas: seq<ArtMethod>, m: ArtMethod, x: ArtMethod)
    requires MirandasOk(vtable, mirandas) && m in mirandas && x in vtable + mirandas && x.signature == m.signature
    ensures x == m
  {
    assert Implementation(vtable, m) < 0;
  }

  // ---- implementing a miranda in a subclass -------------------------------------------------------------

  // The methods of interfaces are public, abstract and not final.
  ghost predicate MethodsAreOpen(ifaces: seq<Klass>)
    reads ifaces
  {
    forall f :: f in ifaces ==>
        forall m :: m in f.virtualMethods ==> m.isPublic && m.isAbstract && !m.isFinal
  }

  /** Then so are the mirandas. */
  lemma MirandasAreOpen(mirandas: seq<ArtMethod>, ifaces: seq<Klass>, x: ArtMethod)
    requires Needed(mirandas, ifaces) && MethodsAreOpen(ifaces) && x in mirandas
    ensures x.isPublic && x.isAbstract && !x.isFinal
  {
  }

  /** A class leaves an interface method to a miranda, its subclass declares a public method with that
      signature, and may access the miranda: the subclass's method takes the miranda's slot, displaces
      no final method there, is what the interface calls, and may be called through it. `vtable` is the
      superclass's table before its mirandas. */
  lemma MirandaIsImplemented(vtable: seq<ArtMethod>, mirandas: seq<ArtMethod>, ifaces: seq<Klass>, i: nat,
                             locals: seq<ArtMethod>, m: ArtMethod, canAccess: ArtMethod -> bool)
    requires MirandasOk(vtable, mirandas) && Needed(mirandas, ifaces) && MethodsAreOpen(ifaces) && i < |mirandas|
    requires DistinctSignatures(locals) && m in locals && m !in vtable + mirandas
    requires m.signature == mirandas[i].signature && m.isPublic && canAccess(mirandas[i])
    ensures var slot := OverriddenSlot(vtable + mirandas, m, canAccess);
            && slot == |vtable| + i && !(vtable + mirandas)[slot].isFinal
            && |VTable(vtable + mirandas, locals, canAccess)| >= |vtable + mirandas|
            && VTable(vtable + mirandas, locals, canAccess)[slot] == m
            && Implementation(VTable(vtable + mirandas, locals, canAccess), mirandas[i]) == slot
            && !Blocked(VTable(vtable + mirandas, locals, canAccess), mirandas[i])
  {
    hide VTable, OverriddenSlot, Needed, MirandasOk, LastSlot;
    var table := vtable + mirandas;
    var t := VTable(table, locals, canAccess);
    MirandasAreOpen(mirandas, ifaces, mirandas[i]);
    MirandaIsAlone(vtable, mirandas, i);
    TakesSlot(table, locals, m, |vtable| + i, canAccess);
    forall j | 0 <= j < |t| && t[j].signature == m.signature ensures j == |vtable| + i {
      SignatureOnce(table, locals, m, |vtable| + i, j, canAccess);
    }
    LastSlotFacts(t, m.signature);
  }

  lemma LastSlotFacts(t: seq<ArtMethod>, signature: Signature)
    ensures var k := LastSlot(t, signature, |t|);
            && -1 <= k < |t| && (k >= 0 ==> t[k].signature == signature)
            && forall j :: k < j < |t| ==> t[j].signature != signature
  {
  }

  // The slot is the only one of the table with the signature.
  ghost predicate Alone(table: seq<ArtMethod>, signature: Signature, at: nat) {
    at < |table| && forall j :: 0 <= j < |table| ==> (table[j].signature == signature <==> j == at)
  }

  lemma MirandaIsAlone(vtable: seq<ArtMethod>, mirandas: seq<ArtMethod>, i: nat)
    requires MirandasOk(vtable, mirandas) && i < |mirandas|
    ensures Alone(vtable + mirandas, mirandas[i].signature, |vtable| + i)
  {
    assert mirandas[i] in mirandas && Implementation(vtable, mirandas[i]) < 0;
  }

  lemma TakesSlot(table: seq<ArtMethod>, locals: seq<ArtMethod>, m: ArtMethod, at: nat, canAccess: ArtMethod -> bool)
    requires Alone(table, m.signature, at) && canAccess(table[at])
    requires DistinctSignatures(locals) && m in locals && m !in table
    ensures OverriddenSlot(table, m, canAccess) == at
    ensures |VTable(table, locals, canAccess)| >= |table| && VTable(table, locals, canAccess)[at] == m
  {
    hide VTable;
    var slot := EachMethodHasOneSlot(table, locals, canAccess, m);
    VTableIsLong(table, locals, canAccess);
  }

  lemma VTableIsLong(table: seq<ArtMethod>, locals: seq<ArtMethod>, canAccess: ArtMethod -> bool)
    ensures |VTable(table, locals, canAccess)| >= |table|
  {
  }

  // The class's own table has the signature there and nowhere else.
  lemma SignatureOnce(table: seq<ArtMethod>, locals: seq<ArtMethod>, m: ArtMethod, at: nat, j: nat,
                      canAccess: ArtMethod -> bool)
    requires Alone(table, m.signature, at) && OverriddenSlot(table, m, canAccess) == at
    requires DistinctSignatures(locals) && m in locals
    requires j < |VTable(table, locals, canAccess)|
    requires VTable(table, locals, canAccess)[j].signature == m.signature
    ensures j == at
  {
    hide OverriddenSlot, Overrider, Added;
    if j < |table| {
      SlotsKeepSignatures(table, locals, canAccess, j);
    } else {
      var x := Added(table, locals, canAccess)[j - |table|];
      AddedFacts(table, locals, canAccess, x);
    }
  }

  // ---- linking all methods of a class ------------------------------------------------------------------

  // What every linked class keeps.
  ghost predicate Linked(k: Klass)
    reads k, k.vtable, Interfaces(k.iftable)
  {
    Indexed(k.vtable) && TableOk(k) && (!k.isInterface ==> Sized(k.iftable))
  }

  function SuperVTable(k: Klass): seq<ArtMethod>
    reads k, k.superClass
  {
    if k.superClass == null then [] else k.superClass.vtable
  }

  // `SetMethodIndex(i)` for the methods of an interface.
  method IndexInterfaceMethods(methods: seq<ArtMethod>)
    requires DistinctSignatures(methods)
    modifies set m | m in methods
    ensures Indexed(methods)
  {
    for i := 0 to |methods|
      invariant forall j :: 0 <= j < i ==> methods[j].methodIndex == j % INDEX_LIMIT
    {
      assert forall j :: 0 <= j < i ==> methods[j].signature != methods[i].signature;
      SetMethodIndex(methods[i], i);
    }
  }

  /** `LinkMethods`: a class linked after its superclass and interfaces were is linked like them, and a
      class that is not an interface ends with the superclass's table overridden, its own methods and
      its mirandas. */
  method LinkMethods(k: Klass, canAccess: ArtMethod -> bool) returns (ok: bool, ghost mirandas: seq<ArtMethod>)
    requires Ordered(k) && k.vtable == [] && k.iftable == [] && DistinctSignatures(k.virtualMethods)
    requires forall m :: m in k.virtualMethods ==> m !in SuperVTable(k)
    requires k.superClass != null ==> Linked(k.superClass) && !k.superClass.isInterface
    requires TablesOk(k.directInterfaces)
    modifies k, set m | m in k.virtualMethods
    ensures ok <==>
              && (if k.isInterface then old(|k.virtualMethods|) < INDEX_LIMIT
                  else
                    && !old(OverridesFinal(SuperVTable(k), k.virtualMethods, canAccess))
                    && old(|VTable(SuperVTable(k), k.virtualMethods, canAccess)|) < INDEX_LIMIT)
              && (forall d :: d in k.directInterfaces ==> d.isInterface)
              && (k.isInterface || old(NothingBlocked(Flatten(SuperTable(k), k.directInterfaces),
                                                      VTable(SuperVTable(k), k.virtualMethods, canAccess))))
    ensures ok ==> Linked(k)
    ensures ok && !k.isInterface ==>
              && k.vtable == old(VTable(SuperVTable(k), k.virtualMethods, canAccess)) + mirandas
              && k.virtualMethods == old(k.virtualMethods) + mirandas
              && RowsOk(k.iftable, old(VTable(SuperVTable(k), k.virtualMethods, canAccess)), mirandas)
              && MirandasOk(old(VTable(SuperVTable(k), k.virtualMethods, canAccess)), mirandas)
              && Needed(mirandas, Interfaces(k.iftable)) && forall m :: m in mirandas ==> m.isMiranda && fresh(m)
    ensures ok && k.isInterface ==> k.virtualMethods == old(k.virtualMethods) && Indexed(k.virtualMethods)
  {
    hide VTable, AllInterfaces, Flatten, RowOk, MirandasOk, Needed, Blocked, OverridesFinal;
    mirandas := [];
    FlattenedTable(k);
    OthersAreOlder(k);
    ghost var ifaces := Flatten(SuperTable(k), k.directInterfaces);
    ghost var unblocked := NothingBlocked(ifaces, VTable(SuperVTable(k), k.virtualMethods, canAccess));
    assert k !in ifaces by { assert k !in Members(ifaces); }
    if k.isInterface {
      if |k.virtualMethods| >= INDEX_LIMIT {
        return false, [];
      }
      IndexInterfaceMethods(k.virtualMethods);
    } else {
      var vtable;
      ok, vtable := LinkVirtualMethods(SuperVTable(k), k.virtualMethods, canAccess);
      if !ok {
        return;
      }
      k.vtable := vtable;
      assert NothingBlocked(ifaces, vtable) == unblocked;
    }
    assert SuperTable(k) == old(SuperTable(k)) && k !in k.directInterfaces;
    assert Flatten(SuperTable(k), k.directInterfaces) == old(Flatten(SuperTable(k), k.directInterfaces));
    ok, mirandas := LinkInterfaceMethods(k);
    if ok && !k.isInterface {
      RowsAreSized(k.iftable, old(VTable(SuperVTable(k), k.virtualMethods, canAccess)), mirandas);
    }
  }

  lemma RowsAreSized(table: seq<IfEntry>, vtable: seq<ArtMethod>, mirandas: seq<ArtMethod>)
    requires RowsOk(table, vtable, mirandas)
    ensures Sized(table)
  {
  }
}
