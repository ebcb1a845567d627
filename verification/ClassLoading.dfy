/** Single-threaded class loading: `FindClass`, `EnsureResolved`, `DefineClass`, `CreateArrayClass` and
    `LoadSuperAndInterfaces` of `ClassLinker`, with `Class::SetStatus`. */
module ClassLoading {
  import opened LoadingSpec

  // Aborted: a failed CHECK ends the process.
  datatype Outcome = Found | Failed | Aborted

  // Classes in the table that the calls on the stack are loading.
  ghost predicate IsLoading(t: Table, x: string) { x in t && t[x] == Loading }

  /** During a load that began with table q: what was there is unchanged, what is new is being loaded or
      was loaded, and can be. */
  ghost predicate Agrees(path: ClassPath, q: Table, t: Table) {
    && q.Keys <= t.Keys
    && (forall x :: x in q ==> t[x] == q[x])
    && forall x :: x in t && x !in q ==>
         && |x| > 1
         && (t[x] == Loading ==> x in path && !IsArray(x))
         && (t[x] == Resolved ==> Loadable(path, q, x))
         && t[x] != Error
  }

  // The class is loadable in fewer steps than anything that is being loaded.
  ghost predicate Safe(path: ClassPath, q: Table, t: Table, d: string, n: nat) {
    LoadableWithin(path, q, d, n) && forall x :: IsLoading(t, x) ==> !LoadableWithin(path, q, x, n)
  }

  // A loadable class does not need what is being loaded; one that is not loadable spoils what is.
  ghost predicate Clear(path: ClassPath, q: Table, t: Table, d: string) {
    if Loadable(path, q, d) then exists n: nat :: Safe(path, q, t, d, n)
    else forall x :: IsLoading(t, x) ==> !Loadable(path, q, x)
  }

  // The table after a successful call.
  ghost predicate After(path: ClassPath, q: Table, t: Table, t': Table) {
    && Agrees(path, q, t') && t.Keys <= t'.Keys
    && forall x :: IsLoading(t, x) <==> IsLoading(t', x)
  }

  // After an unsuccessful one: only classes that cannot be loaded have become erroneous.
  ghost predicate Spoilt(path: ClassPath, q: Table, t: Table, t': Table) {
    && t.Keys <= t'.Keys
    && forall x :: x in t' ==>
         || (x in t && t'[x] == t[x])
         || (x !in t && t'[x] == Resolved && Loadable(path, q, x))
         || (t'[x] == Error && !Loadable(path, q, x) && (x in t ==> t[x] == Loading))
  }

  // A class with a definition has become erroneous.
  predicate Marked(path: ClassPath, t: Table, d: string) {
    (d in t && t[d] == Error) || |d| <= 1 || IsArray(d) || d !in path
  }

  // The first n causes are all marked.
  ghost predicate MarkedAlong(path: ClassPath, q: Table, t: Table, d: string, n: nat)
    decreases n
  {
    Marked(path, t, d) && (n > 0 ==> var next := Next(path, q, d); next.In? && MarkedAlong(path, q, t, next.d, n - 1))
  }

  lemma {:induction false} MarksStay(path: ClassPath, q: Table, t: Table, t': Table, d: string, n: nat)
    requires MarkedAlong(path, q, t, d, n) && forall x :: x in t && t[x] == Error ==> x in t' && t'[x] == Error
    ensures MarkedAlong(path, q, t', d, n)
    decreases n
  {
    if n > 0 { MarksStay(path, q, t, t', Next(path, q, d).d, n - 1); }
  }

  /** Why a call failed: the causes end after n steps, or after n steps they meet class x, which was
      being loaded and is now erroneous. Everything on the way is erroneous. */
  ghost predicate Explained(path: ClassPath, q: Table, t: Table, t': Table, d: string, cyclic: bool, x: string, n: nat)
  {
    && MarkedAlong(path, q, t', d, n)
    && (if cyclic then IsLoading(t, x) && Leads(path, q, d, x, n) else EndsAt(path, q, d, n))
    && forall y :: IsLoading(t, y) ==> y in t' && t'[y] == if cyclic && y == x then Error else Loading
  }

  // The causes run in a cycle.
  ghost predicate Cyclic(path: ClassPath, q: Table, d: string) {
    exists x, n: nat, m: nat :: m > 0 && Leads(path, q, d, x, n) && Leads(path, q, x, x, m)
  }

  ghost predicate Result(path: ClassPath, q: Table, t: Table, t': Table, d: string, r: Outcome, cyclic: bool,
                         x: string, n: nat)
  {
    && (r.Found? <==> Loadable(path, q, d))
    && (r.Found? ==> After(path, q, t, t') && (|d| == 1 || (d in t' && t'[d] == Resolved)))
    && (r.Failed? ==> Spoilt(path, q, t, t') && Explained(path, q, t, t', d, cyclic, x, n))
    && (r.Aborted? ==> Cyclic(path, q, d))
  }

  lemma InTableDecides(path: ClassPath, q: Table, t: Table, d: string)
    requires d in t && |d| > 1 && Agrees(path, q, t) && Clear(path, q, t, d)
    ensures Loadable(path, q, d) <==> t[d] == Resolved
    ensures t[d] == Error ==> EndsAt(path, q, d, 0)
  {
    if t[d] == Resolved && d in q { assert LoadableWithin(path, q, d, 0); }
    assert t[d] == Loading ==> IsLoading(t, d);
  }

  // The definitions not in the table yet.
  function Left(path: ClassPath, t: Table): nat { |path.Keys - t.Keys| }

  lemma LeftShrinks(path: ClassPath, t: Table, t': Table)
    requires t.Keys <= t'.Keys
    ensures Left(path, t') <= Left(path, t)
    ensures (exists d :: d in path && d !in t && d in t') ==> Left(path, t') < Left(path, t)
  {
    SubsetIsSmaller(path.Keys - t'.Keys, path.Keys - t.Keys);
    if d :| d in path && d !in t && d in t' {
      SubsetIsSmaller(path.Keys - t'.Keys, path.Keys - t.Keys - {d});
    }
  }

  lemma {:induction false} SubsetIsSmaller<T>(a: set<T>, b: set<T>)
    requires a <= b
    ensures |a| <= |b|
  {
    if a != {} {
      var x :| x in a;
      SubsetIsSmaller(a - {x}, b - {x});
    }
  }

  // ---- preconditions of the calls below a call ----------------------------------------------------------

  lemma ClearStays(path: ClassPath, q: Table, t: Table, t': Table, e: string)
    requires Clear(path, q, t, e) && After(path, q, t, t')
    ensures Clear(path, q, t', e)
  {
    if Loadable(path, q, e) {
      var n: nat :| Safe(path, q, t, e, n);
      assert Safe(path, q, t', e, n);
    }
  }

  lemma ClearElement(path: ClassPath, q: Table, t: Table, d: string)
    requires Agrees(path, q, t) && Clear(path, q, t, d) && d !in t && IsArray(d)
    ensures Clear(path, q, t, d[1..])
  {
    LoadableUnfolds(path, q, d);
    if Loadable(path, q, d) {
      var n: nat :| Safe(path, q, t, d, n);
      forall x | IsLoading(t, x) ensures !LoadableWithin(path, q, x, n - 1) {
        if LoadableWithin(path, q, x, n - 1) { WithinGrows(path, q, x, n - 1, n); }
      }
      assert Safe(path, q, t, d[1..], n - 1);
    }
  }

  lemma Begins(path: ClassPath, q: Table, t: Table, d: string)
    requires Agrees(path, q, t) && d !in t && d in path && !IsArray(d) && |d| > 1
    ensures Agrees(path, q, t[d := Loading])
    ensures forall x :: IsLoading(t[d := Loading], x) <==> IsLoading(t, x) || x == d
  {
    hide Loadable;
    forall x ensures IsLoading(t[d := Loading], x) <==> IsLoading(t, x) || x == d {
      if x != d { assert x in t <==> x in t[d := Loading]; }
    }
  }

  lemma ClearSuper(path: ClassPath, q: Table, t: Table, d: string, e: string)
    requires Agrees(path, q, t) && Clear(path, q, t, d) && d !in t && d in path && !IsArray(d) && |d| > 1
    requires e in path[d].supers
    ensures Clear(path, q, t[d := Loading], e)
  {
    var t' := t[d := Loading];
    Begins(path, q, t, d);
    LoadableUnfolds(path, q, d);
    if Loadable(path, q, d) {
      var m: nat :| Safe(path, q, t, d, m);
      var n := LeastWithin(path, q, d, m);
      forall x | IsLoading(t', x) ensures !LoadableWithin(path, q, x, n - 1) {
        if x != d && LoadableWithin(path, q, x, n - 1) { WithinGrows(path, q, x, n - 1, m); }
      }
      assert Safe(path, q, t', e, n - 1);
    } else if Loadable(path, q, e) {
      var n: nat :| LoadableWithin(path, q, e, n);
      forall x | IsLoading(t', x) ensures !LoadableWithin(path, q, x, n) { assert !Loadable(path, q, x); }
      assert Safe(path, q, t', e, n);
    }
  }

  class ClassLinker {
    const path: ClassPath
    var table: Table

    constructor (path: ClassPath)
      ensures this.path == path && table == map[]
    {
      this.path, table := path, map[];
    }

    // `SetStatus(kStatusError)`: a class may become erroneous only once.
    method SetError(d: string) returns (aborted: bool)
      requires d in table
      modifies this`table
      ensures aborted == (old(table)[d] == Error)
      ensures table == old(table)[d := Error]
    {
      aborted := table[d] == Error;
      table := table[d := Error];
    }

    /** A request from outside. The class is found exactly when its closure is present, passes its checks
        and is acyclic; the request fails exactly when following the reasons ends somewhere, and then every
        class on the way is erroneous; and the process aborts exactly when the reasons run in a cycle. */
    method Load(d: string) returns (r: Outcome)
      requires d != "" && PathOk(path) && Quiet(table)
      modifies this`table
      ensures r.Found? <==> PresentAndAcyclic(path, old(table), d)
      ensures r.Found? <==> Loadable(path, old(table), d)
      ensures r.Failed? <==> !Loadable(path, old(table), d) && Ends(path, old(table), d)
      ensures r.Aborted? <==> !Loadable(path, old(table), d) && Cyclic(path, old(table), d)
      ensures r.Found? ==> After(path, old(table), old(table), table) && Quiet(table)
      ensures r.Failed? ==>
                && Spoilt(path, old(table), old(table), table) && Quiet(table)
                && exists n: nat :: EndsAt(path, old(table), d, n) && MarkedAlong(path, old(table), table, d, n)
    {
      ghost var q := table;
      Starts(path, q, d);
      LoadableExactly(path, q, d);
      hide PresentAndAcyclic;
      ghost var cyclic, x, n;
      r, cyclic, x, n := FindClass(d, q);
      Outcomes(path, q, table, d, r, cyclic, x, n);
    }

    // `EnsureResolved`, of a class that nobody but this thread loads.
    method EnsureResolved(d: string, ghost q: Table)
      returns (r: Outcome, ghost cyclic: bool, ghost x: string, ghost n: nat)
      requires d in table && |d| > 1 && Agrees(path, q, table) && Clear(path, q, table, d)
      modifies this`table
      ensures Result(path, q, old(table), table, d, r, cyclic, x, n)
    {
      cyclic, x, n := false, d, 0;
      InTableDecides(path, q, table, d);
      hide Loadable, Clear;
      if table[d] == Loading {
        cyclic := true;
        var aborted := SetError(d);
        r := if aborted then Aborted else Failed;
      } else if table[d] == Error {
        r := Failed;
      } else {
        r := Found;
      }
    }

    /** `FindClass` with the boot class path. */
    method FindClass(d: string, ghost q: Table) returns (r: Outcome, ghost cyclic: bool, ghost x: string, ghost n: nat)
      requires d != "" && PathOk(path) && Agrees(path, q, table) && Clear(path, q, table, d)
      modifies this`table
      decreases 2 * Left(path, table), |d|, 1
      ensures Result(path, q, old(table), table, d, r, cyclic, x, n)
    {
      cyclic, x, n := false, d, 0;
      if |d| == 1 {
        r := if PrimitiveExists(d) then Found else Failed;
        PrimitiveResult(path, q, table, d, r);
      } else if d in table {
        r, cyclic, x, n := EnsureResolved(d, q);
      } else if d[0] == '[' {
        r, cyclic, x, n := CreateArrayClass(d, q);
      } else if d in path {
        r, cyclic, x, n := DefineClass(d, q);
      } else {
        r := Failed;
        MissingResult(path, q, table, d);
      }
    }

    /** `CreateArrayClass`. */
    method CreateArrayClass(d: string, ghost q: Table)
      returns (r: Outcome, ghost cyclic: bool, ghost x: string, ghost n: nat)
      requires IsArray(d) && d !in table && PathOk(path) && Agrees(path, q, table) && Clear(path, q, table, d)
      modifies this`table
      decreases 2 * Left(path, table), |d|, 0
      ensures Result(path, q, old(table), table, d, r, cyclic, x, n)
    {
      ClearElement(path, q, table, d);
      r, cyclic, x, n := FindClass(d[1..], q);
      if r == Found {
        ghost var t := table;
        // `InsertClass` keeps a class that is there already.
        if d !in table { table := table[d := Resolved]; }
        ArrayFound(path, q, old(table), t, table, d);
      } else {
        ArrayFails(path, q, old(table), table, d, r, cyclic, x, n);
        n := n + 1;
      }
    }

    /** `DefineClass`: the class enters the table before its supers are looked for. */
    method DefineClass(d: string, ghost q: Table)
      returns (r: Outcome, ghost cyclic: bool, ghost x: string, ghost n: nat)
      requires d in path && |d| > 1 && !IsArray(d) && d !in table
      requires PathOk(path) && Agrees(path, q, table) && Clear(path, q, table, d)
      modifies this`table
      decreases 2 * Left(path, table), |d|, 0
      ensures Result(path, q, old(table), table, d, r, cyclic, x, n)
    {
      hide Agrees, Clear, Result, SupersResult, Loadable, Next, After;
      ghost var t := table;
      ghost var inside;
      table := table[d := Loading];
      LeftShrinks(path, t, table);
      r, inside, cyclic, x, n := LoadSuperAndInterfaces(d, q, t);
      ghost var t1 := table;
      if r == Aborted {
        AbortsWithin(path, q, t, t1, d, inside, cyclic, x, n);
      } else if r == Failed {
        KeepsEntry(path, q, t, t1, d, r, inside, cyclic, x, n);
        var aborted := SetError(d);
        r := if aborted then Aborted else Failed;
        FailsWithin(path, q, t, t1, d, inside, cyclic, x, n, aborted);
        n := if inside then n + 1 else 0;
        cyclic := inside && cyclic;
      } else {
        KeepsEntry(path, q, t, t1, d, r, inside, cyclic, x, n);
        SupersFound(path, q, t, t1, d, inside, cyclic, x, n);
        if path[d].links {
          table := table[d := Resolved];
          cyclic := false;
          Defined(path, q, t, t1, d, x, n);
        } else {
          var aborted := SetError(d);
          r, cyclic, n := Failed, false, 0;
          assert !aborted;
          DoesNotLink(path, q, t, t1, d, x, n);
        }
      }
    }

    /** `LoadSuperAndInterfaces`: the superclass, then the interfaces, each found and then tested for
        access. `inside` says that the failure lies in a class that is not loadable itself. */
    method LoadSuperAndInterfaces(d: string, ghost q: Table, ghost t: Table)
      returns (r: Outcome, ghost inside: bool, ghost cyclic: bool, ghost x: string, ghost n: nat)
      requires d in path && |d| > 1 && !IsArray(d) && d !in t && table == t[d := Loading]
      requires PathOk(path) && Agrees(path, q, t) && Clear(path, q, t, d)
      modifies this`table
      decreases 2 * Left(path, table) + 1, 0, 0
      ensures SupersResult(path, q, t, table, d, r, inside, cyclic, x, n)
    {
      hide Agrees, Clear, Result, Loadable, After, SupersResult, Next, PathOk, Left, IsLoading;
      ghost var left := Left(path, table);
      Begins(path, q, t, d);
      NotThere(path, q, t, d);
      AfterNothing(path, q, table);
      inside, cyclic, x, n := false, false, d, 0;
      for i := 0 to |path[d].supers|
        invariant After(path, q, t[d := Loading], table) && Left(path, table) <= left
        invariant forall k :: 0 <= k < i ==>
                  path[d].supers[k] !in path[d].hidden && Loadable(path, q, path[d].supers[k])
      {
        var e := path[d].supers[i];
        ghost var before := table;
        NotEmpty(path, d, e);
        ClearSuper(path, q, t, d, e);
        ClearStays(path, q, t[d := Loading], table, e);
        AfterAgrees(path, q, t[d := Loading], table);
        r, cyclic, x, n := FindClass(e, q);
        SupersBad(path, q, d, i);
        if r != Found {
          inside := true;
          SuperFails(path, q, t, before, table, d, e, r, cyclic, x, n);
          return;
        }
        SuperFound(path, q, t, before, table, d, e, cyclic, x, n);
        LeftShrinks(path, before, table);
        if e in path[d].hidden {
          r := Failed;
          SuperHidden(path, q, t, table, d, cyclic, x, n);
          return;
        }
      }
      r := Found;
      SupersGood(path, q, d);
      SupersDone(path, q, t, table, d, cyclic, x, n);
    }
  }

  // ---- defining a class -------------------------------------------------------------------------------------

  ghost predicate SupersResult(path: ClassPath, q: Table, t: Table, t1: Table, d: string, r: Outcome, inside: bool,
                               cyclic: bool, x: string, n: nat)
  {
    var next := Next(path, q, d);
    && (r.Found? ==>
         !inside && After(path, q, t[d := Loading], t1) && (Loadable(path, q, d) <==> d in path && path[d].links)
                     && (!Loadable(path, q, d) ==> next.Here?))
    && (r.Failed? && !inside ==> After(path, q, t[d := Loading], t1) && !Loadable(path, q, d) && next.Here?)
    && (r.Failed? && inside ==>
          && !Loadable(path, q, d) && next.In?
          && Spoilt(path, q, t[d := Loading], t1) && Explained(path, q, t[d := Loading], t1, next.d, cyclic, x, n))
    && (r.Aborted? ==> !Loadable(path, q, d) && next.In? && Cyclic(path, q, next.d))
  }

  lemma SupersFound(path: ClassPath, q: Table, t: Table, t1: Table, d: string, inside: bool, cyclic: bool, x: string,
                    n: nat)
    requires SupersResult(path, q, t, t1, d, Found, inside, cyclic, x, n) && d in path
    ensures After(path, q, t[d := Loading], t1) && (Loadable(path, q, d) <==> path[d].links)
    ensures !Loadable(path, q, d) ==> Next(path, q, d).Here?
  {
  }

  lemma SuperHidden(path: ClassPath, q: Table, t: Table, t1: Table, d: string, cyclic: bool, x: string, n: nat)
    requires After(path, q, t[d := Loading], t1) && !Loadable(path, q, d) && Next(path, q, d) == Here
    ensures SupersResult(path, q, t, t1, d, Failed, false, cyclic, x, n)
  {
  }

  lemma SupersDone(path: ClassPath, q: Table, t: Table, t1: Table, d: string, cyclic: bool, x: string, n: nat)
    requires After(path, q, t[d := Loading], t1) && d in path && (Loadable(path, q, d) <==> path[d].links)
    requires Next(path, q, d) == Here
    ensures SupersResult(path, q, t, t1, d, Found, false, cyclic, x, n)
  {
    hide Loadable, After, Next;
  }

  lemma NotEmpty(path: ClassPath, d: string, e: string)
    requires PathOk(path) && d in path && e in path[d].supers
    ensures e != ""
  {
  }

  lemma NotThere(path: ClassPath, q: Table, t: Table, d: string)
    requires Agrees(path, q, t) && d !in t
    ensures d !in q
  {
  }

  lemma AfterNothing(path: ClassPath, q: Table, t: Table)
    requires Agrees(path, q, t)
    ensures After(path, q, t, t)
  {
  }

  lemma AfterAgrees(path: ClassPath, q: Table, t: Table, t': Table)
    requires After(path, q, t, t')
    ensures Agrees(path, q, t') && t.Keys <= t'.Keys
  {
  }

  // The first super that is hidden or not loadable decides where the cause lies.
  lemma SupersBad(path: ClassPath, q: Table, d: string, i: nat)
    requires d in path && |d| > 1 && !IsArray(d) && d !in q && i < |path[d].supers|
    requires forall k :: 0 <= k < i ==> path[d].supers[k] !in path[d].hidden && Loadable(path, q, path[d].supers[k])
    ensures !Loadable(path, q, path[d].supers[i]) ==> Next(path, q, d) == In(path[d].supers[i]) && !Loadable(path, q, d)
    ensures Loadable(path, q, path[d].supers[i]) && path[d].supers[i] in path[d].hidden ==>
              Next(path, q, d) == Here && !Loadable(path, q, d)
  {
    LoadableUnfolds(path, q, d);
    assert path[d].supers[i] in path[d].supers;
    hide Loadable;
    var j := FirstBad(path, q, path[d].supers, path[d].hidden);
  }

  lemma SupersGood(path: ClassPath, q: Table, d: string)
    requires d in path && |d| > 1 && !IsArray(d) && d !in q
    requires forall k :: 0 <= k < |path[d].supers| ==>
             path[d].supers[k] !in path[d].hidden && Loadable(path, q, path[d].supers[k])
    ensures Loadable(path, q, d) <==> path[d].links
    ensures Next(path, q, d) == Here
  {
    LoadableUnfolds(path, q, d);
    hide Loadable;
    var j := FirstBad(path, q, path[d].supers, path[d].hidden);
  }

  lemma SuperFound(path: ClassPath, q: Table, t: Table, t0: Table, t1: Table, d: string, e: string, cyclic: bool,
                   x: string, n: nat)
    requires After(path, q, t[d := Loading], t0) && Result(path, q, t0, t1, e, Found, cyclic, x, n)
    ensures After(path, q, t[d := Loading], t1) && Loadable(path, q, e) && t0.Keys <= t1.Keys
  {
    hide Loadable, Agrees;
  }

  lemma SpoiltSince(path: ClassPath, q: Table, t: Table, t0: Table, t1: Table)
    requires Agrees(path, q, t) && After(path, q, t, t0) && Spoilt(path, q, t0, t1)
    ensures Spoilt(path, q, t, t1)
  {
    hide Loadable;
    forall y | y in t1
      ensures || (y in t && t1[y] == t[y])
              || (y !in t && t1[y] == Resolved && Loadable(path, q, y))
              || (t1[y] == Error && !Loadable(path, q, y) && (y in t ==> t[y] == Loading))
    {
      assert IsLoading(t, y) <==> IsLoading(t0, y);
    }
  }

  lemma SuperFails(path: ClassPath, q: Table, t: Table, t0: Table, t1: Table, d: string, e: string, r: Outcome,
                   cyclic: bool, x: string, n: nat)
    requires After(path, q, t[d := Loading], t0) && Result(path, q, t0, t1, e, r, cyclic, x, n) && r != Found
    requires Agrees(path, q, t[d := Loading]) && Next(path, q, d) == In(e) && !Loadable(path, q, d)
    ensures SupersResult(path, q, t, t1, d, r, true, cyclic, x, n)
  {
    hide Loadable, Spoilt, Agrees, Next;
    if r.Failed? {
      SpoiltSince(path, q, t[d := Loading], t0, t1);
      assert cyclic ==> IsLoading(t[d := Loading], x);
    }
  }

  lemma PrimitiveResult(path: ClassPath, q: Table, t: Table, d: string, r: Outcome)
    requires IsPrimitive(d) && Agrees(path, q, t) && r == if PrimitiveExists(d) then Found else Failed
    ensures Result(path, q, t, t, d, r, false, d, 0)
  {
    if PrimitiveExists(d) { assert LoadableWithin(path, q, d, 0); }
  }

  lemma MissingResult(path: ClassPath, q: Table, t: Table, d: string)
    requires |d| > 1 && !IsArray(d) && d !in t && d !in path && Agrees(path, q, t)
    ensures Result(path, q, t, t, d, Failed, false, d, 0)
  {
    LoadableUnfolds(path, q, d);
  }

  // ---- arrays ---------------------------------------------------------------------------------------------

  // One more class that can be loaded is in the table.
  lemma Entered(path: ClassPath, q: Table, t: Table, d: string)
    requires Agrees(path, q, t) && d !in t && |d| > 1 && Loadable(path, q, d)
    ensures After(path, q, t, t[d := Resolved])
  {
    hide Loadable;
    var t' := t[d := Resolved];
    forall y ensures IsLoading(t, y) <==> IsLoading(t', y) {
      if y != d { assert y in t <==> y in t'; }
    }
  }

  lemma AfterBoth(path: ClassPath, q: Table, t: Table, t1: Table, t2: Table)
    requires After(path, q, t, t1) && After(path, q, t1, t2)
    ensures After(path, q, t, t2)
  {
    hide Agrees, IsLoading;
  }

  lemma ArrayFound(path: ClassPath, q: Table, t: Table, t1: Table, t2: Table, d: string)
    requires IsArray(d) && d !in t && Agrees(path, q, t)
    requires Loadable(path, q, d[1..]) && After(path, q, t, t1)
    requires t2 == if d in t1 then t1 else t1[d := Resolved]
    ensures Result(path, q, t, t2, d, Found, false, d, 0)
  {
    NotThere(path, q, t, d);
    LoadableUnfolds(path, q, d);
    hide Loadable;
    if d in t1 {
      assert IsLoading(t, d) <==> IsLoading(t1, d);
    } else {
      Entered(path, q, t1, d);
      AfterBoth(path, q, t, t1, t2);
    }
  }

  lemma ArrayFails(path: ClassPath, q: Table, t: Table, t1: Table, d: string, r: Outcome, cyclic: bool, x: string,
                   n: nat)
    requires IsArray(d) && d !in t && Agrees(path, q, t)
    requires Result(path, q, t, t1, d[1..], r, cyclic, x, n) && r != Found
    ensures Result(path, q, t, t1, d, r, cyclic, x, n + 1)
  {
    LoadableUnfolds(path, q, d);
    assert Next(path, q, d) == In(d[1..]);
    if r.Aborted? { CyclicAbove(path, q, d); }
  }

  lemma CyclicAbove(path: ClassPath, q: Table, d: string)
    requires Next(path, q, d).In? && Cyclic(path, q, Next(path, q, d).d)
    ensures Cyclic(path, q, d)
  {
    var x, n: nat, m: nat :| m > 0 && Leads(path, q, Next(path, q, d).d, x, n) && Leads(path, q, x, x, m);
    assert Leads(path, q, d, x, n + 1);
  }

  // The entry of the class while its supers were looked for.
  lemma KeepsEntry(path: ClassPath, q: Table, t: Table, t1: Table, d: string, r: Outcome, inside: bool,
                   cyclic: bool, x: string, n: nat)
    requires SupersResult(path, q, t, t1, d, r, inside, cyclic, x, n) && r != Aborted && d !in t
    ensures d in t1 && t1[d] == if r == Failed && inside && cyclic && x == d then Error else Loading
  {
    hide Agrees, Loadable, Spoilt;
    assert IsLoading(t[d := Loading], d);
  }

  lemma AbortsWithin(path: ClassPath, q: Table, t: Table, t1: Table, d: string, inside: bool, cyclic: bool, x: string,
                     n: nat)
    requires SupersResult(path, q, t, t1, d, Aborted, inside, cyclic, x, n)
    ensures Result(path, q, t, t1, d, Aborted, cyclic, x, n)
  {
    hide Next, Loadable;
    CyclicAbove(path, q, d);
  }

  lemma Defined(path: ClassPath, q: Table, t: Table, t1: Table, d: string, x: string, n: nat)
    requires d in path && |d| > 1 && d !in t && Agrees(path, q, t) && After(path, q, t[d := Loading], t1)
    requires d in t1 && t1[d] == Loading && Loadable(path, q, d)
    ensures Result(path, q, t, t1[d := Resolved], d, Found, false, x, n)
  {
    hide Loadable;
    var t2 := t1[d := Resolved];
    forall y ensures IsLoading(t, y) <==> IsLoading(t2, y) {
      assert IsLoading(t[d := Loading], y) <==> IsLoading(t1, y);
    }
  }

  // The class itself is at fault.
  lemma DoesNotLink(path: ClassPath, q: Table, t: Table, t1: Table, d: string, x: string, n: nat)
    requires d in path && |d| > 1 && d !in t && Agrees(path, q, t) && After(path, q, t[d := Loading], t1)
    requires d in t1 && t1[d] == Loading && !Loadable(path, q, d) && Next(path, q, d) == Here
    ensures Result(path, q, t, t1[d := Error], d, Failed, false, x, 0)
  {
    hide Loadable, Next;
    var t2 := t1[d := Error];
    forall y | IsLoading(t, y) ensures y in t2 && t2[y] == Loading {
      assert IsLoading(t[d := Loading], y) && IsLoading(t1, y);
    }
    forall y | y in t2
      ensures (y in t && t2[y] == t[y]) || (y !in t && t2[y] == Resolved && Loadable(path, q, y)) || y == d
    {
      assert IsLoading(t[d := Loading], y) <==> IsLoading(t1, y);
      if y in t { assert y in t[d := Loading]; }
    }
  }

  // The fault lies below.
  lemma FailsBelow(path: ClassPath, q: Table, t: Table, t1: Table, d: string, cyclic: bool, x: string, n: nat)
    requires d in path && |d| > 1 && !IsArray(d) && d !in t && Agrees(path, q, t) && !Loadable(path, q, d)
    requires Next(path, q, d).In? && Spoilt(path, q, t[d := Loading], t1)
    requires Explained(path, q, t[d := Loading], t1, Next(path, q, d).d, cyclic, x, n) && !(cyclic && x == d)
    ensures Result(path, q, t, t1[d := Error], d, Failed, cyclic, x, n + 1)
  {
    hide Loadable, Next;
    var t0, t2 := t[d := Loading], t1[d := Error];
    MarksStay(path, q, t1, t2, Next(path, q, d).d, n);
    assert IsLoading(t0, d);
    forall y | IsLoading(t, y) ensures y in t2 && t2[y] == if cyclic && y == x then Error else Loading {
      assert IsLoading(t0, y);
    }
    assert cyclic ==> IsLoading(t0, x) && IsLoading(t, x);
    forall y | y in t2
      ensures || (y in t && t2[y] == t[y])
              || (y !in t && t2[y] == Resolved && Loadable(path, q, y))
              || (t2[y] == Error && !Loadable(path, q, y) && (y in t ==> t[y] == Loading))
    {
      if y != d { assert y in t1 && (y in t0 <==> y in t); }
    }
  }

  lemma FailsWithin(path: ClassPath, q: Table, t: Table, t1: Table, d: string, inside: bool, cyclic: bool, x: string,
                    n: nat, aborted: bool)
    requires d in path && |d| > 1 && !IsArray(d) && d !in t && Agrees(path, q, t)
    requires SupersResult(path, q, t, t1, d, Failed, inside, cyclic, x, n) && d in t1
    requires t1[d] == if inside && cyclic && x == d then Error else Loading
    requires aborted == (t1[d] == Error)
    ensures Result(path, q, t, t1[d := Error], d, if aborted then Aborted else Failed, inside && cyclic, x,
            if inside then n + 1 else 0)
  {
    hide Loadable, Next, Result, Spoilt, After;
    if !inside {
      DoesNotLink(path, q, t, t1, d, x, n);
    } else if aborted {
      LeadsBack(path, q, d, n);
      AbortedResult(path, q, t, t1[d := Error], d, x, n);
    } else {
      FailsBelow(path, q, t, t1, d, cyclic, x, n);
    }
  }

  lemma LeadsBack(path: ClassPath, q: Table, d: string, n: nat)
    requires Next(path, q, d).In? && Leads(path, q, Next(path, q, d).d, d, n)
    ensures Cyclic(path, q, d)
  {
    assert Leads(path, q, d, d, n + 1) && Leads(path, q, d, d, 0);
  }

  lemma AbortedResult(path: ClassPath, q: Table, t: Table, t1: Table, d: string, x: string, n: nat)
    requires Cyclic(path, q, d) && !Loadable(path, q, d)
    ensures Result(path, q, t, t1, d, Aborted, true, x, n + 1)
  {
  }

  // ---- requests from outside -----------------------------------------------------------------------------

  lemma Starts(path: ClassPath, q: Table, d: string)
    requires Quiet(q)
    ensures Agrees(path, q, q) && Clear(path, q, q, d)
  {
    if Loadable(path, q, d) {
      var n: nat :| LoadableWithin(path, q, d, n);
      assert Safe(path, q, q, d, n);
    }
  }

  lemma CyclicNeverEnds(path: ClassPath, q: Table, d: string, k: nat)
    requires Cyclic(path, q, d)
    ensures !EndsAt(path, q, d, k)
  {
    var x, n: nat, m: nat :| m > 0 && Leads(path, q, d, x, n) && Leads(path, q, x, x, m);
    if EndsAt(path, q, d, k) {
      EndsBeyond(path, q, d, x, n, k);
      CyclesDoNotEnd(path, q, x, m, k - n);
    }
  }

  lemma Outcomes(path: ClassPath, q: Table, t: Table, d: string, r: Outcome, cyclic: bool, x: string, n: nat)
    requires Quiet(q) && Result(path, q, q, t, d, r, cyclic, x, n)
    ensures r.Failed? <==> !Loadable(path, q, d) && Ends(path, q, d)
    ensures r.Aborted? <==> !Loadable(path, q, d) && Cyclic(path, q, d)
    ensures r.Found? || r.Failed? ==> Quiet(t)
    ensures r.Failed? ==> EndsAt(path, q, d, n) && MarkedAlong(path, q, t, d, n)
  {
    hide Loadable, Agrees, Cyclic, EndsAt, MarkedAlong, Leads;
    if Cyclic(path, q, d) {
      forall k: nat ensures !EndsAt(path, q, d, k) { CyclicNeverEnds(path, q, d, k); }
    }
    forall y ensures !IsLoading(q, y) {
    }
    if r.Found? {
      forall y | y in t ensures t[y] != Loading { assert !IsLoading(t, y); }
    } else if r.Failed? {
      assert !cyclic && EndsAt(path, q, d, n);
      forall y | y in t ensures t[y] != Loading { assert !IsLoading(q, y); }
    }
  }

  // ---- a cyclic hierarchy ------------------------------------------------------------------------------

  // Two classes that extend each other.
  const CYCLE: ClassPath := map["LA;" := ClassDef(["LB;"], {}, true), "LB;" := ClassDef(["LA;"], {}, true)]

  lemma {:induction false} CycleNotWithin(n: nat)
    ensures !LoadableWithin(CYCLE, map[], "LA;", n) && !LoadableWithin(CYCLE, map[], "LB;", n)
  {
    assert "LB;" in CYCLE["LA;"].supers && "LA;" in CYCLE["LB;"].supers;
    if n > 0 { CycleNotWithin(n - 1); }
  }

  // The causes of either class run round the cycle.
  lemma CycleIsCyclic(d: string)
    requires d in CYCLE
    ensures !Loadable(CYCLE, map[], d) && Cyclic(CYCLE, map[], d)
  {
    forall n: nat ensures !LoadableWithin(CYCLE, map[], "LA;", n) && !LoadableWithin(CYCLE, map[], "LB;", n) {
      CycleNotWithin(n);
    }
    var e := CYCLE[d].supers[0];
    assert Next(CYCLE, map[], d) == In(e) && Next(CYCLE, map[], e) == In(d);
    assert Leads(CYCLE, map[], d, d, 0);
    assert Leads(CYCLE, map[], e, d, 1);
    assert Leads(CYCLE, map[], d, d, 2);
  }

  /** The runtime does not survive a request for either of two classes that extend each other: the class
      at which the cycle is found is made erroneous twice. */
  method CyclicHierarchyAborts(d: string) returns (r: Outcome)
    requires d in CYCLE
    ensures r == Aborted
  {
    CycleIsCyclic(d);
    var linker := new ClassLinker(CYCLE);
    r := linker.Load(d);
  }
}
