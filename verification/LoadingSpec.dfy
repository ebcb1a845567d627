/** What single-threaded class loading is for: which descriptors can be loaded from a class path and a
    table of classes, and, when one cannot, what it fails on. */
module LoadingSpec {
  import opened Sequences

  // Loading: in the table, not linked yet. Resolved stands for every later status.
  datatype Status = Loading | Resolved | Error

  /** A class as a dex file describes it: the superclass, if any, and then the interfaces; those of them
      it may not access; and whether `LinkClass` will succeed once they are loaded. */
  datatype ClassDef = ClassDef(supers: seq<string>, hidden: set<string>, links: bool)

  type ClassPath = map<string, ClassDef>
  type Table = map<string, Status>

  predicate IsPrimitive(d: string) { |d| == 1 }

  predicate PrimitiveExists(d: string)
    requires IsPrimitive(d)
  {
    d[0] in "BCDFIJSZV"
  }

  predicate IsArray(d: string) { |d| > 1 && d[0] == '[' }

  // Descriptors are not empty.
  ghost predicate PathOk(path: ClassPath) {
    forall d, e :: d in path && e in path[d].supers ==> e != ""
  }

  // No class of the table is being loaded.
  ghost predicate Quiet(table: Table) { forall d :: d in table ==> table[d] != Loading }

  // ---- loadable classes ----------------------------------------------------------------------------

  /** The class is in the table and fine, or it can be made from classes that are so within n - 1 steps. */
  ghost predicate LoadableWithin(path: ClassPath, q: Table, d: string, n: nat)
    decreases n
  {
    if IsPrimitive(d) then PrimitiveExists(d)
    else if d in q then q[d] == Resolved
    else
      n > 0 &&
      if IsArray(d) then LoadableWithin(path, q, d[1..], n - 1)
      else
        && d in path && path[d].links
        && forall e :: e in path[d].supers ==> e !in path[d].hidden && LoadableWithin(path, q, e, n - 1)
  }

  ghost predicate Loadable(path: ClassPath, q: Table, d: string) { exists n: nat :: LoadableWithin(path, q, d, n) }

  lemma {:induction false} WithinGrows(path: ClassPath, q: Table, d: string, n: nat, m: nat)
    requires LoadableWithin(path, q, d, n) && n <= m
    ensures LoadableWithin(path, q, d, m)
    decreases n
  {
    if IsPrimitive(d) || d in q {
    } else if IsArray(d) {
      WithinGrows(path, q, d[1..], n - 1, m - 1);
    } else {
      forall e | e in path[d].supers ensures LoadableWithin(path, q, e, m - 1) {
        WithinGrows(path, q, e, n - 1, m - 1);
      }
    }
  }

  // The least number of steps.
  lemma {:induction false} LeastWithin(path: ClassPath, q: Table, d: string, n: nat) returns (m: nat)
    requires LoadableWithin(path, q, d, n)
    ensures m <= n && LoadableWithin(path, q, d, m) && (m > 0 ==> !LoadableWithin(path, q, d, m - 1))
  {
    if n > 0 && LoadableWithin(path, q, d, n - 1) { m := LeastWithin(path, q, d, n - 1); } else { m := n; }
  }

  // A class whose parts can all be loaded can be loaded.
  lemma {:induction false} AllWithin(path: ClassPath, q: Table, supers: seq<string>) returns (n: nat)
    requires forall e :: e in supers ==> Loadable(path, q, e)
    ensures forall e :: e in supers ==> LoadableWithin(path, q, e, n)
  {
    if supers == [] {
      n := 0;
    } else {
      var last := |supers| - 1;
      var a := AllWithin(path, q, supers[..last]);
      assert Loadable(path, q, supers[last]) && forall e :: e in supers[..last] ==> e in supers;
      var b: nat :| LoadableWithin(path, q, supers[last], b);
      n := if a <= b then b else a;
      forall e | e in supers ensures LoadableWithin(path, q, e, n) {
        if e in supers[..last] { WithinGrows(path, q, e, a, n); } else { WithinGrows(path, q, e, b, n); }
      }
    }
  }

  // Loadable as a fixed point.
  lemma LoadableUnfolds(path: ClassPath, q: Table, d: string)
    requires !IsPrimitive(d) && d !in q
    ensures Loadable(path, q, d) <==>
              if IsArray(d) then Loadable(path, q, d[1..])
              else
                && d in path && path[d].links
                && forall e :: e in path[d].supers ==> e !in path[d].hidden && Loadable(path, q, e)
  {
    if Loadable(path, q, d) {
      var n: nat :| LoadableWithin(path, q, d, n);
      assert IsArray(d) ==> LoadableWithin(path, q, d[1..], n - 1);
      assert !IsArray(d) ==> forall e :: e in path[d].supers ==> LoadableWithin(path, q, e, n - 1);
    }
    if IsArray(d) && Loadable(path, q, d[1..]) {
      var n: nat :| LoadableWithin(path, q, d[1..], n);
      assert LoadableWithin(path, q, d, n + 1);
    }
    if !IsArray(d) && d in path && path[d].links
       && forall e :: e in path[d].supers ==> e !in path[d].hidden && Loadable(path, q, e)
    {
      var n := AllWithin(path, q, path[d].supers);
      assert LoadableWithin(path, q, d, n + 1);
    }
  }

  // ---- what a failure is due to -----------------------------------------------------------------------

  datatype Cause = Here | In(d: string)

  // The first of the supers that is hidden or cannot be loaded.
  ghost function FirstBad(path: ClassPath, q: Table, supers: seq<string>, hidden: set<string>): (i: nat)
    ensures i <= |supers|
    ensures i < |supers| ==> supers[i] in hidden || !Loadable(path, q, supers[i])
    ensures forall k :: 0 <= k < i ==> supers[k] !in hidden && Loadable(path, q, supers[k])
  {
    if supers == [] || supers[0] in hidden || !Loadable(path, q, supers[0]) then 0
    else 1 + FirstBad(path, q, supers[1..], hidden)
  }

  /** Where the reason lies that a class cannot be loaded: with itself, or with the first class it needs
      that cannot be loaded either. */
  ghost function Next(path: ClassPath, q: Table, d: string): Cause {
    if |d| <= 1 || d in q then Here
    else if IsArray(d) then In(d[1..])
    else if d !in path then Here
    else
      var i := FirstBad(path, q, path[d].supers, path[d].hidden);
      if i < |path[d].supers| && !Loadable(path, q, path[d].supers[i]) then In(path[d].supers[i]) else Here
  }

  // Following the causes for n steps ends.
  ghost predicate EndsAt(path: ClassPath, q: Table, d: string, n: nat)
    decreases n
  {
    var next := Next(path, q, d);
    if n == 0 then next.Here? else next.In? && EndsAt(path, q, next.d, n - 1)
  }

  // The causes end.
  ghost predicate Ends(path: ClassPath, q: Table, d: string) { exists n: nat :: EndsAt(path, q, d, n) }

  // Following the causes for n steps leads to x.
  ghost predicate Leads(path: ClassPath, q: Table, d: string, x: string, n: nat)
    decreases n
  {
    if n == 0 then d == x
    else
      var next := Next(path, q, d);
      next.In? && Leads(path, q, next.d, x, n - 1)
  }

  lemma {:induction false} EndsBeyond(path: ClassPath, q: Table, d: string, x: string, n: nat, k: nat)
    requires Leads(path, q, d, x, n) && EndsAt(path, q, d, k)
    ensures n <= k && EndsAt(path, q, x, k - n)
    decreases n
  {
    if n > 0 { EndsBeyond(path, q, Next(path, q, d).d, x, n - 1, k - 1); }
  }

  // A cycle of causes has no end.
  lemma {:induction false} CyclesDoNotEnd(path: ClassPath, q: Table, x: string, m: nat, k: nat)
    requires Leads(path, q, x, x, m) && m > 0
    ensures !EndsAt(path, q, x, k)
    decreases k
  {
    if EndsAt(path, q, x, k) {
      EndsBeyond(path, q, x, x, m, k);
      CyclesDoNotEnd(path, q, x, m, k - m);
    }
  }

  // The causes are themselves classes that cannot be loaded.
  lemma CauseIsBad(path: ClassPath, q: Table, d: string)
    requires Next(path, q, d).In? && !Loadable(path, q, d)
    ensures DependsOn(path, q, d, Next(path, q, d).d) && !Loadable(path, q, Next(path, q, d).d)
  {
    LoadableUnfolds(path, q, d);
  }

  // ---- loadable means present and acyclic ---------------------------------------------------------------

  // x is one of the classes that d is made from.
  predicate DependsOn(path: ClassPath, q: Table, d: string, x: string) {
    |d| > 1 && d !in q && if IsArray(d) then x == d[1..] else d in path && x in path[d].supers
  }

  ghost predicate Chain(path: ClassPath, q: Table, p: seq<string>) {
    p != [] && forall i :: 0 < i < |p| ==> DependsOn(path, q, p[i - 1], p[i])
  }

  lemma {:induction false} HeightsFall(path: ClassPath, q: Table, p: seq<string>, n: nat)
    requires Chain(path, q, p) && LoadableWithin(path, q, p[0], n)
    ensures |p| - 1 <= n && LoadableWithin(path, q, p[|p| - 1], n - (|p| - 1))
    decreases |p|
  {
    if |p| > 1 {
      var shorter := p[..|p| - 1];
      HeightsFall(path, q, shorter, n);
      assert DependsOn(path, q, p[|p| - 2], p[|p| - 1]);
    }
  }

  lemma ChainSlice(path: ClassPath, q: Table, p: seq<string>, i: nat, j: nat)
    requires Chain(path, q, p) && i <= j < |p|
    ensures Chain(path, q, p[i..j + 1]) && p[i..j + 1][0] == p[i] && p[i..j + 1][j - i] == p[j]
  {
    var c := p[i..j + 1];
    forall k | 0 < k < |c| ensures DependsOn(path, q, c[k - 1], c[k]) {
      assert DependsOn(path, q, p[(i + k) - 1], p[i + k]);
    }
  }

  /** Everything a loadable class depends on is present, passes its checks and can be loaded, and no
      chain of dependencies from it meets the same class twice. */
  lemma LoadableIsAcyclic(path: ClassPath, q: Table, p: seq<string>, i: nat, j: nat)
    requires Chain(path, q, p) && Loadable(path, q, p[0]) && i < j < |p|
    ensures p[i] != p[j] && Loadable(path, q, p[j])
  {
    var n: nat :| LoadableWithin(path, q, p[0], n);
    ChainSlice(path, q, p, 0, i);
    HeightsFall(path, q, p[0..i + 1], n);
    var m := LeastWithin(path, q, p[i], n - i);
    ChainSlice(path, q, p, i, j);
    HeightsFall(path, q, p[i..j + 1], m);
    if p[i] == p[j] { WithinGrows(path, q, p[i], m - (j - i), m - 1); }
  }

  // ---- present and acyclic means loadable ---------------------------------------------------------------

  // Nothing is wrong with the class itself, whatever becomes of the classes it is made from.
  predicate FineByItself(path: ClassPath, q: Table, d: string) {
    if IsPrimitive(d) then PrimitiveExists(d)
    else if d in q then q[d] == Resolved
    else IsArray(d) || (d in path && path[d].links && forall e :: e in path[d].supers ==> e !in path[d].hidden)
  }

  /** The closure of the class under superclasses, interfaces and array components is present, passes its
      checks, and has no cycle. */
  ghost predicate PresentAndAcyclic(path: ClassPath, q: Table, d: string) {
    forall p :: Chain(path, q, p) && p[0] == d ==> FineByItself(path, q, p[|p| - 1]) && Distinct(p)
  }

  // Everything a chain from d can meet: the ends of d and of what classes name as their supers.
  function Suffixes(s: string): set<string> { set i | 0 <= i <= |s| :: s[i..] }

  function Reachable(path: ClassPath, d: string): set<string> {
    Suffixes(d) + set x, e, i | x in path && e in path[x].supers && 0 <= i <= |e| :: e[i..]
  }

  lemma DependsWithin(path: ClassPath, q: Table, d: string, x: string, y: string)
    requires x in Reachable(path, d) && DependsOn(path, q, x, y)
    ensures y in Reachable(path, d)
  {
    if IsArray(x) {
      if x in Suffixes(d) {
        var i :| 0 <= i <= |d| && x == d[i..];
        assert y == d[i + 1..];
      } else {
        var z, e, i :| z in path && e in path[z].supers && 0 <= i <= |e| && x == e[i..];
        assert y == e[i + 1..];
      }
    } else {
      assert y == y[0..];
    }
  }

  lemma {:induction false} ChainWithin(path: ClassPath, q: Table, p: seq<string>, i: nat)
    requires Chain(path, q, p) && i < |p|
    ensures p[i] in Reachable(path, p[0])
  {
    if i == 0 {
      assert p[0] == p[0][0..];
    } else {
      ChainWithin(path, q, p, i - 1);
      DependsWithin(path, q, p[0], p[i - 1], p[i]);
    }
  }

  lemma {:induction false} DistinctFits(p: seq<string>, u: set<string>)
    requires Distinct(p) && forall i :: 0 <= i < |p| ==> p[i] in u
    ensures |p| <= |u|
  {
    if p != [] {
      var n := |p| - 1;
      DistinctFits(p[..n], u - {p[n]});
    }
  }

  // A class that is fine by itself is made from one that is not loadable, if it is not loadable.
  lemma BadPart(path: ClassPath, q: Table, d: string) returns (x: string)
    requires PathOk(path) && d != "" && FineByItself(path, q, d) && !Loadable(path, q, d)
    ensures DependsOn(path, q, d, x) && !Loadable(path, q, x) && x != ""
  {
    if IsPrimitive(d) || d in q {
      assert LoadableWithin(path, q, d, 0);
    } else {
      LoadableUnfolds(path, q, d);
      if IsArray(d) { x := d[1..]; } else { x :| x in path[d].supers && !Loadable(path, q, x); }
    }
  }

  // A chain of classes that are not loadable could be prolonged for ever.
  lemma {:induction false} Prolongs(path: ClassPath, q: Table, p: seq<string>)
    requires PathOk(path) && Chain(path, q, p) && PresentAndAcyclic(path, q, p[0])
    requires p[|p| - 1] != "" && !Loadable(path, q, p[|p| - 1])
    ensures false
    decreases |Reachable(path, p[0])| - |p|
  {
    hide Loadable, Reachable, FineByItself, DependsOn;
    var last := p[|p| - 1];
    var x := BadPart(path, q, last);
    var longer := p + [x];
    forall i | 0 < i < |longer| ensures DependsOn(path, q, longer[i - 1], longer[i]) {
      if i < |p| { assert DependsOn(path, q, p[i - 1], p[i]); }
    }
    assert Chain(path, q, longer) && longer[0] == p[0];
    forall i: nat | i < |longer| ensures longer[i] in Reachable(path, p[0]) { ChainWithin(path, q, longer, i); }
    DistinctFits(longer, Reachable(path, p[0]));
    Prolongs(path, q, longer);
  }

  lemma ChainEndIsFine(path: ClassPath, q: Table, p: seq<string>)
    requires Chain(path, q, p) && Loadable(path, q, p[0])
    ensures FineByItself(path, q, p[|p| - 1]) && Distinct(p)
  {
    var n: nat :| LoadableWithin(path, q, p[0], n);
    HeightsFall(path, q, p, n);
    forall i, j | 0 <= i < j < |p| ensures p[i] != p[j] { LoadableIsAcyclic(path, q, p, i, j); }
  }

  /** A class can be loaded exactly when its closure is present, passes its checks, and has no cycle. */
  lemma LoadableExactly(path: ClassPath, q: Table, d: string)
    requires PathOk(path) && d != ""
    ensures Loadable(path, q, d) <==> PresentAndAcyclic(path, q, d)
  {
    if Loadable(path, q, d) {
      forall p | Chain(path, q, p) && p[0] == d ensures FineByItself(path, q, p[|p| - 1]) && Distinct(p) {
        ChainEndIsFine(path, q, p);
      }
    } else if PresentAndAcyclic(path, q, d) {
      assert Chain(path, q, [d]);
      Prolongs(path, q, [d]);
    }
  }
}
