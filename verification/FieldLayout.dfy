/** Field layout: `ClassLinker::LinkFields` and `ClassLinker::SizeOfClass`.

    The layout is specified independently of the code: a list of fields is placed naturally when each
    field starts at the first offset, after the field before it, that is a multiple of its size. */
module FieldLayout {
  import opened Alignment
  import opened Sequences

  datatype Kind = Ref | Wide | Narrow

  // `Primitive::GetType` on the first character of a descriptor, folded to what the layout needs.
  function KindOf(descriptor: string): Kind {
    if descriptor == "" then Ref
    else if descriptor[0] in "JD" then Wide
    else if descriptor[0] in "BCFISZV" then Narrow
    else Ref
  }

  // How `SizeOfClass` counts the same field.
  function CountedKind(descriptor: string): Kind {
    if descriptor == "" then Narrow
    else if descriptor[0] in "L[" then Ref
    else if descriptor[0] in "JD" then Wide
    else Narrow
  }

  // Every field descriptor of a valid dex file starts like this.
  predicate IsTypeDescriptor(descriptor: string) {
    descriptor != "" && descriptor[0] in "BCDFIJSZVL["
  }

  class ArtField {
    const name: string
    const descriptor: string
    var offset: nat

    constructor (name: string, descriptor: string)
      ensures this.name == name && this.descriptor == descriptor
    {
      this.name, this.descriptor, offset := name, descriptor, 0;
    }

    function Kind(): Kind { KindOf(descriptor) }
  }

  function Kinds(fields: seq<ArtField>): (ks: seq<Kind>)
    ensures |ks| == |fields| && forall i :: 0 <= i < |fields| ==> ks[i] == fields[i].Kind()
  {
    seq(|fields|, i requires 0 <= i < |fields| => fields[i].Kind())
  }

  // ---- natural placement ---------------------------------------------------------------------

  function Size(k: Kind): nat { if k.Wide? then 8 else 4 }

  // A multiple of the field's size.
  predicate IsNatural(x: nat, k: Kind) { if k.Wide? then x % 8 == 0 else x % 4 == 0 }

  // The first multiple of the field's size at or after x.
  function AlignFor(x: nat, k: Kind): nat { if k.Wide? then RoundUp(x, 8) else RoundUp(x, 4) }

  // Where the first i fields end.
  function EndAt(ks: seq<Kind>, start: nat, i: nat): nat
    requires i <= |ks|
  {
    if i == 0 then start else AlignFor(EndAt(ks, start, i - 1), ks[i - 1]) + Size(ks[i - 1])
  }

  function OffsetAt(ks: seq<Kind>, start: nat, i: nat): nat
    requires i < |ks|
  {
    AlignFor(EndAt(ks, start, i), ks[i])
  }

  function EndOf(ks: seq<Kind>, start: nat): nat { EndAt(ks, start, |ks|) }

  lemma NarrowAligned(x: nat)
    requires x % 4 == 0
    ensures RoundUp(x, 4) == x && (x + 4) % 4 == 0
  {
    hide RoundUp;
    RoundUpIsNext(x, 4);
    var a, b := x / 4, RoundUp(x, 4) / 4;
    assert x == 4 * a && RoundUp(x, 4) == 4 * b;
  }

  lemma Halves(x: nat) returns (h: nat, b: nat)
    requires x % 4 == 0
    ensures x == 8 * h + 4 * b && b <= 1
  {
    var a := x / 4;
    h, b := a / 2, a % 2;
  }

  lemma RemainderIs(x: nat, n: nat, q: nat, r: nat)
    requires (n == 4 || n == 8) && x == n * q + r && r < n
    ensures x % n == r
  {
  }

  lemma WideAligned(x: nat)
    requires x % 4 == 0
    ensures RoundUp(x, 8) == x + if x % 8 != 0 then 4 else 0
    ensures RoundUp(x, 8) % 8 == 0 && RoundUp(x, 8) % 4 == 0 && (RoundUp(x, 8) + 8) % 4 == 0
  {
    hide RoundUp;
    var h, b := Halves(x);
    RoundUpIsNext(x, 8);
    var c := RoundUp(x, 8) / 8;
    assert RoundUp(x, 8) == 8 * c && c == h + b;
    RemainderIs(x, 8, h, 4 * b);
    RemainderIs(RoundUp(x, 8), 4, 2 * c, 0);
    RemainderIs(RoundUp(x, 8) + 8, 4, 2 * c + 2, 0);
  }

  lemma AlignForIs(x: nat, k: Kind)
    requires x % 4 == 0
    ensures AlignFor(x, k) == x + if k.Wide? && x % 8 != 0 then 4 else 0
    ensures IsNatural(AlignFor(x, k), k) && AlignFor(x, k) % 4 == 0
    ensures (AlignFor(x, k) + Size(k)) % 4 == 0
  {
    hide RoundUp;
    if k.Wide? { WideAligned(x); } else { NarrowAligned(x); }
  }

  lemma {:induction false} EndsAreAligned(ks: seq<Kind>, start: nat, i: nat)
    requires i <= |ks| && start % 4 == 0
    ensures EndAt(ks, start, i) % 4 == 0 && EndAt(ks, start, i) >= start
    ensures i < |ks| ==>
              && IsNatural(OffsetAt(ks, start, i), ks[i])
              && OffsetAt(ks, start, i) ==
                 EndAt(ks, start, i) + if ks[i].Wide? && EndAt(ks, start, i) % 8 != 0 then 4 else 0
  {
    hide AlignFor;
    if i > 0 {
      EndsAreAligned(ks, start, i - 1);
      AlignForIs(EndAt(ks, start, i - 1), ks[i - 1]);
    }
    if i < |ks| { AlignForIs(EndAt(ks, start, i), ks[i]); }
  }

  /** Natural placement keeps fields apart, in order, aligned to their size, and between the end of
      the superclass's fields and the end of the object. */
  lemma {:induction false} SlotsAreDisjoint(ks: seq<Kind>, start: nat, i: nat, j: nat)
    requires i < j <= |ks| && start % 4 == 0
    ensures start <= OffsetAt(ks, start, i) && IsNatural(OffsetAt(ks, start, i), ks[i])
    ensures OffsetAt(ks, start, i) + Size(ks[i]) <= EndAt(ks, start, j)
    ensures j < |ks| ==> OffsetAt(ks, start, i) + Size(ks[i]) <= OffsetAt(ks, start, j)
    decreases j
  {
    hide AlignFor;
    EndsAreAligned(ks, start, i);
    EndsAreAligned(ks, start, j);
    if i < j - 1 {
      SlotsAreDisjoint(ks, start, i, j - 1);
      EndsAreAligned(ks, start, j - 1);
    }
  }

  // ---- the order `LinkFields` chooses ----------------------------------------------------------

  function Rank(f: ArtField): nat { if f.Kind().Ref? then 0 else if f.Kind().Wide? then 1 else 2 }

  predicate NameLess(a: string, b: string) {
    if b == "" then false
    else if a == "" then true
    else a[0] < b[0] || (a[0] == b[0] && NameLess(a[1..], b[1..]))
  }

  // `LinkFieldsComparator`.
  predicate Before(f: ArtField, g: ArtField) {
    Rank(f) < Rank(g) || (Rank(f) == Rank(g) && NameLess(f.name, g.name))
  }

  ghost predicate Sorted(fields: seq<ArtField>) {
    forall i, j :: 0 <= i < j < |fields| ==> !Before(fields[j], fields[i])
  }

  lemma {:induction false} NameOrder(a: string, b: string, c: string)
    ensures !NameLess(a, a)
    ensures NameLess(a, b) ==> !NameLess(b, a)
    ensures !NameLess(a, b) && !NameLess(b, a) ==> a == b
    ensures NameLess(a, b) && !NameLess(c, b) ==> NameLess(a, c)
    decreases |a| + |b| + |c|
  {
    if a != "" && b != "" && c != "" { NameOrder(a[1..], b[1..], c[1..]); }
    else if a != "" && b != "" { NameOrder(a[1..], b[1..], c); }
    else if a != "" { NameOrder(a[1..], b, c); }
  }

  lemma BeforeIsAnOrder(f: ArtField, g: ArtField, h: ArtField)
    ensures !Before(f, f)
    ensures Before(f, g) ==> !Before(g, f)
    ensures Before(f, g) && !Before(h, g) ==> Before(f, h)
  {
    NameOrder(f.name, g.name, h.name);
  }

  lemma {:induction false} NameLessIs(a: string, b: string)
    ensures NameLess(a, b) <==> Precedes(a, b, CharLess)
  {
    hide Precedes;
    if a == "" || b == "" { EmptyPrecedes(a, b, CharLess); }
    else if a[0] == b[0] {
      PrecedesLater(a, b, CharLess);
      NameLessIs(a[1..], b[1..]);
    } else {
      PrecedesAtOnce(a, b, CharLess);
    }
  }

  // Fields of one kind are in the order of their names.
  ghost predicate NamesAscend(fields: seq<ArtField>) {
    forall i, j :: 0 <= i < j < |fields| && fields[i].Kind() == fields[j].Kind() ==>
                     fields[i].name == fields[j].name || Precedes(fields[i].name, fields[j].name, CharLess)
  }

  /** The references, the 64-bit and the 32-bit fields are each in the order of their names. */
  lemma SortedByName(sorted: seq<ArtField>)
    requires Sorted(sorted)
    ensures NamesAscend(sorted)
  {
    hide Precedes, NameLess;
    forall i, j | 0 <= i < j < |sorted| && sorted[i].Kind() == sorted[j].Kind()
      ensures sorted[i].name == sorted[j].name || Precedes(sorted[i].name, sorted[j].name, CharLess)
    {
      assert !Before(sorted[j], sorted[i]);
      NameOrder(sorted[j].name, sorted[i].name, "");
      NameLessIs(sorted[i].name, sorted[j].name);
    }
  }

  // The number of references at the front.
  function Leading(fields: seq<ArtField>): (n: nat)
    ensures n <= |fields| && (n < |fields| ==> !fields[n].Kind().Ref?)
    ensures forall i :: 0 <= i < n ==> fields[i].Kind().Ref?
  {
    if fields == [] || !fields[0].Kind().Ref? then 0 else 1 + Leading(fields[1..])
  }

  // The first 32-bit field at or after n, or the number of fields.
  function FirstNarrow(fields: seq<ArtField>, n: nat): (at: nat)
    requires n <= |fields|
    ensures n <= at <= |fields| && (at < |fields| ==> fields[at].Kind().Narrow?)
    ensures forall i :: n <= i < at ==> !fields[i].Kind().Narrow?
    decreases |fields| - n
  {
    if n == |fields| || fields[n].Kind().Narrow? then n else FirstNarrow(fields, n + 1)
  }

  // Element `at` pulled forward to position n.
  function Pull<T>(s: seq<T>, n: nat, at: nat): (p: seq<T>)
    requires n <= at < |s|
    ensures |p| == |s|
    ensures forall i :: 0 <= i < |s| ==> p[i] == if i < n || i > at then s[i] else if i == n then s[at] else s[i - 1]
  {
    s[..n] + [s[at]] + s[n..at] + s[at + 1..]
  }

  /** The order in which the sorted fields are laid out: when the references end off an 8-byte
      boundary, one 32-bit field is pulled forward. */
  function Arranged(sorted: seq<ArtField>, start: nat): seq<ArtField> {
    var n := Leading(sorted);
    var at := FirstNarrow(sorted, n);
    if (start + 4 * n) % 8 != 0 && at < |sorted| then Pull(sorted, n, at) else sorted
  }

  /** `std::sort` with the comparator: some sorted arrangement of the same fields. Fields of one class
      may share a name and differ in type, so this need not be the only one. */
  method Sort(fields: seq<ArtField>) returns (sorted: seq<ArtField>)
    ensures Sorted(sorted) && multiset(sorted) == multiset(fields)
  {
    sorted := [];
    for i := 0 to |fields|
      invariant Sorted(sorted) && multiset(sorted) == multiset(fields[..i])
    {
      var at := |sorted|;
      while at > 0 && Before(fields[i], sorted[at - 1])
        invariant 0 <= at <= |sorted|
        invariant forall k :: at <= k < |sorted| ==> Before(fields[i], sorted[k])
      {
        at := at - 1;
      }
      InsertSorted(sorted, fields[i], at);
      InsertContents(sorted, fields[i], at);
      assert fields[..i + 1] == fields[..i] + [fields[i]];
      sorted := sorted[..at] + [fields[i]] + sorted[at..];
    }
    assert fields[..|fields|] == fields;
  }

  lemma InsertContents(s: seq<ArtField>, f: ArtField, at: nat)
    requires at <= |s|
    ensures multiset(s[..at] + [f] + s[at..]) == multiset(s) + multiset{f}
  {
    assert s == s[..at] + s[at..];
  }

  lemma InsertSorted(s: seq<ArtField>, f: ArtField, at: nat)
    requires Sorted(s) && at <= |s|
    requires at > 0 ==> !Before(f, s[at - 1])
    requires forall k :: at <= k < |s| ==> Before(f, s[k])
    ensures Sorted(s[..at] + [f] + s[at..])
  {
    hide Before;
    forall k | 0 <= k < at ensures !Before(f, s[k]) { BeforeIsAnOrder(f, s[k], s[at - 1]); }
    forall k | at <= k < |s| ensures !Before(s[k], f) { BeforeIsAnOrder(f, s[k], f); }
  }

  // ---- what the arrangement achieves -----------------------------------------------------------

  // r references, one 32-bit field if pulled forward, w wide fields, then 32-bit fields.
  ghost predicate Shape(ks: seq<Kind>, r: nat, w: nat, pulled: nat) {
    && pulled <= 1 && r + pulled + w <= |ks|
    && forall i :: 0 <= i < |ks| ==>
         ks[i] == if i < r then Ref else if i < r + pulled then Narrow else if i < r + pulled + w then Wide else Narrow
  }

  ghost function Pulled(ks: seq<Kind>, r: nat, w: nat, start: nat): nat {
    if (start + 4 * r) % 8 != 0 && r + w < |ks| then 1 else 0
  }

  function Occurrences(ks: seq<Kind>, k: Kind): nat { multiset(ks)[k] }

  lemma {:induction false} ShapeCounts(ks: seq<Kind>, r: nat, w: nat, pulled: nat, i: nat)
    requires Shape(ks, r, w, pulled) && i <= |ks|
    ensures Occurrences(ks[..i], Ref) == if i <= r then i else r
    ensures Occurrences(ks[..i], Wide) ==
            if i <= r + pulled then 0 else if i <= r + pulled + w then i - r - pulled else w
    ensures Occurrences(ks[..i], Narrow) == i - Occurrences(ks[..i], Ref) - Occurrences(ks[..i], Wide)
  {
    if i > 0 {
      ShapeCounts(ks, r, w, pulled, i - 1);
      assert ks[..i] == ks[..i - 1] + [ks[i - 1]];
    }
  }

  function Hole(start: nat, r: nat, w: nat, n: nat): nat {
    if (start + 4 * r) % 8 != 0 && w > 0 && n == 0 then 4 else 0
  }

  // Behind the references and what fills the gap, 64-bit fields start on 8-byte boundaries.
  lemma WideIsEven(start: nat, r: nat, p: nat, h: nat, k: nat)
    requires start % 4 == 0
    requires if (start + 4 * r) % 8 == 0 then p == h == 0 else 4 * p + h == 4
    ensures (start + 4 * (r + p) + h + 8 * k) % 8 == 0
  {
    RemainderIs(start + 4 * r, 4, start / 4 + r, 0);
    var q, b := Halves(start + 4 * r);
    RemainderIs(start + 4 * r, 8, q, 4 * b);
    RemainderIs(start + 4 * (r + p) + h + 8 * k, 8, q + b + k, 0);
  }

  lemma {:induction false} ShapeEnds(ks: seq<Kind>, start: nat, r: nat, w: nat, i: nat)
    requires start % 4 == 0 && i <= |ks| && r + w <= |ks|
    requires Shape(ks, r, w, Pulled(ks, r, w, start))
    ensures var p, h := Pulled(ks, r, w, start), Hole(start, r, w, |ks| - r - w);
            && EndAt(ks, start, i) ==
               (if i <= r + p then start + 4 * i
                else if i <= r + p + w then start + 4 * (r + p) + h + 8 * (i - r - p)
                else start + 4 * i + h + 4 * w)
            && (i < |ks| ==> OffsetAt(ks, start, i) == EndAt(ks, start, i) + if i == r then h else 0)
  {
    hide AlignFor, IsNatural;
    var p := Pulled(ks, r, w, start);
    if i > 0 { ShapeEnds(ks, start, r, w, i - 1); }
    EndsAreAligned(ks, start, i);
    if r + p <= i {
      WideIsEven(start, r, p, if (start + 4 * r) % 8 == 0 then 0 else 4 - 4 * p, i - r - p);
    }
  }

  lemma RanksAscend(sorted: seq<ArtField>, i: nat, j: nat)
    requires Sorted(sorted) && i < j < |sorted|
    ensures Rank(sorted[i]) <= Rank(sorted[j])
  {
    assert !Before(sorted[j], sorted[i]);
  }

  lemma SortedShape(sorted: seq<ArtField>, r: nat, at: nat)
    requires Sorted(sorted) && r == Leading(sorted) && at == FirstNarrow(sorted, r)
    ensures Shape(Kinds(sorted), r, at - r, 0)
  {
    hide Sorted;
    forall i | r <= i < |sorted| ensures !sorted[i].Kind().Ref? {
      if i > r { RanksAscend(sorted, r, i); }
    }
    forall i | at <= i < |sorted| ensures sorted[i].Kind().Narrow? {
      if i > at { RanksAscend(sorted, at, i); }
    }
  }

  lemma PulledShape(sorted: seq<ArtField>, r: nat, at: nat)
    requires r <= at < |sorted| && Shape(Kinds(sorted), r, at - r, 0)
    ensures Shape(Kinds(Pull(sorted, r, at)), r, at - r, 1)
  {
    hide Pull;
    var ks, ps := Kinds(sorted), Kinds(Pull(sorted, r, at));
    forall i | 0 <= i < |ps|
      ensures ps[i] == if i < r then Ref else if i < r + 1 then Narrow else if i <= at then Wide else Narrow
    {
      if i == r { assert ps[i] == ks[at]; }
      else if r < i <= at { assert ps[i] == ks[i - 1]; }
      else { assert ps[i] == ks[i]; }
    }
  }

  lemma ArrangedShape(sorted: seq<ArtField>, start: nat) returns (r: nat, w: nat)
    requires Sorted(sorted)
    ensures r == Leading(sorted) && r + w == FirstNarrow(sorted, r)
    ensures var ks := Kinds(Arranged(sorted, start));
            |ks| == |sorted| && Shape(ks, r, w, Pulled(ks, r, w, start))
  {
    hide Sorted, Shape, Pull, Leading, FirstNarrow, Kinds;
    r := Leading(sorted);
    w := FirstNarrow(sorted, r) - r;
    SortedShape(sorted, r, r + w);
    if r + w < |sorted| { PulledShape(sorted, r, r + w); }
  }

  lemma TakeOut<T>(s: seq<T>, i: nat)
    requires i < |s|
    ensures multiset(s) == multiset(s[..i] + s[i + 1..]) + multiset{s[i]}
  {
    assert s == s[..i] + [s[i]] + s[i + 1..];
  }

  lemma {:induction false} DistinctOnce<T>(s: seq<T>, x: T)
    requires Distinct(s)
    ensures multiset(s)[x] <= 1
  {
    if s != [] {
      DistinctOnce(s[1..], x);
      assert s == [s[0]] + s[1..];
      if s[0] == x { assert x !in s[1..]; }
    }
  }

  lemma TwiceInMultiset<T>(s: seq<T>, i: nat, j: nat)
    requires i < j < |s| && s[i] == s[j]
    ensures multiset(s)[s[i]] >= 2
  {
    assert s == s[..j] + s[j..];
    assert s[i] in s[..j] && s[j] in s[j..];
  }

  lemma SamePermuted<T>(a: seq<T>, b: seq<T>)
    requires multiset(a) == multiset(b) && Distinct(a)
    ensures |a| == |b| && Distinct(b) && forall x :: x in b ==> x in a
  {
    assert |a| == |multiset(a)| && |b| == |multiset(b)|;
    forall i, j | 0 <= i < j < |b| ensures b[i] != b[j] {
      DistinctOnce(a, b[i]);
      if b[i] == b[j] { TwiceInMultiset(b, i, j); }
    }
    forall x | x in b ensures x in a { assert x in multiset(a); }
  }

  lemma PullContents<T>(s: seq<T>, n: nat, at: nat)
    requires n <= at < |s|
    ensures multiset(Pull(s, n, at)) == multiset(s)
  {
    TakeOut(s, at);
    TakeOut(Pull(s, n, at), n);
    assert Pull(s, n, at)[..n] + Pull(s, n, at)[n + 1..] == s[..at] + s[at + 1..];
  }

  lemma ArrangedContents(sorted: seq<ArtField>, start: nat)
    ensures multiset(Arranged(sorted, start)) == multiset(sorted)
  {
    hide Pull;
    var n := Leading(sorted);
    var at := FirstNarrow(sorted, n);
    if (start + 4 * n) % 8 != 0 && at < |sorted| { PullContents(sorted, n, at); }
  }

  lemma SameRest<T>(a: seq<T>, b: seq<T>, i: nat)
    requires multiset(a) == multiset(b) && a != [] && i < |b| && b[i] == a[0]
    ensures multiset(a[..0] + a[1..]) == multiset(b[..i] + b[i + 1..])
  {
    TakeOut(a, 0);
    TakeOut(b, i);
    assert multiset(a[..0] + a[1..]) == multiset(a) - multiset{a[0]};
    assert multiset(b[..i] + b[i + 1..]) == multiset(b) - multiset{a[0]};
  }

  lemma {:induction false} KindsOfSameFields(a: seq<ArtField>, b: seq<ArtField>)
    requires multiset(a) == multiset(b)
    ensures multiset(Kinds(a)) == multiset(Kinds(b))
  {
    if a == [] {
      assert |b| == |multiset(b)| == 0;
    } else {
      assert a[0] in multiset(b);
      var i :| 0 <= i < |b| && b[i] == a[0];
      SameRest(a, b, i);
      KindsOfSameFields(a[..0] + a[1..], b[..i] + b[i + 1..]);
      KindsWithout(a, 0);
      KindsWithout(b, i);
    }
  }

  lemma KindsWithout(a: seq<ArtField>, i: nat)
    requires i < |a|
    ensures multiset(Kinds(a)) == multiset(Kinds(a[..i] + a[i + 1..])) + multiset{a[i].Kind()}
  {
    TakeOut(Kinds(a), i);
    assert Kinds(a[..i] + a[i + 1..]) == Kinds(a)[..i] + Kinds(a)[i + 1..];
  }

  ghost predicate Comparable(fields: seq<ArtField>) {
    forall f, g :: f in fields && g in fields && f != g ==> Before(f, g) || Before(g, f)
  }

  lemma HeadsAgree(a: seq<ArtField>, b: seq<ArtField>)
    requires Sorted(a) && Sorted(b) && multiset(a) == multiset(b) && Comparable(a) && a != []
    ensures b != [] && a[0] == b[0]
  {
    hide Before;
    assert a[0] in multiset(b);
    var i :| 0 <= i < |b| && b[i] == a[0];
    assert b[0] in multiset(a);
    var j :| 0 <= j < |a| && a[j] == b[0];
    assert i > 0 ==> !Before(b[i], b[0]);
    assert j > 0 ==> !Before(a[j], a[0]);
  }

  lemma TailsAgree(a: seq<ArtField>, b: seq<ArtField>)
    requires Sorted(a) && Sorted(b) && multiset(a) == multiset(b) && Comparable(a) && a != [] && b != [] && a[0] == b[0]
    ensures Sorted(a[1..]) && Sorted(b[1..]) && multiset(a[1..]) == multiset(b[1..]) && Comparable(a[1..])
  {
    hide Before;
    assert a == [a[0]] + a[1..] && b == [b[0]] + b[1..];
    assert multiset(a[1..]) == multiset(a) - multiset{a[0]};
    assert multiset(b[1..]) == multiset(b) - multiset{a[0]};
  }

  /** The order does not depend on the order in which the dex file lists the fields, unless two fields
      of the same group share a name. */
  lemma {:induction false} OrderIsStable(a: seq<ArtField>, b: seq<ArtField>)
    requires Sorted(a) && Sorted(b) && multiset(a) == multiset(b) && Comparable(a)
    ensures a == b
  {
    hide Sorted, Comparable;
    if a == [] {
      assert |b| == |multiset(b)| == 0;
    } else {
      HeadsAgree(a, b);
      TailsAgree(a, b);
      OrderIsStable(a[1..], b[1..]);
    }
  }

  // The size after r references, w wide and n 32-bit fields laid out from start.
  function SizeByCounting(start: nat, ks: seq<Kind>): nat {
    var r, w, n := Occurrences(ks, Ref), Occurrences(ks, Wide), Occurrences(ks, Narrow);
    start + 4 * r + 8 * w + 4 * n + Hole(start, r, w, n)
  }

  /** `LinkFields` wastes at most one word: the references come first, and there is a hole of four bytes
      after them exactly when they end off an 8-byte boundary, a 64-bit field follows and no 32-bit
      field could fill it. */
  lemma LayoutIsTight(fields: seq<ArtField>, sorted: seq<ArtField>, start: nat)
    requires Sorted(sorted) && multiset(sorted) == multiset(fields) && start % 4 == 0
    ensures var ks, r := Kinds(Arranged(sorted, start)), Occurrences(Kinds(fields), Ref);
            && |ks| == |fields|
            && (forall i :: 0 <= i < |ks| ==> (ks[i].Ref? <==> i < r))
            && (forall i :: 0 <= i < |ks| ==>
                  OffsetAt(ks, start, i) == EndAt(ks, start, i) +
                    if i == r then Hole(start, r, Occurrences(Kinds(fields), Wide), Occurrences(Kinds(fields), Narrow))
                    else 0)
            && EndOf(ks, start) == SizeByCounting(start, Kinds(fields))
  {
    hide OffsetAt, EndAt, Shape, Sorted, Arranged;
    var r, w := ArrangedShape(sorted, start);
    var ks := Kinds(Arranged(sorted, start));
    ArrangedContents(sorted, start);
    KindsOfSameFields(Arranged(sorted, start), fields);
    ShapeCounts(ks, r, w, Pulled(ks, r, w, start), |ks|);
    assert ks[..|ks|] == ks && |Kinds(fields)| == |multiset(Kinds(fields))| == |multiset(ks)| == |ks|;
    assert Occurrences(Kinds(fields), Narrow) == |ks| - r - w;
    ShapeEnds(ks, start, r, w, |ks|);
    forall i | 0 <= i < |ks|
      ensures ks[i].Ref? <==> i < r
      ensures OffsetAt(ks, start, i) == EndAt(ks, start, i) + if i == r then Hole(start, r, w, |ks| - r - w) else 0
    {
      ShapeEnds(ks, start, r, w, i);
      ShapeAt(ks, r, w, Pulled(ks, r, w, start), i);
    }
  }

  lemma ShapeAt(ks: seq<Kind>, r: nat, w: nat, pulled: nat, i: nat)
    requires Shape(ks, r, w, pulled) && i < |ks|
    ensures ks[i].Ref? <==> i < r
  {
  }

  // ---- the methods -----------------------------------------------------------------------------

  // The comparator puts "referent" last in java.lang.ref.Reference, whose fields are all references.
  predicate ReferentIsLast(fields: seq<ArtField>) {
    fields != [] && (forall f :: f in fields ==> f.Kind().Ref?) && fields[|fields| - 1].name == "referent"
  }

  // So "referent" is among the names, and none comes after it.
  ghost predicate ReferentIsGreatest(fields: seq<ArtField>) {
    && (forall f :: f in fields ==>
         f.Kind().Ref? && (f.name == "referent" || Precedes(f.name, "referent", CharLess)))
    && exists f :: f in fields && f.name == "referent"
  }

  /** The checks on java.lang.ref.Reference pass exactly when all its fields are references and "referent"
      is the last of their names. */
  lemma ReferentEndsTheOrder(fields: seq<ArtField>, sorted: seq<ArtField>, start: nat)
    requires Sorted(sorted) && multiset(sorted) == multiset(fields)
    ensures ReferentIsLast(Arranged(sorted, start)) <==> ReferentIsGreatest(fields)
  {
    hide Sorted, Arranged, Leading, FirstNarrow, Precedes;
    SortedByName(sorted);
    OnlyReferences(sorted, start);
    ArrangedParts(sorted, start);
    assert forall f :: f in fields <==> f in multiset(fields);
    assert forall f :: f in sorted <==> f in multiset(sorted);
    ArrangedContents(sorted, start);
    assert forall f :: f in Arranged(sorted, start) <==> f in multiset(Arranged(sorted, start));
    if Leading(sorted) == |sorted| {
      AllLeading(sorted);
      GreatestIsLast(sorted);
    }
  }

  lemma AllLeading(sorted: seq<ArtField>)
    requires Leading(sorted) == |sorted|
    ensures FirstNarrow(sorted, |sorted|) == |sorted|
  {
  }

  lemma GreatestIsLast(sorted: seq<ArtField>)
    requires NamesAscend(sorted) && forall f :: f in sorted ==> f.Kind().Ref?
    ensures ReferentIsLast(sorted) <==> ReferentIsGreatest(sorted)
  {
    hide Precedes;
    if ReferentIsGreatest(sorted) {
      var i :| 0 <= i < |sorted| && sorted[i].name == "referent";
      var last := sorted[|sorted| - 1].name;
      assert sorted[|sorted| - 1] in sorted;
      if last != "referent" {
        PrecedesOnce(last, "referent");
      }
    }
  }

  lemma PrecedesOnce(a: string, b: string)
    requires Precedes(a, b, CharLess)
    ensures !Precedes(b, a, CharLess) && a != b
  {
    NameLessIs(a, b);
    NameLessIs(b, a);
    NameOrder(a, b, "");
  }

  /** They pass for the fields java.lang.ref.Reference has. */
  lemma ReferenceFieldsAreFine(fields: seq<ArtField>)
    requires forall f :: f in fields ==>
               f.Kind().Ref? && f.name in {"pendingNext", "queue", "queueNext", "referent"}
    requires exists f :: f in fields && f.name == "referent"
    ensures ReferentIsGreatest(fields)
  {
    assert Differ("pendingNext", "referent", 0) && Differ("queue", "referent", 0) && Differ("queueNext", "referent", 0);
  }

  ghost predicate PlacedTo(order: seq<ArtField>, start: nat, n: nat)
    requires n <= |order|
    reads order
  {
    forall i :: 0 <= i < n ==> order[i].offset == OffsetAt(Kinds(order), start, i)
  }

  // The first `current` fields are where they belong.
  ghost predicate Progress(fields: array<ArtField>, order: seq<ArtField>, start: nat, current: nat)
    reads fields, order
  {
    && current <= |order| == fields.Length && Distinct(order)
    && fields[..current] == order[..current] && PlacedTo(order, start, current)
  }

  // The field takes the next place of the array and its offset.
  method Place(fields: array<ArtField>, current: nat, field: ArtField, fieldOffset: nat, ghost order: seq<ArtField>,
               ghost start: nat)
    requires Progress(fields, order, start, current) && current < |order| && order[current] == field
    requires fieldOffset == OffsetAt(Kinds(order), start, current)
    modifies fields, field
    ensures Progress(fields, order, start, current + 1)
  {
    hide OffsetAt;
    fields[current] := field;
    field.offset := fieldOffset;
    assert fields[..current + 1] == fields[..current] + [field];
    assert fields[..current] == order[..current];
  }

  // Where the next field starts once the references are placed.
  ghost function NextAt(ks: seq<Kind>, start: nat, i: nat): nat
    requires i <= |ks|
  {
    if i < |ks| then OffsetAt(ks, start, i) else EndAt(ks, start, i)
  }

  lemma EndFollows(ks: seq<Kind>, start: nat, i: nat)
    requires i < |ks|
    ensures EndAt(ks, start, i + 1) == OffsetAt(ks, start, i) + Size(ks[i])
  {
  }

  // After the references every field but the first starts where the one before it ends.
  lemma NextFollows(ks: seq<Kind>, start: nat, r: nat, w: nat, i: nat)
    requires start % 4 == 0 && r + w <= |ks| && Shape(ks, r, w, Pulled(ks, r, w, start))
    ensures i < r <= |ks| ==> OffsetAt(ks, start, i) == start + 4 * i && ks[i].Ref?
    ensures i == r ==> NextAt(ks, start, i) == start + 4 * r + Hole(start, r, w, |ks| - r - w)
    ensures r <= i < |ks| ==> NextAt(ks, start, i + 1) == NextAt(ks, start, i) + Size(ks[i]) && !ks[i].Ref?
  {
    hide OffsetAt;
    if i <= |ks| { ShapeEnds(ks, start, r, w, i); }
    if i < |ks| {
      ShapeEnds(ks, start, r, w, i + 1);
      EndFollows(ks, start, i);
    }
  }

  // What the three phases know about the final order: r references, w wide fields, and the rest.
  ghost predicate Plan(order: seq<ArtField>, start: nat, r: nat, w: nat) {
    start % 4 == 0 && r + w <= |order| && Shape(Kinds(order), r, w, Pulled(Kinds(order), r, w, start))
  }

  // References at the front.
  method PlaceReferences(fields: array<ArtField>, sorted: seq<ArtField>, start: nat, ghost order: seq<ArtField>,
                         ghost w: nat)
    returns (grouped: seq<ArtField>, current: nat, fieldOffset: nat)
    requires Progress(fields, order, start, 0) && |sorted| == |order|
    requires Plan(order, start, Leading(sorted), w) && order[..Leading(sorted)] == sorted[..Leading(sorted)]
    modifies fields, order
    ensures current == Leading(sorted) && grouped == sorted[current..] && fieldOffset == start + 4 * current
    ensures Progress(fields, order, start, current)
  {
    hide OffsetAt, EndAt, Progress, Hole, Shape;
    grouped, current, fieldOffset := sorted, 0, start;
    while grouped != [] && grouped[0].Kind().Ref?
      invariant current <= Leading(sorted)
      invariant grouped == sorted[current..] && fieldOffset == start + 4 * current
      invariant Progress(fields, order, start, current)
      decreases |grouped|
    {
      var field := grouped[0];
      grouped := grouped[1..];
      assert order[current] == order[..Leading(sorted)][current];
      NextFollows(Kinds(order), start, Leading(sorted), w, current);
      Place(fields, current, field, fieldOffset, order, start);
      fieldOffset := fieldOffset + 4;
      current := current + 1;
    }
  }

  lemma AfterReferences(order: seq<ArtField>, sorted: seq<ArtField>, start: nat, r: nat, w: nat)
    requires Sorted(sorted) && order == Arranged(sorted, start) && r == Leading(sorted)
    requires Plan(order, start, r, w) && r + w == FirstNarrow(sorted, r) && |order| == |sorted|
    ensures (start + 4 * r) % 8 == 0 || r == |sorted| ==> NextAt(Kinds(order), start, r) == start + 4 * r
    ensures (start + 4 * r) % 8 != 0 && r < |sorted| == r + w ==> NextAt(Kinds(order), start, r) == start + 4 * r + 4
    ensures (start + 4 * r) % 8 != 0 && r + w < |sorted| ==>
              && NextAt(Kinds(order), start, r) == OffsetAt(Kinds(order), start, r) == start + 4 * r
              && NextAt(Kinds(order), start, r + 1) == start + 4 * r + 4
  {
    hide Shape, EndAt, OffsetAt, Sorted, Arranged, Leading, FirstNarrow;
    NextFollows(Kinds(order), start, r, w, r);
    if (start + 4 * r) % 8 != 0 && r + w < |sorted| {
      ArrangedParts(sorted, start);
      assert Kinds(order)[r] == sorted[r + w].Kind();
    }
  }

  // The scan of the deque for a field of 32 bits.
  method ScanForNarrow(grouped: seq<ArtField>, ghost sorted: seq<ArtField>, ghost r: nat) returns (i: nat)
    requires r <= |sorted| && grouped == sorted[r..]
    ensures i <= |grouped| && r + i == FirstNarrow(sorted, r)
  {
    i := 0;
    while i < |grouped| && !grouped[i].Kind().Narrow?
      invariant i <= |grouped|
      invariant forall k :: r <= k < r + i ==> !sorted[k].Kind().Narrow?
    {
      i := i + 1;
    }
  }

  lemma RestWithout<T>(s: seq<T>, r: nat, i: nat)
    requires r + i < |s|
    ensures s[r..][..i] + s[r..][i + 1..] == s[r..r + i] + s[r + i + 1..]
  {
  }

  // Off an 8-byte boundary, one 32-bit field is shuffled forward or a word is skipped.
  method PullNarrow(fields: array<ArtField>, rest: seq<ArtField>, r: nat, offset: nat, ghost order: seq<ArtField>,
                    ghost sorted: seq<ArtField>, ghost start: nat, ghost w: nat)
    returns (grouped: seq<ArtField>, current: nat, fieldOffset: nat)
    requires Sorted(sorted) && order == Arranged(sorted, start) && r == Leading(sorted) && rest == sorted[r..]
    requires Plan(order, start, r, w) && r + w == FirstNarrow(sorted, r) && |order| == |sorted|
    requires offset == start + 4 * r && Progress(fields, order, start, r) && fields.Length == |order|
    modifies fields, order
    ensures r <= current <= |order| && grouped == order[current..] &&
            fieldOffset == NextAt(Kinds(order), start, current)
    ensures Progress(fields, order, start, current)
  {
    hide OffsetAt, EndAt, Progress, Sorted, Shape, Arranged, NextAt, Plan, Leading, FirstNarrow;
    grouped, current, fieldOffset := rest, r, offset;
    AfterReferences(order, sorted, start, r, w);
    ArrangedParts(sorted, start);
    if r != fields.Length && offset % 8 != 0 {
      var i := ScanForNarrow(grouped, sorted, r);
      if i < |grouped| {
        RestWithout(sorted, r, i);
        Place(fields, current, grouped[i], fieldOffset, order, start);
        current := current + 1;
        grouped := grouped[..i] + grouped[i + 1..];
      }
      fieldOffset := fieldOffset + 4;
    }
  }

  lemma ArrangedParts(sorted: seq<ArtField>, start: nat)
    ensures var order, r := Arranged(sorted, start), Leading(sorted);
            var at := FirstNarrow(sorted, r);
            && |order| == |sorted| && order[..r] == sorted[..r]
            && (if (start + 4 * r) % 8 != 0 && at < |sorted| then
                  order[r] == sorted[at] && order[r + 1..] == sorted[r..at] + sorted[at + 1..]
                else order == sorted)
  {
    hide Pull, Leading, FirstNarrow;
    var r := Leading(sorted);
    var at := FirstNarrow(sorted, r);
    if (start + 4 * r) % 8 != 0 && at < |sorted| { PullParts(sorted, r, at); }
  }

  lemma PullParts<T>(s: seq<T>, n: nat, at: nat)
    requires n <= at < |s|
    ensures Pull(s, n, at)[..n] == s[..n] && Pull(s, n, at)[n] == s[at]
    ensures Pull(s, n, at)[n + 1..] == s[n..at] + s[at + 1..]
  {
  }

  // Alignment is good: everything else in order.
  method PlaceRest(fields: array<ArtField>, rest: seq<ArtField>, r: nat, first: nat, offset: nat,
                   ghost order: seq<ArtField>, ghost start: nat, ghost w: nat)
    returns (size: nat)
    requires r <= first <= |order| && rest == order[first..] && Plan(order, start, r, w)
    requires offset == NextAt(Kinds(order), start, first) && Progress(fields, order, start, first)
    modifies fields, order
    ensures Progress(fields, order, start, |order|) && size == EndOf(Kinds(order), start)
  {
    hide OffsetAt, EndAt, Progress, Shape;
    var grouped, current, fieldOffset := rest, first, offset;
    while grouped != []
      invariant r <= current <= |order| && grouped == order[current..]
      invariant fieldOffset == NextAt(Kinds(order), start, current) && Progress(fields, order, start, current)
      decreases |grouped|
    {
      var field := grouped[0];
      grouped := grouped[1..];
      NextFollows(Kinds(order), start, r, w, current);
      Place(fields, current, field, fieldOffset, order, start);
      fieldOffset := fieldOffset + if field.Kind().Wide? then 8 else 4;
      current := current + 1;
    }
    size := fieldOffset;
  }

  lemma Planned(fields: seq<ArtField>, sorted: seq<ArtField>, start: nat) returns (w: nat)
    requires Sorted(sorted) && multiset(sorted) == multiset(fields) && Distinct(fields) && start % 4 == 0
    ensures var order, r := Arranged(sorted, start), Leading(sorted);
            && |order| == |sorted| == |fields| && Distinct(order) && (forall f :: f in order ==> f in fields)
            && r + w == FirstNarrow(sorted, r) && Plan(order, start, r, w)
            && order[..r] == sorted[..r]
  {
    hide Arranged, Distinct, Sorted, Shape;
    ArrangedContents(sorted, start);
    SamePermuted(fields, Arranged(sorted, start));
    ArrangedParts(sorted, start);
    var r;
    r, w := ArrangedShape(sorted, start);
  }

  lemma OnlyReferences(sorted: seq<ArtField>, start: nat)
    ensures Leading(sorted) == |sorted| <==> forall f :: f in Arranged(sorted, start) ==> f.Kind().Ref?
  {
    hide Arranged;
    ArrangedContents(sorted, start);
    var n := Leading(sorted);
    if n < |sorted| { assert sorted[n] in multiset(sorted); }
    if n == |sorted| {
      forall f | f in Arranged(sorted, start) ensures f.Kind().Ref? { assert f in multiset(sorted); }
    }
  }

  /** `LinkFields`: reorders the fields and assigns their offsets. `isReference` says that these are the
      instance fields of java.lang.ref.Reference; `ok` is false where the source's checks on that class
      abort. */
  method LinkFields(fields: array<ArtField>, start: nat, isReference: bool)
    returns (size: nat, numReferences: nat, ok: bool, ghost sorted: seq<ArtField>)
    requires start % 4 == 0 && Distinct(fields[..])
    modifies fields, set f | f in fields[..]
    ensures Sorted(sorted) && multiset(sorted) == multiset(old(fields[..]))
    ensures fields[..] == Arranged(sorted, start)
    ensures PlacedTo(fields[..], start, fields.Length)
    ensures size == EndOf(Kinds(fields[..]), start)
    ensures NamesAscend(sorted)
    ensures ok == (isReference ==> ReferentIsLast(fields[..]))
    ensures ok == (isReference ==> ReferentIsGreatest(old(fields[..])))
    ensures ok ==> numReferences == Leading(sorted) - if isReference then 1 else 0
  {
    hide OffsetAt, EndAt, Plan, Sorted, Arranged, Distinct, Leading, FirstNarrow, Kinds;
    hide ReferentIsGreatest, NamesAscend;
    var grouped := Sort(fields[..]);
    sorted := grouped;
    ghost var order := Arranged(sorted, start);
    ghost var w := Planned(fields[..], sorted, start);
    NothingPlaced(fields, order, start);
    assert forall f :: f in order ==> f in old(fields[..]);
    var current, fieldOffset;
    grouped, current, fieldOffset := PlaceReferences(fields, grouped, start, order, w);
    numReferences := current;
    grouped, current, fieldOffset := PullNarrow(fields, grouped, current, fieldOffset, order, sorted, start, w);
    size := PlaceRest(fields, grouped, numReferences, current, fieldOffset, order, start, w);
    assert fields[..] == order by {
      assert fields[..fields.Length] == order[..|order|];
    }
    OnlyReferences(sorted, start);
    SortedByName(sorted);
    ReferentEndsTheOrder(old(fields[..]), sorted, start);
    ok := true;
    if isReference {
      ok := numReferences == fields.Length && numReferences > 0 && fields[fields.Length - 1].name == "referent";
      if ok { numReferences := numReferences - 1; }
    }
  }

  lemma NothingPlaced(fields: array<ArtField>, order: seq<ArtField>, start: nat)
    requires |order| == fields.Length && Distinct(order)
    ensures Progress(fields, order, start, 0)
  {
  }

  // ---- the size computed before the class exists -------------------------------------------------

  function CountedKinds(descriptors: seq<string>): (ks: seq<Kind>)
    ensures |ks| == |descriptors| && forall i :: 0 <= i < |ks| ==> ks[i] == CountedKind(descriptors[i])
  {
    seq(|descriptors|, i requires 0 <= i < |descriptors| => CountedKind(descriptors[i]))
  }

  lemma NoOccurrences(ks: seq<Kind>)
    ensures forall k :: Occurrences(ks[..0], k) == 0
  {
  }

  lemma OneMore(ks: seq<Kind>, i: nat)
    requires i < |ks|
    ensures forall k :: Occurrences(ks[..i + 1], k) == Occurrences(ks[..i], k) + if ks[i] == k then 1 else 0
  {
    assert ks[..i + 1] == ks[..i] + [ks[i]];
  }

  /** `SizeOfClass`, for the static fields of a class whose own fields end at base. */
  method SizeOfClass(descriptors: seq<string>, base: nat) returns (size: nat)
    requires base % 4 == 0
    ensures size == SizeByCounting(base, CountedKinds(descriptors))
  {
    var numRef, num32, num64 := 0, 0, 0;
    hide Occurrences;
    NoOccurrences(CountedKinds(descriptors));
    for i := 0 to |descriptors|
      invariant numRef == Occurrences(CountedKinds(descriptors)[..i], Ref)
      invariant num32 == Occurrences(CountedKinds(descriptors)[..i], Narrow)
      invariant num64 == Occurrences(CountedKinds(descriptors)[..i], Wide)
    {
      OneMore(CountedKinds(descriptors), i);
      if descriptors[i] != "" && descriptors[i][0] in "L[" {
        numRef := numRef + 1;
      } else if descriptors[i] != "" && descriptors[i][0] in "JD" {
        num64 := num64 + 1;
      } else {
        num32 := num32 + 1;
      }
    }
    assert CountedKinds(descriptors)[..|descriptors|] == CountedKinds(descriptors);
    size := base + numRef * 4;
    if num64 != 0 && size % 8 != 0 {
      if num32 != 0 { num32 := num32 - 1; }
      size := size + 4;
    }
    size := size + num64 * 8;
    size := size + num32 * 4;
  }

  /** The two ways of computing the size of a class object agree: laying the static fields out ends at
      the size that counting their descriptors gave. */
  lemma StaticSizesAgree(fields: seq<ArtField>, descriptors: seq<string>, sorted: seq<ArtField>, base: nat)
    requires |fields| == |descriptors| && base % 4 == 0
    requires forall i :: 0 <= i < |fields| ==>
             fields[i].descriptor == descriptors[i] && IsTypeDescriptor(descriptors[i])
    requires Sorted(sorted) && multiset(sorted) == multiset(fields)
    ensures EndOf(Kinds(Arranged(sorted, base)), base) == SizeByCounting(base, CountedKinds(descriptors))
  {
    hide Sorted, Arranged, EndOf, SizeByCounting, OffsetAt, EndAt, Hole;
    LayoutIsTight(fields, sorted, base);
    assert Kinds(fields) == CountedKinds(descriptors);
  }

  /** `LinkStaticFields`: the class object was allocated with the counted size, and its fields fill
      exactly that, so the check in the source never fails. */
  method LinkStaticFields(fields: array<ArtField>, descriptors: seq<string>, base: nat)
    returns (classSize: nat, counted: nat, ghost sorted: seq<ArtField>)
    requires base % 4 == 0 && Distinct(fields[..]) && fields.Length == |descriptors|
    requires forall i :: 0 <= i < fields.Length ==>
             fields[i].descriptor == descriptors[i] && IsTypeDescriptor(descriptors[i])
    modifies fields, set f | f in fields[..]
    ensures classSize == counted == SizeByCounting(base, CountedKinds(descriptors))
    ensures Sorted(sorted) && multiset(sorted) == multiset(old(fields[..]))
    ensures fields[..] == Arranged(sorted, base) && PlacedTo(fields[..], base, fields.Length)
  {
    hide Sorted, Arranged, Kinds, EndOf, PlacedTo, Distinct, SizeByCounting;
    counted := SizeOfClass(descriptors, base);
    var numReferences, ok;
    classSize, numReferences, ok, sorted := LinkFields(fields, base, false);
    StaticSizesAgree(old(fields[..]), descriptors, sorted, base);
  }
}
