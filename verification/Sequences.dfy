/** Sequences without repetition, sequences written over, and the order of a dictionary. */
module Sequences {

  ghost predicate Distinct<T>(s: seq<T>) { forall i, j :: 0 <= i < j < |s| ==> s[i] != s[j] }

  lemma JoinIsDistinct<T>(a: seq<T>, b: seq<T>)
    requires Distinct(a) && Distinct(b) && forall i :: 0 <= i < |a| ==> a[i] !in b
    ensures Distinct(a + b)
  {
    forall i, j | 0 <= i < j < |a + b| ensures (a + b)[i] != (a + b)[j] {
      if i < |a| <= j { assert (a + b)[j] == b[j - |a|]; }
    }
  }

  lemma Associates<T>(a: seq<T>, b: seq<T>, c: seq<T>)
    ensures (a + b) + c == a + (b + c)
  {
  }

  // The sequence with other elements written over it from pos on, which may lengthen it.
  function Overlay<T>(s: seq<T>, pos: nat, new_: seq<T>): (o: seq<T>)
    requires pos <= |s|
    ensures |o| == if pos + |new_| <= |s| then |s| else pos + |new_|
    ensures forall i :: 0 <= i < |o| ==> o[i] == if pos <= i < pos + |new_| then new_[i - pos] else s[i]
  {
    s[..pos] + new_ + if pos + |new_| <= |s| then s[pos + |new_|..] else []
  }

  // The first place where the two differ.
  ghost predicate Differ<T>(a: seq<T>, b: seq<T>, n: nat) {
    n < |a| && n < |b| && a[..n] == b[..n] && a[n] != b[n]
  }

  /** The order of a dictionary: a begins b, or has the smaller element where they first differ. */
  ghost predicate Precedes<T(!new)>(a: seq<T>, b: seq<T>, less: (T, T) -> bool) {
    a < b || exists n: nat :: Differ(a, b, n) && less(a[n], b[n])
  }

  function CharLess(x: char, y: char): bool { x < y }

  function NatLess(x: nat, y: nat): bool { x < y }

  lemma EmptyPrecedes<T(!new)>(a: seq<T>, b: seq<T>, less: (T, T) -> bool)
    requires a == [] || b == []
    ensures Precedes(a, b, less) <==> b != []
  {
  }

  lemma PrecedesAtOnce<T(!new)>(a: seq<T>, b: seq<T>, less: (T, T) -> bool)
    requires a != [] && b != [] && a[0] != b[0]
    ensures Precedes(a, b, less) <==> less(a[0], b[0])
  {
    assert Differ(a, b, 0);
    forall n: nat | Differ(a, b, n) ensures n == 0 { SameUpTo(a, b, n); }
  }

  lemma PrecedesLater<T(!new)>(a: seq<T>, b: seq<T>, less: (T, T) -> bool)
    requires a != [] && b != [] && a[0] == b[0]
    ensures Precedes(a, b, less) <==> Precedes(a[1..], b[1..], less)
  {
    assert a == [a[0]] + a[1..] && b == [b[0]] + b[1..];
    forall n: nat ensures Differ(a[1..], b[1..], n) <==> Differ(a, b, n + 1) { DifferLater(a, b, n); }
    if Precedes(a, b, less) && !(a < b) {
      var n: nat :| Differ(a, b, n) && less(a[n], b[n]);
      assert n > 0 && Differ(a[1..], b[1..], n - 1);
    }
    if Precedes(a[1..], b[1..], less) && !(a[1..] < b[1..]) {
      var n: nat :| Differ(a[1..], b[1..], n) && less(a[1..][n], b[1..][n]);
      assert Differ(a, b, n + 1);
    }
  }

  lemma SameUpTo<T>(a: seq<T>, b: seq<T>, n: nat)
    requires Differ(a, b, n)
    ensures n == 0 || a[0] == b[0]
  {
    if n > 0 { assert a[..n][0] == b[..n][0]; }
  }

  lemma DifferLater<T>(a: seq<T>, b: seq<T>, n: nat)
    requires a != [] && b != [] && a[0] == b[0]
    ensures Differ(a[1..], b[1..], n) <==> Differ(a, b, n + 1)
  {
    if n + 1 < |a| && n + 1 < |b| {
      assert a[..n + 1] == [a[0]] + a[1..][..n] && b[..n + 1] == [b[0]] + b[1..][..n];
      assert a[..n + 1][1..] == a[1..][..n] && b[..n + 1][1..] == b[1..][..n];
    }
  }
}
