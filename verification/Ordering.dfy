/** Code-point order on strings, and the stable sort behind Python's `sorted`. */
module Ordering {

  predicate StringLe(a: string, b: string) {
    if a == [] then true
    else if b == [] then false
    else a[0] < b[0] || (a[0] == b[0] && StringLe(a[1..], b[1..]))
  }

  lemma StringLeTotal(a: string, b: string)
    ensures StringLe(a, b) || StringLe(b, a)
    ensures StringLe(a, b) && StringLe(b, a) ==> a == b
  {
    if a != [] && b != [] {
      StringLeTotal(a[1..], b[1..]);
      assert a == [a[0]] + a[1..] && b == [b[0]] + b[1..];
    }
  }

  lemma StringLeTransitive(a: string, b: string, c: string)
    requires StringLe(a, b) && StringLe(b, c)
    ensures StringLe(a, c)
  {
  }

  /** The first character in which they differ is lower in `a`, or `a` is a proper beginning of `b`. */
  ghost predicate StringBefore(a: string, b: string) { exists k :: DiffersAt(a, b, k) }

  ghost predicate DiffersAt(a: string, b: string, k: nat) {
    && k <= |a| && k < |b| && a[..k] == b[..k]
    && (k < |a| ==> a[k] < b[k])
  }

  lemma {:induction false} StringLeMeaning(a: string, b: string)
    ensures StringBefore(a, b) <==> !StringLe(b, a)
  {
    if b == [] {
    } else if a == [] {
      assert DiffersAt(a, b, 0);
    } else if a[0] == b[0] {
      StringLeMeaning(a[1..], b[1..]);
      if StringBefore(a[1..], b[1..]) {
        var k: nat :| DiffersAt(a[1..], b[1..], k);
        assert a[..k + 1] == [a[0]] + a[1..][..k] && b[..k + 1] == [b[0]] + b[1..][..k];
        assert DiffersAt(a, b, k + 1);
      }
      if StringBefore(a, b) {
        var k: nat :| DiffersAt(a, b, k);
        assert a[1..][..k - 1] == a[..k][1..] && b[1..][..k - 1] == b[..k][1..];
        assert DiffersAt(a[1..], b[1..], k - 1);
      }
    } else if a[0] < b[0] {
      assert DiffersAt(a, b, 0);
    } else {
      forall k: nat ensures !DiffersAt(a, b, k) {
        assert k > 0 && k <= |a| && k < |b| ==> a[..k][0] == a[0] && b[..k][0] == b[0];
      }
    }
  }

  ghost predicate TotalPreorder<T(!new)>(le: (T, T) -> bool) {
    && (forall a, b :: le(a, b) || le(b, a))
    && (forall a, b, c :: le(a, b) && le(b, c) ==> le(a, c))
  }

  ghost predicate Sorted<T>(le: (T, T) -> bool, xs: seq<T>) {
    forall i, j :: 0 <= i < j < |xs| ==> le(xs[i], xs[j])
  }

  /** x goes before the first element it may precede: equal keys keep their order. */
  function Insert<T>(le: (T, T) -> bool, x: T, ys: seq<T>): seq<T> {
    if ys == [] || le(x, ys[0]) then [x] + ys
    else [ys[0]] + Insert(le, x, ys[1..])
  }

  function StableSort<T>(le: (T, T) -> bool, xs: seq<T>): seq<T> {
    if xs == [] then [] else Insert(le, xs[0], StableSort(le, xs[1..]))
  }

  function Filter<T>(p: T -> bool, xs: seq<T>): (r: seq<T>)
    ensures |r| <= |xs|
    ensures forall i :: 0 <= i < |r| ==> r[i] in xs && p(r[i])
  {
    if xs == [] then [] else (if p(xs[0]) then [xs[0]] else []) + Filter(p, xs[1..])
  }

  lemma InsertContents<T>(le: (T, T) -> bool, x: T, ys: seq<T>)
    ensures multiset(Insert(le, x, ys)) == multiset{x} + multiset(ys)
  {
    if ys != [] {
      assert ys == [ys[0]] + ys[1..];
    }
  }

  /** Sorting loses and invents nothing. */
  lemma {:induction false} SortContents<T(!new)>(le: (T, T) -> bool, xs: seq<T>)
    ensures multiset(StableSort(le, xs)) == multiset(xs)
    ensures |StableSort(le, xs)| == |xs|
    ensures forall x :: x in StableSort(le, xs) <==> x in xs
  {
    if xs != [] {
      SortContents(le, xs[1..]);
      InsertContents(le, xs[0], StableSort(le, xs[1..]));
      assert xs == [xs[0]] + xs[1..];
    }
    assert |multiset(StableSort(le, xs))| == |multiset(xs)|;
    assert forall x :: x in StableSort(le, xs) <==> x in multiset(StableSort(le, xs));
  }

  lemma InsertSorted<T(!new)>(le: (T, T) -> bool, x: T, ys: seq<T>)
    requires TotalPreorder(le) && Sorted(le, ys)
    ensures Sorted(le, Insert(le, x, ys))
  {
    if ys != [] && !le(x, ys[0]) {
      InsertSorted(le, x, ys[1..]);
      var rest := Insert(le, x, ys[1..]);
      InsertContents(le, x, ys[1..]);
      forall y | y in rest ensures le(ys[0], y) {
        assert y in multiset(rest);
        assert y == x || y in ys[1..];
      }
    }
  }

  lemma {:induction false} SortSorted<T(!new)>(le: (T, T) -> bool, xs: seq<T>)
    requires TotalPreorder(le)
    ensures Sorted(le, StableSort(le, xs))
  {
    if xs != [] {
      SortSorted(le, xs[1..]);
      InsertSorted(le, xs[0], StableSort(le, xs[1..]));
    }
  }

  /** An already sorted sequence comes back unchanged. */
  lemma {:induction false} SortedIsFixpoint<T>(le: (T, T) -> bool, xs: seq<T>)
    requires Sorted(le, xs)
    ensures StableSort(le, xs) == xs
  {
    if xs != [] {
      SortedIsFixpoint(le, xs[1..]);
    }
  }

  lemma InsertStable<T>(le: (T, T) -> bool, p: T -> bool, x: T, ys: seq<T>)
    requires p(x) ==> forall y :: y in ys && p(y) ==> le(x, y)
    ensures Filter(p, Insert(le, x, ys)) == (if p(x) then [x] else []) + Filter(p, ys)
  {
    if ys == [] || le(x, ys[0]) {
      assert ([x] + ys)[1..] == ys;
    } else {
      InsertStable(le, p, x, ys[1..]);
      assert ([ys[0]] + Insert(le, x, ys[1..]))[1..] == Insert(le, x, ys[1..]);
    }
  }

  /** Stability: elements that may all precede one another keep their relative order. */
  lemma {:induction false} SortStable<T(!new)>(le: (T, T) -> bool, p: T -> bool, xs: seq<T>)
    requires forall x, y :: x in xs && y in xs && p(x) && p(y) ==> le(x, y)
    ensures Filter(p, StableSort(le, xs)) == Filter(p, xs)
  {
    if xs != [] {
      SortStable(le, p, xs[1..]);
      SortContents(le, xs[1..]);
      forall y | y in StableSort(le, xs[1..]) ensures y in xs {
        assert y in xs[1..];
      }
      InsertStable(le, p, xs[0], StableSort(le, xs[1..]));
    }
  }
}
