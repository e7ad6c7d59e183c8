/** Who is streamed before whom, spelled out: the order of the entries, the classes that share a budget, and
    what must have been full when an entry was left out. */
module StreamingOrder {
  import opened Ordering
  import opened StreamingPlan

  /* ----- The order ----- */

  /** Pinned before unpinned, then the higher score, then the older assignment, then the instrument. */
  ghost predicate Precedes(a: Entry, b: Entry) {
    || (a.pinned && !b.pinned)
    || (a.pinned == b.pinned && a.score > b.score)
    || (a.pinned == b.pinned && a.score == b.score && a.assignedAt < b.assignedAt)
    || (a.pinned == b.pinned && a.score == b.score && a.assignedAt == b.assignedAt
        && StringBefore(a.instrument, b.instrument))
  }

  lemma NotPreceded(a: Entry, b: Entry)
    ensures EntryLe(a, b) <==> !Precedes(b, a)
  {
    StringLeMeaning(b.instrument, a.instrument);
  }

  /** No entry comes after one that it precedes. */
  lemma EntriesInOrder(entries: seq<Entry>, i: nat, j: nat)
    requires i < |entries| && j < |entries|
    ensures |StableSort(EntryLe, entries)| == |entries|
    ensures
      var es := StableSort(EntryLe, entries);
      (i < j ==> !Precedes(es[j], es[i])) && (Precedes(es[i], es[j]) ==> i < j)
  {
    hide StableSort, Precedes, EntryLe;
    EntryLePreorder();
    SortSorted(EntryLe, entries);
    SortContents(EntryLe, entries);
    var es := StableSort(EntryLe, entries);
    NotPreceded(es[i], es[j]);
    NotPreceded(es[j], es[i]);
    assert i == j ==> EntryLe(es[i], es[j]);
  }

  /* ----- Classes ----- */

  /** The name of the class of an entry; an absent or empty one is unclassified. */
  function ClassName(e: Entry): string {
    match e.assetClass
    case Some(name) => if |name| > 0 then name else "UNCLASSIFIED"
    case None => "UNCLASSIFIED"
  }

  predicate Lower(c: char) { 'a' <= c <= 'z' }
  predicate Capital(c: char) { 'A' <= c <= 'Z' }

  /** The same letter in either case, or the same other character. */
  predicate SameLetter(c: char, d: char) {
    || c == d
    || (Lower(c) && Capital(d) && c as int - 'a' as int == d as int - 'A' as int)
    || (Capital(c) && Lower(d) && c as int - 'A' as int == d as int - 'a' as int)
  }

  ghost predicate SameName(a: string, b: string) {
    |a| == |b| && forall i :: 0 <= i < |a| ==> SameLetter(a[i], b[i])
  }

  lemma SameUpper(c: char, d: char)
    ensures UpperChar(c) == UpperChar(d) <==> SameLetter(c, d)
    ensures !Lower(UpperChar(c))
  {
  }

  /** Two entries share a class when their class names agree up to the case of letters. */
  lemma ClassesAgreeIff(a: Entry, b: Entry)
    ensures ClassOf(a) == ClassOf(b) <==> SameName(ClassName(a), ClassName(b))
  {
    var m, n := ClassName(a), ClassName(b);
    assert ClassOf(a) == Upper(m) && ClassOf(b) == Upper(n);
    hide UpperChar, SameLetter;
    forall c: char, d: char ensures UpperChar(c) == UpperChar(d) <==> SameLetter(c, d) {
      SameUpper(c, d);
    }
    if ClassOf(a) == ClassOf(b) {
      forall i | 0 <= i < |m| ensures SameLetter(m[i], n[i]) {
        assert Upper(m)[i] == Upper(n)[i];
      }
    }
  }

  /** A class is named by its own name in capitals. */
  lemma ClassIsNamed(e: Entry)
    ensures SameName(ClassOf(e), ClassName(e)) && forall i :: 0 <= i < |ClassOf(e)| ==> !Lower(ClassOf(e)[i])
  {
    forall c: char ensures SameLetter(UpperChar(c), c) && !Lower(UpperChar(c)) {
      SameUpper(c, c);
    }
  }

  /* ----- What was full when an entry was left out ----- */

  /** As many as the cap are streamed, all of them at least as early in the order. */
  ghost predicate CapFull(l: Limits, es: seq<Entry>, c: Choice, i: nat)
    requires i < |es| == |c|
  {
    l.cap > 0 && Chosen(c, i) >= l.cap && forall j :: 0 <= j < i ==> !Precedes(es[i], es[j])
  }

  /** So are as many of its class as the class's budget. */
  ghost predicate ClassFull(l: Limits, es: seq<Entry>, c: Choice, i: nat)
    requires i < |es| == |c|
  {
    var k := ClassOf(es[i]);
    && k in l.budgets && ChosenIn(es, c, k, i) >= l.budgets[k]
    && forall j :: 0 <= j < i ==> !Precedes(es[i], es[j])
  }

  /** An entry is left out exactly when it is not pinned and the entries before it fill the cap or the
      budget of its class. */
  lemma LeftOutIff(l: Limits, entries: seq<Entry>, i: nat)
    requires i < |entries|
    ensures |StableSort(EntryLe, entries)| == |entries|
    ensures
      var es := StableSort(EntryLe, entries);
      var c := Greedy(l, es, |es|);
      !c[i] <==> !es[i].pinned && (CapFull(l, es, c, i) || ClassFull(l, es, c, i))
  {
    hide Greedy, StableSort, Precedes, ClassOf;
    SortContents(EntryLe, entries);
    var es := StableSort(EntryLe, entries);
    GreedyAt(l, es, i);
    forall j | 0 <= j < i ensures !Precedes(es[i], es[j]) {
      EntriesInOrder(entries, j, i);
    }
  }

  /** An unpinned entry is streamed ahead of one that precedes it only when they are of different classes and
      the other class is full. */
  lemma OvertakenOnlyWhenFull(l: Limits, entries: seq<Entry>, i: nat, j: nat)
    requires i < |entries| && j < |entries|
    ensures |StableSort(EntryLe, entries)| == |entries|
    ensures
      var es := StableSort(EntryLe, entries);
      var c := Greedy(l, es, |es|);
      Precedes(es[i], es[j]) && !c[i] && c[j] && !es[j].pinned
      ==> !SameName(ClassName(es[i]), ClassName(es[j])) && ClassFull(l, es, c, i)
  {
    hide Greedy, StableSort, Precedes, ClassOf, ClassName, SameName;
    SortContents(EntryLe, entries);
    var es := StableSort(EntryLe, entries);
    var c := Greedy(l, es, |es|);
    if Precedes(es[i], es[j]) && !c[i] && c[j] && !es[j].pinned {
      EntriesInOrder(entries, i, j);
      LeftOutIff(l, entries, i);
      GreedyAt(l, es, j);
      CountsGrow(es, c, ClassOf(es[i]), i, j);
      ClassesAgreeIff(es[i], es[j]);
    }
  }
}
