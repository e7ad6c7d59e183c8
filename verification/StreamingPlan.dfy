/** Which watchlist entries are streamed: pinned entries always, the others greedily by score
    under a total cap and per-class budgets. */
module StreamingPlan {
  import opened Basics
  import opened Ordering

  datatype Entry = Entry(
    instrument: string, assetClass: Option<string>, pinned: bool, score: real, assignedAt: int)

  /** `cap <= 0` means no cap; a class without a budget is not limited. */
  datatype Limits = Limits(cap: int, budgets: map<string, int>)

  function UpperChar(c: char): char { if 'a' <= c <= 'z' then c - 32 as char else c }

  function Upper(s: string): string { seq(|s|, i requires 0 <= i < |s| => UpperChar(s[i])) }

  function ClassOf(e: Entry): string {
    Upper(if e.assetClass.None? || e.assetClass.value == "" then "UNCLASSIFIED" else e.assetClass.value)
  }

  /** Pinned first, then descending score, then age, then instrument. */
  predicate EntryLe(a: Entry, b: Entry) {
    if a.pinned != b.pinned then a.pinned
    else if a.score != b.score then a.score > b.score
    else if a.assignedAt != b.assignedAt then a.assignedAt < b.assignedAt
    else StringLe(a.instrument, b.instrument)
  }

  lemma EntryLePreorder()
    ensures TotalPreorder(EntryLe)
  {
    forall a: Entry, b: Entry ensures EntryLe(a, b) || EntryLe(b, a) {
      StringLeTotal(a.instrument, b.instrument);
    }
    forall a: Entry, b: Entry, c: Entry | EntryLe(a, b) && EntryLe(b, c) ensures EntryLe(a, c) {
      if StringLe(a.instrument, b.instrument) && StringLe(b.instrument, c.instrument) {
        StringLeTransitive(a.instrument, b.instrument, c.instrument);
      }
    }
  }

  /* ----- The greedy choice ----- */

  /** For each entry, whether it is selected. */
  type Choice = seq<bool>

  function Bit(b: bool): nat { if b then 1 else 0 }

  /** Chosen entries among the first n. */
  function Chosen(c: Choice, n: nat): nat
    requires n <= |c|
  {
    if n == 0 then 0 else Chosen(c, n - 1) + Bit(c[n - 1])
  }

  function ChosenIn(es: seq<Entry>, c: Choice, k: string, n: nat): nat
    requires n <= |c| <= |es|
  {
    if n == 0 then 0 else ChosenIn(es, c, k, n - 1) + Bit(c[n - 1] && ClassOf(es[n - 1]) == k)
  }

  predicate AtCap(l: Limits, used: nat) { l.cap > 0 && used >= l.cap }

  predicate AtBudget(l: Limits, k: string, used: nat) { k in l.budgets && used >= l.budgets[k] }

  /** The choice made for the first n entries. */
  function Greedy(l: Limits, es: seq<Entry>, n: nat): (c: Choice)
    requires n <= |es|
    ensures |c| == n
  {
    if n == 0 then []
    else
      var c := Greedy(l, es, n - 1);
      var e := es[n - 1];
      c + [e.pinned
           || (!AtCap(l, Chosen(c, n - 1)) && !AtBudget(l, ClassOf(e), ChosenIn(es, c, ClassOf(e), n - 1)))]
  }

  function Picked(es: seq<Entry>, c: Choice, n: nat, wanted: bool): seq<string>
    requires n <= |c| <= |es|
  {
    if n == 0 then []
    else Picked(es, c, n - 1, wanted) + (if c[n - 1] == wanted then [es[n - 1].instrument] else [])
  }

  function Pinned(es: seq<Entry>): seq<string> {
    if es == [] then []
    else Pinned(es[..|es| - 1]) + (if es[|es| - 1].pinned then [es[|es| - 1].instrument] else [])
  }

  function Usage(m: map<string, nat>, k: string): nat { if k in m then m[k] else 0 }

  /** The usage counters agree with the choice made for the first n entries. */
  ghost predicate Tracks(usage: map<string, nat>, l: Limits, es: seq<Entry>, n: nat)
    requires n <= |es|
  {
    forall k :: Usage(usage, k) == ChosenIn(es, Greedy(l, es, n), k, n)
  }

  lemma TracksStep(usage: map<string, nat>, l: Limits, es: seq<Entry>, n: nat)
    requires n < |es| && Tracks(usage, l, es, n)
    ensures
      var k := ClassOf(es[n]);
      Tracks(if Greedy(l, es, n + 1)[n] then usage[k := Usage(usage, k) + 1] else usage, l, es, n + 1)
  {
    GreedyStep(l, es, n);
    var next, k := Greedy(l, es, n + 1), ClassOf(es[n]);
    var after := if next[n] then usage[k := Usage(usage, k) + 1] else usage;
    forall j ensures Usage(after, j) == ChosenIn(es, next, j, n + 1) {
      assert Usage(usage, j) == ChosenIn(es, Greedy(l, es, n), j, n);
    }
  }

  method ComputeStreamingPlan(l: Limits, es: seq<Entry>)
    returns (selected: seq<string>, pinned: seq<string>, capped: seq<string>, usage: map<string, nat>)
    ensures selected == Picked(es, Greedy(l, es, |es|), |es|, true)
    ensures capped == Picked(es, Greedy(l, es, |es|), |es|, false)
    ensures pinned == Pinned(es)
    ensures Tracks(usage, l, es, |es|)
  {
    selected, pinned, capped, usage := [], [], [], map[];
    NothingYet(l, es);
    hide Greedy, Chosen, ChosenIn, Picked, Pinned, Tracks, ClassOf;
    for n := 0 to |es|
      invariant selected == Picked(es, Greedy(l, es, n), n, true)
      invariant |selected| == Chosen(Greedy(l, es, n), n)
      invariant capped == Picked(es, Greedy(l, es, n), n, false)
      invariant pinned == Pinned(es[..n])
      invariant Tracks(usage, l, es, n)
    {
      var e := es[n];
      var k := ClassOf(e);
      PinnedStep(es, n);
      GreedyStep(l, es, n);
      TracksStep(usage, l, es, n);
      TracksRead(usage, l, es, n, k);
      if e.pinned {
        selected := selected + [e.instrument];
        pinned := pinned + [e.instrument];
        usage := usage[k := Usage(usage, k) + 1];
        continue;
      }
      if l.cap > 0 && |selected| >= l.cap {
        capped := capped + [e.instrument];
        continue;
      }
      if k in l.budgets && Usage(usage, k) >= l.budgets[k] {
        capped := capped + [e.instrument];
        continue;
      }
      selected := selected + [e.instrument];
      usage := usage[k := Usage(usage, k) + 1];
    }
    assert es[..|es|] == es;
  }

  lemma NothingYet(l: Limits, es: seq<Entry>)
    ensures Pinned(es[..0]) == [] && Chosen(Greedy(l, es, 0), 0) == 0 && Tracks(map[], l, es, 0)
    ensures forall w :: Picked(es, Greedy(l, es, 0), 0, w) == []
  {
  }

  lemma PinnedStep(es: seq<Entry>, n: nat)
    requires n < |es|
    ensures Pinned(es[..n + 1]) == Pinned(es[..n]) + (if es[n].pinned then [es[n].instrument] else [])
  {
    assert es[..n + 1][..n] == es[..n];
  }

  lemma TracksRead(usage: map<string, nat>, l: Limits, es: seq<Entry>, n: nat, k: string)
    requires n <= |es| && Tracks(usage, l, es, n)
    ensures Usage(usage, k) == ChosenIn(es, Greedy(l, es, n), k, n)
  {
  }

  /** Two choices that agree on the first n entries count alike there. */
  lemma {:induction false} PrefixAgrees(es: seq<Entry>, c: Choice, d: Choice, n: nat, k: string, wanted: bool)
    requires n <= |c| <= |es| && n <= |d| <= |es| && c[..n] == d[..n]
    ensures Chosen(d, n) == Chosen(c, n)
    ensures ChosenIn(es, d, k, n) == ChosenIn(es, c, k, n)
    ensures Picked(es, d, n, wanted) == Picked(es, c, n, wanted)
  {
    if n > 0 {
      assert c[..n - 1] == c[..n][..n - 1] == d[..n - 1];
      assert c[n - 1] == c[..n][n - 1] == d[n - 1];
      PrefixAgrees(es, c, d, n - 1, k, wanted);
    }
  }

  lemma GreedyStep(l: Limits, es: seq<Entry>, n: nat)
    requires n < |es|
    ensures
      var c, next := Greedy(l, es, n), Greedy(l, es, n + 1);
      && next[..n] == c
      && next[n] == (|| es[n].pinned
                     || (!AtCap(l, Chosen(c, n)) && !AtBudget(l, ClassOf(es[n]), ChosenIn(es, c, ClassOf(es[n]), n))))
      && Chosen(next, n + 1) == Chosen(c, n) + Bit(next[n])
      && (forall k :: ChosenIn(es, next, k, n + 1) == ChosenIn(es, c, k, n) + Bit(next[n] && ClassOf(es[n]) == k))
      && (forall w ::
            Picked(es, next, n + 1, w) == Picked(es, c, n, w) + (if next[n] == w then [es[n].instrument] else []))
  {
    var c, next := Greedy(l, es, n), Greedy(l, es, n + 1);
    assert next[..n] == c == c[..n];
    forall k ensures ChosenIn(es, next, k, n + 1) == ChosenIn(es, c, k, n) + Bit(next[n] && ClassOf(es[n]) == k) {
      PrefixAgrees(es, c, next, n, k, true);
    }
    forall w
      ensures Picked(es, next, n + 1, w) == Picked(es, c, n, w) + (if next[n] == w then [es[n].instrument] else [])
    {
      PrefixAgrees(es, c, next, n, "", w);
    }
    PrefixAgrees(es, c, next, n, "", true);
  }

  /* ----- What the greedy choice is compared with ----- */

  function PinnedChoice(es: seq<Entry>): (c: Choice)
    ensures |c| == |es| && forall i :: 0 <= i < |es| ==> c[i] == es[i].pinned
  {
    seq(|es|, i requires 0 <= i < |es| => es[i].pinned)
  }

  /** Contains every pinned entry and adds others only where the pinned ones leave room, in total
      and in each class that has a budget. */
  ghost predicate Feasible(l: Limits, es: seq<Entry>, c: Choice) {
    var pinned, n := PinnedChoice(es), |es|;
    && |c| == n
    && (forall i :: 0 <= i < n && es[i].pinned ==> c[i])
    && (l.cap > 0 ==> Chosen(c, n) <= IntMax(l.cap, Chosen(pinned, n)))
    && (forall k :: k in l.budgets ==> ChosenIn(es, c, k, n) <= IntMax(l.budgets[k], ChosenIn(es, pinned, k, n)))
  }

  /** Priority of the unpinned entries chosen among the first n. */
  function Total(es: seq<Entry>, c: Choice, n: nat): real
    requires n <= |c| <= |es|
  {
    if n == 0 then 0.0
    else Total(es, c, n - 1) + (if c[n - 1] && !es[n - 1].pinned then es[n - 1].score else 0.0)
  }

  ghost predicate Optimal(l: Limits, es: seq<Entry>, c: Choice)
    requires |c| == |es|
  {
    forall d: Choice :: Feasible(l, es, d) ==> Total(es, d, |es|) <= Total(es, c, |es|)
  }

  /* ----- Counting ----- */

  lemma CountsGrow(es: seq<Entry>, c: Choice, k: string, m: nat, n: nat)
    requires m <= n <= |c| <= |es|
    ensures Chosen(c, m) <= Chosen(c, n) <= Chosen(c, m) + (n - m)
    ensures ChosenIn(es, c, k, m) <= ChosenIn(es, c, k, n)
    decreases n
  {
    if m < n {
      CountsGrow(es, c, k, m, n - 1);
    }
  }

  lemma CountsBelow(es: seq<Entry>, c: Choice, d: Choice, k: string, n: nat)
    requires n <= |c| == |d| <= |es|
    requires forall i :: 0 <= i < n && c[i] ==> d[i]
    ensures Chosen(c, n) <= Chosen(d, n) && ChosenIn(es, c, k, n) <= ChosenIn(es, d, k, n)
    decreases n
  {
    if n > 0 {
      CountsBelow(es, c, d, k, n - 1);
    }
  }

  /** Dropping one chosen entry lowers the counts by one. */
  lemma {:induction false} ClearOne(es: seq<Entry>, c: Choice, i: nat, k: string, n: nat)
    requires i < n <= |c| <= |es| && c[i]
    ensures Chosen(c[i := false], n) == Chosen(c, n) - 1
    ensures ChosenIn(es, c[i := false], k, n) == ChosenIn(es, c, k, n) - Bit(ClassOf(es[i]) == k)
  {
    if i == n - 1 {
      assert c[i := false][..i] == c[..i];
      PrefixAgrees(es, c, c[i := false], i, k, true);
    } else {
      ClearOne(es, c, i, k, n - 1);
    }
  }

  lemma {:induction false} FindIn(es: seq<Entry>, c: Choice, k: string, n: nat) returns (j: nat)
    requires n <= |c| <= |es| && ChosenIn(es, c, k, n) > 0
    ensures j < n && c[j] && ClassOf(es[j]) == k
  {
    if c[n - 1] && ClassOf(es[n - 1]) == k {
      j := n - 1;
    } else {
      j := FindIn(es, c, k, n - 1);
    }
  }

  lemma {:induction false} FindChosen(es: seq<Entry>, c: Choice, n: nat) returns (i: nat)
    requires n <= |c| <= |es| && Chosen(c, n) > 0
    ensures i < n && c[i] && ChosenIn(es, c, ClassOf(es[i]), n) > 0
  {
    if c[n - 1] {
      i := n - 1;
    } else {
      i := FindChosen(es, c, n - 1);
    }
  }

  /** A choice that takes at least as many entries of every class takes at least as many in all. */
  lemma {:induction false} ClassesDominate(es: seq<Entry>, c: Choice, d: Choice, n: nat)
    requires n <= |c| <= |es| && n <= |d| <= |es|
    requires forall k :: ChosenIn(es, c, k, n) <= ChosenIn(es, d, k, n)
    decreases Chosen(c, n)
    ensures Chosen(c, n) <= Chosen(d, n)
  {
    if Chosen(c, n) > 0 {
      var i := FindChosen(es, c, n);
      var j := FindIn(es, d, ClassOf(es[i]), n);
      var c', d' := c[i := false], d[j := false];
      forall k ensures ChosenIn(es, c', k, n) <= ChosenIn(es, d', k, n) {
        ClearOne(es, c, i, k, n);
        ClearOne(es, d, j, k, n);
      }
      ClearOne(es, c, i, "", n);
      ClearOne(es, d, j, "", n);
      ClassesDominate(es, c', d', n);
    }
  }

  /* ----- Every prefix of the greedy choice is as full as any feasible choice ----- */

  lemma {:induction false} GreedyPrefix(l: Limits, es: seq<Entry>, m: nat, n: nat)
    requires m <= n <= |es|
    ensures Greedy(l, es, n)[..m] == Greedy(l, es, m)
  {
    if m < n {
      GreedyPrefix(l, es, m, n - 1);
      assert Greedy(l, es, n)[..m] == Greedy(l, es, n - 1)[..m];
    } else {
      assert Greedy(l, es, n)[..n] == Greedy(l, es, n);
    }
  }

  /** How the full greedy choice treats one entry. */
  lemma GreedyAt(l: Limits, es: seq<Entry>, i: nat)
    requires i < |es|
    ensures
      var c, k := Greedy(l, es, |es|), ClassOf(es[i]);
      c[i] == (es[i].pinned || (!AtCap(l, Chosen(c, i)) && !AtBudget(l, k, ChosenIn(es, c, k, i))))
  {
    var c, k := Greedy(l, es, |es|), ClassOf(es[i]);
    GreedyPrefix(l, es, i + 1, |es|);
    GreedyPrefix(l, es, i, |es|);
    assert c[i] == c[..i + 1][i] == Greedy(l, es, i + 1)[i];
    assert c[..i] == Greedy(l, es, i)[..i];
    PrefixAgrees(es, Greedy(l, es, i), c, i, k, true);
  }

  ghost predicate PinnedFirst(es: seq<Entry>) {
    forall i, j :: 0 <= i < j < |es| && es[j].pinned ==> es[i].pinned
  }

  /** All pinned entries precede an unpinned one, and the greedy choice has them. */
  lemma PinnedBefore(l: Limits, es: seq<Entry>, k: string, m: nat)
    requires PinnedFirst(es) && m <= |es| && (m == |es| || !es[m].pinned)
    ensures
      var c, pinned := Greedy(l, es, |es|), PinnedChoice(es);
      Chosen(pinned, |es|) <= Chosen(c, m) && ChosenIn(es, pinned, k, |es|) <= ChosenIn(es, c, k, m)
  {
    var c, pinned := Greedy(l, es, |es|), PinnedChoice(es);
    forall i | 0 <= i < m && pinned[i] ensures c[i] {
      GreedyAt(l, es, i);
    }
    CountsBelow(es, pinned, c, k, m);
    NoneAfter(es, pinned, k, m, |es|);
  }

  lemma NoneAfter(es: seq<Entry>, c: Choice, k: string, m: nat, n: nat)
    requires m <= n <= |c| <= |es|
    requires forall i :: m <= i < n ==> !c[i]
    ensures Chosen(c, n) == Chosen(c, m) && ChosenIn(es, c, k, n) == ChosenIn(es, c, k, m)
    decreases n
  {
    if m < n {
      NoneAfter(es, c, k, m, n - 1);
    }
  }

  /** While the cap is not reached the greedy choice is ahead in every class. */
  lemma {:induction false} AheadInClass(l: Limits, es: seq<Entry>, d: Choice, k: string, m: nat)
    requires PinnedFirst(es) && Feasible(l, es, d) && m <= |es|
    requires !AtCap(l, Chosen(Greedy(l, es, |es|), m))
    ensures ChosenIn(es, d, k, m) <= ChosenIn(es, Greedy(l, es, |es|), k, m)
  {
    if m > 0 {
      var c, i := Greedy(l, es, |es|), m - 1;
      CountsGrow(es, c, k, i, m);
      AheadInClass(l, es, d, k, i);
      GreedyAt(l, es, i);
      if !c[i] && ClassOf(es[i]) == k {
        CountsGrow(es, d, k, m, |es|);
        PinnedBefore(l, es, k, i);
      }
    }
  }

  lemma GreedyAhead(l: Limits, es: seq<Entry>, d: Choice, m: nat)
    requires PinnedFirst(es) && Feasible(l, es, d) && m <= |es|
    ensures Chosen(d, m) <= Chosen(Greedy(l, es, |es|), m)
  {
    var c := Greedy(l, es, |es|);
    if !AtCap(l, Chosen(c, m)) {
      forall k ensures ChosenIn(es, d, k, m) <= ChosenIn(es, c, k, m) {
        AheadInClass(l, es, d, k, m);
      }
      ClassesDominate(es, d, c, m);
    } else if m == |es| || !es[m].pinned {
      CountsGrow(es, d, "", m, |es|);
      PinnedBefore(l, es, "", m);
    } else {
      AllPinned(l, es, d, m);
    }
  }

  /** Inside the pinned prefix both choices take everything. */
  lemma {:induction false} AllPinned(l: Limits, es: seq<Entry>, d: Choice, m: nat)
    requires |d| == |es| && m <= |es|
    requires forall i :: 0 <= i < m ==> es[i].pinned
    requires forall i :: 0 <= i < m ==> d[i]
    ensures Chosen(d, m) == m == Chosen(Greedy(l, es, |es|), m)
    ensures Total(es, d, m) == 0.0 == Total(es, Greedy(l, es, |es|), m)
  {
    if m > 0 {
      AllPinned(l, es, d, m - 1);
      GreedyAt(l, es, m - 1);
    }
  }

  /* ----- Optimality ----- */

  /** The scores are in the code's order: unpinned entries by descending score. */
  ghost predicate ByScore(es: seq<Entry>) {
    forall i, j :: 0 <= i < j < |es| && !es[i].pinned && !es[j].pinned ==> es[i].score >= es[j].score
  }

  /** A lead of some entries at a given score each. */
  function Worth(s: real, lead: int): real { s * lead as real }

  lemma WorthStep(s: real, lead: int, mine: bool, theirs: bool)
    ensures Worth(s, lead + Bit(mine) - Bit(theirs))
         == Worth(s, lead) + (if mine then s else 0.0) - (if theirs then s else 0.0)
  {
  }

  lemma WorthLess(a: real, b: real, lead: nat)
    requires a >= b
    ensures Worth(a, lead) >= Worth(b, lead)
  {
    assert (a - b) * lead as real >= 0.0;
  }

  lemma WorthNothing(s: real)
    ensures Worth(s, 0) == 0.0
  {
  }

  function Lead(c: Choice, d: Choice, n: nat): int
    requires n <= |c| && n <= |d|
  {
    Chosen(c, n) - Chosen(d, n)
  }

  /** Being ahead in count at every prefix, with descending scores, puts the greedy choice ahead
      in total by at least the last score for each entry it is ahead. */
  lemma {:induction false} AheadInTotal(l: Limits, es: seq<Entry>, d: Choice, m: nat)
    requires PinnedFirst(es) && ByScore(es) && Feasible(l, es, d) && 0 < m <= |es| && !es[m - 1].pinned
    ensures
      var c := Greedy(l, es, |es|);
      Total(es, c, m) - Total(es, d, m) >= Worth(es[m - 1].score, Lead(c, d, m))
  {
    assert |d| == |es|;
    var c, i := Greedy(l, es, |es|), m - 1;
    var s := es[i].score;
    assert i > 0 && !es[i - 1].pinned ==> es[i - 1].score >= s;
    assert i == 0 || es[i - 1].pinned ==> forall j :: 0 <= j < i ==> es[j].pinned && d[j];
    GreedyAhead(l, es, d, i);
    if i > 0 && !es[i - 1].pinned {
      AheadInTotal(l, es, d, i);
      WorthLess(es[i - 1].score, s, Lead(c, d, i));
    } else {
      AllPinned(l, es, d, i);
      WorthNothing(s);
    }
    hide Worth, Greedy, Feasible, PinnedFirst, ByScore;
    WorthStep(s, Lead(c, d, i), c[i], d[i]);
  }

  /** Past the last non-negative score a choice can only lose. */
  lemma {:induction false} NegativeTail(es: seq<Entry>, c: Choice, q: nat, n: nat)
    requires q <= n <= |c| <= |es|
    requires forall i :: q <= i < n ==> !es[i].pinned && es[i].score < 0.0
    ensures Total(es, c, n) <= Total(es, c, q)
    ensures (forall i :: q <= i < n ==> !c[i]) ==> Total(es, c, n) == Total(es, c, q)
    decreases n
  {
    if q < n {
      NegativeTail(es, c, q, n - 1);
    }
  }

  /** Number of leading entries that are pinned or have a score of at least zero. */
  function Useful(es: seq<Entry>, n: nat): (q: nat)
    requires n <= |es| && PinnedFirst(es) && ByScore(es)
    ensures q <= n
    ensures q > 0 ==> es[q - 1].pinned || es[q - 1].score >= 0.0
    ensures forall i :: q <= i < n ==> !es[i].pinned && es[i].score < 0.0
  {
    if n == 0 then 0
    else if es[n - 1].pinned || es[n - 1].score >= 0.0 then n
    else Useful(es, n - 1)
  }

  lemma OptimalWithoutNegatives(l: Limits, es: seq<Entry>, d: Choice)
    requires PinnedFirst(es) && ByScore(es) && Feasible(l, es, d)
    requires forall i :: 0 <= i < |es| && Greedy(l, es, |es|)[i] && !es[i].pinned ==> es[i].score >= 0.0
    ensures Total(es, d, |es|) <= Total(es, Greedy(l, es, |es|), |es|)
  {
    var c, q := Greedy(l, es, |es|), Useful(es, |es|);
    NegativeTail(es, c, q, |es|);
    NegativeTail(es, d, q, |es|);
    AheadOnUseful(l, es, d, q);
  }

  lemma AheadOnUseful(l: Limits, es: seq<Entry>, d: Choice, q: nat)
    requires PinnedFirst(es) && ByScore(es) && Feasible(l, es, d) && q <= |es|
    requires q > 0 ==> es[q - 1].pinned || es[q - 1].score >= 0.0
    ensures Total(es, d, q) <= Total(es, Greedy(l, es, |es|), q)
  {
    if q > 0 && !es[q - 1].pinned {
      AheadInTotal(l, es, d, q);
      GreedyAhead(l, es, d, q);
      WorthLess(es[q - 1].score, 0.0, Lead(Greedy(l, es, |es|), d, q));
    } else {
      AllPinned(l, es, d, q);
    }
  }

  /** The greedy choice respects the pinned entries, the cap and every budget. */
  lemma GreedyIsFeasible(l: Limits, es: seq<Entry>)
    requires PinnedFirst(es)
    ensures Feasible(l, es, Greedy(l, es, |es|))
  {
    var c, pinned, n := Greedy(l, es, |es|), PinnedChoice(es), |es|;
    forall i | 0 <= i < n && es[i].pinned ensures c[i] {
      GreedyAt(l, es, i);
    }
    if l.cap > 0 {
      CapKept(l, es, n);
    }
    forall k | k in l.budgets ensures ChosenIn(es, c, k, n) <= IntMax(l.budgets[k], ChosenIn(es, pinned, k, n)) {
      BudgetKept(l, es, k, n);
    }
  }

  lemma {:induction false} CapKept(l: Limits, es: seq<Entry>, m: nat)
    requires PinnedFirst(es) && l.cap > 0 && m <= |es|
    ensures Chosen(Greedy(l, es, |es|), m) <= IntMax(l.cap, Chosen(PinnedChoice(es), |es|))
  {
    if m > 0 {
      CapKept(l, es, m - 1);
      GreedyAt(l, es, m - 1);
      if es[m - 1].pinned {
        AllPinned(l, es, PinnedChoice(es), m);
        ChosenPinned(es, m);
        CountsGrow(es, PinnedChoice(es), "", m, |es|);
      }
    }
  }

  lemma {:induction false} ChosenPinned(es: seq<Entry>, m: nat)
    requires m <= |es| && forall i :: 0 <= i < m ==> es[i].pinned
    ensures Chosen(PinnedChoice(es), m) == m
  {
    if m > 0 {
      ChosenPinned(es, m - 1);
    }
  }

  lemma {:induction false} BudgetKept(l: Limits, es: seq<Entry>, k: string, m: nat)
    requires PinnedFirst(es) && k in l.budgets && m <= |es|
    ensures ChosenIn(es, Greedy(l, es, |es|), k, m)
         <= IntMax(l.budgets[k], ChosenIn(es, PinnedChoice(es), k, |es|))
  {
    if m > 0 {
      var c := Greedy(l, es, |es|);
      BudgetKept(l, es, k, m - 1);
      GreedyAt(l, es, m - 1);
      if es[m - 1].pinned {
        CountsBelowPinned(l, es, k, m);
        CountsGrow(es, PinnedChoice(es), k, m, |es|);
      }
    }
  }

  lemma CountsBelowPinned(l: Limits, es: seq<Entry>, k: string, m: nat)
    requires m <= |es| && forall i :: 0 <= i < m ==> es[i].pinned
    ensures ChosenIn(es, Greedy(l, es, |es|), k, m) <= ChosenIn(es, PinnedChoice(es), k, m)
  {
    CountsBelow(es, Greedy(l, es, |es|), PinnedChoice(es), k, m);
  }

  lemma {:induction false} ClearTotal(es: seq<Entry>, c: Choice, i: nat, n: nat)
    requires i < n <= |c| <= |es| && c[i] && !es[i].pinned
    ensures Total(es, c[i := false], n) == Total(es, c, n) - es[i].score
  {
    if i < n - 1 {
      ClearTotal(es, c, i, n - 1);
    } else {
      TotalPrefix(es, c, c[i := false], i);
    }
  }

  lemma {:induction false} TotalPrefix(es: seq<Entry>, c: Choice, d: Choice, n: nat)
    requires n <= |c| <= |es| && n <= |d| <= |es| && forall i :: 0 <= i < n ==> c[i] == d[i]
    ensures Total(es, c, n) == Total(es, d, n)
  {
    if n > 0 {
      TotalPrefix(es, c, d, n - 1);
    }
  }

  /* ----- Which entries are taken ----- */

  /** Entries of a class among the first n. */
  function InClass(es: seq<Entry>, k: string, n: nat): nat
    requires n <= |es|
  {
    if n == 0 then 0 else InClass(es, k, n - 1) + Bit(ClassOf(es[n - 1]) == k)
  }

  /** Pinned, or not preceded by a whole budget of its class. */
  predicate Fits(l: Limits, es: seq<Entry>, i: nat)
    requires i < |es|
  {
    es[i].pinned || !AtBudget(l, ClassOf(es[i]), InClass(es, ClassOf(es[i]), i))
  }

  function Fitting(l: Limits, es: seq<Entry>, n: nat): nat
    requires n <= |es|
  {
    if n == 0 then 0 else Fitting(l, es, n - 1) + Bit(Fits(l, es, n - 1))
  }

  /** There is room for an entry that fits and is not preceded by a whole cap of entries that fit. */
  predicate HasRoom(l: Limits, es: seq<Entry>, i: nat)
    requires i < |es|
  {
    Fits(l, es, i) && !AtCap(l, Fitting(l, es, i))
  }

  /** What the choice says of the first n entries, in terms of the entries and the limits alone. */
  ghost predicate TakesRoom(l: Limits, es: seq<Entry>, c: Choice, n: nat)
    requires n <= |c| <= |es|
  {
    forall i :: 0 <= i < n ==> c[i] == (es[i].pinned || HasRoom(l, es, i))
  }

  lemma {:induction false} ReachesCap(l: Limits, es: seq<Entry>, c: Choice, n: nat)
    requires n <= |c| <= |es| && TakesRoom(l, es, c, n)
    ensures Chosen(c, n) <= Fitting(l, es, n)
    ensures Chosen(c, n) == Fitting(l, es, n) || AtCap(l, Chosen(c, n))
  {
    if n > 0 {
      ReachesCap(l, es, c, n - 1);
    }
  }

  /** Short of the cap a class holds its budget or all entries of the class. */
  lemma {:induction false} ReachesBudget(l: Limits, es: seq<Entry>, c: Choice, k: string, n: nat)
    requires n <= |c| <= |es| && TakesRoom(l, es, c, n) && !AtCap(l, Fitting(l, es, n))
    ensures ChosenIn(es, c, k, n) <= InClass(es, k, n)
    ensures ChosenIn(es, c, k, n) == InClass(es, k, n) || AtBudget(l, k, ChosenIn(es, c, k, n))
  {
    if n > 0 {
      ReachesBudget(l, es, c, k, n - 1);
    }
  }

  /** The greedy choice takes the pinned entries and those there is room for. */
  lemma {:induction false} GreedyTakes(l: Limits, es: seq<Entry>, n: nat)
    requires n <= |es|
    ensures TakesRoom(l, es, Greedy(l, es, n), n)
  {
    if n > 0 {
      hide Greedy, TakesRoom, HasRoom;
      GreedyTakes(l, es, n - 1);
      OneMoreTaken(l, es, n - 1);
    }
  }

  lemma OneMoreTaken(l: Limits, es: seq<Entry>, n: nat)
    requires n < |es| && TakesRoom(l, es, Greedy(l, es, n), n)
    ensures TakesRoom(l, es, Greedy(l, es, n + 1), n + 1)
  {
    var c, next := Greedy(l, es, n), Greedy(l, es, n + 1);
    GreedyStep(l, es, n);
    hide Greedy;
    LastTaken(l, es, c, n);
    hide HasRoom, Chosen, ChosenIn, ClassOf;
    forall i | 0 <= i <= n ensures next[i] == (es[i].pinned || HasRoom(l, es, i)) {
      assert i < n ==> next[i] == next[..n][i];
    }
  }

  lemma LastTaken(l: Limits, es: seq<Entry>, c: Choice, n: nat)
    requires n < |es| && |c| == n && TakesRoom(l, es, c, n)
    ensures
      var free := !AtCap(l, Chosen(c, n)) && !AtBudget(l, ClassOf(es[n]), ChosenIn(es, c, ClassOf(es[n]), n));
      (es[n].pinned || free) == (es[n].pinned || HasRoom(l, es, n))
  {
    hide Chosen, ChosenIn, Fitting, InClass, ClassOf, TakesRoom;
    ReachesCap(l, es, c, n);
    if !AtCap(l, Fitting(l, es, n)) {
      ReachesBudget(l, es, c, ClassOf(es[n]), n);
    }
  }

  /** The greedy choice has the greatest total priority of all feasible ones exactly when there is no
      room for any unpinned entry of negative priority: it would fill a slot better left empty. */
  lemma GreedyOptimalIff(l: Limits, es: seq<Entry>)
    requires PinnedFirst(es) && ByScore(es)
    ensures Optimal(l, es, Greedy(l, es, |es|))
       <==> forall i :: 0 <= i < |es| && HasRoom(l, es, i) && !es[i].pinned ==> es[i].score >= 0.0
  {
    GreedyTakes(l, es, |es|);
    hide Greedy, HasRoom, Optimal;
    OptimalIffNoneNegative(l, es);
  }

  lemma OptimalIffNoneNegative(l: Limits, es: seq<Entry>)
    requires PinnedFirst(es) && ByScore(es)
    ensures Optimal(l, es, Greedy(l, es, |es|))
       <==> forall i :: 0 <= i < |es| && Greedy(l, es, |es|)[i] && !es[i].pinned ==> es[i].score >= 0.0
  {
    var c := Greedy(l, es, |es|);
    GreedyIsFeasible(l, es);
    if forall i :: 0 <= i < |es| && c[i] && !es[i].pinned ==> es[i].score >= 0.0 {
      forall d: Choice | Feasible(l, es, d) ensures Total(es, d, |es|) <= Total(es, c, |es|) {
        OptimalWithoutNegatives(l, es, d);
      }
    } else {
      var i :| 0 <= i < |es| && c[i] && !es[i].pinned && es[i].score < 0.0;
      var better := c[i := false];
      ClearOne(es, c, i, "", |es|);
      ClearTotal(es, c, i, |es|);
      forall k | k in l.budgets ensures ChosenIn(es, better, k, |es|) <= ChosenIn(es, c, k, |es|) {
        ClearOne(es, c, i, k, |es|);
      }
      assert Feasible(l, es, better);
      assert Total(es, better, |es|) > Total(es, c, |es|);
    }
  }

  /** The plan as computed: any entries, sorted as the coverage summary sorts them. With scores of
      at least zero the streamed set is optimal. */
  lemma StreamingPlanIsOptimal(l: Limits, entries: seq<Entry>)
    requires forall i :: 0 <= i < |entries| ==> entries[i].score >= 0.0
    ensures
      var es := StableSort(EntryLe, entries);
      && multiset(es) == multiset(entries)
      && Feasible(l, es, Greedy(l, es, |es|)) && Optimal(l, es, Greedy(l, es, |es|))
  {
    var es := StableSort(EntryLe, entries);
    SortedAsCoded(entries);
    GreedyIsFeasible(l, es);
    forall i | 0 <= i < |es| ensures es[i].score >= 0.0 {
      assert es[i] in entries;
    }
    GreedyOptimalIff(l, es);
  }

  lemma SortedAsCoded(entries: seq<Entry>)
    ensures
      var es := StableSort(EntryLe, entries);
      && PinnedFirst(es) && ByScore(es) && multiset(es) == multiset(entries)
      && (forall e :: e in es <==> e in entries)
  {
    EntryLePreorder();
    SortSorted(EntryLe, entries);
    SortContents(EntryLe, entries);
  }
}
