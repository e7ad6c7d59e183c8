/** The console's activity feed: runs of similar items close in time are folded into their first
    item, whose count grows in place. Timestamps are milliseconds; None is a timestamp that does
    not parse, which is close to nothing. */
module ActivityGroups {
  import opened Basics

  const CLOSE := 180_000
  const SHOWN := 24

  datatype EntityType = Instrument | Strategy | System | Anomaly

  datatype Tone = Neutral | Positive | Warning | Negative | Inactive

  function TypeName(e: EntityType): string {
    match e
    case Instrument => "instrument"
    case Strategy => "strategy"
    case System => "system"
    case Anomaly => "anomaly"
  }

  function ToneName(t: Tone): string {
    match t
    case Neutral => "neutral"
    case Positive => "positive"
    case Warning => "warning"
    case Negative => "negative"
    case Inactive => "inactive"
  }

  datatype Item = Item(
    entityType: EntityType, entityId: string, tone: Tone, title: string, timestamp: Option<int>, count: int)

  function GroupKey(x: Item): string {
    TypeName(x.entityType) + ":" + x.entityId + ":" + ToneName(x.tone) + ":" + x.title
  }

  predicate CloseInTime(a: Option<int>, b: Option<int>) {
    a.Some? && b.Some? && -CLOSE <= a.value - b.value <= CLOSE
  }

  predicate Mergeable(head: Item, x: Item) { GroupKey(head) == GroupKey(x) && CloseInTime(head.timestamp, x.timestamp) }

  /* ----- The groups ----- */

  /** Where the run that starts at `head` ends: every item before it merges with the head, and the
      item there, if any, does not. */
  function RunEnd(xs: seq<Item>, head: nat, i: nat, end: nat): (e: nat)
    requires head < i <= end <= |xs|
    ensures i <= e <= end
    ensures forall k :: i <= k < e ==> Mergeable(xs[head], xs[k])
    ensures e < end ==> !Mergeable(xs[head], xs[e])
    decreases end - i
  {
    if i < end && Mergeable(xs[head], xs[i]) then RunEnd(xs, head, i + 1, end) else i
  }

  /** Positions of the group heads among the items from one position to another. */
  function Heads(xs: seq<Item>, from: nat, end: nat): (r: seq<nat>)
    requires from <= end <= |xs|
    ensures from < end ==> r != [] && r[0] == from
    ensures forall g :: 0 <= g < |r| ==> from <= r[g] < end
    decreases end - from
  {
    if from == end then [] else [from] + Heads(xs, RunEnd(xs, from, from + 1, end), end)
  }

  /** The end of the g-th group. */
  function EndOf(heads: seq<nat>, g: nat, end: nat): nat
    requires g < |heads|
  {
    if g + 1 < |heads| then heads[g + 1] else end
  }

  /** A head's count grows by one for every item folded into it. */
  function GroupCount(xs: seq<Item>, heads: seq<nat>, g: nat, end: nat): int
    requires g < |heads| && heads[g] < |xs|
  {
    xs[heads[g]].count + (EndOf(heads, g, end) - heads[g] - 1)
  }

  /** The feed as groups, before the cut. */
  function Grouped(xs: seq<Item>): seq<Item> {
    var heads := Heads(xs, 0, |xs|);
    seq(|heads|, g requires 0 <= g < |heads| => xs[heads[g]].(count := GroupCount(xs, heads, g, |xs|)))
  }

  lemma RunEndLonger(xs: seq<Item>, head: nat, i: nat, end: nat)
    requires head < i <= end < |xs|
    ensures
      var e := RunEnd(xs, head, i, end);
      RunEnd(xs, head, i, end + 1) == if e == end && Mergeable(xs[head], xs[end]) then end + 1 else e
    decreases end - i
  {
    if i < end && Mergeable(xs[head], xs[i]) {
      RunEndLonger(xs, head, i + 1, end);
    }
  }

  /** One more item joins the last group, or starts a group of its own. */
  lemma {:induction false} OneMore(xs: seq<Item>, from: nat, end: nat)
    requires from < end < |xs|
    ensures
      var heads := Heads(xs, from, end);
      Heads(xs, from, end + 1) == if Mergeable(xs[heads[|heads| - 1]], xs[end]) then heads else heads + [end]
    decreases end - from
  {
    hide Mergeable, RunEnd, Heads;
    var e := RunEnd(xs, from, from + 1, end);
    RunEndLonger(xs, from, from + 1, end);
    HeadsUnfold(xs, from, end);
    HeadsUnfold(xs, from, end + 1);
    if e < end {
      OneMore(xs, e, end);
    } else {
      LastHead(xs, end);
    }
  }

  lemma HeadsUnfold(xs: seq<Item>, from: nat, end: nat)
    requires from < end <= |xs|
    ensures Heads(xs, from, end) == [from] + Heads(xs, RunEnd(xs, from, from + 1, end), end)
  {
  }

  lemma LastHead(xs: seq<Item>, end: nat)
    requires end < |xs|
    ensures Heads(xs, end, end + 1) == [end] && Heads(xs, end, end) == Heads(xs, end + 1, end + 1) == []
  {
  }

  /* ----- What grouping keeps ----- */

  /** The g-th group is not empty, all of it merges with its head, and the next head does not. */
  ghost predicate IsGroup(xs: seq<Item>, heads: seq<nat>, g: nat, end: nat)
    requires g < |heads| && end <= |xs|
  {
    var head, next := heads[g], EndOf(heads, g, end);
    && head < next <= end
    && (forall k :: head < k < next ==> Mergeable(xs[head], xs[k]))
    && (next < end ==> !Mergeable(xs[head], xs[next]))
  }

  /** Heads and ends cut the items into consecutive groups. */
  ghost predicate Partitions(xs: seq<Item>, heads: seq<nat>, from: nat, end: nat)
    requires end <= |xs|
  {
    && (heads == [] <==> from == end) && (heads != [] ==> heads[0] == from)
    && forall g :: 0 <= g < |heads| ==> IsGroup(xs, heads, g, end)
  }

  lemma ShiftGroup(xs: seq<Item>, head: nat, rest: seq<nat>, g: nat, end: nat)
    requires g < |rest| && end <= |xs|
    ensures IsGroup(xs, [head] + rest, g + 1, end) <==> IsGroup(xs, rest, g, end)
  {
    assert EndOf([head] + rest, g + 1, end) == EndOf(rest, g, end);
  }

  /** A cut of the items is a first run and a cut of what follows it. */
  lemma ConsPartitions(xs: seq<Item>, head: nat, rest: seq<nat>, e: nat, end: nat)
    requires head < e <= end <= |xs| && (if rest == [] then e == end else e == rest[0])
    ensures Partitions(xs, [head] + rest, head, end)
       <==> Partitions(xs, rest, e, end) && IsGroup(xs, [head] + rest, 0, end)
  {
    hide IsGroup;
    var heads := [head] + rest;
    forall g | 0 <= g < |rest| ensures IsGroup(xs, heads, g + 1, end) <==> IsGroup(xs, rest, g, end) {
      ShiftGroup(xs, head, rest, g, end);
    }
    if Partitions(xs, heads, head, end) {
      forall g | 0 <= g < |rest| ensures IsGroup(xs, rest, g, end) {
        assert IsGroup(xs, heads, g + 1, end);
      }
      if rest != [] {
        RestBefore(xs, rest, end);
      }
    }
    if Partitions(xs, rest, e, end) && IsGroup(xs, heads, 0, end) {
      forall g | 0 <= g < |heads| ensures IsGroup(xs, heads, g, end) {
        if g > 0 {
          assert IsGroup(xs, rest, g - 1, end);
        }
      }
    }
  }

  lemma RestBefore(xs: seq<Item>, rest: seq<nat>, end: nat)
    requires rest != [] && end <= |xs| && IsGroup(xs, rest, 0, end)
    ensures rest[0] < end
  {
  }

  lemma {:induction false} HeadsPartition(xs: seq<Item>, from: nat, end: nat)
    requires from <= end <= |xs|
    ensures Partitions(xs, Heads(xs, from, end), from, end)
    decreases end - from
  {
    if from < end {
      HeadsUnfold(xs, from, end);
      var e := RunEnd(xs, from, from + 1, end);
      var rest := Heads(xs, e, end);
      HeadsPartition(xs, e, end);
      hide Heads, RunEnd, Mergeable;
      assert rest == [] <==> e == end;
      assert EndOf([from] + rest, 0, end) == e;
      ConsPartitions(xs, from, rest, e, end);
    }
  }

  /** Grouping determines the heads: any such cut of the items is this one. */
  lemma {:induction false} OnlyPartition(xs: seq<Item>, heads: seq<nat>, from: nat, end: nat)
    requires from <= end <= |xs| && Partitions(xs, heads, from, end)
    ensures heads == Heads(xs, from, end)
    decreases |heads|
  {
    if heads != [] {
      var rest, e := heads[1..], EndOf(heads, 0, end);
      assert heads == [from] + rest && IsGroup(xs, heads, 0, end);
      FirstRunEnds(xs, heads, end);
      hide Heads, RunEnd, IsGroup, Mergeable;
      ConsPartitions(xs, from, rest, e, end);
      HeadsUnfold(xs, from, end);
      OnlyPartition(xs, rest, e, end);
    }
  }

  lemma FirstRunEnds(xs: seq<Item>, heads: seq<nat>, end: nat)
    requires heads != [] && end <= |xs| && IsGroup(xs, heads, 0, end)
    ensures RunEnd(xs, heads[0], heads[0] + 1, end) == EndOf(heads, 0, end) > heads[0]
  {
    hide Mergeable;
    RunEndIs(xs, heads[0], heads[0] + 1, end, EndOf(heads, 0, end));
  }

  lemma RunEndIs(xs: seq<Item>, head: nat, i: nat, end: nat, e: nat)
    requires head < i <= e <= end <= |xs|
    requires forall k :: i <= k < e ==> Mergeable(xs[head], xs[k])
    requires e < end ==> !Mergeable(xs[head], xs[e])
    ensures RunEnd(xs, head, i, end) == e
    decreases e - i
  {
  }

  function SumCounts(xs: seq<Item>): int { if xs == [] then 0 else xs[0].count + SumCounts(xs[1..]) }

  lemma {:induction false} SumFrom(xs: seq<Item>, g: nat)
    requires forall k :: 0 <= k < |xs| ==> xs[k].count == 1
    requires g < |Grouped(xs)|
    ensures SumCounts(Grouped(xs)[g..]) == |xs| - Heads(xs, 0, |xs|)[g]
    decreases |Grouped(xs)| - g
  {
    var groups := Grouped(xs);
    assert groups[g..][1..] == groups[g + 1..];
    if g + 1 < |groups| {
      SumFrom(xs, g + 1);
    }
  }

  /** No item is lost: when every item starts with count one, the group counts add up to the number
      of items. */
  lemma CountsConserved(xs: seq<Item>)
    requires forall k :: 0 <= k < |xs| ==> xs[k].count == 1
    ensures SumCounts(Grouped(xs)) == |xs|
  {
    if xs != [] {
      SumFrom(xs, 0);
      assert Grouped(xs)[0..] == Grouped(xs);
    } else {
      assert Grouped(xs) == [];
    }
  }

  ghost predicate NewestFirst(xs: seq<Item>) {
    && (forall k :: 0 <= k < |xs| ==> xs[k].timestamp.Some?)
    && (forall k, l :: 0 <= k < l < |xs| ==> xs[k].timestamp.value >= xs[l].timestamp.value)
  }

  lemma NewestAt(xs: seq<Item>, k: nat, l: nat)
    requires NewestFirst(xs) && k <= l < |xs|
    ensures xs[k].timestamp.Some? && xs[l].timestamp.Some? && xs[k].timestamp.value >= xs[l].timestamp.value
  {
  }

  lemma InRun(xs: seq<Item>, g: nat, j: nat)
    requires g < |Heads(xs, 0, |xs|)|
    requires Heads(xs, 0, |xs|)[g] < j < EndOf(Heads(xs, 0, |xs|), g, |xs|)
    ensures j < |xs| && Mergeable(xs[Heads(xs, 0, |xs|)[g]], xs[j])
  {
    HeadsPartition(xs, 0, |xs|);
    assert IsGroup(xs, Heads(xs, 0, |xs|), g, |xs|);
  }

  /** At most three minutes, in milliseconds, lie between the two timestamps, both of which parse. */
  ghost predicate WithinThreeMinutes(x: Item, y: Item) {
    exists a, b :: x.timestamp == Some(a) && y.timestamp == Some(b) && a - b <= 180_000 && b - a <= 180_000
  }

  /** An item is folded into the head of its group only if they agree in their keys and are within three minutes
      of each other; the item that heads the next group differs from this head in one or the other. */
  lemma GroupsAre(xs: seq<Item>, g: nat, k: nat)
    requires g < |Heads(xs, 0, |xs|)|
    requires Heads(xs, 0, |xs|)[g] < k <= EndOf(Heads(xs, 0, |xs|), g, |xs|) && k < |xs|
    ensures
      var heads := Heads(xs, 0, |xs|);
      k < EndOf(heads, g, |xs|)
      <==> (|| SameParts(xs[heads[g]], xs[k])
            || (xs[heads[g]].entityType == xs[k].entityType
                && (GoesOn(xs[heads[g]], xs[k]) || GoesOn(xs[k], xs[heads[g]]))))
           && WithinThreeMinutes(xs[heads[g]], xs[k])
  {
    hide Heads, GroupKey, SameParts, GoesOn;
    HeadsPartition(xs, 0, |xs|);
    assert IsGroup(xs, Heads(xs, 0, |xs|), g, |xs|);
    KeysCollideIff(xs[Heads(xs, 0, |xs|)[g]], xs[k]);
  }

  /** In a feed sorted newest first, any two items of one group are close to each other. */
  lemma SortedGroupsAreClose(xs: seq<Item>, g: nat, i: nat, j: nat)
    requires NewestFirst(xs) && g < |Heads(xs, 0, |xs|)|
    requires Heads(xs, 0, |xs|)[g] <= i <= j < EndOf(Heads(xs, 0, |xs|), g, |xs|)
    ensures j < |xs| && CloseInTime(xs[i].timestamp, xs[j].timestamp)
  {
    hide Heads, GroupKey, NewestFirst;
    var head := Heads(xs, 0, |xs|)[g];
    if head < j {
      InRun(xs, g, j);
      NewestAt(xs, head, i);
      NewestAt(xs, i, j);
    } else {
      NewestAt(xs, head, head);
    }
  }

  /* ----- Keys ----- */

  lemma CutAtColon(a: string, b: string, a': string, b': string)
    requires ':' !in a && ':' !in a'
    requires a + ":" + b == a' + ":" + b'
    ensures a == a' && b == b'
  {
    var l := a + ":" + b;
    assert l[|a|] == ':' && l[..|a|] == a;
    ColonFrom(a', b', |a|);
    ColonFrom(a, b, |a'|);
    assert l[|a| + 1..] == b && (a' + ":" + b')[|a'| + 1..] == b';
  }

  /** The first colon comes after a part that has none. */
  lemma ColonFrom(a: string, b: string, i: nat)
    requires ':' !in a && i < |a + ":" + b| && (a + ":" + b)[i] == ':'
    ensures |a| <= i
  {
  }

  lemma NamesHaveNoColon(e: EntityType, t: Tone)
    ensures ':' !in TypeName(e) && ':' !in ToneName(t)
  {
  }

  lemma NamesDiffer(e: EntityType, e': EntityType, t: Tone, t': Tone)
    ensures TypeName(e) == TypeName(e') ==> e == e'
    ensures ToneName(t) == ToneName(t') ==> t == t'
  {
    assert TypeName(e)[1] == 'n' || TypeName(e)[1] == 't' || TypeName(e)[1] == 'y';
    assert |ToneName(t)| == 8 ==> ToneName(t)[0] == 'p' || ToneName(t)[0] == 'n' || ToneName(t)[0] == 'i';
  }

  /** The part of a key after the id, and the part after the type. */
  function AfterId(x: Item): string { ":" + ToneName(x.tone) + ":" + x.title }

  function KeyTail(x: Item): string { x.entityId + AfterId(x) }

  /** The id of y goes on, after that of x, with a colon and the tone of x, and what follows them in it,
      taken with the tone and the title of y, is the title of x after its colon. */
  predicate GoesOn(x: Item, y: Item) {
    var stem := x.entityId + ":" + ToneName(x.tone);
    stem <= y.entityId && y.entityId[|stem|..] + AfterId(y) == ":" + x.title
  }

  predicate SameParts(x: Item, y: Item) {
    x.entityType == y.entityType && x.entityId == y.entityId && x.tone == y.tone && x.title == y.title
  }

  /** Two items share a key exactly when they agree on all four parts, or are of one type and one id
      goes on into the tone and the title of the other item. */
  lemma KeysCollideIff(x: Item, y: Item)
    ensures GroupKey(x) == GroupKey(y)
       <==> SameParts(x, y) || (x.entityType == y.entityType && (GoesOn(x, y) || GoesOn(y, x)))
  {
    TailsOf(x, y);
    if |x.entityId| == |y.entityId| {
      TailsOfEqualIds(x, y);
    } else if |x.entityId| < |y.entityId| {
      TailsOfLongerId(x, y);
    } else {
      TailsOfLongerId(y, x);
    }
    hide GroupKey, KeyTail;
  }

  lemma TailsOf(x: Item, y: Item)
    ensures GroupKey(x) == GroupKey(y) <==> x.entityType == y.entityType && KeyTail(x) == KeyTail(y)
  {
    KeyOfTail(x);
    KeyOfTail(y);
    NamesHaveNoColon(x.entityType, x.tone);
    NamesHaveNoColon(y.entityType, y.tone);
    NamesDiffer(x.entityType, y.entityType, x.tone, y.tone);
    hide GroupKey, KeyTail, TypeName;
    if GroupKey(x) == GroupKey(y) {
      CutAtColon(TypeName(x.entityType), KeyTail(x), TypeName(y.entityType), KeyTail(y));
    }
  }

  lemma KeyOfTail(x: Item)
    ensures GroupKey(x) == TypeName(x.entityType) + ":" + KeyTail(x)
  {
    hide TypeName, ToneName;
  }

  lemma TailsOfEqualIds(x: Item, y: Item)
    requires |x.entityId| == |y.entityId|
    ensures KeyTail(x) == KeyTail(y) <==> x.entityId == y.entityId && x.tone == y.tone && x.title == y.title
  {
    NamesHaveNoColon(x.entityType, x.tone);
    NamesHaveNoColon(y.entityType, y.tone);
    NamesDiffer(x.entityType, y.entityType, x.tone, y.tone);
    hide ToneName;
    if KeyTail(x) == KeyTail(y) {
      var n := |x.entityId|;
      var xt, yt := ToneName(x.tone) + ":" + x.title, ToneName(y.tone) + ":" + y.title;
      assert KeyTail(x)[..n] == x.entityId && KeyTail(y)[..n] == y.entityId;
      assert KeyTail(x)[n + 1..] == xt && KeyTail(y)[n + 1..] == yt;
      CutAtColon(ToneName(x.tone), x.title, ToneName(y.tone), y.title);
    }
  }

  lemma TailsOfLongerId(x: Item, y: Item)
    requires |x.entityId| < |y.entityId|
    ensures KeyTail(x) == KeyTail(y) <==> GoesOn(x, y)
  {
    var stem := x.entityId + ":" + ToneName(x.tone);
    assert KeyTail(x) == stem + (":" + x.title);
    hide ToneName;
    if |stem| <= |y.entityId| {
      hide AfterId;
      CutAfter(stem, ":" + x.title, y.entityId, AfterId(y));
    } else {
      ToneCutShort(x, y);
    }
  }

  lemma CutAfter(a: string, b: string, a': string, b': string)
    requires |a| <= |a'|
    ensures a + b == a' + b' <==> a <= a' && b == a'[|a|..] + b'
  {
    if a + b == a' + b' {
      assert a == (a + b)[..|a|] == (a' + b')[..|a|];
      assert b == (a + b)[|a|..] == (a' + b')[|a|..];
    }
    if a <= a' {
      assert a' + b' == a + (a'[|a|..] + b');
    }
  }

  /** The longer id does not end within the tone of the other item: a tone has no colon. */
  lemma ToneCutShort(x: Item, y: Item)
    requires |x.entityId| < |y.entityId| < |x.entityId + ":" + ToneName(x.tone)|
    ensures KeyTail(x) != KeyTail(y)
  {
    var m, n := |y.entityId|, |x.entityId|;
    NamesHaveNoColon(x.entityType, x.tone);
    hide ToneName;
    assert KeyTail(y)[m] == ':';
    assert KeyTail(x)[m] == AfterId(x)[m - n] == ToneName(x.tone)[m - n - 1];
  }

  /* ----- The items of the feed ----- */

  predicate Digits(s: string) { forall i :: 0 <= i < |s| ==> '0' <= s[i] <= '9' }

  /** An alert's item is named after the number of the alert; the others carry the name of an instrument
      or a strategy, here one without a colon. */
  ghost predicate FeedItem(x: Item) {
    if x.entityType.Anomaly? then exists number :: Digits(number) && x.entityId == ALERT_ID + number
    else ':' !in x.entityId
  }

  /** Such items share a key exactly when they agree on all four parts, whatever their titles. */
  lemma FeedKeysAgreeIff(x: Item, y: Item)
    requires FeedItem(x) && FeedItem(y)
    ensures GroupKey(x) == GroupKey(y) <==> SameParts(x, y)
  {
    KeysCollideIff(x, y);
    hide GroupKey;
    if x.entityType == y.entityType {
      NeverGoesOn(x, y);
      NeverGoesOn(y, x);
    }
  }

  lemma ColonWhereItGoesOn(x: Item, y: Item)
    ensures GoesOn(x, y) ==> |x.entityId| < |y.entityId| && y.entityId[|x.entityId|] == ':'
  {
    hide ToneName;
    var stem := x.entityId + ":" + ToneName(x.tone);
    assert stem[|x.entityId|] == ':';
  }

  const ALERT_ID := "anomaly:alert:"

  lemma NoLaterColon(y: Item, n: nat)
    requires FeedItem(y) && n < |y.entityId| && (y.entityType.Anomaly? ==> n >= |ALERT_ID|)
    ensures y.entityId[n] != ':'
  {
    if y.entityType.Anomaly? {
      var number :| Digits(number) && y.entityId == ALERT_ID + number;
      assert y.entityId[n] == number[n - |ALERT_ID|];
    }
  }

  lemma NeverGoesOn(x: Item, y: Item)
    requires FeedItem(x) && FeedItem(y) && x.entityType == y.entityType
    ensures !GoesOn(x, y)
  {
    ColonWhereItGoesOn(x, y);
    if |x.entityId| < |y.entityId| {
      NoLaterColon(y, |x.entityId|);
    }
  }

  /* ----- The loop ----- */

  class ActivityItem {
    const entityType: EntityType
    const entityId: string
    const tone: Tone
    const title: string
    const timestamp: Option<int>
    var groupCount: int

    constructor (entityType: EntityType, entityId: string, tone: Tone, title: string, timestamp: Option<int>)
      ensures View() == Item(entityType, entityId, tone, title, timestamp, 1)
    {
      this.entityType, this.entityId, this.tone := entityType, entityId, tone;
      this.title, this.timestamp, groupCount := title, timestamp, 1;
    }

    function View(): Item reads this { Item(entityType, entityId, tone, title, timestamp, groupCount) }
  }

  function Views(items: seq<ActivityItem>): (r: seq<Item>)
    reads items
    ensures |r| == |items| && forall i :: 0 <= i < |r| ==> r[i] == items[i].View()
  {
    if items == [] then [] else Views(items[..|items| - 1]) + [items[|items| - 1].View()]
  }

  /** Folds runs into their first item. The answer is the heads themselves, their counts grown; all
      other items are untouched. */
  method AggregateActivity(items: seq<ActivityItem>) returns (shown: seq<ActivityItem>)
    requires forall i, j :: 0 <= i < j < |items| ==> items[i] != items[j]
    modifies items
    ensures Views(shown) == First(SHOWN, Grouped(old(Views(items))))
    ensures |shown| == 24 || (|shown| < 24 && |shown| == |Heads(old(Views(items)), 0, |items|)|)
    ensures forall g :: 0 <= g < |shown| ==> shown[g] == items[Heads(old(Views(items)), 0, |items|)[g]]
    ensures forall i :: 0 <= i < |items| && i !in Heads(old(Views(items)), 0, |items|) ==>
              items[i].groupCount == old(items[i].groupCount)
  {
    hide Heads, Mergeable, GroupCount, GroupKey, Views;
    ghost var xs := Views(items);
    var grouped := FoldRuns(items);
    ghost var groups := Grouped(xs);
    forall g | 0 <= g < |grouped| ensures grouped[g].View() == groups[g] {
    }
    shown := First(SHOWN, grouped);
    assert Views(shown) == First(SHOWN, groups);
  }

  /** The loop, with every head and every count. */
  method FoldRuns(items: seq<ActivityItem>) returns (grouped: seq<ActivityItem>)
    requires forall i, j :: 0 <= i < j < |items| ==> items[i] != items[j]
    modifies items
    ensures
      var xs := old(Views(items));
      var heads := Heads(xs, 0, |xs|);
      && |grouped| == |heads|
      && (forall g :: 0 <= g < |heads| ==> grouped[g] == items[heads[g]])
      && (forall g :: 0 <= g < |heads| ==> items[heads[g]].groupCount == GroupCount(xs, heads, g, |xs|))
      && (forall i :: 0 <= i < |items| && i !in heads ==> items[i].groupCount == xs[i].count)
  {
    hide Heads, Mergeable, GroupCount, GroupKey, Counted, Views;
    ghost var xs := Views(items);
    ghost var heads: seq<nat> := [];
    ghost var counts := seq(|xs|, i requires 0 <= i < |xs| => xs[i].count);
    NoHeads(xs, counts);
    grouped := [];
    for n := 0 to |items|
      invariant heads == Heads(xs, 0, n) && Counted(xs, heads, counts, n) && |counts| == |items|
      invariant |grouped| == |heads| && forall g :: 0 <= g < |heads| ==> grouped[g] == items[heads[g]]
      invariant forall i :: 0 <= i < |items| ==> items[i].groupCount == counts[i]
    {
      var item := items[n];
      PushCounted(xs, heads, counts, n);
      if grouped == [] {
        grouped, heads := grouped + [item], heads + [n];
        continue;
      }
      OneMore(xs, 0, n);
      JoinCounted(xs, heads, counts, n);
      var previous := grouped[|grouped| - 1];
      ghost var last := heads[|heads| - 1];
      SameButCount(xs[last], previous.View(), xs[n], item.View());
      if Mergeable(previous.View(), item.View()) {
        previous.groupCount := previous.groupCount + 1;
        counts := counts[last := counts[last] + 1];
        continue;
      }
      grouped, heads := grouped + [item], heads + [n];
    }
    Uncounted(xs, heads, counts);
  }

  /** The counts when the items before `end` have been read. */
  ghost predicate Counted(xs: seq<Item>, heads: seq<nat>, counts: seq<int>, end: nat) {
    && |counts| == |xs|
    && (forall g :: 0 <= g < |heads| ==> heads[g] < |xs| && counts[heads[g]] == GroupCount(xs, heads, g, end))
    && (forall i :: 0 <= i < |xs| && i !in heads ==> counts[i] == xs[i].count)
  }

  lemma Uncounted(xs: seq<Item>, heads: seq<nat>, counts: seq<int>)
    requires Counted(xs, heads, counts, |xs|)
    ensures |counts| == |xs|
    ensures forall g :: 0 <= g < |heads| ==> heads[g] < |xs| && counts[heads[g]] == GroupCount(xs, heads, g, |xs|)
    ensures forall i :: 0 <= i < |xs| && i !in heads ==> counts[i] == xs[i].count
  {
  }

  lemma PushCounted(xs: seq<Item>, heads: seq<nat>, counts: seq<int>, end: nat)
    requires end < |xs| && heads == Heads(xs, 0, end) && Counted(xs, heads, counts, end)
    ensures Counted(xs, heads + [end], counts, end + 1)
    ensures heads == [] ==> Heads(xs, 0, end + 1) == [end]
  {
    CountsOneMore(xs, heads, end);
    hide GroupCount;
    forall g | 0 <= g < |heads + [end]|
      ensures counts[(heads + [end])[g]] == GroupCount(xs, heads + [end], g, end + 1)
    {
      assert g < |heads| ==> (heads + [end])[g] == heads[g];
    }
  }

  lemma JoinCounted(xs: seq<Item>, heads: seq<nat>, counts: seq<int>, end: nat)
    requires end < |xs| && heads == Heads(xs, 0, end) && heads != [] && Counted(xs, heads, counts, end)
    ensures heads[|heads| - 1] < |xs|
    ensures var last := heads[|heads| - 1]; Counted(xs, heads, counts[last := counts[last] + 1], end + 1)
  {
    CountsOneMore(xs, heads, end);
    hide GroupCount;
  }

  lemma NoHeads(xs: seq<Item>, counts: seq<int>)
    requires |counts| == |xs| && forall i :: 0 <= i < |xs| ==> counts[i] == xs[i].count
    ensures Heads(xs, 0, 0) == [] && Counted(xs, [], counts, 0)
  {
  }

  lemma SameButCount(a: Item, a': Item, b: Item, b': Item)
    requires a.(count := 0) == a'.(count := 0) && b.(count := 0) == b'.(count := 0)
    ensures Mergeable(a, b) <==> Mergeable(a', b')
  {
  }

  /** The counts when one more item has been read: the last group grows, or a group of one begins. */
  lemma CountsOneMore(xs: seq<Item>, heads: seq<nat>, end: nat)
    requires end < |xs| && heads == Heads(xs, 0, end)
    ensures forall g :: 0 <= g < |heads| - 1 ==> GroupCount(xs, heads, g, end + 1) == GroupCount(xs, heads, g, end)
    ensures heads != [] ==> GroupCount(xs, heads, |heads| - 1, end + 1) == GroupCount(xs, heads, |heads| - 1, end) + 1
    ensures forall g :: 0 <= g < |heads| ==> GroupCount(xs, heads + [end], g, end + 1) == GroupCount(xs, heads, g, end)
    ensures GroupCount(xs, heads + [end], |heads|, end + 1) == xs[end].count
    ensures end !in heads && forall i, j :: 0 <= i < j < |heads| ==> heads[i] < heads[j]
  {
    Ascending(xs, 0, end);
    hide Heads;
    forall g | 0 <= g < |heads|
      ensures GroupCount(xs, heads + [end], g, end + 1) == GroupCount(xs, heads, g, end)
    {
      assert EndOf(heads + [end], g, end + 1) == EndOf(heads, g, end);
    }
  }

  lemma {:induction false} Ascending(xs: seq<Item>, from: nat, end: nat)
    requires from <= end <= |xs|
    ensures forall i, j :: 0 <= i < j < |Heads(xs, from, end)| ==> Heads(xs, from, end)[i] < Heads(xs, from, end)[j]
    decreases end - from
  {
    if from < end {
      Ascending(xs, RunEnd(xs, from, from + 1, end), end);
    }
  }

  /* ----- Bias ----- */

  datatype Bias = Neutral | Mixed | Long | Short

  function Score(directions: seq<string>): int {
    if directions == [] then 0
    else Score(directions[..|directions| - 1]) + (if directions[|directions| - 1] == "BUY" then 1 else -1)
  }

  function BiasFromPositions(directions: seq<string>): Bias {
    var score, n := Score(directions), |directions|;
    if n == 0 then Bias.Neutral
    else if score > 0 && score != n && score != -n then Mixed
    else if score < 0 && score != n && score != -n then Mixed
    else if score > 0 then Long
    else if score < 0 then Short
    else Mixed
  }

  lemma {:induction false} ScoreBounds(directions: seq<string>)
    ensures -|directions| <= Score(directions) <= |directions|
    ensures Score(directions) == |directions| <==> forall i :: 0 <= i < |directions| ==> directions[i] == "BUY"
    ensures Score(directions) == -|directions| <==> forall i :: 0 <= i < |directions| ==> directions[i] != "BUY"
  {
    if directions != [] {
      var n := |directions| - 1;
      ScoreBounds(directions[..n]);
      assert directions == directions[..n] + [directions[n]];
    }
  }

  /** Long means every position buys, short that none does; anything between is mixed. */
  lemma BiasMeaning(directions: seq<string>)
    requires directions != []
    ensures BiasFromPositions(directions).Long? <==> forall i :: 0 <= i < |directions| ==> directions[i] == "BUY"
    ensures BiasFromPositions(directions).Short? <==> forall i :: 0 <= i < |directions| ==> directions[i] != "BUY"
    ensures !BiasFromPositions(directions).Neutral?
  {
    ScoreBounds(directions);
  }
}