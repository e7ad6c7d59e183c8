/** What each counter of the persisted summary counts, spelled out over the decisions and the candidates. */
module CycleCounts {
  import opened Basics
  import opened Allocator
  import opened AllocationCycle
  import opened CycleAccounting

  datatype Counter =
    | Candidates | Approved | Rejected | Unsized | Approximated | TooSmall | OverBudgets | InConflict
    | RejectedFor(reason: Reason) | BoundBy(budget: Budget)

  function Reading(m: Summary, what: Counter): nat {
    match what
    case Candidates => m.candidates
    case Approved => m.approved
    case Rejected => m.rejected
    case Unsized => m.unsupportedSizing
    case Approximated => m.approximateLive
    case TooSmall => m.underMinimum
    case OverBudgets => m.budget
    case InConflict => m.conflict
    case RejectedFor(reason) => m.rejectionReasons[reason]
    case BoundBy(budget) => m.bindingBudgets[budget]
  }

  /** The counter that a reason for a rejection belongs to, if any. */
  function BlockerOf(reason: Reason): Option<Counter> {
    match reason
    case SizingQuoteUnavailable => Some(Unsized)
    case BrokerMetadataUnavailable => Some(Unsized)
    case ApproximateSizingUnsupported => Some(Approximated)
    case BelowMinSize => Some(TooSmall)
    case SizeRoundedToZero => Some(TooSmall)
    case Exhausted(_) => Some(OverBudgets)
    case PortfolioPositionLimit => Some(OverBudgets)
    case StrategyPositionLimit => Some(OverBudgets)
    case CyclePositionLimit => Some(OverBudgets)
    case GrossExposureLimit => Some(OverBudgets)
    case WeakerDuplicate => Some(InConflict)
    case DirectionConflict => Some(InConflict)
    case StaleSignal => None
    case AccountEquityUnavailable => None
    case AccountEquityInvalid => None
    case SizeZero => None
    case Allocated => None
    case NonEntryPassthrough => None
  }

  predicate Counts(what: Counter, d: Decision) {
    match what
    case Candidates => true
    case Approved => d.selected
    case Rejected => !d.selected
    case RejectedFor(reason) => !d.selected && d.reason == reason
    case BoundBy(budget) => d.binding == Some(budget)
    case _ => BlockerOf(d.reason) == Some(what)
  }

  /** How many decisions on entry candidates the counter is about. */
  function HowMany(cs: seq<Candidate>, ds: seq<Decision>, what: Counter): nat {
    if ds == [] then 0
    else
      var d := ds[|ds| - 1];
      HowMany(cs, ds[..|ds| - 1], what)
      + (if d.id < |cs| && cs[d.id].signal.Entry? && Counts(what, d) then 1 else 0)
  }

  /** The percents asked for by the entry candidates, or granted to those selected. */
  function AskedInAll(cs: seq<Candidate>, ds: seq<Decision>): real {
    if ds == [] then 0.0
    else
      var d := ds[|ds| - 1];
      AskedInAll(cs, ds[..|ds| - 1]) + (if d.id < |cs| && cs[d.id].signal.Entry? then d.requestedRisk else 0.0)
  }

  lemma BlockersAre(r: Reason)
    ensures UnsupportedSizing(r) <==> BlockerOf(r) == Some(Unsized)
    ensures r.ApproximateSizingUnsupported? <==> BlockerOf(r) == Some(Approximated)
    ensures UnderMinimum(r) <==> BlockerOf(r) == Some(TooSmall)
    ensures OverBudget(r) <==> BlockerOf(r) == Some(OverBudgets)
    ensures Conflicting(r) <==> BlockerOf(r) == Some(InConflict)
  {
  }

  lemma NotedOnce(m: Summary, d: Decision, what: Counter)
    ensures Reading(Note(m, d), what) == Reading(m, what) + (if Counts(what, d) then 1 else 0)
  {
    BlockersAre(d.reason);
    hide BlockerOf, UnsupportedSizing, UnderMinimum, OverBudget, Conflicting;
    match what {
      case RejectedFor(reason) => OneMoreOf(m.rejectionReasons, d.reason, reason);
      case BoundBy(budget) => if d.binding.Some? { OneMoreOf(m.bindingBudgets, d.binding.value, budget); }
      case _ =>
    }
  }

  lemma AskedOnce(m: Summary, d: Decision)
    ensures Note(m, d).requestedRisk == m.requestedRisk + d.requestedRisk
  {
  }

  lemma OneMoreOf<T>(counts: multiset<T>, added: T, looked: T)
    ensures (counts + multiset{added})[looked] == counts[looked] + (if added == looked then 1 else 0)
    ensures (counts + multiset{})[looked] == counts[looked]
  {
  }

  /** Every counter of the summary is the number of entry decisions it is about, and the requested risk is what
      they asked for. */
  lemma {:induction false} CountersAre(cs: seq<Candidate>, ds: seq<Decision>, what: Counter)
    ensures Reading(Tally(cs, ds), what) == HowMany(cs, ds, what)
    ensures Tally(cs, ds).requestedRisk == AskedInAll(cs, ds)
  {
    if ds != [] {
      hide Note, Reading, Counts;
      var earlier, d := ds[..|ds| - 1], ds[|ds| - 1];
      CountersAre(cs, earlier, what);
      NotedOnce(Tally(cs, earlier), d, what);
      AskedOnce(Tally(cs, earlier), d);
    } else {
      hide Counts;
    }
  }
}
