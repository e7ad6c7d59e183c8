/** The ranking of competing plans, spelled out: which plan of an instrument survives and in which order the
    survivors are given their budgets. */
module PlanRanking {
  import opened Ordering
  import opened Allocator
  import opened PlanSelection

  /** The higher score wins, then the strategy and then the instrument that is first in code-point order. */
  ghost predicate Beats(a: Plan, b: Plan) {
    || a.score > b.score
    || (a.score == b.score && StringBefore(a.strategy, b.strategy))
    || (a.score == b.score && a.strategy == b.strategy && StringBefore(a.instrument, b.instrument))
  }

  lemma NotBeaten(a: Plan, b: Plan)
    ensures PlanLe(a, b) <==> !Beats(b, a)
  {
    StringLeMeaning(b.strategy, a.strategy);
    StringLeMeaning(b.instrument, a.instrument);
    StringLeTotal(a.strategy, b.strategy);
  }

  lemma Tied(a: Plan, b: Plan)
    requires !Beats(a, b) && !Beats(b, a)
    ensures a.score == b.score && a.strategy == b.strategy && a.instrument == b.instrument
  {
    StringLeMeaning(a.strategy, b.strategy);
    StringLeMeaning(b.strategy, a.strategy);
    StringLeTotal(a.strategy, b.strategy);
    StringLeMeaning(a.instrument, b.instrument);
    StringLeMeaning(b.instrument, a.instrument);
    StringLeTotal(a.instrument, b.instrument);
  }

  /** Of two survivors the one that beats the other is allocated first, and of any two one does. */
  lemma SurvivorsInOrder(plans: seq<Plan>, i: nat, j: nat)
    requires i < j < |OnePass(plans)|
    ensures Beats(OnePass(plans)[i], OnePass(plans)[j]) && !Beats(OnePass(plans)[j], OnePass(plans)[i])
  {
    hide Beats, FirstOf, Ranked, PlanLe;
    var p, q := OnePass(plans)[i], OnePass(plans)[j];
    RankedSorted(plans);
    FirstOfSorted(InstrumentOf, PlanLe, Ranked(plans));
    NotBeaten(p, q);
    SurvivorsAreBest(plans);
    if !Beats(p, q) {
      Tied(p, q);
    }
  }

  lemma RankedSorted(plans: seq<Plan>)
    ensures Sorted(PlanLe, Ranked(plans))
  {
    PlanLePreorder();
    SortSorted(PlanLe, plans);
  }
}
