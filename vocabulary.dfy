/**
 * The two stage vocabularies side by side. The Dashboard declares three
 * stages ('new', 'in_talks', 'closed'); the Add Prospect form offers five
 * ('new', 'contacted', 'qualified', 'proposal', 'closed') and the list's
 * badge table is keyed by the same five. Nothing reconciles them; these
 * lemmas state where they disagree and what that does to the Dashboard.
 */
module Vocabulary {
  import Dashboard
  import AddProspect
  import Prospects

  /** The list's badge table covers exactly the stages the form offers. */
  lemma ListAndFormAgree()
    ensures Prospects.StageColors.Keys == set o | o in AddProspect.Stages :: o.value
  {
    var offered := set o | o in AddProspect.Stages :: o.value;
    assert AddProspect.Stages[0].value == "new" && AddProspect.Stages[1].value == "contacted";
    assert AddProspect.Stages[2].value == "qualified" && AddProspect.Stages[3].value == "proposal";
    assert AddProspect.Stages[4].value == "closed";
    assert offered == {"new", "contacted", "qualified", "proposal", "closed"};
  }

  /**
   * Of the five stages the form offers, the Dashboard declares only 'new'
   * and 'closed'; its 'in_talks' is not offered at all.
   */
  lemma FormStagesUnknownToDashboard()
    ensures forall o :: o in AddProspect.Stages ==>
      (Dashboard.IsDeclared(o.value) <==> o.value == "new" || o.value == "closed")
    ensures forall o :: o in AddProspect.Stages ==> o.value != Dashboard.Stage.InTalks.Key()
  {
  }

  /**
   * A row saved from the form with an offered stage the Dashboard does not
   * declare raises the total but none of the three counters, so the counters
   * no longer add up to the total.
   */
  lemma UndeclaredRowSkewsCounts(rows: seq<Dashboard.Prospect>, p: Dashboard.Prospect, o: AddProspect.StageOption)
    requires o in AddProspect.Stages && p.stage == o.value && !Dashboard.IsDeclared(o.value)
    ensures Dashboard.StatsOf(rows + [p]) == Dashboard.StatsOf(rows)
    ensures Dashboard.TotalProspects(rows + [p]) == Dashboard.TotalProspects(rows) + 1
    ensures Dashboard.StatsOf(rows + [p]).Sum() < Dashboard.TotalProspects(rows + [p])
  {
    Dashboard.StatsOfSnoc(rows, p);
    Dashboard.CountsPartitionRows(rows);
  }
}
