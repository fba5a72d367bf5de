/** The state of the calculator page: the cofounder list, the two global
    parameters and the last calculated results. Each handler replaces one
    piece of state with a value computed from the old state; the results are
    recalculated only when asked, so edits leave them as they were. */
module Page {
  import opened Equity
  import opened Roster

  class EquityPage {
    var cofounders: seq<Cofounder>
    var companyValuation: real
    var timeHorizon: real  // months
    var results: seq<EquityResult>

    /** The initial state: one default cofounder "1", a valuation of
        1000000, a twelve-month horizon and no results. */
    constructor ()
      ensures cofounders == [NewCofounder(1)]
      ensures NumberedInOrder(cofounders)
      ensures companyValuation == 1000000.0 && timeHorizon == 12.0
      ensures results == []
    {
      cofounders := [NewCofounder(1)];
      companyValuation := 1000000.0;
      timeHorizon := 12.0;
      results := [];
    }

    method SetCompanyValuation(value: real)
      modifies this`companyValuation
      ensures companyValuation == value
    {
      companyValuation := value;
    }

    method SetTimeHorizon(value: real)
      modifies this`timeHorizon
      ensures timeHorizon == value
    {
      timeHorizon := value;
    }

    /** Appends a default cofounder with id "length + 1". Ids stay unique
        exactly when that id is not already taken; a list that was never
        removed from stays numbered "1", "2", ... */
    method AddCofounder()
      modifies this`cofounders
      ensures cofounders == Added(old(cofounders))
      ensures UniqueIds(old(cofounders)) ==>
                (UniqueIds(cofounders) <==> NatToString(|old(cofounders)|+ 1) !in Ids(old(cofounders)))
      ensures NumberedInOrder(old(cofounders)) ==> NumberedInOrder(cofounders) && UniqueIds(cofounders)
    {
      if UniqueIds(cofounders) {
        AddKeepsUniqueIff(cofounders);
      }
      if NumberedInOrder(cofounders) {
        AddKeepsNumbered(cofounders);
      }
      cofounders := Added(cofounders);
    }

    /** Sets one field of every cofounder with the id. */
    method UpdateCofounder(id: string, field: Field, value: FieldValue)
      requires Fits(field, value)
      modifies this`cofounders
      ensures cofounders == Updated(old(cofounders), id, field, value)
      ensures field != Id ==> Ids(cofounders) == Ids(old(cofounders))
    {
      if field != Id {
        UpdateKeepsIds(cofounders, id, field, value);
      }
      cofounders := Updated(cofounders, id, field, value);
    }

    /** Removes every cofounder with the id, unless only one is listed. The
        list becomes empty exactly when two or more are listed and all carry
        the id; while the ids are unique it never does. */
    method RemoveCofounder(id: string)
      modifies this`cofounders
      ensures cofounders == Removed(old(cofounders), id)
      ensures |old(cofounders)| >= 1 ==>
                (|cofounders| == 0 <==>
                   |old(cofounders)| > 1 && forall cf :: cf in old(cofounders) ==> cf.id == id)
      ensures UniqueIds(old(cofounders)) && |old(cofounders)| >= 1 ==>
                |cofounders| >= 1 && UniqueIds(cofounders)
    {
      if |cofounders| >= 1 {
        RemovedEmptyIff(cofounders, id);
      }
      if UniqueIds(cofounders) && |cofounders| >= 1 {
        RemoveKeepsOneWhenIdsUnique(cofounders, id);
        FilteredKeepsUnique(cofounders, id);
      }
      if |cofounders| > 1 {
        cofounders := Filtered(cofounders, id);
      }
    }

    /** Recomputes the results from the current cofounders and parameters. */
    method CalculateEquity()
      modifies this`results
      ensures results == Equity.CalculateEquity(cofounders, companyValuation, timeHorizon)
      ensures |results| == |cofounders|
      ensures TotalSlices(cofounders, timeHorizon) > 0.0 ==> SumPercentages(results) == 100.0
      ensures TotalSlices(cofounders, timeHorizon) <= 0.0 ==>
                forall r :: r in results ==> r.percentage == 0.0 && r.dollarValue == 0.0
    {
      results := Equity.CalculateEquity(cofounders, companyValuation, timeHorizon);
      if TotalSlices(cofounders, timeHorizon) > 0.0 {
        PercentagesSumTo100(cofounders, companyValuation, timeHorizon);
      } else {
        ZeroGuard(cofounders, companyValuation, timeHorizon);
      }
    }
  }
}
