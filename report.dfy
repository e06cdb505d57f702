/**
 * `parseReport` (application.rb:18-48): it stores the credit summary, then the GPA summary, in
 * instance variables that the page template reads, and marks each GPA as passing or failing.
 * An instance variable never assigned reads as nil, which is how the page starts.
 */
module Report {
  import opened Base
  import opened RubyValues
  import opened Credits
  import opened Gpa

  /** The instance variables `parseReport` sets. A status of None has not been assigned. */
  class DarsPage {
    var totalEarnedCredits: Value
    var totalInProgressCredits: Value
    var totalNeededCredits: Value
    var upperDivEarnedCredits: Value
    var upperDivInProgressCredits: Value
    var upperDivNeededCredits: Value
    var cumulativeGPA: Value
    var majorGPA: Value
    var cumulativeGPAStatus: Option<Standing>
    var majorGPAStatus: Option<Standing>

    /** The credit variables hold the summary `c`. */
    predicate ShowsCredits(c: CreditSummary)
      reads this
    {
      && totalEarnedCredits == c.totalEarned
      && totalInProgressCredits == c.totalInProgress
      && totalNeededCredits == c.totalNeeded
      && upperDivEarnedCredits == c.upperDivEarned
      && upperDivInProgressCredits == c.upperDivInProgress
      && upperDivNeededCredits == c.upperDivNeeded
    }

    /** The GPA variables hold the summary `g`, and each status is the mark its GPA earns. */
    predicate ShowsGpa(g: GpaSummary)
      reads this
    {
      && cumulativeGPA == g.cumulativeGPA
      && majorGPA == g.majorGPA
      && cumulativeGPAStatus == Some(StandingOf(g.cumulativeGPA))
      && majorGPAStatus == Some(StandingOf(g.majorGPA))
    }

    /** A page on which nothing has been assigned yet. */
    constructor ()
      ensures ShowsCredits(CreditSummary(Nil, Nil, Nil, Nil, Nil, Nil))
      ensures cumulativeGPA == Nil && majorGPA == Nil
      ensures cumulativeGPAStatus == None && majorGPAStatus == None
    {
      totalEarnedCredits := Nil;
      totalInProgressCredits := Nil;
      totalNeededCredits := Nil;
      upperDivEarnedCredits := Nil;
      upperDivInProgressCredits := Nil;
      upperDivNeededCredits := Nil;
      cumulativeGPA := Nil;
      majorGPA := Nil;
      cumulativeGPAStatus := None;
      majorGPAStatus := None;
    }

    /**
     * `parseReport(reportText)`; `raised` reports that it raised. When `getCredits` raises
     * nothing is assigned; when `getGPA` raises the credit variables are already assigned and
     * the GPA variables keep their old values.
     */
    method ParseReport(reportText: string) returns (raised: bool)
      modifies this
      ensures raised <==> CreditsOf(reportText).Raises? || GpaOf(reportText).Raises?
      ensures CreditsOf(reportText).Raises? ==> unchanged(this)
      ensures CreditsOf(reportText).Ok? ==> ShowsCredits(CreditsOf(reportText).value)
      ensures CreditsOf(reportText).Ok? && GpaOf(reportText).Raises? ==>
        && cumulativeGPA == old(cumulativeGPA) && majorGPA == old(majorGPA)
        && cumulativeGPAStatus == old(cumulativeGPAStatus) && majorGPAStatus == old(majorGPAStatus)
      ensures !raised ==> ShowsGpa(GpaOf(reportText).value)
    {
      var creditSummary := GetCredits(reportText);
      if creditSummary.Raises? {
        return true;
      }
      StoreCredits(creditSummary.value);
      var gpaSummary := GetGPA(reportText);
      if gpaSummary.Raises? {
        return true;
      }
      StoreGpa(gpaSummary.value);
      raised := false;
    }

    /** The assignments of the credit summary's six entries (application.rb:21-26). */
    method StoreCredits(c: CreditSummary)
      modifies this
      ensures ShowsCredits(c)
      ensures cumulativeGPA == old(cumulativeGPA) && majorGPA == old(majorGPA)
      ensures cumulativeGPAStatus == old(cumulativeGPAStatus) && majorGPAStatus == old(majorGPAStatus)
    {
      totalEarnedCredits := c.totalEarned;
      totalInProgressCredits := c.totalInProgress;
      totalNeededCredits := c.totalNeeded;
      upperDivEarnedCredits := c.upperDivEarned;
      upperDivInProgressCredits := c.upperDivInProgress;
      upperDivNeededCredits := c.upperDivNeeded;
    }

    /** The assignments of the two GPAs and of the mark each earns (application.rb:30-47). */
    method StoreGpa(g: GpaSummary)
      modifies this
      ensures ShowsGpa(g)
      ensures ShowsCredits(old(CreditSummary(totalEarnedCredits, totalInProgressCredits, totalNeededCredits,
        upperDivEarnedCredits, upperDivInProgressCredits, upperDivNeededCredits)))
    {
      cumulativeGPA := g.cumulativeGPA;
      majorGPA := g.majorGPA;

      if ToI(cumulativeGPA) > 2 {
        cumulativeGPAStatus := Some(Pass);
      } else {
        cumulativeGPAStatus := Some(Fail);
      }
      if ToI(majorGPA) > 2 {
        majorGPAStatus := Some(Pass);
      } else {
        majorGPAStatus := Some(Fail);
      }
    }
  }

  /** The whole part of a GPA value is 3 or more. */
  predicate WholePartAtLeastThree(v: Value) {
    v.Str? && v.text != [] && '3' <= v.text[0]
  }

  /**
   * After a parse that did not raise, each GPA is marked passing exactly when its whole part
   * is 3 or more, the two judged independently; a missing major GPA fails.
   */
  lemma ParsedStandings(page: DarsPage, reportText: string)
    requires GpaOf(reportText).Ok?
    requires page.ShowsGpa(GpaOf(reportText).value)
    ensures page.cumulativeGPAStatus == Some(Pass) <==> WholePartAtLeastThree(page.cumulativeGPA)
    ensures page.majorGPAStatus == Some(Pass) <==> WholePartAtLeastThree(page.majorGPA)
    ensures page.cumulativeGPAStatus.Some? && page.majorGPAStatus.Some?
  {
    GpaValues(reportText);
    GpaStanding(page.cumulativeGPA);
    GpaStanding(page.majorGPA);
  }
}
