/**
 * `getGPA` (application.rb:106-120) and the pass/fail rule `parseReport` applies to each GPA
 * (application.rb:33-47). The GPA pattern is scanned; the first capture is the cumulative GPA
 * and the second the major GPA, a missing second one replaced by `'0.00'`, whose `[0]` is
 * `"0"`.
 */
module Gpa {
  import opened Base
  import opened Patterns
  import opened Search
  import opened RubyValues
  import PatternProofs

  /** The hash `getGPA` returns. */
  datatype GpaSummary = GpaSummary(cumulativeGPA: Value, majorGPA: Value)

  /** The summary from the captures of the GPA scan, as the fallback and the reads decide it. */
  function GpaPair(caps: seq<Option<string>>): (r: Outcome<GpaSummary>)
    ensures r.Raises? <==> caps == []
    ensures r.Ok? ==> r.value.cumulativeGPA == OfCapture(caps[0])
    ensures r.Ok? ==> r.value.majorGPA == if 2 <= |caps| then OfCapture(caps[1]) else Str("0")
  {
    if caps == [] then Raises
    else if |caps| == 1 then Ok(GpaSummary(OfCapture(caps[0]), Str("0")))
    else Ok(GpaSummary(OfCapture(caps[0]), OfCapture(caps[1])))
  }

  /** What `getGPA(report)` returns, or that it raises. */
  function GpaOf(report: string): (r: Outcome<GpaSummary>)
    ensures r.Raises? <==> ScanAll(GpaValue, report) == []
  {
    GpaPair(Captures(ScanAll(GpaValue, report)))
  }

  /**
   * `getGPA`, step by step. `scan` returns an Array, never nil, so the branch for a nil result
   * cannot run and is not written; with exactly one row, `gpaArray[1] = '0.00'` appends.
   */
  method GetGPA(reportText: string) returns (r: Outcome<GpaSummary>)
    ensures r == GpaOf(reportText)
  {
    var gpaArray := Rows(Captures(ScanAll(GpaValue, reportText)));
    if |gpaArray| == 1 {
      gpaArray := Store(gpaArray, 1, Text("0.00"));
    }
    var cumulativeGPA := First(At(gpaArray, 0));
    if cumulativeGPA.Raises? {
      return Raises;
    }
    var majorGPA := First(At(gpaArray, 1));
    if majorGPA.Raises? {
      return Raises;
    }
    r := Ok(GpaSummary(cumulativeGPA.value, majorGPA.value));
  }

  /** `getGPA` raises exactly when the report has no `D.DD GPA` anywhere. */
  lemma GpaRaisesIff(report: string)
    ensures GpaOf(report).Raises? <==> forall h: Hit :: h.start <= |report| ==> !Spells(GpaValue, report, h)
  {
    ScanAllEmptyIff(GpaValue, report);
    LeftmostNone(GpaValue, report);
  }

  /**
   * The cumulative GPA is the leftmost `D.DD GPA`; the major GPA is the next one, found from
   * the end of the first, or `"0"` when there is none.
   */
  lemma GpaOrder(report: string)
    requires GpaOf(report).Ok?
    ensures Leftmost(GpaValue, report).Some?
    ensures var first := Leftmost(GpaValue, report).value;
      && GpaOf(report).value.cumulativeGPA == OfCapture(first.group)
      && (Find(MatcherOf(GpaValue, report), |report|, first.end).None? ==>
            GpaOf(report).value.majorGPA == Str("0"))
      && (Find(MatcherOf(GpaValue, report), |report|, first.end).Some? ==>
            GpaOf(report).value.majorGPA == OfCapture(Find(MatcherOf(GpaValue, report), |report|, first.end).value.group))
  {
    var m := MatcherOf(GpaValue, report);
    var hs := ScanAll(GpaValue, report);
    ScanFirstIsFind(m, |report|, 0);
    var first := hs[0];
    assert Scan(m, |report|, 0) == [first] + Scan(m, |report|, first.end);
    if Find(m, |report|, first.end).Some? {
      assert hs[1] == Find(m, |report|, first.end).value;
    }
  }

  /** Both GPA values are `D.DD` as the report spells them, except the fallback `"0"`. */
  lemma GpaValues(report: string)
    requires GpaOf(report).Ok?
    ensures GpaOf(report).value.cumulativeGPA.Str? && IsGpa(GpaOf(report).value.cumulativeGPA.text)
    ensures GpaOf(report).value.majorGPA == Str("0") ||
      (GpaOf(report).value.majorGPA.Str? && IsGpa(GpaOf(report).value.majorGPA.text))
  {
    var hs := ScanAll(GpaValue, report);
    ScanAllMatches(GpaValue, report);
    PatternProofs.MatchAtGroupShape(GpaValue, report, hs[0].start);
    if |hs| > 1 {
      PatternProofs.MatchAtGroupShape(GpaValue, report, hs[1].start);
    }
  }

  /** `(\d\.\d{2}) GPA` has no left boundary: in `13.50 GPA` the match starts at the `3`. */
  lemma NoLeftBoundary()
    ensures MatchAt(GpaValue, "13.50 GPA", 0).None?
    ensures MatchAt(GpaValue, "13.50 GPA", 1) == Some(Hit(1, 9, Some("3.50")))
    ensures Leftmost(GpaValue, "13.50 GPA") == Some(Hit(1, 9, Some("3.50")))
    ensures GpaOf("13.50 GPA") == Ok(GpaSummary(Str("3.50"), Str("0")))
  {
    var s := "13.50 GPA";
    var h := Hit(1, 9, Some("3.50"));
    assert s[1..5] == "3.50";
    assert GpaText("3.50") == s[1..];
    HasAtSlice(s, 1, GpaText("3.50"));
    PatternProofs.MatchAtIsRegexMatch(GpaValue, s, h);
    assert MatchAt(GpaValue, s, 0).None? by {
      if MatchAt(GpaValue, s, 0).Some? {
        PatternProofs.MatchAtGroupShape(GpaValue, s, 0);
      }
    }
    var m := MatcherOf(GpaValue, s);
    FindIsLeftmost(m, |s|, 0, h);
    assert Scan(m, |s|, 9) == [];
    assert ScanAll(GpaValue, s) == [h];
  }

  /** The mark a GPA gets: `color: green` with the ok icon, or `color: red` with the remove icon. */
  datatype Standing = Pass | Fail

  /** `v.to_i > 2`. */
  function StandingOf(v: Value): (st: Standing)
    ensures st == Pass ==> v.Str? && v.text != [] && IsDigit(v.text[0])
    ensures v in {Str("0"), IntZero, Nil} ==> st == Fail
  {
    if ToI(v) > 2 then Pass else Fail
  }

  /** A GPA passes exactly when its whole part is 3 or more; the fallback `"0"` fails. */
  lemma GpaStanding(v: Value)
    requires v == Str("0") || (v.Str? && IsGpa(v.text))
    ensures StandingOf(v) == Pass <==> v.Str? && IsGpa(v.text) && '3' <= v.text[0]
  {
  }
}
