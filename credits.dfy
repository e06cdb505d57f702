/**
 * `getCredits` (application.rb:54-100): five credit regexes applied to the report text. Four
 * of them keep only the leftmost match and read its group 1, with a missing match replaced by
 * the Integer 0 first; the NEEDS pattern is scanned, and the scan result is patched by a
 * fallback block before its first two rows are read.
 */
module Credits {
  import opened Base
  import opened Patterns
  import opened Search
  import opened RubyValues
  import PatternProofs

  /** The hash `getCredits` returns, one entry per key it sets. */
  datatype CreditSummary = CreditSummary(
    totalEarned: Value,
    totalInProgress: Value,
    totalNeeded: Value,
    upperDivEarned: Value,
    upperDivInProgress: Value,
    upperDivNeeded: Value)

  /** `m[1]` once `m = 0 if m == nil` has run: group 1 of the match, or `0[1]`, which is 0. */
  function GroupOrZero(m: Option<Hit>): (v: Value)
    ensures v == IntZero <==> m.None?
    ensures v.Nil? <==> m.Some? && m.value.group.None?
    ensures m.Some? && m.value.group.Some? ==> v == Str(m.value.group.value)
  {
    match m
    case None => IntZero
    case Some(h) => OfCapture(h.group)
  }

  /**
   * [totalNeeded, upperDivNeeded] from the captures of the NEEDS scan, as the fallback block
   * and the reads after it decide them (application.rb:79-87, 95, 98). With no capture at all
   * the read of row 0 raises.
   */
  function NeededPair(caps: seq<Option<string>>): (r: Outcome<(Value, Value)>)
    ensures r.Raises? <==> caps == []
    ensures r.Ok? ==> r.value.0 == if caps[0].None? then Str("0") else Str(caps[0].value)
    ensures r.Ok? && 2 <= |caps| ==> r.value.1 == OfCapture(caps[1])
    ensures r.Ok? && |caps| == 1 ==> r.value.1 == if caps[0].None? then Str("0") else Str("0.00")
  {
    if caps == [] then Raises
    else if caps == [None] then Ok((Str("0"), Str("0")))
    else if caps[0].None? then Ok((Str("0"), OfCapture(caps[1])))
    else if |caps| == 1 then Ok((Str(caps[0].value), Str("0.00")))
    else Ok((Str(caps[0].value), OfCapture(caps[1])))
  }

  /** What `getCredits(report)` returns, or that it raises. */
  function CreditsOf(report: string): (r: Outcome<CreditSummary>)
    ensures r.Raises? <==> ScanAll(Needed, report) == []
  {
    match NeededPair(Captures(ScanAll(Needed, report)))
    case Raises => Raises
    case Ok((needed, upperDivNeeded)) =>
      Ok(CreditSummary(
        GroupOrZero(Leftmost(Earned, report)),
        GroupOrZero(Leftmost(InProgress, report)),
        needed,
        GroupOrZero(Leftmost(UpperDivEarned, report)),
        GroupOrZero(Leftmost(UpperDivInProgress, report)),
        upperDivNeeded))
  }

  /**
   * `getCredits`, step by step: the four first matches with nil replaced by 0, the NEEDS
   * scan, the fallback block patching that Array, and the six reads.
   */
  method GetCredits(reportText: string) returns (r: Outcome<CreditSummary>)
    ensures r == CreditsOf(reportText)
  {
    var totalEarnedCredits := Leftmost(Earned, reportText);
    var totalInProgressCredits := Leftmost(InProgress, reportText);
    var upperDivEarnedCredits := Leftmost(UpperDivEarned, reportText);
    var upperDivInProgressCredits := Leftmost(UpperDivInProgress, reportText);

    var caps := Captures(ScanAll(Needed, reportText));
    var neededCreditArray := Rows(caps);
    if neededCreditArray == [Row(None)] {
      neededCreditArray := [Text("0.00"), Text("0.00")];
    } else if At(neededCreditArray, 0) == Some(Row(None)) {
      neededCreditArray := Store(neededCreditArray, 0, Text("0.00"));
    } else if |neededCreditArray| == 1 {
      neededCreditArray := neededCreditArray + [Row(Some("0.00"))];
    }

    var totalNeeded := First(At(neededCreditArray, 0));
    if totalNeeded.Raises? {
      return Raises;
    }
    var upperDivNeeded := First(At(neededCreditArray, 1));
    if upperDivNeeded.Raises? {
      return Raises;
    }
    r := Ok(CreditSummary(
      GroupOrZero(totalEarnedCredits),
      GroupOrZero(totalInProgressCredits),
      totalNeeded.value,
      GroupOrZero(upperDivEarnedCredits),
      GroupOrZero(upperDivInProgressCredits),
      upperDivNeeded.value));
    assert caps == [None] <==> neededCreditArray == [Text("0.00"), Text("0.00")];
  }

  /** `getCredits` raises exactly when the NEEDS pattern has no match anywhere in the report. */
  lemma CreditsRaisesIff(report: string)
    ensures CreditsOf(report).Raises? <==> forall h: Hit :: h.start <= |report| ==> !Spells(Needed, report, h)
  {
    ScanAllEmptyIff(Needed, report);
    LeftmostNone(Needed, report);
  }

  /**
   * A single-match field is 0 exactly when its pattern has no match, and otherwise group 1 of
   * the leftmost match, which is never nil and has the shape the pattern gives it.
   */
  lemma SingleField(p: Pattern, s: string)
    requires p == Earned || p == InProgress || p == UpperDivEarned || p == UpperDivInProgress
    ensures GroupOrZero(Leftmost(p, s)) == IntZero <==> forall h: Hit :: h.start <= |s| ==> !Spells(p, s, h)
    ensures Leftmost(p, s).Some? ==>
      && Leftmost(p, s).value.group.Some?
      && GroupOrZero(Leftmost(p, s)) == Str(Leftmost(p, s).value.group.value)
      && GroupShape(p, Leftmost(p, s).value.group)
  {
    LeftmostNone(p, s);
    if Leftmost(p, s).Some? {
      PatternProofs.MatchAtGroupShape(p, s, Leftmost(p, s).value.start);
    }
  }

  /** Every capture of a scan has the shape its pattern gives group 1. */
  lemma CapturesShape(p: Pattern, s: string)
    ensures forall k :: 0 <= k < |ScanAll(p, s)| ==> GroupShape(p, Captures(ScanAll(p, s))[k])
  {
    var hs := ScanAll(p, s);
    ScanAllMatches(p, s);
    forall k | 0 <= k < |hs| ensures GroupShape(p, Captures(hs)[k]) {
      PatternProofs.MatchAtGroupShape(p, s, hs[k].start);
    }
  }

  /** A credit value the report spells: one to three digits, a full stop, two digits. */
  predicate IsCredit(v: Value) {
    v.Str? && IsAmount(v.text)
  }

  /**
   * The values `getCredits` can return: earned, in-progress, needed and upper-division earned
   * credits are amounts as the report spells them, upper-division in-progress credits may have
   * any separator but a newline; a missing single match is 0, and the fallback block yields
   * `"0"`, `"0.00"` or, for the second NEEDS capture, nil.
   */
  lemma CreditValues(report: string)
    requires CreditsOf(report).Ok?
    ensures var c := CreditsOf(report).value;
      && (c.totalEarned == IntZero || IsCredit(c.totalEarned))
      && (c.totalInProgress == IntZero || IsCredit(c.totalInProgress))
      && (c.upperDivEarned == IntZero || IsCredit(c.upperDivEarned))
      && (c.upperDivInProgress == IntZero || (c.upperDivInProgress.Str? && IsLooseAmount(c.upperDivInProgress.text)))
      && (c.totalNeeded == Str("0") || IsCredit(c.totalNeeded))
      && (c.upperDivNeeded in {Str("0"), Str("0.00"), Nil} || IsCredit(c.upperDivNeeded))
  {
    SingleValue(Earned, report);
    SingleValue(InProgress, report);
    SingleValue(UpperDivEarned, report);
    SingleValue(UpperDivInProgress, report);
    NeededValues(report);
  }

  lemma SingleValue(p: Pattern, s: string)
    requires p == Earned || p == InProgress || p == UpperDivEarned || p == UpperDivInProgress
    ensures p != UpperDivInProgress ==> GroupOrZero(Leftmost(p, s)) == IntZero || IsCredit(GroupOrZero(Leftmost(p, s)))
    ensures p == UpperDivInProgress ==>
      GroupOrZero(Leftmost(p, s)) == IntZero ||
      (GroupOrZero(Leftmost(p, s)).Str? && IsLooseAmount(GroupOrZero(Leftmost(p, s)).text))
  {
    SingleField(p, s);
  }

  lemma NeededValues(report: string)
    requires NeededPair(Captures(ScanAll(Needed, report))).Ok?
    ensures var (needed, upperDivNeeded) := NeededPair(Captures(ScanAll(Needed, report))).value;
      && (needed == Str("0") || IsCredit(needed))
      && (upperDivNeeded in {Str("0"), Str("0.00"), Nil} || IsCredit(upperDivNeeded))
  {
    CapturesShape(Needed, report);
  }

  /**
   * The four outcomes of the fallback block for NEEDS: one unnumbered match gives `"0"` twice;
   * an unnumbered first match gives `"0"` and the second capture; one numbered match gives it
   * and `"0.00"`; otherwise the first two captures, in text order, and later ones are ignored.
   */
  lemma NeededCases(report: string)
    ensures var caps := Captures(ScanAll(Needed, report));
      && (caps == [None] ==>
            CreditsOf(report).Ok? && CreditsOf(report).value.totalNeeded == Str("0")
            && CreditsOf(report).value.upperDivNeeded == Str("0"))
      && (|caps| >= 2 && caps[0].None? ==>
            CreditsOf(report).Ok? && CreditsOf(report).value.totalNeeded == Str("0")
            && CreditsOf(report).value.upperDivNeeded == OfCapture(caps[1]))
      && (|caps| == 1 && caps[0].Some? ==>
            CreditsOf(report).Ok? && CreditsOf(report).value.totalNeeded == Str(caps[0].value)
            && CreditsOf(report).value.upperDivNeeded == Str("0.00"))
      && (|caps| >= 2 && caps[0].Some? ==>
            CreditsOf(report).Ok? && CreditsOf(report).value.totalNeeded == Str(caps[0].value)
            && CreditsOf(report).value.upperDivNeeded == OfCapture(caps[1]))
  {
  }

  /** The first NEEDS capture is group 1 of the leftmost NEEDS match. */
  lemma NeededFirstIsLeftmost(report: string)
    requires ScanAll(Needed, report) != []
    ensures Leftmost(Needed, report).Some?
    ensures Captures(ScanAll(Needed, report))[0] == Leftmost(Needed, report).value.group
  {
    ScanFirstIsFind(MatcherOf(Needed, report), |report|, 0);
  }

  /**
   * A whole part of four digits is no credit value: right after `kw`, the optional colon and
   * up to two blanks, four digits leave the pattern no match at that start.
   */
  lemma CreditsRejectFourDigits(kw: string, s: string, i: nat, b: bool, k: nat)
    requires k <= 2 && HasAt(s, i, kw) && HasAt(s, i + |kw|, Colon(b))
    requires HasAt(s, i + |kw| + |Colon(b)|, Spaces(k))
    requires i + |kw| + |Colon(b)| + k + 4 <= |s|
    requires forall j :: i + |kw| + |Colon(b)| + k <= j < i + |kw| + |Colon(b)| + k + 4 ==> IsDigit(s[j])
    ensures CreditsAt(kw, s, i).None?
  {
    var p := i + |kw|;
    var p' := p + |Colon(b)|;
    var q := p' + k;
    if !b && k > 0 {
      HasAtIndex(s, p', Spaces(k), 0);
    }
    PatternProofs.AfterColonIs(s, p, b);
    PatternProofs.SpaceRunOf(s, p', k);
    DigitRunAtLeast(s, q, 4);
    assert AmountAt(s, q).None?;
    PatternProofs.CreditsAtFrom(kw, s, i, CreditsAfter(s, i, p'));
  }

  /** The upper-division in-progress pattern accepts any separator but a newline. */
  lemma InProgAnySeparator(s: string, i: nat, k: nat, g: string)
    requires IsLooseAmount(g) && HasAt(s, i, InProgText(k, g))
    ensures MatchAt(UpperDivInProgress, s, i) == Some(Hit(i, i + |InProgText(k, g)|, Some(g)))
  {
    var h := Hit(i, i + |InProgText(k, g)|, Some(g));
    PatternProofs.MatchAtIsRegexMatch(UpperDivInProgress, s, h);
  }
}
