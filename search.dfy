/**
 * Ruby's `String#match` and `String#scan` for the fixed patterns, built on the recogniser
 * MatchAt that reports the one match a pattern has at a given start. `match` returns the
 * leftmost match; `scan` returns the matches found left to right, each search resuming where
 * the previous match ended, so the matches never overlap. No pattern here matches the empty
 * text, so `scan` never has to step over an empty match.
 *
 * The search is written over a Matcher, the match a pattern has at each start of one text,
 * so that it is stated once for all six patterns.
 */
module Search {
  import opened Base
  import opened Patterns
  import PatternProofs

  /** A pattern applied to one text: the match it has at each start position, if any. */
  type Matcher = nat -> Option<Hit>

  /** Every match `m` reports at a start `j` of an `n`-character text begins at `j` and ends, later, within the text. */
  ghost predicate Advances(m: Matcher, n: nat) {
    forall j: nat :: j <= n && m(j).Some? ==> m(j).value.start == j < m(j).value.end <= n
  }

  /** Pattern `p` applied to `s`. */
  function MatcherOf(p: Pattern, s: string): (m: Matcher)
    ensures Advances(m, |s|)
    ensures forall j: nat :: j <= |s| ==> m(j) == MatchAt(p, s, j)
  {
    (j: nat) => if j <= |s| then MatchAt(p, s, j) else None
  }

  /** `String#match` from position `from`: the match with the least start at or after `from`. */
  function Find(m: Matcher, n: nat, from: nat): (r: Option<Hit>)
    requires from <= n
    ensures Advances(m, n) && r.Some? ==> from <= r.value.start < r.value.end <= n && m(r.value.start) == r
    decreases n - from
  {
    if m(from).Some? then m(from)
    else if from == n then None
    else Find(m, n, from + 1)
  }

  /** No match starts at a position in [a, b). */
  ghost predicate NoMatchIn(m: Matcher, a: nat, b: nat) {
    forall j: nat :: a <= j < b ==> m(j).None?
  }

  /** Find reports `h` exactly when `h` is a match at or after `from` and none starts earlier. */
  lemma {:induction false} FindIsLeftmost(m: Matcher, n: nat, from: nat, h: Hit)
    requires from <= n && Advances(m, n)
    ensures Find(m, n, from) == Some(h) <==>
      from <= h.start <= n && m(h.start) == Some(h) && NoMatchIn(m, from, h.start)
    decreases n - from
  {
    if m(from).None? && from < n {
      FindIsLeftmost(m, n, from + 1, h);
    }
  }

  /** Find reports nothing exactly when no match starts at or after `from`. */
  lemma {:induction false} FindNone(m: Matcher, n: nat, from: nat)
    requires from <= n
    ensures Find(m, n, from).None? <==> NoMatchIn(m, from, n + 1)
    decreases n - from
  {
    if m(from).None? && from < n {
      FindNone(m, n, from + 1);
    }
  }

  /** `String#scan` from `from`: find a match, record it, resume at its end. */
  function Scan(m: Matcher, n: nat, from: nat): (hs: seq<Hit>)
    requires from <= n && Advances(m, n)
    ensures |hs| <= n - from
    decreases n - from
  {
    match Find(m, n, from)
    case None => []
    case Some(h) => [h] + Scan(m, n, h.end)
  }

  /** Where the search for the `k`-th match of a scan begins. */
  function Resume(from: nat, hs: seq<Hit>, k: nat): nat
    requires k <= |hs|
  {
    if k == 0 then from else hs[k - 1].end
  }

  /**
   * What `scan` promises, independently of how it searches: every element is a match, each
   * starts at or after the place its search resumed, and no match starts between that place
   * and the element, nor after the last element.
   */
  ghost predicate IsScan(m: Matcher, n: nat, from: nat, hs: seq<Hit>) {
    && (forall k :: 0 <= k < |hs| ==> ScanStep(m, n, from, hs, k))
    && NoMatchIn(m, Resume(from, hs, |hs|), n + 1)
  }

  /** The `k`-th element is the first match after the place its search resumed. */
  ghost predicate ScanStep(m: Matcher, n: nat, from: nat, hs: seq<Hit>, k: nat)
    requires k < |hs|
  {
    && m(hs[k].start) == Some(hs[k])
    && Resume(from, hs, k) <= hs[k].start <= n
    && NoMatchIn(m, Resume(from, hs, k), hs[k].start)
  }

  /** After its first element, a scan resumes where that element ends. */
  lemma ResumeTail(from: nat, hs: seq<Hit>, k: nat)
    requires 1 <= k <= |hs|
    ensures Resume(from, hs, k) == Resume(hs[0].end, hs[1..], k - 1)
  {
    if k > 1 {
      assert hs[k - 1] == hs[1..][k - 2];
    }
  }

  /** Each step after the first is a step of the scan resumed at the first element's end. */
  lemma ScanStepTail(m: Matcher, n: nat, from: nat, hs: seq<Hit>, k: nat)
    requires 1 <= k < |hs|
    ensures ScanStep(m, n, from, hs, k) <==> ScanStep(m, n, hs[0].end, hs[1..], k - 1)
  {
    assert hs[k] == hs[1..][k - 1];
    ResumeTail(from, hs, k);
  }

  /** A scan is a match followed by a scan from where that match ends. */
  lemma IsScanCons(m: Matcher, n: nat, from: nat, hs: seq<Hit>)
    requires hs != []
    ensures IsScan(m, n, from, hs) <==>
      && m(hs[0].start) == Some(hs[0])
      && from <= hs[0].start <= n && NoMatchIn(m, from, hs[0].start)
      && IsScan(m, n, hs[0].end, hs[1..])
  {
    var rest := hs[1..];
    ResumeTail(from, hs, |hs|);
    forall k | 0 <= k < |rest| ensures ScanStep(m, n, from, hs, k + 1) <==> ScanStep(m, n, hs[0].end, rest, k) {
      ScanStepTail(m, n, from, hs, k + 1);
    }
    if IsScan(m, n, from, hs) {
      assert ScanStep(m, n, from, hs, 0);
      forall k | 0 <= k < |rest| ensures ScanStep(m, n, hs[0].end, rest, k) {
        assert ScanStep(m, n, from, hs, k + 1);
      }
    }
    if m(hs[0].start) == Some(hs[0]) && from <= hs[0].start <= n && NoMatchIn(m, from, hs[0].start) && IsScan(m, n, hs[0].end, rest) {
      forall k | 0 <= k < |hs| ensures ScanStep(m, n, from, hs, k) {
        if k > 0 {
          assert ScanStep(m, n, hs[0].end, rest, k - 1);
        }
      }
    }
  }

  /** Scan does what `scan` promises. */
  lemma {:induction false} ScanIsScan(m: Matcher, n: nat, from: nat)
    requires from <= n && Advances(m, n)
    ensures IsScan(m, n, from, Scan(m, n, from))
    decreases n - from
  {
    FindNone(m, n, from);
    match Find(m, n, from)
    case None =>
    case Some(h) =>
      FindIsLeftmost(m, n, from, h);
      ScanIsScan(m, n, h.end);
      assert ([h] + Scan(m, n, h.end))[1..] == Scan(m, n, h.end);
      IsScanCons(m, n, from, [h] + Scan(m, n, h.end));
  }

  /** ... and nothing else does: the promise determines the result. */
  lemma {:induction false} IsScanOnly(m: Matcher, n: nat, from: nat, hs: seq<Hit>)
    requires from <= n && Advances(m, n) && IsScan(m, n, from, hs)
    ensures hs == Scan(m, n, from)
    decreases |hs|
  {
    FindNone(m, n, from);
    if hs != [] {
      var h := hs[0];
      IsScanCons(m, n, from, hs);
      FindIsLeftmost(m, n, from, h);
      IsScanOnly(m, n, h.end, hs[1..]);
    }
  }

  /** A scan is empty exactly when there is no match at or after `from`. */
  lemma ScanEmptyIff(m: Matcher, n: nat, from: nat)
    requires from <= n && Advances(m, n)
    ensures Scan(m, n, from) == [] <==> NoMatchIn(m, from, n + 1)
  {
    FindNone(m, n, from);
  }

  /** A scan's first element is the leftmost match, the one `String#match` reports. */
  lemma ScanFirstIsFind(m: Matcher, n: nat, from: nat)
    requires from <= n && Advances(m, n) && Scan(m, n, from) != []
    ensures Find(m, n, from) == Some(Scan(m, n, from)[0])
  {
  }

  /** `text.match(p)`. */
  function Leftmost(p: Pattern, s: string): (r: Option<Hit>)
    ensures r.Some? ==> r.value.start <= |s| && MatchAt(p, s, r.value.start) == r
  {
    Find(MatcherOf(p, s), |s|, 0)
  }

  /** `text.scan(p)`, as the matches it finds. */
  function ScanAll(p: Pattern, s: string): (hs: seq<Hit>)
    ensures |hs| <= |s|
  {
    Scan(MatcherOf(p, s), |s|, 0)
  }

  /** Every element of `text.scan(p)` is a match of `p`, and they come in text order without overlapping. */
  lemma ScanAllMatches(p: Pattern, s: string)
    ensures forall k :: 0 <= k < |ScanAll(p, s)| ==>
      ScanAll(p, s)[k].start <= |s| && MatchAt(p, s, ScanAll(p, s)[k].start) == Some(ScanAll(p, s)[k])
    ensures forall k :: 0 < k < |ScanAll(p, s)| ==> ScanAll(p, s)[k - 1].end <= ScanAll(p, s)[k].start
  {
    var m := MatcherOf(p, s);
    var hs := ScanAll(p, s);
    ScanIsScan(m, |s|, 0);
    forall k | 0 <= k < |hs| ensures hs[k].start <= |s| && MatchAt(p, s, hs[k].start) == Some(hs[k]) {
      assert ScanStep(m, |s|, 0, hs, k);
    }
    forall k | 0 < k < |hs| ensures hs[k - 1].end <= hs[k].start {
      assert ScanStep(m, |s|, 0, hs, k);
    }
  }

  /** `text.match(p)` is the regex match with the least start. */
  lemma LeftmostIsFirstSpelling(p: Pattern, s: string, h: Hit)
    ensures Leftmost(p, s) == Some(h) <==> h.start <= |s| && Spells(p, s, h) && FirstSpelling(p, s, h)
  {
    if Leftmost(p, s) == Some(h) {
      LeftmostSpells(p, s, h);
    }
    if h.start <= |s| && Spells(p, s, h) && FirstSpelling(p, s, h) {
      FirstSpellingIsLeftmost(p, s, h);
    }
  }

  /** No regex match of `p` in `s` starts before `h` does. */
  ghost predicate FirstSpelling(p: Pattern, s: string, h: Hit) {
    forall h': Hit :: h'.start <= |s| && Spells(p, s, h') ==> h.start <= h'.start
  }

  lemma LeftmostSpells(p: Pattern, s: string, h: Hit)
    requires Leftmost(p, s) == Some(h)
    ensures h.start <= |s| && Spells(p, s, h) && FirstSpelling(p, s, h)
  {
    var m := MatcherOf(p, s);
    FindIsLeftmost(m, |s|, 0, h);
    PatternProofs.MatchAtIsRegexMatch(p, s, h);
    forall h': Hit | h'.start <= |s| && Spells(p, s, h') ensures h.start <= h'.start {
      PatternProofs.MatchAtIsRegexMatch(p, s, h');
      assert m(h'.start).Some?;
    }
  }

  lemma FirstSpellingIsLeftmost(p: Pattern, s: string, h: Hit)
    requires h.start <= |s| && Spells(p, s, h) && FirstSpelling(p, s, h)
    ensures Leftmost(p, s) == Some(h)
  {
    var m := MatcherOf(p, s);
    PatternProofs.MatchAtIsRegexMatch(p, s, h);
    forall j: nat | j < h.start ensures m(j).None? {
      if m(j).Some? {
        PatternProofs.MatchAtIsRegexMatch(p, s, m(j).value);
      }
    }
    FindIsLeftmost(m, |s|, 0, h);
  }

  /** `text.match(p)` finds nothing exactly when the regex has no match anywhere in the text. */
  lemma LeftmostNone(p: Pattern, s: string)
    ensures Leftmost(p, s).None? <==> forall h: Hit :: h.start <= |s| ==> !Spells(p, s, h)
  {
    var m := MatcherOf(p, s);
    FindNone(m, |s|, 0);
    forall h: Hit | h.start <= |s| && Spells(p, s, h) ensures m(h.start).Some? {
      PatternProofs.MatchAtIsRegexMatch(p, s, h);
    }
    if Leftmost(p, s).Some? {
      var h := Leftmost(p, s).value;
      PatternProofs.MatchAtIsRegexMatch(p, s, h);
    }
  }

  /** `text.scan(p)` is empty exactly when the regex has no match anywhere in the text. */
  lemma ScanAllEmptyIff(p: Pattern, s: string)
    ensures ScanAll(p, s) == [] <==> Leftmost(p, s).None?
  {
    var m := MatcherOf(p, s);
    ScanEmptyIff(m, |s|, 0);
    FindNone(m, |s|, 0);
  }

  /** Group 1 of each match, as `scan` reports them for a pattern with one group. */
  function Captures(hs: seq<Hit>): (gs: seq<Option<string>>)
    ensures |gs| == |hs| && forall k :: 0 <= k < |hs| ==> gs[k] == hs[k].group
  {
    seq(|hs|, k requires 0 <= k < |hs| => hs[k].group)
  }
}
