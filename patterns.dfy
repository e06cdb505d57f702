/**
 * The six fixed regular expressions of the credit and GPA summaries (application.rb:57-61
 * and :110), each as a recogniser of what the pattern matches at one start position, and the
 * same patterns written out as the texts they accept (`Spells`). `MatchAtIsRegexMatch` proves
 * the two agree: at every start position the recogniser returns exactly the one match the
 * regex admits there, with its group 1, or nothing when the regex admits none.
 *
 * Every pattern is unambiguous once its start is fixed (the optional colon, the blank runs and
 * the digit counts are each forced by what must follow them), so the first success
 * of a backtracking matcher is the only success, and a recogniser that makes the forced
 * choices reproduces it.
 */
module Patterns {
  import opened Base

  datatype Pattern =
    | Earned              // /EARNED:? {0,2}?(\d{1,3}\.\d{2}) CREDITS/
    | InProgress          // /IN-PROGRESS:? {0,2}?(\d{1,3}\.\d{2}) CREDITS/
    | Needed              // /NEEDS:? *(\d{1,3}\.\d{2})* CREDITS/
    | UpperDivEarned      // /\( *(\d{1,3}\.\d{2}) HOURS TAKEN *\)/
    | UpperDivInProgress  // /In-Prog-> *(\d{1,3}.\d{2}) CREDITS/
    | GpaValue            // /(\d\.\d{2}) GPA/

  /** A match covering s[start..end]; `group` is group 1, None when the group took no part. */
  datatype Hit = Hit(start: nat, end: nat, group: Option<string>)

  /** `\d{1,3}\.\d{2}`: one to three digits, a full stop, two digits. */
  predicate IsAmount(t: string) {
    && 4 <= |t| <= 6
    && t[|t| - 3] == '.'
    && forall j :: 0 <= j < |t| && j != |t| - 3 ==> IsDigit(t[j])
  }

  /** `\d{1,3}.\d{2}`: as IsAmount, but the separator is any character other than a newline. */
  predicate IsLooseAmount(t: string) {
    && 4 <= |t| <= 6
    && t[|t| - 3] != '\n'
    && forall j :: 0 <= j < |t| && j != |t| - 3 ==> IsDigit(t[j])
  }

  /** Every iteration of a repeated `(\d{1,3}\.\d{2})` is an amount. */
  predicate AllAmounts(xs: seq<string>) {
    xs == [] || (IsAmount(xs[0]) && AllAmounts(xs[1..]))
  }

  /** `\d\.\d{2}`: one digit, a full stop, two digits. */
  predicate IsGpa(t: string) {
    |t| == 4 && IsDigit(t[0]) && t[1] == '.' && IsDigit(t[2]) && IsDigit(t[3])
  }

  /** What group 1 of each pattern can hold. */
  predicate GroupShape(p: Pattern, g: Option<string>) {
    match p
    case Needed => g.None? || IsAmount(g.value)
    case UpperDivInProgress => g.Some? && IsLooseAmount(g.value)
    case GpaValue => g.Some? && IsGpa(g.value)
    case _ => g.Some? && IsAmount(g.value)
  }

  // ---------------------------------------------------------------------------------------
  // The patterns written out: the texts each regex accepts, by the choices it leaves open.
  // Each text is built from the right, so that its tail after any prefix is a text of its own.

  /** `:?`, present or absent. */
  function Colon(b: bool): string {
    if b then ":" else ""
  }

  function Concat(xs: seq<string>): string {
    if xs == [] then "" else xs[0] + Concat(xs[1..])
  }

  /** A repeated group captures its last iteration, and nothing when it iterated zero times. */
  function LastOf(xs: seq<string>): Option<string> {
    if xs == [] then None else Some(xs[|xs| - 1])
  }

  /** `kw:? {0,2}?(g) CREDITS`, with the colon when `b`, `k` blanks and group 1 `g`. */
  function CreditsText(kw: string, b: bool, k: nat, g: string): string {
    kw + (Colon(b) + (Spaces(k) + (g + " CREDITS")))
  }

  /** `NEEDS:? *(\d{1,3}\.\d{2})* CREDITS`, the group iterated once per element of `xs`. */
  function NeededText(b: bool, k: nat, xs: seq<string>): string {
    "NEEDS" + (Colon(b) + (Spaces(k) + (Concat(xs) + " CREDITS")))
  }

  /** `\( *(g) HOURS TAKEN *\)`. */
  function HoursText(k1: nat, g: string, k2: nat): string {
    "(" + (Spaces(k1) + (g + (" HOURS TAKEN" + (Spaces(k2) + ")"))))
  }

  /** `In-Prog-> *(g) CREDITS`. */
  function InProgText(k: nat, g: string): string {
    "In-Prog->" + (Spaces(k) + (g + " CREDITS"))
  }

  /** `(g) GPA`. */
  function GpaText(g: string): string {
    g + " GPA"
  }

  /** The hit covers exactly the text `t`. */
  predicate Occurs(s: string, h: Hit, t: string) {
    h.end == h.start + |t| && HasAt(s, h.start, t)
  }

  /** `h` is a match of `kw:? {0,2}?(\d{1,3}\.\d{2}) CREDITS`. */
  ghost predicate SpellsCredits(kw: string, s: string, h: Hit) {
    && h.group.Some? && IsAmount(h.group.value)
    && exists b: bool, k: nat :: k <= 2 && Occurs(s, h, CreditsText(kw, b, k, h.group.value))
  }

  /** `h` is a match of `p` in `s` as the regex defines it. */
  ghost predicate Spells(p: Pattern, s: string, h: Hit) {
    match p
    case Earned => SpellsCredits("EARNED", s, h)
    case InProgress => SpellsCredits("IN-PROGRESS", s, h)
    case Needed =>
      exists b: bool, k: nat, xs: seq<string> ::
        && AllAmounts(xs)
        && h.group == LastOf(xs)
        && Occurs(s, h, NeededText(b, k, xs))
    case UpperDivEarned =>
      && h.group.Some? && IsAmount(h.group.value)
      && exists k1: nat, k2: nat :: Occurs(s, h, HoursText(k1, h.group.value, k2))
    case UpperDivInProgress =>
      && h.group.Some? && IsLooseAmount(h.group.value)
      && exists k: nat :: Occurs(s, h, InProgText(k, h.group.value))
    case GpaValue =>
      h.group.Some? && IsGpa(h.group.value) && Occurs(s, h, GpaText(h.group.value))
  }

  // ---------------------------------------------------------------------------------------
  // The recognisers, one function per stage of each pattern. A stage that starts at `q` is
  // given the start `i` of the whole match, which it puts in the hit it returns.

  /** Length of the amount `\d{1,3}\.\d{2}` starting at `q`, if one starts there. */
  function AmountAt(s: string, q: nat): (n: Option<nat>)
    requires q <= |s|
    ensures n.Some? ==> 4 <= n.value <= 6 && q + n.value <= |s|
  {
    var d := DigitRun(s, q);
    if 1 <= d <= 3 && q + d + 3 <= |s| && s[q + d] == '.' && IsDigit(s[q + d + 1]) && IsDigit(s[q + d + 2])
    then Some(d + 3)
    else None
  }

  /** Position after a greedy `:?` at `p`. */
  function AfterColon(s: string, p: nat): (r: nat)
    requires p <= |s|
    ensures p <= r <= |s|
    ensures r == p + 1 <==> p < |s| && s[p] == ':'
  {
    if p < |s| && s[p] == ':' then p + 1 else p
  }

  /** `kw:? {0,2}?(\d{1,3}\.\d{2}) CREDITS` at `i`. */
  function CreditsAt(kw: string, s: string, i: nat): (r: Option<Hit>)
    requires i <= |s|
    ensures r.Some? ==> r.value.start == i < r.value.end <= |s|
  {
    if !HasAt(s, i, kw) then None else CreditsAfter(s, i, AfterColon(s, i + |kw|))
  }

  /** ` {0,2}?(\d{1,3}\.\d{2}) CREDITS` at `p`: the lazy blanks are forced to the whole run. */
  function CreditsAfter(s: string, i: nat, p: nat): (r: Option<Hit>)
    requires i <= p <= |s|
    ensures r.Some? ==> r.value.start == i && p < r.value.end <= |s|
  {
    var k := SpaceRun(s, p);
    if k > 2 then None else AmountCredits(s, i, p + k)
  }

  /** `(\d{1,3}\.\d{2}) CREDITS` at `q`. */
  function AmountCredits(s: string, i: nat, q: nat): (r: Option<Hit>)
    requires i <= q <= |s|
    ensures r.Some? ==> r.value.start == i && q < r.value.end <= |s|
  {
    match AmountAt(s, q)
    case None => None
    case Some(n) =>
      if HasAt(s, q + n, " CREDITS") then Some(Hit(i, q + n + 8, Some(s[q..q + n]))) else None
  }

  /** `NEEDS:? *(\d{1,3}\.\d{2})* CREDITS` at `i`. */
  function NeededAt(s: string, i: nat): (r: Option<Hit>)
    requires i <= |s|
    ensures r.Some? ==> r.value.start == i < r.value.end <= |s|
  {
    if !HasAt(s, i, "NEEDS") then None else NeededAfter(s, i, AfterColon(s, i + 5))
  }

  /** ` *(\d{1,3}\.\d{2})* CREDITS` at `p`: the greedy blanks take the whole run. */
  function NeededAfter(s: string, i: nat, p: nat): (r: Option<Hit>)
    requires i <= p <= |s|
    ensures r.Some? ==> r.value.start == i && p < r.value.end <= |s|
  {
    NeededBlanks(s, i, p, p + SpaceRun(s, p))
  }

  /** `(\d{1,3}\.\d{2})* CREDITS` at `q`, after the blanks from `p`: the greedy group iterates as often as it can. */
  function NeededBlanks(s: string, i: nat, p: nat, q: nat): (r: Option<Hit>)
    requires i <= p <= q <= |s|
    ensures r.Some? ==> r.value.start == i && p < r.value.end <= |s|
  {
    NeededEnd(s, i, p, q, IterationsEnd(s, q), LastIteration(s, q, None))
  }

  /**
   * ` CREDITS` at `e`, where the iterations read from `q` stopped with group 1 `g`; failing that,
   * backtracking, one blank fewer and no iteration, group 1 then nil.
   */
  function NeededEnd(s: string, i: nat, p: nat, q: nat, e: nat, g: Option<string>): (r: Option<Hit>)
    requires i <= p <= q <= e <= |s|
    ensures r.Some? ==> r.value.start == i && p < r.value.end <= |s|
  {
    if HasAt(s, e, " CREDITS") then Some(Hit(i, e + 8, g))
    else if p < q && HasAt(s, q - 1, " CREDITS") then Some(Hit(i, q + 7, None))
    else None
  }

  /** Where a greedy `(\d{1,3}\.\d{2})*` starting at `q` stops. */
  function IterationsEnd(s: string, q: nat): (e: nat)
    requires q <= |s|
    ensures q <= e <= |s|
    decreases |s| - q
  {
    match AmountAt(s, q)
    case None => q
    case Some(n) => IterationsEnd(s, q + n)
  }

  /** Group 1 once a greedy `(\d{1,3}\.\d{2})*` has iterated from `q` on, having held `g` before. */
  function LastIteration(s: string, q: nat, g: Option<string>): Option<string>
    requires q <= |s|
    decreases |s| - q
  {
    match AmountAt(s, q)
    case None => g
    case Some(n) => LastIteration(s, q + n, Some(s[q..q + n]))
  }

  lemma ConcatCons(x: string, xs: seq<string>)
    ensures Concat([x] + xs) == x + Concat(xs)
  {
    assert ([x] + xs)[1..] == xs;
  }

  /** `\( *(\d{1,3}\.\d{2}) HOURS TAKEN *\)` at `i`. */
  function HoursAt(s: string, i: nat): (r: Option<Hit>)
    requires i <= |s|
    ensures r.Some? ==> r.value.start == i < r.value.end <= |s|
  {
    if !HasAt(s, i, "(") then None else HoursAmount(s, i, i + 1 + SpaceRun(s, i + 1))
  }

  /** `(\d{1,3}\.\d{2}) HOURS TAKEN *\)` at `q`. */
  function HoursAmount(s: string, i: nat, q: nat): (r: Option<Hit>)
    requires i <= q <= |s|
    ensures r.Some? ==> r.value.start == i && q < r.value.end <= |s|
  {
    match AmountAt(s, q)
    case None => None
    case Some(n) => HoursTaken(s, i, q, q + n)
  }

  /** ` HOURS TAKEN *\)` at `r`, group 1 having matched `s[q..r]`. */
  function HoursTaken(s: string, i: nat, q: nat, r: nat): (h: Option<Hit>)
    requires i <= q <= r <= |s|
    ensures h.Some? ==> h.value.start == i && r < h.value.end <= |s|
  {
    if !HasAt(s, r, " HOURS TAKEN") then None
    else
      var t := r + 12 + SpaceRun(s, r + 12);
      if HasAt(s, t, ")") then Some(Hit(i, t + 1, Some(s[q..r]))) else None
  }

  /** `In-Prog-> *(\d{1,3}.\d{2}) CREDITS` at `i`. */
  function InProgAt(s: string, i: nat): (r: Option<Hit>)
    requires i <= |s|
    ensures r.Some? ==> r.value.start == i < r.value.end <= |s|
  {
    if !HasAt(s, i, "In-Prog->") then None else InProgAmount(s, i, i + 9 + SpaceRun(s, i + 9))
  }

  /** `(\d{1,3}.\d{2}) CREDITS` at `q`, the greedy `\d{1,3}` starting from as many digits as there are, up to three. */
  function InProgAmount(s: string, i: nat, q: nat): (r: Option<Hit>)
    requires i <= q <= |s|
    ensures r.Some? ==> r.value.start == i && q < r.value.end <= |s|
  {
    var d := DigitRun(s, q);
    DigitRunDigits(s, q);
    match LooseTry(s, q, if d < 3 then d else 3)
    case None => None
    case Some(j) => Some(Hit(i, q + j + 11, Some(s[q..q + j + 3])))
  }

  /**
   * `\d{j}.\d{2} CREDITS` at `q` for j, j - 1, ..., 1 in turn: the greedy `\d{1,3}` giving back
   * digits until the rest of the pattern fits. The result is the number of digits kept.
   */
  function LooseTry(s: string, q: nat, j: nat): (r: Option<nat>)
    requires j <= 3 && q + j <= |s|
    requires forall t :: q <= t < q + j ==> IsDigit(s[t])
    ensures r.Some? ==> 1 <= r.value <= j && q + r.value + 11 <= |s|
    decreases j
  {
    if j == 0 then None
    else if && q + j + 3 <= |s| && s[q + j] != '\n' && IsDigit(s[q + j + 1]) && IsDigit(s[q + j + 2])
            && HasAt(s, q + j + 3, " CREDITS")
    then Some(j)
    else LooseTry(s, q, j - 1)
  }

  /** `(\d\.\d{2}) GPA` at `i`. */
  function GpaAt(s: string, i: nat): (r: Option<Hit>)
    requires i <= |s|
    ensures r.Some? ==> r.value.start == i < r.value.end <= |s|
  {
    if i + 8 <= |s| && IsGpa(s[i..i + 4]) && HasAt(s, i + 4, " GPA")
    then Some(Hit(i, i + 8, Some(s[i..i + 4])))
    else None
  }

  /** The match of `p` that starts at `i`, if there is one. */
  function MatchAt(p: Pattern, s: string, i: nat): (r: Option<Hit>)
    requires i <= |s|
    ensures r.Some? ==> r.value.start == i < r.value.end <= |s|
  {
    match p
    case Earned => CreditsAt("EARNED", s, i)
    case InProgress => CreditsAt("IN-PROGRESS", s, i)
    case Needed => NeededAt(s, i)
    case UpperDivEarned => HoursAt(s, i)
    case UpperDivInProgress => InProgAt(s, i)
    case GpaValue => GpaAt(s, i)
  }
}
