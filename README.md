# DARS report parser, modelled in Dafny

The application reads the text of a DARS degree-audit report pasted into a web form. It pulls out
six credit totals and two grade point averages, and marks each GPA as passing or failing for the page
that then displays them. This project models that extraction as application.rb does it:

- `getCredits` applies five regular expressions to the report. For four of them it keeps the
  leftmost match. For the NEEDS pattern it scans for every match, then patches the result with a
  fallback block.
- `getGPA` scans for `D.DD GPA` and takes the first two captures.
- `parseReport` stores both summaries in the page's instance variables. It then compares each
  GPA's `to_i` with 2.

## How the model is built

- **Patterns** (`patterns.dfy`, `pattern_proofs.dfy`). Each of the six fixed regexes has two
  definitions:
  - a declarative one, `Spells`: the texts the regex spells, with the group its capture takes;
  - an executable recogniser, `MatchAt`, that reads a match at one start position stage by stage,
    the way the regex engine's greedy, lazy and backtracking choices settle it.

  `PatternProofs.MatchAtIsRegexMatch` proves the two agree at every start, in both directions.
  That includes the lazy ` {0,2}?` blanks of the EARNED and IN-PROGRESS patterns, the greedy
  repeated group of NEEDS (which captures its last iteration, or nothing), and the unescaped `.`
  of the `In-Prog->` pattern.
- **Search** (`search.dfy`). Ruby's `String#match` and `String#scan` are written once, over a
  matcher: the match a pattern has at each start position. `match` is the leftmost match. `scan`
  resumes at the end of each match, so its matches never overlap. Each is proved against a
  declarative characterisation, and `scan` is proved to be the only list that meets it.
- **Ruby values** (`ruby_values.dfy`). A summary field is one of three things:
  - a String;
  - the Integer 0, because `m = 0 if m == nil` followed by `0[1]` gives 0;
  - nil.

  The Arrays that `scan` returns are sequences of one-element rows or stored Strings. `[]` raises
  on nil, `[]=` appends at the end, and `to_i` reads the leading digits.
- **Operations** (`credits.dfy`, `gpa.dfy`). `GetCredits` and `GetGPA` are methods that follow
  the Ruby statement by statement. Each is proved equal to a specification function:
  `CreditsOf` or `GpaOf`. The lemmas about those functions state:
  - when the code raises;
  - which match each field comes from;
  - what values a field can hold.
- **Page** (`report.dfy`). `DarsPage` is a class whose fields are `parseReport`'s instance
  variables. `ParseReport` updates them in place, in the order the Ruby assigns them.

### Behaviour that is easy to misread

The code reads as if a missing value always became `"0.00"` and as if it never raised. Neither
holds, and the model follows the code in each of these cases.

- **The code can raise.** A reader might expect the `gpaArray == nil` guard, and the fallback
  block for NEEDS, to cover an empty result. When the report has no NEEDS match, `neededCreditArray[0][0]` is
  `nil[0]`, which raises. When the report has no `D.DD GPA`, `gpaArray[0][0]` raises the same
  way. `String#scan` returns an empty Array, never nil, so the `gpaArray == nil` guard at
  application.rb:111 never fires. `CreditsRaisesIff` states exactly when the first case happens,
  and `GpaRaisesIff` the second.
- **The fallback yields `"0"`, not `"0.00"`.** A reader might expect `'0.00'` to be the value
  read. Where the fallback code stores the String `'0.00'`
  in a scan Array (application.rb:80, 82, 114), the later `[0]` takes its first character. The
  value read is therefore `"0"`. Only the row `['0.00']` that application.rb:85 appends yields
  `"0.00"`.
- **The GPA pattern has no left boundary.** A reader might expect a GPA to need a non-digit
  before it. `13.50 GPA` yields `3.50` (`Gpa.NoLeftBoundary`).

## Model

| member | source | states |
|---|---|---|
| PatternProofs.CreditsAtAgrees | application.rb:57-58 | At any start, the EARNED / IN-PROGRESS recogniser returns a hit exactly when `kw:? {0,2}?(\d{1,3}\.\d{2}) CREDITS` matches there with that end and that capture (both directions) |
| PatternProofs.NeededAtAgrees | application.rb:59 | The NEEDS recogniser returns a hit exactly when `NEEDS:? *(\d{1,3}\.\d{2})* CREDITS` matches there. The capture is the last iteration of the repeated group, or nil when the group repeats zero times |
| PatternProofs.IterationsSound | application.rb:59 | The greedy iterations of `(\d{1,3}\.\d{2})*` read from a position are amounts, spell the text that follows that position, end where the recogniser says, and the last one is what the group captures |
| PatternProofs.IterationsIs | application.rb:59 | Any list of amounts spelled from a position and not followed by another amount is exactly the list of greedy iterations read there |
| PatternProofs.HoursAtAgrees | application.rb:60 | The recogniser for `\( *(\d{1,3}\.\d{2}) HOURS TAKEN *\)` returns a hit exactly when the regex matches there |
| PatternProofs.InProgAtAgrees | application.rb:61 | The recogniser for `In-Prog-> *(\d{1,3}.\d{2}) CREDITS` returns a hit exactly when the regex matches there. The unescaped `.` is any character but a newline |
| PatternProofs.GpaAtAgrees | application.rb:110 | The recogniser for `(\d\.\d{2}) GPA` returns a hit exactly when the regex matches there |
| PatternProofs.MatchAtIsRegexMatch | application.rb:57-61 | The GPA pattern included, for each of the six patterns, at every start, the recogniser's result is a match of the regex and every match of the regex is the recogniser's result |
| PatternProofs.MatchAtGroupShape | application.rb:57-61 | Group 1 of any match holds what its group can match: an amount, a loose amount for `In-Prog->`, an amount or nil for NEEDS, `D.DD` for GPA |
| Patterns.MatchAt | application.rb:57-61 | The match a pattern has at one start begins there, ends later and within the text. `PatternProofs.MatchAtIsRegexMatch` proves it is exactly the regex's match there |
| Search.Find | application.rb:64-67 | A match found from a position starts at or after it, lies within the text and is the matcher's match at its start |
| Search.Scan | application.rb:76 | A scan from a position holds at most one match per remaining character; `Search.ScanIsScan` and `Search.IsScanOnly` characterise it |
| Search.Leftmost | application.rb:64-67 | `text.match(p)`: a match it returns is the recogniser's match at its own start. `Search.LeftmostIsFirstSpelling` proves it is the regex match with the least start |
| Search.ScanAll | application.rb:76 | `text.scan(p)`: at most one match per character of the text. `Search.ScanAllMatches` proves every element is a match, in text order, without overlaps |
| Search.FindIsLeftmost | application.rb:64-67 | Searching from a position returns `h` exactly when `h` is a match at or after that position and no match starts earlier |
| Search.FindNone | application.rb:64-67 | Searching returns nothing exactly when no match starts at or after the position |
| Search.LeftmostIsFirstSpelling | application.rb:64-67 | `text.match(p)` is `h` exactly when `h` is a regex match of `p` in the text and no regex match starts before it |
| Search.LeftmostNone | application.rb:69-72 | `text.match(p)` is nil exactly when the regex has no match anywhere in the text |
| Search.ScanIsScan | application.rb:76 | The scan result has these properties: each element is the leftmost match at or after the end of the previous one (or the start), and no match starts after the last one |
| Search.IsScanOnly | application.rb:76 | Any list of matches with those properties is the scan result |
| Search.ScanEmptyIff | application.rb:76 | A scan is empty exactly when no match starts at or after its start |
| Search.ScanFirstIsFind | application.rb:76 | The first element of a non-empty scan is what `match` returns from the same start |
| Search.ScanAllMatches | application.rb:76 | Every element of `text.scan(p)` is a match of `p` at its start, and consecutive elements do not overlap and come in text order |
| Search.ScanAllEmptyIff | application.rb:110 | `text.scan(p)` is empty exactly when `text.match(p)` is nil |
| Credits.GroupOrZero | application.rb:69-72 | `m[1]` after `m = 0 if m == nil`: the Integer 0 exactly when there is no match, and nil exactly when the match's group took no part |
| Credits.NeededPair | application.rb:79-98 | The NEEDS fallback and the two reads: raises exactly when the scan is empty. totalNeeded is the first capture, or `"0"` when it is nil. upperDivNeeded is the second capture when there are two or more; with one capture it is `"0"` if that capture is nil and `"0.00"` otherwise |
| Credits.CreditsOf | application.rb:54-100 | `getCredits` raises exactly when the NEEDS scan is empty. `Credits.SingleField`, `Credits.NeededCases` and `Credits.CreditValues` state where each field comes from |
| Credits.GetCredits | application.rb:54-100 | The statement-by-statement method returns exactly `CreditsOf(reportText)`: the six values, or that it raises |
| Credits.CreditsRaisesIff | application.rb:79-95 | `getCredits` raises exactly when the NEEDS pattern has no match anywhere in the report |
| Credits.SingleField | application.rb:64-72 | An earned, in-progress, hours-taken or `In-Prog->` field is 0 exactly when its pattern has no match. Otherwise it is the non-nil group 1 of the leftmost match, of the shape the pattern allows |
| Credits.CapturesShape | application.rb:76 | Every capture of a scan has the shape its pattern's group allows |
| Credits.CreditValues | application.rb:93-98 | The values `getCredits` returns: amounts as the report spells them, a loose amount for upper-division in-progress, 0 for a missing single match, and `"0"` or `"0.00"` only where the fallback block puts them, and nil only for upperDivNeeded |
| Credits.NeededCases | application.rb:79-98 | The four outcomes of the NEEDS fallback: one bare match gives `"0"` twice. A bare first match gives `"0"` and the second capture. A single numbered match gives its amount and `"0.00"`. Otherwise the first two captures in text order; later matches are ignored |
| Credits.NeededFirstIsLeftmost | application.rb:76 | The first NEEDS capture is group 1 of the leftmost NEEDS match |
| Credits.CreditsRejectFourDigits | application.rb:57-58 | After the keyword, optional colon and up to two blanks, four digits leave the EARNED / IN-PROGRESS pattern no match at that start |
| Credits.InProgAnySeparator | application.rb:61 | The `In-Prog->` pattern matches an amount with any non-newline character in place of the full stop, and captures it |
| Gpa.GpaPair | application.rb:111-118 | The GPA fallback and the two reads: raises exactly when the scan is empty. The cumulative GPA is the first capture; the major GPA is the second, or `"0"` when there is only one |
| Gpa.GpaOf | application.rb:106-120 | `getGPA` raises exactly when the GPA scan is empty. `Gpa.GpaOrder` and `Gpa.GpaValues` state which matches the two values come from and their shape |
| Gpa.StandingOf | application.rb:33-47 | `to_i > 2`: only a String starting with a digit can pass, and `"0"`, the Integer 0 and nil fail. `Gpa.GpaStanding` gives the exact rule for GPA values |
| Gpa.GetGPA | application.rb:106-120 | The statement-by-statement method returns exactly `GpaOf(reportText)` |
| Gpa.GpaRaisesIff | application.rb:110-117 | `getGPA` raises exactly when the report contains no `D.DD GPA` |
| Gpa.GpaOrder | application.rb:110-118 | The cumulative GPA is the capture of the leftmost match. The major GPA is the capture of the next match found from the end of the first, or `"0"` when there is none |
| Gpa.GpaValues | application.rb:110-118 | The cumulative GPA is `D.DD` as spelled in the report. The major GPA is `D.DD` or the fallback `"0"` |
| Gpa.NoLeftBoundary | application.rb:110 | In `13.50 GPA` there is no match at 0 but one at 1, capturing `3.50`. `getGPA` returns `3.50` and `"0"` |
| Gpa.GpaStanding | application.rb:33-47 | For any value `getGPA` can return, `to_i > 2` holds exactly when the value is `D.DD` with whole part 3 or more; the fallback `"0"` fails |
| RubyValues.ToI | application.rb:33 | `to_i` of a String starting with one digit followed by a non-digit is that digit. It is 0 for a String without a leading digit, and for 0 or nil |
| RubyValues.Rows | application.rb:76 | The Array `scan` returns for a one-group pattern: one one-element row per match, in order, each holding that match's capture |
| Search.Captures | application.rb:110 | Group 1 of each match, one per match and in the same order |
| RubyValues.At | application.rb:81-98 | `a[i]`: the element, or nil at or past the end |
| RubyValues.Store | application.rb:114 | `a[i] = e`: replaces the element inside the Array, appends just past its end, and keeps every other element |
| RubyValues.First | application.rb:95 | `x[0]` raises exactly when `x` is nil. A scan row gives its capture; a stored String gives its first character |
| Report.DarsPage.constructor | application.rb:18 | A fresh page has every instance variable unassigned (nil) |
| Report.DarsPage.ParseReport | application.rb:18-48 | `parseReport` raises exactly when `getCredits` or `getGPA` does. If `getCredits` raises, nothing changes; otherwise the credit variables hold its summary. If `getGPA` raises, the GPA variables keep their old values; otherwise they hold its summary with the mark each earns |
| Report.DarsPage.StoreCredits | application.rb:21-26 | The six credit variables hold the summary's entries; the GPA variables are unchanged |
| Report.DarsPage.StoreGpa | application.rb:30-47 | The two GPA variables hold the summary's entries, each status is passing exactly when `to_i > 2`, and the credit variables are unchanged |
| Report.ParsedStandings | application.rb:33-47 | After a parse, each GPA's status is set, and it is passing exactly when that GPA's whole part is 3 or more. The two GPAs are judged independently |

## Left out

- The Sinatra routes and the ERB templates (application.rb:1-10) are web plumbing. The model
  starts at `parseReport` with the report text as its argument.
- The `puts` debugging output of `getCredits` (application.rb:77-78, 84, 86, 89-91) is I/O that
  does not affect the result.
- The CSS style and glyphicon class Strings are not modelled as text. They become one `Standing`
  per GPA (`Pass` or `Fail`), which stands for both the colour variable and the icon variable
  that application.rb sets together.
- A general regular-expression engine is not modelled. Only the six fixed patterns of
  application.rb are modelled, each by its own recogniser proved equal to the regex's
  definition.
- RubyValues.ToI: leading whitespace, a sign and underscores are not modelled. Every value
  `parseReport` passes to `to_i` starts with a digit or is 0 or nil.
- The report is a sequence of characters. A Ruby String with an invalid byte sequence, on which
  `match` and `scan` raise `ArgumentError` before any fallback code runs, is not modelled; a form
  field such as `%FF` can produce one.
- A missing form field (`params[:DARSreport]` nil) is not modelled. `reportText` is always a
  String here.
- The `gpaArray == nil` branch (application.rb:111-112) is not written in `Gpa.GetGPA`, because
  `scan` never returns nil.
- An exception is modelled as the `Raises` outcome, or as `ParseReport`'s `raised` result. How
  Sinatra then answers the request is not modelled.
- The Ruby Hashes `getCredits` and `getGPA` build are modelled as datatypes with one field per
  key they set.
- Extraction of requirements, sub-requirements and report sections is not part of application.rb,
  so it is not part of this model.
