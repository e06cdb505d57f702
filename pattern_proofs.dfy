/**
 * The recognisers of Patterns agree with the written-out patterns: at every start position the
 * recogniser of a pattern returns exactly the one match the regex admits there, with its group
 * 1, or nothing when the regex admits none (`MatchAtIsRegexMatch`). Each stage of a recogniser
 * has a soundness lemma (what it returns occurs in the text) and a completeness lemma (an
 * occurrence is what it returns).
 */
module PatternProofs {
  import opened Base
  import opened Patterns

  // ---------------------------------------------------------------------------------------
  // Runs and amounts.

  /** An amount AmountAt reads is an amount. */
  lemma AmountAtSound(s: string, q: nat)
    requires q <= |s| && AmountAt(s, q).Some?
    ensures IsAmount(s[q..q + AmountAt(s, q).value])
  {
    var t := s[q..q + AmountAt(s, q).value];
    DigitRunDigits(s, q);
    forall j | 0 <= j < |t| && j != |t| - 3 ensures IsDigit(t[j]) {
      assert t[j] == s[q + j];
    }
  }

  /** An amount that occurs at `q` is what AmountAt reads there. */
  lemma AmountAtIs(s: string, q: nat, x: string)
    requires HasAt(s, q, x) && IsAmount(x)
    ensures AmountAt(s, q) == Some(|x|)
  {
    var d := |x| - 3;
    forall j | q <= j < q + d ensures IsDigit(s[j]) {
      HasAtIndex(s, q, x, j - q);
    }
    HasAtIndex(s, q, x, d);
    HasAtIndex(s, q, x, d + 1);
    HasAtIndex(s, q, x, d + 2);
    DigitRunIs(s, q, d);
  }

  lemma AfterColonIs(s: string, p: nat, b: bool)
    requires HasAt(s, p, Colon(b)) && (b || p == |s| || s[p] != ':')
    ensures AfterColon(s, p) == p + |Colon(b)|
  {
    if b {
      HasAtIndex(s, p, Colon(b), 0);
    }
  }

  /** The colon AfterColon skips occurs where it was read. */
  lemma AfterColonOccurs(s: string, p: nat)
    requires p <= |s|
    ensures var b := p < |s| && s[p] == ':'; HasAt(s, p, Colon(b)) && AfterColon(s, p) == p + |Colon(b)|
  {
  }

  lemma SpaceRunOf(s: string, p: nat, k: nat)
    requires HasAt(s, p, Spaces(k)) && (p + k == |s| || s[p + k] != ' ')
    ensures SpaceRun(s, p) == k
  {
    forall j | p <= j < p + k ensures s[j] == ' ' {
      HasAtIndex(s, p, Spaces(k), j - p);
    }
    SpaceRunIs(s, p, k);
  }

  /** The first character of blanks followed by `t` is a blank, or the first of `t`. */
  lemma SpacesThenFirst(k: nat, t: string)
    requires 0 < |t|
    ensures (Spaces(k) + t)[0] == if k > 0 then ' ' else t[0]
  {
    if k == 0 {
      assert Spaces(k) + t == t;
    }
  }

  // ---------------------------------------------------------------------------------------
  // EARNED and IN-PROGRESS.

  lemma AmountCreditsSound(s: string, i: nat, q: nat)
    requires i <= q <= |s| && AmountCredits(s, i, q).Some?
    ensures var h := AmountCredits(s, i, q).value;
      && h.group.Some? && IsAmount(h.group.value)
      && h.end == q + |h.group.value + " CREDITS"| && HasAt(s, q, h.group.value + " CREDITS")
  {
    var g := s[q..q + AmountAt(s, q).value];
    AmountAtSound(s, q);
    HasAtSlice(s, q, g);
    HasAtConcat(s, q, g, " CREDITS");
  }

  lemma AmountCreditsComplete(s: string, i: nat, q: nat, g: string)
    requires i <= q && IsAmount(g) && HasAt(s, q, g + " CREDITS")
    ensures AmountCredits(s, i, q) == Some(Hit(i, q + |g| + 8, Some(g)))
  {
    HasAtConcat(s, q, g, " CREDITS");
    AmountAtIs(s, q, g);
    HasAtSlice(s, q, g);
  }

  lemma CreditsAfterSound(s: string, i: nat, p: nat)
    requires i <= p <= |s| && CreditsAfter(s, i, p).Some?
    ensures var h := CreditsAfter(s, i, p).value; var k := SpaceRun(s, p);
      && k <= 2 && h.group.Some? && IsAmount(h.group.value)
      && h.end == p + |Spaces(k) + (h.group.value + " CREDITS")|
      && HasAt(s, p, Spaces(k) + (h.group.value + " CREDITS"))
  {
    var k := SpaceRun(s, p);
    AmountCreditsSound(s, i, p + k);
    SpaceRunOccurs(s, p);
    HasAtConcat(s, p, Spaces(k), CreditsAfter(s, i, p).value.group.value + " CREDITS");
  }

  lemma CreditsAfterComplete(s: string, i: nat, p: nat, k: nat, g: string)
    requires i <= p && k <= 2 && IsAmount(g) && HasAt(s, p, Spaces(k) + (g + " CREDITS"))
    ensures CreditsAfter(s, i, p) == Some(Hit(i, p + k + |g| + 8, Some(g)))
  {
    HasAtConcat(s, p, Spaces(k), g + " CREDITS");
    HasAtIndex(s, p + k, g + " CREDITS", 0);
    SpaceRunOf(s, p, k);
    AmountCreditsComplete(s, i, p + k, g);
  }

  lemma CreditsAtSound(kw: string, s: string, i: nat)
    requires i <= |s| && CreditsAt(kw, s, i).Some?
    ensures SpellsCredits(kw, s, CreditsAt(kw, s, i).value)
  {
    var h := CreditsAt(kw, s, i).value;
    var p0 := i + |kw|;
    var b := p0 < |s| && s[p0] == ':';
    AfterColonOccurs(s, p0);
    var p := AfterColon(s, p0);
    var k := SpaceRun(s, p);
    var rest := Spaces(k) + (h.group.value + " CREDITS");
    CreditsAfterSound(s, i, p);
    HasAtConcat(s, p0, Colon(b), rest);
    HasAtConcat(s, i, kw, Colon(b) + rest);
    assert Occurs(s, h, CreditsText(kw, b, k, h.group.value));
  }

  lemma CreditsAtComplete(kw: string, s: string, i: nat, b: bool, k: nat, g: string)
    requires k <= 2 && IsAmount(g) && HasAt(s, i, CreditsText(kw, b, k, g))
    ensures CreditsAt(kw, s, i) == Some(Hit(i, i + |CreditsText(kw, b, k, g)|, Some(g)))
  {
    var rest := Spaces(k) + (g + " CREDITS");
    var p := i + |kw| + |Colon(b)|;
    HasAtConcat(s, i, kw, Colon(b) + rest);
    ColonThen(s, i + |kw|, b, rest);
    SpacesThenFirst(k, g + " CREDITS");
    AfterColonIs(s, i + |kw|, b);
    CreditsAtFromAfter(kw, s, i, p, k, g);
  }

  lemma CreditsAtFromAfter(kw: string, s: string, i: nat, p: nat, k: nat, g: string)
    requires k <= 2 && IsAmount(g) && HasAt(s, i, kw) && AfterColon(s, i + |kw|) == p
    requires HasAt(s, p, Spaces(k) + (g + " CREDITS"))
    ensures CreditsAt(kw, s, i) == Some(Hit(i, p + k + |g| + 8, Some(g)))
  {
    CreditsAfterComplete(s, i, p, k, g);
    CreditsAtFrom(kw, s, i, CreditsAfter(s, i, p));
  }

  /** An occurrence of `:?` followed by `rest` is one of each. */
  lemma ColonThen(s: string, p: nat, b: bool, rest: string)
    requires HasAt(s, p, Colon(b) + rest) && 0 < |rest|
    ensures HasAt(s, p, Colon(b)) && HasAt(s, p + |Colon(b)|, rest) && s[p + |Colon(b)|] == rest[0]
  {
    HasAtConcat(s, p, Colon(b), rest);
    HasAtIndex(s, p + |Colon(b)|, rest, 0);
  }

  lemma CreditsAtFrom(kw: string, s: string, i: nat, r: Option<Hit>)
    requires HasAt(s, i, kw) && CreditsAfter(s, i, AfterColon(s, i + |kw|)) == r
    ensures CreditsAt(kw, s, i) == r
  {
  }

  lemma CreditsAtAgrees(kw: string, s: string, h: Hit)
    requires h.start <= |s|
    ensures CreditsAt(kw, s, h.start) == Some(h) <==> SpellsCredits(kw, s, h)
  {
    if CreditsAt(kw, s, h.start) == Some(h) {
      CreditsAtSound(kw, s, h.start);
    }
    if SpellsCredits(kw, s, h) {
      var b: bool, k: nat :| k <= 2 && Occurs(s, h, CreditsText(kw, b, k, h.group.value));
      CreditsAtComplete(kw, s, h.start, b, k, h.group.value);
    }
  }

  // ---------------------------------------------------------------------------------------
  // NEEDS.

  /** The iterations a greedy `(\d{1,3}\.\d{2})*` makes from `q`. */
  ghost function Iterations(s: string, q: nat): seq<string>
    requires q <= |s|
    decreases |s| - q
  {
    match AmountAt(s, q)
    case None => []
    case Some(n) => [s[q..q + n]] + Iterations(s, q + n)
  }

  /** The iteration a repetition ends with: its last, or `g` if it has none. */
  function LastOr(xs: seq<string>, g: Option<string>): Option<string> {
    if xs == [] then g else LastOf(xs)
  }

  lemma LastOrCons(x: string, rest: seq<string>, g: Option<string>)
    ensures LastOr([x] + rest, g) == LastOr(rest, Some(x))
  {
    if rest != [] {
      assert ([x] + rest)[|[x] + rest| - 1] == rest[|rest| - 1];
    }
  }

  /**
   * The iterations read from `q` are amounts occurring there, IterationsEnd is where they end
   * and LastIteration the last of them.
   */
  lemma {:induction false} IterationsSound(s: string, q: nat, g: Option<string>)
    requires q <= |s|
    ensures AllAmounts(Iterations(s, q)) && HasAt(s, q, Concat(Iterations(s, q)))
    ensures IterationsEnd(s, q) == q + |Concat(Iterations(s, q))|
    ensures LastIteration(s, q, g) == LastOr(Iterations(s, q), g)
    decreases |s| - q
  {
    match AmountAt(s, q)
    case None =>
    case Some(n) =>
      var x := s[q..q + n];
      var rest := Iterations(s, q + n);
      IterationsSound(s, q + n, Some(x));
      AmountAtSound(s, q);
      IterationsConsSound(s, q, x, rest);
      LastOrCons(x, rest, g);
  }

  lemma IterationsConsSound(s: string, q: nat, x: string, rest: seq<string>)
    requires q + |x| <= |s| && s[q..q + |x|] == x && IsAmount(x)
    requires AllAmounts(rest) && HasAt(s, q + |x|, Concat(rest))
    ensures AllAmounts([x] + rest)
    ensures HasAt(s, q, Concat([x] + rest)) && |Concat([x] + rest)| == |x| + |Concat(rest)|
  {
    assert ([x] + rest)[1..] == rest;
    ConcatCons(x, rest);
    HasAtSlice(s, q, x);
    HasAtConcat(s, q, x, Concat(rest));
  }

  /**
   * Amounts that occur one after another at `q`, with no further amount after them, are exactly
   * the iterations the greedy repetition reads there.
   */
  lemma {:induction false} IterationsIs(s: string, q: nat, xs: seq<string>, g: Option<string>)
    requires AllAmounts(xs) && HasAt(s, q, Concat(xs))
    requires AmountAt(s, q + |Concat(xs)|).None?
    ensures Iterations(s, q) == xs
    ensures IterationsEnd(s, q) == q + |Concat(xs)|
    ensures LastIteration(s, q, g) == LastOr(xs, g)
    decreases |xs|
  {
    if xs != [] {
      var x := xs[0];
      var rest := xs[1..];
      assert xs == [x] + rest;
      ConcatCons(x, rest);
      HasAtConcat(s, q, x, Concat(rest));
      AmountAtIs(s, q, x);
      HasAtSlice(s, q, x);
      IterationsIs(s, q + |x|, rest, Some(x));
      LastOrCons(x, rest, g);
    }
  }

  lemma FirstIterationDigit(s: string, q: nat, xs: seq<string>)
    requires xs != [] && AllAmounts(xs) && HasAt(s, q, Concat(xs))
    ensures q < |s| && IsDigit(s[q])
  {
    assert Concat(xs) == xs[0] + Concat(xs[1..]);
    HasAtConcat(s, q, xs[0], Concat(xs[1..]));
    HasAtIndex(s, q, xs[0], 0);
  }

  /** What NeededAfter returns is `k` blanks, iterations and ` CREDITS`, for some `k` and iterations. */
  ghost predicate NeededTail(s: string, p: nat, h: Hit, k: nat, xs: seq<string>) {
    && AllAmounts(xs)
    && h.group == LastOf(xs)
    && h.end == p + |Spaces(k) + (Concat(xs) + " CREDITS")|
    && HasAt(s, p, Spaces(k) + (Concat(xs) + " CREDITS"))
  }

  lemma NeededAfterSound(s: string, i: nat, p: nat)
    requires i <= p <= |s| && NeededAfter(s, i, p).Some?
    ensures exists k: nat, xs: seq<string> :: NeededTail(s, p, NeededAfter(s, i, p).value, k, xs)
  {
    var q := p + SpaceRun(s, p);
    var xs := Iterations(s, q);
    IterationsSound(s, q, None);
    SpaceRunOccurs(s, p);
    NeededAfterIs(s, i, p, q, IterationsEnd(s, q), LastIteration(s, q, None));
    NeededEndSound(s, i, p, q, IterationsEnd(s, q), xs, NeededAfter(s, i, p).value);
  }

  lemma NeededEndSound(s: string, i: nat, p: nat, q: nat, e: nat, xs: seq<string>, h: Hit)
    requires i <= p <= q <= e <= |s| && e == q + |Concat(xs)|
    requires NeededEnd(s, i, p, q, e, LastOf(xs)) == Some(h)
    requires AllAmounts(xs) && HasAt(s, q, Concat(xs))
    requires HasAt(s, p, Spaces(q - p))
    ensures exists k: nat, ys: seq<string> :: NeededTail(s, p, h, k, ys)
  {
    if HasAt(s, e, " CREDITS") {
      assert h == Hit(i, e + 8, LastOf(xs));
      NeededTailOf(s, p, q - p, xs, h);
    } else {
      assert p < q && HasAt(s, q - 1, " CREDITS") && h == Hit(i, q + 7, None);
      var none: seq<string> := [];
      HasAtSpacesPrefix(s, p, q - p);
      assert Concat(none) == "";
      NeededTailOf(s, p, q - p - 1, none, h);
    }
  }

  lemma NeededTailOf(s: string, p: nat, k: nat, xs: seq<string>, h: Hit)
    requires AllAmounts(xs) && h.group == LastOf(xs)
    requires HasAt(s, p, Spaces(k)) && HasAt(s, p + k, Concat(xs)) && HasAt(s, p + k + |Concat(xs)|, " CREDITS")
    requires h.end == p + k + |Concat(xs)| + 8
    ensures NeededTail(s, p, h, k, xs)
  {
    HasAtConcat(s, p + k, Concat(xs), " CREDITS");
    HasAtConcat(s, p, Spaces(k), Concat(xs) + " CREDITS");
  }

  /** All the blanks and then iterations followed by ` CREDITS`: these are the blanks and iterations read. */
  lemma NeededReadsIterations(s: string, p: nat, k: nat, xs: seq<string>)
    requires xs != [] && AllAmounts(xs)
    requires HasAt(s, p, Spaces(k)) && HasAt(s, p + k, Concat(xs))
    requires HasAt(s, p + k + |Concat(xs)|, " CREDITS")
    ensures p + k + |Concat(xs)| + 8 <= |s|
    ensures SpaceRun(s, p) == k && IterationsEnd(s, p + k) == p + k + |Concat(xs)|
    ensures LastIteration(s, p + k, None) == LastOf(xs)
  {
    var q := p + k;
    var e := q + |Concat(xs)|;
    FirstIterationDigit(s, q, xs);
    assert s[q] != ' ';
    SpaceRunOf(s, p, k);
    HasAtIndex(s, e, " CREDITS", 0);
    assert !IsDigit(s[e]);
    DigitRunIs(s, e, 0);
    IterationsIs(s, q, xs, None);
    assert LastOr(xs, None) == LastOf(xs);
  }

  /** NeededAfter is its last stage, given the blanks and iterations it reads. */
  lemma NeededAfterIs(s: string, i: nat, p: nat, q: nat, e: nat, g: Option<string>)
    requires i <= p <= q <= |s| && p + SpaceRun(s, p) == q
    requires IterationsEnd(s, q) == e && LastIteration(s, q, None) == g
    ensures e <= |s| && NeededAfter(s, i, p) == NeededEnd(s, i, p, q, e, g)
  {
  }

  lemma NeededAfterFirst(s: string, i: nat, p: nat, q: nat, e: nat, g: Option<string>)
    requires i <= p <= q <= |s| && p + SpaceRun(s, p) == q
    requires IterationsEnd(s, q) == e && LastIteration(s, q, None) == g
    requires HasAt(s, e, " CREDITS")
    ensures NeededAfter(s, i, p) == Some(Hit(i, e + 8, g))
  {
    NeededAfterIs(s, i, p, q, e, g);
  }

  /** `k` blanks and then ` CREDITS`: the first attempt fails, and one blank fewer succeeds. */
  lemma NeededAfterBare(s: string, i: nat, p: nat, k: nat)
    requires i <= p && HasAt(s, p, Spaces(k)) && HasAt(s, p + k, " CREDITS")
    ensures NeededAfter(s, i, p) == Some(Hit(i, p + k + 8, None))
  {
    var q := p + k + 1;
    HasAtIndex(s, p + k, " CREDITS", 0);
    HasAtIndex(s, p + k, " CREDITS", 1);
    forall j | p <= j < q ensures s[j] == ' ' {
      if j < p + k {
        HasAtIndex(s, p, Spaces(k), j - p);
      }
    }
    SpaceRunIs(s, p, k + 1);
    DigitRunIs(s, q, 0);
    NotHasAt(s, q, " CREDITS");
    NeededAfterSecond(s, i, p, q);
  }

  lemma NeededAfterSecond(s: string, i: nat, p: nat, q: nat)
    requires i <= p < q <= |s| && p + SpaceRun(s, p) == q && AmountAt(s, q).None?
    requires !HasAt(s, q, " CREDITS") && HasAt(s, q - 1, " CREDITS")
    ensures NeededAfter(s, i, p) == Some(Hit(i, q + 7, None))
  {
    NeededAfterIs(s, i, p, q, q, None);
  }

  lemma NeededAfterComplete(s: string, i: nat, p: nat, k: nat, xs: seq<string>)
    requires i <= p && AllAmounts(xs)
    requires HasAt(s, p, Spaces(k)) && HasAt(s, p + k, Concat(xs))
    requires HasAt(s, p + k + |Concat(xs)|, " CREDITS")
    ensures NeededAfter(s, i, p) == Some(Hit(i, p + k + |Concat(xs)| + 8, LastOf(xs)))
  {
    if xs == [] {
      NeededAfterNoIteration(s, i, p, k, xs);
    } else {
      NeededReadsIterations(s, p, k, xs);
      NeededAfterIterating(s, i, p, k, xs);
    }
  }

  lemma NeededAfterNoIteration(s: string, i: nat, p: nat, k: nat, xs: seq<string>)
    requires i <= p && xs == []
    requires HasAt(s, p, Spaces(k)) && HasAt(s, p + k, Concat(xs))
    requires HasAt(s, p + k + |Concat(xs)|, " CREDITS")
    ensures NeededAfter(s, i, p) == Some(Hit(i, p + k + |Concat(xs)| + 8, LastOf(xs)))
  {
    NeededAfterBare(s, i, p, k);
  }

  /** Blanks and iterations read, and ` CREDITS` where they stop: the first attempt succeeds. */
  lemma NeededAfterIterating(s: string, i: nat, p: nat, k: nat, xs: seq<string>)
    requires i <= p && p + k + |Concat(xs)| + 8 <= |s|
    requires SpaceRun(s, p) == k && IterationsEnd(s, p + k) == p + k + |Concat(xs)|
    requires LastIteration(s, p + k, None) == LastOf(xs)
    requires HasAt(s, p + k + |Concat(xs)|, " CREDITS")
    ensures NeededAfter(s, i, p) == Some(Hit(i, p + k + |Concat(xs)| + 8, LastOf(xs)))
  {
    NeededAfterFirst(s, i, p, p + k, p + k + |Concat(xs)|, LastOf(xs));
  }

  lemma NeededAtFrom(s: string, i: nat, r: Option<Hit>)
    requires HasAt(s, i, "NEEDS") && NeededAfter(s, i, AfterColon(s, i + 5)) == r
    ensures NeededAt(s, i) == r
  {
  }

  lemma NeededAtSound(s: string, i: nat)
    requires i <= |s| && NeededAt(s, i).Some?
    ensures Spells(Needed, s, NeededAt(s, i).value)
  {
    var p0 := i + 5;
    var b := p0 < |s| && s[p0] == ':';
    AfterColonOccurs(s, p0);
    var p := AfterColon(s, p0);
    NeededAtFrom(s, i, NeededAfter(s, i, p));
    var h := NeededAfter(s, i, p).value;
    NeededAfterSound(s, i, p);
    var k: nat, xs: seq<string> :| NeededTail(s, p, h, k, xs);
    NeededTextOccurs(s, h, b, k, xs);
  }

  lemma NeededTextOccurs(s: string, h: Hit, b: bool, k: nat, xs: seq<string>)
    requires HasAt(s, h.start, "NEEDS") && HasAt(s, h.start + 5, Colon(b))
    requires NeededTail(s, h.start + 5 + |Colon(b)|, h, k, xs)
    ensures Spells(Needed, s, h)
  {
    var rest := Spaces(k) + (Concat(xs) + " CREDITS");
    HasAtConcat(s, h.start + 5, Colon(b), rest);
    HasAtConcat(s, h.start, "NEEDS", Colon(b) + rest);
    assert Occurs(s, h, NeededText(b, k, xs));
  }

  /** The first character of what follows `NEEDS:?` is never a colon. */
  lemma NeededRestFirst(k: nat, xs: seq<string>)
    requires AllAmounts(xs)
    ensures (Spaces(k) + (Concat(xs) + " CREDITS"))[0] != ':'
  {
    SpacesThenFirst(k, Concat(xs) + " CREDITS");
    if xs != [] {
        assert Concat(xs) == xs[0] + Concat(xs[1..]);
      assert (Concat(xs) + " CREDITS")[0] == xs[0][0];
    }
  }

  lemma NeededAtComplete(s: string, i: nat, b: bool, k: nat, xs: seq<string>)
    requires AllAmounts(xs) && HasAt(s, i, NeededText(b, k, xs))
    ensures NeededAt(s, i) == Some(Hit(i, i + |NeededText(b, k, xs)|, LastOf(xs)))
  {
    var rest := Spaces(k) + (Concat(xs) + " CREDITS");
    var p := i + 5 + |Colon(b)|;
    HasAtConcat(s, i, "NEEDS", Colon(b) + rest);
    ColonThen(s, i + 5, b, rest);
    NeededRestFirst(k, xs);
    AfterColonIs(s, i + 5, b);
    NeededAtFromAfter(s, i, p, k, xs);
  }

  lemma NeededAtFromAfter(s: string, i: nat, p: nat, k: nat, xs: seq<string>)
    requires AllAmounts(xs) && HasAt(s, i, "NEEDS") && AfterColon(s, i + 5) == p
    requires HasAt(s, p, Spaces(k) + (Concat(xs) + " CREDITS"))
    ensures NeededAt(s, i) == Some(Hit(i, p + k + |Concat(xs)| + 8, LastOf(xs)))
  {
    HasAtConcat(s, p, Spaces(k), Concat(xs) + " CREDITS");
    HasAtConcat(s, p + k, Concat(xs), " CREDITS");
    NeededAfterComplete(s, i, p, k, xs);
    NeededAtFrom(s, i, NeededAfter(s, i, p));
  }

  lemma NeededAtAgrees(s: string, h: Hit)
    requires h.start <= |s|
    ensures NeededAt(s, h.start) == Some(h) <==> Spells(Needed, s, h)
  {
    if NeededAt(s, h.start) == Some(h) {
      NeededAtSound(s, h.start);
    }
    if Spells(Needed, s, h) {
      var b: bool, k: nat, xs: seq<string> :|
        AllAmounts(xs) && h.group == LastOf(xs) && Occurs(s, h, NeededText(b, k, xs));
      NeededAtComplete(s, h.start, b, k, xs);
    }
  }

  // ---------------------------------------------------------------------------------------
  // Upper-division hours taken.

  lemma HoursTakenSound(s: string, i: nat, q: nat, r: nat)
    requires i <= q <= r <= |s| && HoursTaken(s, i, q, r).Some?
    ensures exists k2: nat ::
      && HoursTaken(s, i, q, r).value == Hit(i, r + |" HOURS TAKEN" + (Spaces(k2) + ")")|, Some(s[q..r]))
      && HasAt(s, r, " HOURS TAKEN" + (Spaces(k2) + ")"))
  {
    var k2 := SpaceRun(s, r + 12);
    SpaceRunOccurs(s, r + 12);
    HasAtConcat(s, r + 12, Spaces(k2), ")");
    HasAtConcat(s, r, " HOURS TAKEN", Spaces(k2) + ")");
    assert HoursTaken(s, i, q, r).value == Hit(i, r + |" HOURS TAKEN" + (Spaces(k2) + ")")|, Some(s[q..r]));
  }

  lemma HoursAmountSound(s: string, i: nat, q: nat)
    requires i <= q <= |s| && HoursAmount(s, i, q).Some?
    ensures var h := HoursAmount(s, i, q).value;
      && h.group.Some? && IsAmount(h.group.value)
      && exists k2: nat :: Occurs(s, Hit(q, h.end, h.group), h.group.value + (" HOURS TAKEN" + (Spaces(k2) + ")")))
  {
    var n := AmountAt(s, q).value;
    var g := s[q..q + n];
    var h := HoursAmount(s, i, q).value;
    AmountAtSound(s, q);
    HasAtSlice(s, q, g);
    HoursTakenSound(s, i, q, q + n);
    var k2: nat :|
      && HoursTaken(s, i, q, q + n).value == Hit(i, q + n + |" HOURS TAKEN" + (Spaces(k2) + ")")|, Some(g))
      && HasAt(s, q + n, " HOURS TAKEN" + (Spaces(k2) + ")"));
    HasAtConcat(s, q, g, " HOURS TAKEN" + (Spaces(k2) + ")"));
    assert Occurs(s, Hit(q, h.end, h.group), g + (" HOURS TAKEN" + (Spaces(k2) + ")")));
  }

  lemma HoursAtSound(s: string, i: nat)
    requires i <= |s| && HoursAt(s, i).Some?
    ensures Spells(UpperDivEarned, s, HoursAt(s, i).value)
  {
    var h := HoursAt(s, i).value;
    var k1 := SpaceRun(s, i + 1);
    HoursAmountSound(s, i, i + 1 + k1);
    var g := h.group.value;
    var k2: nat :| Occurs(s, Hit(i + 1 + k1, h.end, h.group), g + (" HOURS TAKEN" + (Spaces(k2) + ")")));
    SpaceRunOccurs(s, i + 1);
    HoursTextOccurs(s, h, k1, g, k2);
  }

  lemma HoursTextOccurs(s: string, h: Hit, k1: nat, g: string, k2: nat)
    requires HasAt(s, h.start, "(") && HasAt(s, h.start + 1, Spaces(k1))
    requires Occurs(s, Hit(h.start + 1 + k1, h.end, h.group), g + (" HOURS TAKEN" + (Spaces(k2) + ")")))
    ensures Occurs(s, h, HoursText(k1, g, k2))
  {
    var tail := g + (" HOURS TAKEN" + (Spaces(k2) + ")"));
    HasAtConcat(s, h.start + 1, Spaces(k1), tail);
    HasAtConcat(s, h.start, "(", Spaces(k1) + tail);
  }

  lemma HoursTakenComplete(s: string, i: nat, q: nat, r: nat, k2: nat)
    requires i <= q <= r && HasAt(s, r, " HOURS TAKEN" + (Spaces(k2) + ")"))
    ensures HoursTaken(s, i, q, r) == Some(Hit(i, r + 12 + k2 + 1, Some(s[q..r])))
  {
    HasAtConcat(s, r, " HOURS TAKEN", Spaces(k2) + ")");
    HasAtConcat(s, r + 12, Spaces(k2), ")");
    HasAtIndex(s, r + 12 + k2, ")", 0);
    SpaceRunOf(s, r + 12, k2);
  }

  lemma HoursAmountComplete(s: string, i: nat, q: nat, g: string, k2: nat)
    requires i <= q && IsAmount(g) && HasAt(s, q, g + (" HOURS TAKEN" + (Spaces(k2) + ")")))
    ensures HoursAmount(s, i, q) == Some(Hit(i, q + |g| + 12 + k2 + 1, Some(g)))
  {
    HasAtConcat(s, q, g, " HOURS TAKEN" + (Spaces(k2) + ")"));
    AmountAtIs(s, q, g);
    HasAtSlice(s, q, g);
    HoursTakenComplete(s, i, q, q + |g|, k2);
  }

  lemma HoursAtComplete(s: string, i: nat, k1: nat, g: string, k2: nat)
    requires IsAmount(g) && HasAt(s, i, HoursText(k1, g, k2))
    ensures HoursAt(s, i) == Some(Hit(i, i + |HoursText(k1, g, k2)|, Some(g)))
  {
    var tail := g + (" HOURS TAKEN" + (Spaces(k2) + ")"));
    HasAtConcat(s, i, "(", Spaces(k1) + tail);
    HasAtConcat(s, i + 1, Spaces(k1), tail);
    HasAtIndex(s, i + 1 + k1, tail, 0);
    SpaceRunOf(s, i + 1, k1);
    HoursAtFromAmount(s, i, i + 1 + k1, g, k2);
  }

  lemma HoursAtFromAmount(s: string, i: nat, q: nat, g: string, k2: nat)
    requires IsAmount(g) && HasAt(s, i, "(") && q == i + 1 + SpaceRun(s, i + 1)
    requires HasAt(s, q, g + (" HOURS TAKEN" + (Spaces(k2) + ")")))
    ensures HoursAt(s, i) == Some(Hit(i, q + |g| + 12 + k2 + 1, Some(g)))
  {
    HoursAmountComplete(s, i, q, g, k2);
    HoursAtFrom(s, i, q, HoursAmount(s, i, q));
  }

  lemma HoursAtFrom(s: string, i: nat, q: nat, r: Option<Hit>)
    requires HasAt(s, i, "(") && q == i + 1 + SpaceRun(s, i + 1) && HoursAmount(s, i, q) == r
    ensures HoursAt(s, i) == r
  {
  }

  lemma HoursAtAgrees(s: string, h: Hit)
    requires h.start <= |s|
    ensures HoursAt(s, h.start) == Some(h) <==> Spells(UpperDivEarned, s, h)
  {
    if HoursAt(s, h.start) == Some(h) {
      HoursAtSound(s, h.start);
    }
    if Spells(UpperDivEarned, s, h) {
      var k1: nat, k2: nat :| Occurs(s, h, HoursText(k1, h.group.value, k2));
      HoursAtComplete(s, h.start, k1, h.group.value, k2);
    }
  }

  // ---------------------------------------------------------------------------------------
  // Upper-division in progress.

  lemma LooseAmountSlice(s: string, q: nat, j: nat)
    requires 1 <= j <= 3 && q + j + 3 <= |s|
    requires forall t :: q <= t < q + j ==> IsDigit(s[t])
    requires s[q + j] != '\n' && IsDigit(s[q + j + 1]) && IsDigit(s[q + j + 2])
    ensures IsLooseAmount(s[q..q + j + 3])
  {
    var g := s[q..q + j + 3];
    forall t | 0 <= t < |g| && t != j ensures IsDigit(g[t]) {
      assert g[t] == s[q + t];
    }
  }

  /** What LooseTry accepts is a loose amount followed by ` CREDITS`. */
  lemma {:induction false} LooseTrySound(s: string, q: nat, j: nat)
    requires j <= 3 && q + j <= |s|
    requires forall t :: q <= t < q + j ==> IsDigit(s[t])
    requires LooseTry(s, q, j).Some?
    ensures var n := LooseTry(s, q, j).value;
      IsLooseAmount(s[q..q + n + 3]) && HasAt(s, q + n + 3, " CREDITS")
    decreases j
  {
    if q + j + 3 <= |s| && s[q + j] != '\n' && IsDigit(s[q + j + 1]) && IsDigit(s[q + j + 2])
       && HasAt(s, q + j + 3, " CREDITS")
    {
      LooseAmountSlice(s, q, j);
    } else {
      LooseTrySound(s, q, j - 1);
    }
  }

  /** Giving back digits from `j` reaches the one split at which the rest of the pattern fits. */
  lemma {:induction false} LooseTryFinds(s: string, q: nat, j: nat, g: string)
    requires IsLooseAmount(g) && HasAt(s, q, g) && HasAt(s, q + |g|, " CREDITS")
    requires |g| - 3 <= j <= 3 && q + j <= |s|
    requires forall t :: q <= t < q + j ==> IsDigit(s[t])
    ensures LooseTry(s, q, j) == Some(|g| - 3)
    decreases j
  {
    var js := |g| - 3;
    if j == js {
      HasAtIndex(s, q, g, js);
      HasAtIndex(s, q, g, js + 1);
      HasAtIndex(s, q, g, js + 2);
    } else {
      HasAtIndex(s, q + |g|, " CREDITS", j - js);
      NotHasAt(s, q + j + 3, " CREDITS");
      LooseTryFinds(s, q, j - 1, g);
    }
  }

  lemma InProgAmountSound(s: string, i: nat, q: nat)
    requires i <= q <= |s| && InProgAmount(s, i, q).Some?
    ensures var h := InProgAmount(s, i, q).value;
      && h.group.Some? && IsLooseAmount(h.group.value)
      && h.end == q + |h.group.value + " CREDITS"| && HasAt(s, q, h.group.value + " CREDITS")
  {
    var d := DigitRun(s, q);
    var j0 := if d < 3 then d else 3;
    DigitRunDigits(s, q);
    LooseTrySound(s, q, j0);
    var g := InProgAmount(s, i, q).value.group.value;
    HasAtSlice(s, q, g);
    HasAtConcat(s, q, g, " CREDITS");
  }

  lemma InProgAmountComplete(s: string, i: nat, q: nat, g: string)
    requires i <= q && IsLooseAmount(g) && HasAt(s, q, g + " CREDITS")
    ensures InProgAmount(s, i, q) == Some(Hit(i, q + |g| + 8, Some(g)))
  {
    HasAtConcat(s, q, g, " CREDITS");
    var js := |g| - 3;
    forall t | q <= t < q + js ensures IsDigit(s[t]) {
      HasAtIndex(s, q, g, t - q);
    }
    var d := DigitRun(s, q);
    var j0 := if d < 3 then d else 3;
    DigitRunDigits(s, q);
    assert js <= d;
    LooseTryFinds(s, q, j0, g);
    HasAtSlice(s, q, g);
    InProgAmountFrom(s, i, q, js, j0);
  }

  lemma InProgAmountFrom(s: string, i: nat, q: nat, js: nat, j0: nat)
    requires i <= q <= |s| && j0 == (if DigitRun(s, q) < 3 then DigitRun(s, q) else 3)
    requires forall t :: q <= t < q + j0 ==> IsDigit(s[t])
    requires LooseTry(s, q, j0) == Some(js)
    ensures InProgAmount(s, i, q) == Some(Hit(i, q + js + 11, Some(s[q..q + js + 3])))
  {
  }

  lemma InProgAtSound(s: string, i: nat)
    requires i <= |s| && InProgAt(s, i).Some?
    ensures Spells(UpperDivInProgress, s, InProgAt(s, i).value)
  {
    var h := InProgAt(s, i).value;
    var k := SpaceRun(s, i + 9);
    InProgAmountSound(s, i, i + 9 + k);
    SpaceRunOccurs(s, i + 9);
    InProgTextOccurs(s, h, k, h.group.value);
  }

  lemma InProgTextOccurs(s: string, h: Hit, k: nat, g: string)
    requires HasAt(s, h.start, "In-Prog->") && HasAt(s, h.start + 9, Spaces(k))
    requires h.end == h.start + 9 + k + |g + " CREDITS"| && HasAt(s, h.start + 9 + k, g + " CREDITS")
    ensures Occurs(s, h, InProgText(k, g))
  {
    HasAtConcat(s, h.start + 9, Spaces(k), g + " CREDITS");
    HasAtConcat(s, h.start, "In-Prog->", Spaces(k) + (g + " CREDITS"));
  }

  lemma InProgAtComplete(s: string, i: nat, k: nat, g: string)
    requires IsLooseAmount(g) && HasAt(s, i, InProgText(k, g))
    ensures InProgAt(s, i) == Some(Hit(i, i + |InProgText(k, g)|, Some(g)))
  {
    HasAtConcat(s, i, "In-Prog->", Spaces(k) + (g + " CREDITS"));
    HasAtConcat(s, i + 9, Spaces(k), g + " CREDITS");
    HasAtIndex(s, i + 9 + k, g + " CREDITS", 0);
    SpaceRunOf(s, i + 9, k);
    InProgAtFromAmount(s, i, i + 9 + k, g);
  }

  lemma InProgAtFromAmount(s: string, i: nat, q: nat, g: string)
    requires IsLooseAmount(g) && HasAt(s, i, "In-Prog->") && q == i + 9 + SpaceRun(s, i + 9)
    requires HasAt(s, q, g + " CREDITS")
    ensures InProgAt(s, i) == Some(Hit(i, q + |g| + 8, Some(g)))
  {
    InProgAmountComplete(s, i, q, g);
    InProgAtFrom(s, i, q, InProgAmount(s, i, q));
  }

  lemma InProgAtFrom(s: string, i: nat, q: nat, r: Option<Hit>)
    requires HasAt(s, i, "In-Prog->") && q == i + 9 + SpaceRun(s, i + 9) && InProgAmount(s, i, q) == r
    ensures InProgAt(s, i) == r
  {
  }

  lemma InProgAtAgrees(s: string, h: Hit)
    requires h.start <= |s|
    ensures InProgAt(s, h.start) == Some(h) <==> Spells(UpperDivInProgress, s, h)
  {
    if InProgAt(s, h.start) == Some(h) {
      InProgAtSound(s, h.start);
    }
    if Spells(UpperDivInProgress, s, h) {
      var k: nat :| Occurs(s, h, InProgText(k, h.group.value));
      InProgAtComplete(s, h.start, k, h.group.value);
    }
  }

  // ---------------------------------------------------------------------------------------
  // GPA.

  lemma GpaAtAgrees(s: string, h: Hit)
    requires h.start <= |s|
    ensures GpaAt(s, h.start) == Some(h) <==> Spells(GpaValue, s, h)
  {
    var i := h.start;
    if i + 8 <= |s| {
      HasAtSlice(s, i, s[i..i + 4]);
      HasAtConcat(s, i, s[i..i + 4], " GPA");
    }
    if Spells(GpaValue, s, h) {
      HasAtConcat(s, i, h.group.value, " GPA");
      HasAtSlice(s, i, h.group.value);
    }
  }

  // ---------------------------------------------------------------------------------------

  /**
   * At every start position, the recogniser of `p` returns `h` exactly when `h` is a match of
   * `p`'s regex there: the recogniser misses no match, invents none, and (the regex being
   * unambiguous at a fixed start) its group 1 is the one the regex captures.
   */
  lemma MatchAtIsRegexMatch(p: Pattern, s: string, h: Hit)
    requires h.start <= |s|
    ensures MatchAt(p, s, h.start) == Some(h) <==> Spells(p, s, h)
  {
    match p
    case Earned => CreditsAtAgrees("EARNED", s, h);
    case InProgress => CreditsAtAgrees("IN-PROGRESS", s, h);
    case Needed => NeededAtAgrees(s, h);
    case UpperDivEarned => HoursAtAgrees(s, h);
    case UpperDivInProgress => InProgAtAgrees(s, h);
    case GpaValue => GpaAtAgrees(s, h);
  }

  lemma {:induction false} AllAmountsLast(xs: seq<string>)
    requires xs != [] && AllAmounts(xs)
    ensures IsAmount(xs[|xs| - 1])
    decreases |xs|
  {
    if |xs| > 1 {
      AllAmountsLast(xs[1..]);
    }
  }

  /** Group 1 of a match holds what the pattern's group can match. */
  lemma MatchAtGroupShape(p: Pattern, s: string, i: nat)
    requires i <= |s| && MatchAt(p, s, i).Some?
    ensures GroupShape(p, MatchAt(p, s, i).value.group)
  {
    var h := MatchAt(p, s, i).value;
    MatchAtIsRegexMatch(p, s, h);
    if p == Needed {
      var b: bool, k: nat, xs: seq<string> :|
        AllAmounts(xs) && h.group == LastOf(xs) && Occurs(s, h, NeededText(b, k, xs));
      if xs != [] {
        AllAmountsLast(xs);
      }
    }
  }
}
