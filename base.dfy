/** Characters, positions and maximal runs over report text, shared by the recognisers. */
module Base {

  datatype Option<+T> = None | Some(value: T)

  /** Ruby's `\d` on a String: the ASCII digits only. */
  predicate IsDigit(c: char) {
    '0' <= c <= '9'
  }

  function DigitValue(c: char): (n: nat)
    requires IsDigit(c)
    ensures n <= 9
  {
    c as int - '0' as int
  }

  /** The text `w` occurs in `s` starting at position `i`. */
  predicate HasAt(s: string, i: nat, w: string) {
    i + |w| <= |s| && forall j :: 0 <= j < |w| ==> s[i + j] == w[j]
  }

  /** `k` blanks: the text matched by ` *` taken `k` times. */
  function Spaces(k: nat): string {
    seq(k, _ => ' ')
  }

  lemma HasAtConcat(s: string, i: nat, a: string, b: string)
    ensures HasAt(s, i, a + b) <==> HasAt(s, i, a) && HasAt(s, i + |a|, b)
  {
    if HasAt(s, i, a) && HasAt(s, i + |a|, b) {
      forall j | 0 <= j < |a + b| ensures s[i + j] == (a + b)[j] {
        if j >= |a| {
          assert s[i + |a| + (j - |a|)] == b[j - |a|];
        }
      }
    }
    if HasAt(s, i, a + b) {
      forall j | 0 <= j < |a| ensures s[i + j] == a[j] {
        assert s[i + j] == (a + b)[j];
      }
      forall j | 0 <= j < |b| ensures s[i + |a| + j] == b[j] {
        assert s[i + (|a| + j)] == (a + b)[|a| + j];
      }
    }
  }

  lemma HasAtIndex(s: string, i: nat, w: string, j: nat)
    requires HasAt(s, i, w) && j < |w|
    ensures s[i + j] == w[j]
  {
  }

  /** An occurrence is the slice it covers, and a slice occurs where it was taken. */
  lemma HasAtSlice(s: string, i: nat, w: string)
    requires i + |w| <= |s|
    ensures HasAt(s, i, w) <==> s[i..i + |w|] == w
  {
    if HasAt(s, i, w) {
      forall j | 0 <= j < |w| ensures s[i..i + |w|][j] == w[j] {
        assert s[i..i + |w|][j] == s[i + j];
      }
    }
    if s[i..i + |w|] == w {
      forall j | 0 <= j < |w| ensures s[i + j] == w[j] {
        assert s[i..i + |w|][j] == s[i + j];
      }
    }
  }

  lemma HasAtSpaces(s: string, i: nat, k: nat)
    requires i + k <= |s|
    requires forall j :: i <= j < i + k ==> s[j] == ' '
    ensures HasAt(s, i, Spaces(k))
  {
    forall j | 0 <= j < k ensures s[i + j] == Spaces(k)[j] {
      assert s[i + j] == ' ';
    }
  }

  /** Fewer blanks occur where more do. */
  lemma HasAtSpacesPrefix(s: string, i: nat, k: nat)
    requires HasAt(s, i, Spaces(k)) && 0 < k
    ensures HasAt(s, i, Spaces(k - 1))
  {
    assert Spaces(k) == Spaces(k - 1) + [' '];
    HasAtConcat(s, i, Spaces(k - 1), [' ']);
  }

  /** A text whose first character differs from that of `w` has no occurrence of `w` there. */
  lemma NotHasAt(s: string, i: nat, w: string)
    requires 0 < |w| && i < |s| && s[i] != w[0]
    ensures !HasAt(s, i, w)
  {
    if i + |w| <= |s| {
      assert s[i + 0] == s[i];
    }
  }

  /** Length of the run of blanks starting at `i`: how far a greedy ` *` reaches. */
  function SpaceRun(s: string, i: nat): (n: nat)
    requires i <= |s|
    ensures i + n <= |s|
    ensures i + n == |s| || s[i + n] != ' '
    decreases |s| - i
  {
    if i < |s| && s[i] == ' ' then 1 + SpaceRun(s, i + 1) else 0
  }

  /** Length of the run of digits starting at `i`: how far a greedy `\d*` reaches. */
  function DigitRun(s: string, i: nat): (n: nat)
    requires i <= |s|
    ensures i + n <= |s|
    ensures i + n == |s| || !IsDigit(s[i + n])
    decreases |s| - i
  {
    if i < |s| && IsDigit(s[i]) then 1 + DigitRun(s, i + 1) else 0
  }

  /** Every character of the run SpaceRun measures is a blank. */
  lemma {:induction false} SpaceRunBlanks(s: string, i: nat)
    requires i <= |s|
    ensures forall j :: i <= j < i + SpaceRun(s, i) ==> s[j] == ' '
    decreases |s| - i
  {
    if i < |s| && s[i] == ' ' {
      SpaceRunBlanks(s, i + 1);
    }
  }

  /** Every character of the run DigitRun measures is a digit. */
  lemma {:induction false} DigitRunDigits(s: string, i: nat)
    requires i <= |s|
    ensures forall j :: i <= j < i + DigitRun(s, i) ==> IsDigit(s[j])
    decreases |s| - i
  {
    if i < |s| && IsDigit(s[i]) {
      DigitRunDigits(s, i + 1);
    }
  }

  /** The run SpaceRun measures is blanks. */
  lemma SpaceRunOccurs(s: string, i: nat)
    requires i <= |s|
    ensures HasAt(s, i, Spaces(SpaceRun(s, i)))
  {
    SpaceRunBlanks(s, i);
    HasAtSpaces(s, i, SpaceRun(s, i));
  }

  /** A run of blanks that ends at a non-blank (or the end) is the whole run. */
  lemma {:induction false} SpaceRunIs(s: string, i: nat, k: nat)
    requires i + k <= |s|
    requires forall j :: i <= j < i + k ==> s[j] == ' '
    requires i + k == |s| || s[i + k] != ' '
    ensures SpaceRun(s, i) == k
    decreases k
  {
    if k > 0 {
      SpaceRunIs(s, i + 1, k - 1);
    }
  }

  /** A run of digits that ends at a non-digit (or the end) is the whole run. */
  lemma {:induction false} DigitRunIs(s: string, i: nat, k: nat)
    requires i + k <= |s|
    requires forall j :: i <= j < i + k ==> IsDigit(s[j])
    requires i + k == |s| || !IsDigit(s[i + k])
    ensures DigitRun(s, i) == k
    decreases k
  {
    if k > 0 {
      DigitRunIs(s, i + 1, k - 1);
    }
  }

  /** A run of at least `k` digits makes DigitRun reach at least `k`. */
  lemma {:induction false} DigitRunAtLeast(s: string, i: nat, k: nat)
    requires i + k <= |s|
    requires forall j :: i <= j < i + k ==> IsDigit(s[j])
    ensures k <= DigitRun(s, i)
    decreases k
  {
    if k > 0 {
      DigitRunAtLeast(s, i + 1, k - 1);
    }
  }
}
