/**
 * The few Ruby values and operations the fallback code of application.rb works with: the
 * String, Integer 0 or nil a summary field ends up holding, the Arrays `scan` returns and the
 * code then patches, indexing with `[]` (which raises when the receiver is nil), `[]=`, and
 * `to_i`.
 */
module RubyValues {
  import opened Base

  /** What a summary field holds: a String, the Integer 0, or nil. */
  datatype Value = Str(text: string) | IntZero | Nil

  /** The result of a computation that either returns or raises (a NoMethodError for `nil[0]`). */
  datatype Outcome<T> = Ok(value: T) | Raises

  /**
   * An element of a scan-result Array: a one-element row `[capture]` as `scan` builds it for a
   * pattern with one group (capture nil when the group did not take part), or a String the
   * fallback code stored there.
   */
  datatype Elem = Row(capture: Option<string>) | Text(text: string)

  /** A capture read as a value: the String, or nil. */
  function OfCapture(g: Option<string>): (v: Value)
    ensures v.Nil? <==> g.None?
    ensures g.Some? ==> v == Str(g.value)
  {
    match g
    case None => Nil
    case Some(t) => Str(t)
  }

  /** The Array `scan` returns: one row per match, holding that match's group 1. */
  function Rows(caps: seq<Option<string>>): (a: seq<Elem>)
    ensures |a| == |caps| && forall k :: 0 <= k < |a| ==> a[k] == Row(caps[k])
  {
    seq(|caps|, k requires 0 <= k < |caps| => Row(caps[k]))
  }

  /** `a[i]` on an Array: the element, or nil (None) at or past the end. */
  function At(a: seq<Elem>, i: nat): (e: Option<Elem>)
    ensures e.None? <==> |a| <= i
    ensures i < |a| ==> e == Some(a[i])
  {
    if i < |a| then Some(a[i]) else None
  }

  /** `a[i] = e` on an Array, for an index inside it or just past its end (which appends). */
  function Store(a: seq<Elem>, i: nat, e: Elem): (b: seq<Elem>)
    requires i <= |a|
    ensures |b| == if i < |a| then |a| else |a| + 1
    ensures b[i] == e && forall k :: 0 <= k < |a| && k != i ==> b[k] == a[k]
  {
    if i < |a| then a[i := e] else a + [e]
  }

  /**
   * `x[0]` where `x` is an element read from an Array (nil when the index was past the end):
   * the capture of a row, the first character of a String (nil for the empty String), and
   * for nil a raised NoMethodError.
   */
  function First(x: Option<Elem>): (r: Outcome<Value>)
    ensures r.Raises? <==> x.None?
    ensures x.Some? && x.value.Row? ==> r == Ok(OfCapture(x.value.capture))
    ensures x.Some? && x.value.Text? && x.value.text != [] ==> r == Ok(Str([x.value.text[0]]))
  {
    match x
    case None => Raises
    case Some(Row(g)) => Ok(OfCapture(g))
    case Some(Text(t)) => if t == [] then Ok(Nil) else Ok(Str([t[0]]))
  }

  /** The decimal value of a run of digits, most significant first. */
  function DecimalValue(d: string): nat
    requires forall j :: 0 <= j < |d| ==> IsDigit(d[j])
  {
    if d == [] then 0 else 10 * DecimalValue(d[..|d| - 1]) + DigitValue(d[|d| - 1])
  }

  /**
   * `to_i` of a value: for a String, the number its leading ASCII digits spell (0 when it
   * starts with none); `0.to_i` and `nil.to_i` are 0.
   */
  function ToI(v: Value): (n: nat)
    ensures v.Str? && v.text != [] && IsDigit(v.text[0]) && (|v.text| == 1 || !IsDigit(v.text[1])) ==>
      n == DigitValue(v.text[0])
    ensures v.Str? && (v.text == [] || !IsDigit(v.text[0])) ==> n == 0
    ensures !v.Str? ==> n == 0
  {
    match v
    case Str(t) =>
      var d := DigitRun(t, 0);
      DigitRunDigits(t, 0);
      DecimalOfOneDigit(t, d);
      DecimalValue(t[..d])
    case IntZero => 0
    case Nil => 0
  }

  /** A digit run of length one is worth its digit, and an empty one nothing. */
  lemma DecimalOfOneDigit(t: string, d: nat)
    requires d <= |t| && forall j :: 0 <= j < d ==> IsDigit(t[j])
    ensures d == 0 ==> DecimalValue(t[..d]) == 0
    ensures d == 1 ==> DecimalValue(t[..d]) == DigitValue(t[0])
  {
    if d == 1 {
      assert t[..d][..0] == [];
    }
  }
}
