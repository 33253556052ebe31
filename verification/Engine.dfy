/**
 * The decision engine of the DecisionMaker page: the option record, the three
 * list-editing helpers, the ordered validation of a question and its options,
 * and the weighted draw that picks one option from the cumulative percentages.
 */
module Engine {
  import opened Trimming

  /** One weighted choice: its label and its weight in percent. */
  datatype Option = Option(text: string, percentage: int)

  /** The option `addOption` appends and the form starts with. */
  const BlankOption := Option("", 0)

  /** The form never lets the list shrink below this many options. */
  const MinOptions := 3

  /** The percentages must add up to exactly this. */
  const Total := 100

  /** Every percentage lies in [0, 100]. */
  predicate PercentagesInRange(opts: seq<Option>) {
    forall i :: 0 <= i < |opts| ==> 0 <= opts[i].percentage <= 100
  }

  /** Every percentage is non-negative. */
  predicate NonNegative(opts: seq<Option>) {
    forall i :: 0 <= i < |opts| ==> 0 <= opts[i].percentage
  }

  // ---------------------------------------------------------------------------
  // List editing

  /** `[...options, { text: "", percentage: 0 }]`. */
  function AddOption(opts: seq<Option>): (r: seq<Option>)
    ensures |r| == |opts| + 1
    ensures r[..|opts|] == opts && r[|opts|] == BlankOption
    ensures PercentagesInRange(opts) ==> PercentagesInRange(r)
  {
    opts + [BlankOption]
  }

  /** `s.filter((_, i) => i !== index)`, walked from the front. */
  function FilterOutIndex(s: seq<Option>, index: int): (r: seq<Option>)
    ensures 0 <= index < |s| ==> r == s[..index] + s[index + 1..]
    ensures !(0 <= index < |s|) ==> r == s
    decreases |s|
  {
    if s == [] then []
    else
      var rest := FilterOutIndex(s[1..], index - 1);
      if index == 0 then rest
      else
        assert 0 < index < |s| ==> s[..index] == [s[0]] + s[1..][..index - 1];
        [s[0]] + rest
  }

  /** Removes the option at `index`, but only while more than three options exist. */
  function RemoveOption(opts: seq<Option>, index: int): (r: seq<Option>)
    ensures |opts| <= MinOptions ==> r == opts
    ensures |opts| > MinOptions && 0 <= index < |opts| ==> r == opts[..index] + opts[index + 1..]
    ensures !(0 <= index < |opts|) ==> r == opts
    ensures |opts| >= MinOptions ==> |r| >= MinOptions
    ensures PercentagesInRange(opts) ==> PercentagesInRange(r)
  {
    if |opts| > MinOptions then FilterOutIndex(opts, index) else opts
  }

  /** `Math.min(100, Math.max(0, v))`. */
  function Clamp(v: int): (r: int)
    ensures 0 <= r <= 100
    ensures 0 <= v <= 100 ==> r == v
    ensures v < 0 ==> r == 0
    ensures v > 100 ==> r == 100
  {
    var atLeastZero := if v < 0 then 0 else v;
    if atLeastZero > 100 then 100 else atLeastZero
  }

  /** The field `updateOption` writes, together with the value written. */
  datatype Edit = SetText(text: string) | SetPercentage(value: int)

  /** Replaces one field of the option at `index`; a percentage is clamped into [0, 100]. */
  function UpdateOption(opts: seq<Option>, index: nat, edit: Edit): (r: seq<Option>)
    requires index < |opts|
    ensures |r| == |opts|
    ensures forall j :: 0 <= j < |opts| && j != index ==> r[j] == opts[j]
    ensures edit.SetText? ==> r[index].text == edit.text && r[index].percentage == opts[index].percentage
    ensures edit.SetPercentage? ==> r[index].text == opts[index].text && 0 <= r[index].percentage <= 100
    ensures edit.SetPercentage? && 0 <= edit.value <= 100 ==> r[index].percentage == edit.value
    ensures edit.SetPercentage? && edit.value < 0 ==> r[index].percentage == 0
    ensures edit.SetPercentage? && edit.value > 100 ==> r[index].percentage == 100
    ensures PercentagesInRange(opts) ==> PercentagesInRange(r)
  {
    var o := opts[index];
    var updated := match edit
      case SetText(t) => o.(text := t)
      case SetPercentage(v) => o.(percentage := Clamp(v));
    opts[index := updated]
  }

  /** Adding an option and then removing it again gives back the original list. */
  lemma AddThenRemove(opts: seq<Option>)
    requires |opts| >= MinOptions
    ensures RemoveOption(AddOption(opts), |opts|) == opts
  {
  }

  // ---------------------------------------------------------------------------
  // Validation

  /** The three ways a question and its options can be rejected. */
  datatype ValidationError = EmptyQuestion | EmptyOptionText | PercentageSumMismatch

  /** What validation concludes: go ahead with the draw, or the first failing check. */
  datatype Verdict = Accepted | Rejected(error: ValidationError)

  /** The message shown for each rejection. */
  function Message(e: ValidationError): (m: string)
    ensures m != ""
  {
    match e
    case EmptyQuestion => "Please enter a question"
    case EmptyOptionText => "Please fill in all option texts"
    case PercentageSumMismatch => "Percentages must add up to 100%"
  }

  /** The three messages differ, so `error` tells the checks apart. */
  lemma MessagesDistinct(a: ValidationError, b: ValidationError)
    requires a != b
    ensures Message(a) != Message(b)
  {
  }

  /** `options.some((opt) => !opt.text.trim())`. */
  function SomeBlankText(opts: seq<Option>): (b: bool)
    ensures b <==> exists i :: 0 <= i < |opts| && IsBlank(opts[i].text)
  {
    if opts == [] then false
    else
      TrimEmptyIffBlank(opts[0].text);
      var restBlank := SomeBlankText(opts[1..]);
      assert restBlank <==> exists i :: 1 <= i < |opts| && IsBlank(opts[i].text) by {
        if restBlank {
          var j :| 0 <= j < |opts[1..]| && IsBlank(opts[1..][j].text);
          assert IsBlank(opts[j + 1].text);
        }
        forall i | 1 <= i < |opts| && IsBlank(opts[i].text) ensures restBlank {
          assert IsBlank(opts[1..][i - 1].text);
        }
      }
      Trim(opts[0].text) == [] || restBlank
  }

  /** The sum of the first `i` percentages. */
  function PrefixSum(opts: seq<Option>, i: nat): int
    requires i <= |opts|
  {
    if i == 0 then 0 else PrefixSum(opts, i - 1) + opts[i - 1].percentage
  }

  /** The sum of all percentages. */
  function Sum(opts: seq<Option>): int {
    PrefixSum(opts, |opts|)
  }

  /** `options.reduce((sum, opt) => sum + opt.percentage, acc)` over the options from index `i` on. */
  function Reduce(opts: seq<Option>, i: nat, acc: int): (r: int)
    requires i <= |opts|
    ensures r == acc + Sum(opts) - PrefixSum(opts, i)
    decreases |opts| - i
  {
    if i == |opts| then acc else Reduce(opts, i + 1, acc + opts[i].percentage)
  }

  /**
   * The checks at the start of `calculateChoice`, in their order: a blank
   * question, then a blank option text, then a percentage sum other than 100.
   */
  function Validate(question: string, opts: seq<Option>): Verdict {
    if Trim(question) == [] then Rejected(EmptyQuestion)
    else if SomeBlankText(opts) then Rejected(EmptyOptionText)
    else if Reduce(opts, 0, 0) != Total then Rejected(PercentageSumMismatch)
    else Accepted
  }

  /**
   * The first failing check wins: a blank question is reported whatever the
   * options are, a blank option text before the sum is looked at, and the sum
   * must be exactly 100.
   */
  lemma ValidateSpec(question: string, opts: seq<Option>)
    ensures Validate(question, opts) == Rejected(EmptyQuestion) <==> IsBlank(question)
    ensures Validate(question, opts) == Rejected(EmptyOptionText) <==>
      !IsBlank(question) && exists i :: 0 <= i < |opts| && IsBlank(opts[i].text)
    ensures Validate(question, opts) == Rejected(PercentageSumMismatch) <==>
      !IsBlank(question) && (forall i :: 0 <= i < |opts| ==> !IsBlank(opts[i].text)) && Sum(opts) != Total
    ensures Validate(question, opts) == Accepted <==>
      !IsBlank(question) && (forall i :: 0 <= i < |opts| ==> !IsBlank(opts[i].text)) && Sum(opts) == Total
  {
    TrimEmptyIffBlank(question);
  }

  // ---------------------------------------------------------------------------
  // The weighted draw

  /** The outcome of the draw: the index of the chosen option, or none when the scan runs off the end. */
  datatype Pick = NoPick | Picked(index: nat)

  /**
   * The first index `k >= i` whose cumulative percentage `p[0] + ... + p[k]`
   * reaches `r`: the option the selection loop of `calculateChoice` stops at
   * when it has not stopped before `i`.
   */
  function SelectFrom(opts: seq<Option>, r: real, i: nat): (p: Pick)
    requires i <= |opts|
    ensures p.Picked? ==> i <= p.index < |opts| && r <= PrefixSum(opts, p.index + 1) as real
    ensures p.Picked? ==> forall j :: i < j <= p.index ==> (PrefixSum(opts, j) as real) < r
    ensures p.NoPick? ==> forall j :: i < j <= |opts| ==> (PrefixSum(opts, j) as real) < r
    decreases |opts| - i
  {
    if i == |opts| then NoPick
    else if r <= PrefixSum(opts, i + 1) as real then Picked(i)
    else SelectFrom(opts, r, i + 1)
  }

  /** The option a draw of `r` selects, scanning the whole list. */
  function Selection(opts: seq<Option>, r: real): Pick {
    SelectFrom(opts, r, 0)
  }

  /**
   * The reference meaning of a draw: `Picked(k)` when `p[0] + ... + p[k]` is
   * the first prefix sum that reaches `r`, `NoPick` when none does.
   */
  predicate FirstReaching(opts: seq<Option>, r: real, p: Pick) {
    match p
    case Picked(k) =>
      k < |opts| && r <= PrefixSum(opts, k + 1) as real &&
      forall j :: 0 < j <= k ==> (PrefixSum(opts, j) as real) < r
    case NoPick =>
      forall j :: 0 < j <= |opts| ==> (PrefixSum(opts, j) as real) < r
  }

  /** The scan selects exactly the first index whose prefix sum reaches `r`, and nothing when there is none. */
  lemma SelectionIsFirstReaching(opts: seq<Option>, r: real, p: Pick)
    ensures Selection(opts, r) == p <==> FirstReaching(opts, r, p)
  {
  }

  /** With non-negative weights the cumulative sums never decrease. */
  lemma {:induction false} PrefixSumMonotone(opts: seq<Option>, i: nat, j: nat)
    requires NonNegative(opts)
    requires i <= j <= |opts|
    ensures PrefixSum(opts, i) <= PrefixSum(opts, j)
    decreases j - i
  {
    if i < j {
      PrefixSumMonotone(opts, i, j - 1);
    }
  }

  /** When the percentages add up to 100 and `r < 100`, the scan always stops at some option. */
  lemma DrawAlwaysPicks(opts: seq<Option>, r: real)
    requires Sum(opts) == Total
    requires r < 100.0
    ensures Selection(opts, r).Picked?
  {
  }

  /** For `r > 0` the chosen option is the one whose interval `(PrefixSum(k), PrefixSum(k + 1)]` contains `r`. */
  lemma PickedIffInInterval(opts: seq<Option>, r: real, k: nat)
    requires NonNegative(opts)
    requires 0.0 < r
    requires k < |opts|
    ensures Selection(opts, r) == Picked(k) <==>
      (PrefixSum(opts, k) as real) < r <= PrefixSum(opts, k + 1) as real
    ensures PrefixSum(opts, k + 1) - PrefixSum(opts, k) == opts[k].percentage
  {
    var p := Selection(opts, r);
    if (PrefixSum(opts, k) as real) < r <= PrefixSum(opts, k + 1) as real {
      forall j | 0 < j <= k ensures (PrefixSum(opts, j) as real) < r {
        PrefixSumMonotone(opts, j, k);
      }
      assert p.Picked?;
    }
    if p == Picked(k) && k > 0 {
      assert (PrefixSum(opts, k) as real) < r;
    }
  }

  /** For `r > 0` the chosen option carries a positive weight, and the options before it sum to less than `r`. */
  lemma PickedHasPositiveWeight(opts: seq<Option>, r: real)
    requires 0.0 < r
    requires Selection(opts, r).Picked?
    ensures var k := Selection(opts, r).index;
      (PrefixSum(opts, k) as real) < r && opts[k].percentage > 0
  {
  }

  /** A draw of exactly 0 picks the first option whatever its (non-negative) weight, because the test is `<=`. */
  lemma ZeroPicksFirst(opts: seq<Option>)
    requires |opts| > 0 && opts[0].percentage >= 0
    ensures Selection(opts, 0.0) == Picked(0)
  {
    assert PrefixSum(opts, 1) == opts[0].percentage;
  }

  /** A larger draw never selects an earlier option. */
  lemma SelectionMonotone(opts: seq<Option>, r1: real, r2: real)
    requires r1 <= r2
    requires Selection(opts, r2).Picked?
    ensures Selection(opts, r1).Picked?
    ensures Selection(opts, r1).index <= Selection(opts, r2).index
  {
  }

  /** After a successful validation every draw in [0, 100) lands on an option with a non-blank text. */
  lemma AcceptedDrawPicksNonBlank(question: string, opts: seq<Option>, r: real)
    requires Validate(question, opts) == Accepted
    requires r < 100.0
    ensures Selection(opts, r).Picked?
    ensures !IsBlank(opts[Selection(opts, r).index].text)
    ensures opts[Selection(opts, r).index].text != ""
  {
  }

  /** Worked draws on the weights 30/30/40: 0 falls to the first option, 50 to the second, 95 to the third. */
  lemma ThreeWayDraws()
    ensures var opts := [Option("A", 30), Option("B", 30), Option("C", 40)];
      Selection(opts, 0.0) == Picked(0) && Selection(opts, 50.0) == Picked(1) && Selection(opts, 95.0) == Picked(2)
  {
  }

  /** Worked validations: each check is reported ahead of the ones after it. */
  lemma ValidationOrderExamples()
    ensures Validate("", [Option("A", 50), Option("B", 50), Option("C", 0)]) == Rejected(EmptyQuestion)
    ensures Validate("Q", [Option("", 50), Option("B", 50), Option("C", 0)]) == Rejected(EmptyOptionText)
    ensures Validate("Q", [Option("A", 50), Option("B", 40), Option("C", 0)]) == Rejected(PercentageSumMismatch)
  {
    var bad := [Option("", 50), Option("B", 50), Option("C", 0)];
    assert IsBlank(bad[0].text);
    var short := [Option("A", 50), Option("B", 40), Option("C", 0)];
    assert !IsBlank("Q"[..]) by { assert !IsWhitespace("Q"[0]); }
    assert !IsBlank(short[0].text) by { assert !IsWhitespace(short[0].text[0]); }
    assert !IsBlank(short[1].text) by { assert !IsWhitespace(short[1].text[0]); }
    assert !IsBlank(short[2].text) by { assert !IsWhitespace(short[2].text[0]); }
    assert PrefixSum(short, 3) == 90;
  }
}
