/**
 * The DecisionMaker page's state and handlers: the five pieces of component
 * state become fields, each handler a method that updates them.
 */
module Component {
  import opened Trimming
  import opened Engine

  class DecisionMaker {
    var question: string
    var options: seq<Option>
    var result: string
    var error: string
    var isThinking: bool

    /** What the handlers keep true: at least three options, each percentage in [0, 100]. */
    ghost predicate Valid()
      reads this
    {
      |options| >= MinOptions && PercentagesInRange(options)
    }

    /** The initial state: empty question, three blank options, no result, no error, idle. */
    constructor ()
      ensures Valid()
      ensures question == "" && options == [BlankOption, BlankOption, BlankOption]
      ensures result == "" && error == "" && !isThinking
    {
      question := "";
      options := [BlankOption, BlankOption, BlankOption];
      result := "";
      error := "";
      isThinking := false;
    }

    /** The question field's change handler. */
    method SetQuestion(q: string)
      modifies this`question
      ensures question == q
    {
      question := q;
    }

    /** Appends a blank option. */
    method AddOption()
      modifies this`options
      ensures options == Engine.AddOption(old(options))
      ensures old(Valid()) ==> Valid()
    {
      options := Engine.AddOption(options);
    }

    /** Removes the option at `index` while more than three options exist. */
    method RemoveOption(index: int)
      modifies this`options
      ensures options == Engine.RemoveOption(old(options), index)
      ensures old(Valid()) ==> Valid()
    {
      options := Engine.RemoveOption(options, index);
    }

    /** Writes one field of the option at `index`, clamping a percentage into [0, 100]. */
    method UpdateOption(index: nat, edit: Edit)
      requires index < |options|
      modifies this`options
      ensures options == Engine.UpdateOption(old(options), index, edit)
      ensures old(Valid()) ==> Valid()
    {
      options := Engine.UpdateOption(options, index, edit);
    }

    /**
     * The "Make Decision" handler, with `r` standing for `Math.random() * 100`.
     * A rejected question or option list only sets `error`; an accepted one
     * clears `error`, resets `result`, marks the component as thinking, scans
     * the cumulative percentages for the first one that reaches `r`, stores that
     * option's text, and stops thinking.
     */
    method CalculateChoice(r: real)
      requires 0.0 <= r < 100.0
      modifies this`error, this`result, this`isThinking
      ensures Validate(question, options).Rejected? ==>
        error == Message(Validate(question, options).error) &&
        result == old(result) && isThinking == old(isThinking)
      ensures Validate(question, options).Accepted? ==>
        error == "" && !isThinking &&
        result == match Selection(options, r)
          case Picked(k) => options[k].text
          case NoPick => ""
      ensures Validate(question, options).Accepted? ==>
        Selection(options, r).Picked? && result == options[Selection(options, r).index].text && result != ""
    {
      var opts := options;
      var verdict := Validate(question, opts);
      if verdict.Rejected? {
        error := Message(verdict.error);
        return;
      }

      error := "";
      isThinking := true;
      result := "";

      var acc := 0;
      var i := 0;
      while i < |opts|
        invariant 0 <= i <= |opts|
        invariant acc == PrefixSum(opts, i)
        invariant forall j :: 0 < j <= i ==> (PrefixSum(opts, j) as real) < r
        invariant result == "" && isThinking && error == ""
      {
        acc := acc + opts[i].percentage;
        if r <= acc as real {
          SelectionIsFirstReaching(opts, r, Picked(i));
          result := opts[i].text;
          break;
        }
        i := i + 1;
      }
      if i == |opts| {
        SelectionIsFirstReaching(opts, r, NoPick);
      }

      isThinking := false;
      AcceptedDrawPicksNonBlank(question, opts, r);
    }
  }
}
