# Choice maker: the decision engine

This project models the logic of the `DecisionMaker` page of the choice-maker
web app (`src/pages/Home/DecisionMaker.tsx`). A user types a question and at
least three options, each with a percentage weight. "Make Decision"
validates the input and then draws one option at random, with each option's
chance equal to its weight.

The model has three modules:

- `Trimming` (Trimming.dfy): white space, `trim`, and what makes a string blank.
- `Engine` (Engine.dfy): the `Option` record (the datatype `Engine.Option`, for
  src/pages/Home/DecisionMaker.tsx lines 14-17) and the three list-editing helpers
  (`addOption`, `removeOption`, `updateOption`). It also holds the three
  ordered validation checks of `calculateChoice` and the selection by
  cumulative percentages. The helpers and checks are pure functions over
  `seq<Option>`. The selection is specified by `Selection`: the first index
  whose prefix sum `p[0] + … + p[k]` reaches the draw `r`. The lemmas about it
  are in this module too.
- `Component` (Component.dfy): the class `DecisionMaker`. Its fields are the
  five pieces of component state: `question`, `options`, `result`, `error`
  and `isThinking`. The handlers are methods on it. `CalculateChoice` holds the
  source's loop. It is a `while` loop that keeps the running sum and stops with
  `break`, and it is proved against `Selection`.

The random number is a parameter `r: real` with `0 <= r < 100`. It stands for
`Math.random() * 100`. Percentages are integers.

The selection loop has no fallback. When no prefix sum reaches `r`, `result`
stays `""` (`NoPick`). `DrawAlwaysPicks` proves that this cannot happen when
the sum is 100 and `r < 100`.

## Model

| member | source | states |
|---|---|---|
| `Trimming.TrimStart` | src/pages/Home/DecisionMaker.tsx:59 | leading part of `.trim()`; its contract is `TrimStartSpec` |
| `Trimming.TrimStartSpec` | src/pages/Home/DecisionMaker.tsx:59 | the result is a suffix of the input; it does not start with white space; everything dropped is white space |
| `Trimming.TrimEnd` | src/pages/Home/DecisionMaker.tsx:59 | trailing part of `.trim()`; its contract is `TrimEndSpec` |
| `Trimming.TrimEndSpec` | src/pages/Home/DecisionMaker.tsx:59 | the result is a prefix of the input; it does not end with white space; everything dropped is white space |
| `Trimming.Trim` | src/pages/Home/DecisionMaker.tsx:59-64 | `.trim()` on the question and on each option text; its contract is `TrimSpec` and `TrimEmptyIffBlank` |
| `Trimming.TrimSpec` | src/pages/Home/DecisionMaker.tsx:59 | a non-empty trimmed string starts and ends with a character that is not white space |
| `Trimming.TrimEmptyIffBlank` | src/pages/Home/DecisionMaker.tsx:59-64 | `!s.trim()` holds exactly when `s` consists of white space only |
| `Engine.AddOption` | src/pages/Home/DecisionMaker.tsx:30-32 | the old list with exactly one blank option (`""`, 0) appended; length grows by one; earlier entries unchanged; percentages stay in [0, 100] |
| `Engine.FilterOutIndex` | src/pages/Home/DecisionMaker.tsx:36 | filtering by index removes exactly the entry at `index` and keeps the order of the rest; an out-of-range index removes nothing |
| `Engine.RemoveOption` | src/pages/Home/DecisionMaker.tsx:34-39 | with at most 3 options, or an out-of-range index, the list is unchanged; otherwise exactly the entry at `index` is removed; a list of at least 3 never drops below 3; percentages stay in range |
| `Engine.Clamp` | src/pages/Home/DecisionMaker.tsx:51 | the stored percentage always lies in [0, 100]: values inside are kept, values below become 0, values above become 100 |
| `Engine.UpdateOption` | src/pages/Home/DecisionMaker.tsx:41-55 | only the option at `index` changes, and only the named field; text is stored verbatim; a percentage is clamped; length and the other options unchanged; percentages stay in range |
| `Engine.AddThenRemove` | src/pages/Home/DecisionMaker.tsx:30-39 | adding an option and then removing the new last index gives back the original list (for lists of at least 3) |
| `Engine.Message` | src/pages/Home/DecisionMaker.tsx:60-74 | each rejection has a non-empty message, so the error alert shows it |
| `Engine.MessagesDistinct` | src/pages/Home/DecisionMaker.tsx:60-74 | different rejections set different messages, so `error` tells the three checks apart |
| `Engine.SomeBlankText` | src/pages/Home/DecisionMaker.tsx:64 | `options.some(opt => !opt.text.trim())` holds exactly when some option text is blank |
| `Engine.Reduce` | src/pages/Home/DecisionMaker.tsx:69-72 | the `reduce` fold from 0 computes the sum of all percentages (from index `i`, the sum of the remaining ones added to the accumulator) |
| `Engine.Validate` | src/pages/Home/DecisionMaker.tsx:59-76 | the three checks in their order; its contract is `ValidateSpec` |
| `Engine.ValidateSpec` | src/pages/Home/DecisionMaker.tsx:59-76 | the first failing check wins: a blank question is reported whatever the options are; a blank option text is reported before the sum is checked; the sum check is exact equality with 100; the input is accepted exactly when all three pass |
| `Engine.SelectFrom` | src/pages/Home/DecisionMaker.tsx:84-93 | the scan stops at the first index whose prefix sum reaches `r`; when it stops nowhere, every prefix sum is below `r` |
| `Engine.Selection` | src/pages/Home/DecisionMaker.tsx:84-93 | the scan over the whole list; its contract is `SelectFrom` and `SelectionIsFirstReaching` |
| `Engine.SelectionIsFirstReaching` | src/pages/Home/DecisionMaker.tsx:84-93 | the scan's choice agrees, in both directions, with an independent definition: `Picked(k)` exactly when `p[0] + … + p[k]` is the first prefix sum that reaches `r`, `NoPick` exactly when no prefix sum does |
| `Engine.PrefixSumMonotone` | src/pages/Home/DecisionMaker.tsx:88 | with non-negative weights the running sum never decreases |
| `Engine.DrawAlwaysPicks` | src/pages/Home/DecisionMaker.tsx:84-93 | when the percentages sum to 100 and `r < 100`, the loop always selects some option |
| `Engine.PickedIffInInterval` | src/pages/Home/DecisionMaker.tsx:87-91 | for `r > 0` and non-negative weights, option `k` is chosen exactly when `PrefixSum(k) < r <= PrefixSum(k + 1)`, and this interval is exactly `opts[k].percentage` wide, so the draw lands on option `k` with chance `p/100` |
| `Engine.PickedHasPositiveWeight` | src/pages/Home/DecisionMaker.tsx:87-91 | for `r > 0` the selected option has a strictly positive percentage, and the options before it sum to less than `r` |
| `Engine.ZeroPicksFirst` | src/pages/Home/DecisionMaker.tsx:87-91 | with `r == 0` the first option is selected whatever its non-negative weight, because the test is `<=` |
| `Engine.SelectionMonotone` | src/pages/Home/DecisionMaker.tsx:87-91 | a larger `r` never selects an earlier index; if the larger draw selects something, so does the smaller |
| `Engine.AcceptedDrawPicksNonBlank` | src/pages/Home/DecisionMaker.tsx:59-93 | after a successful validation, every draw in [0, 100) selects an option whose text is not blank, so `result` is never left empty |
| `Engine.ThreeWayDraws` | src/pages/Home/DecisionMaker.tsx:84-93 | with weights 30/30/40 the draws 0, 50 and 95 select the first, second and third option |
| `Engine.ValidationOrderExamples` | src/pages/Home/DecisionMaker.tsx:59-76 | concrete inputs: a blank question with valid options, a blank text with a valid sum, and a sum of 90, each reported by its own check |
| `Component.DecisionMaker.constructor` | src/pages/Home/DecisionMaker.tsx:20-28 | the initial state: empty question, three blank options, no result, no error, not thinking |
| `Component.DecisionMaker.SetQuestion` | src/pages/Home/DecisionMaker.tsx:137 | the question becomes the typed text; nothing else changes |
| `Component.DecisionMaker.AddOption` | src/pages/Home/DecisionMaker.tsx:30-32 | `options` becomes `Engine.AddOption` of the old list; only `options` changes; the invariant (at least 3 options, percentages in [0, 100]) is kept |
| `Component.DecisionMaker.RemoveOption` | src/pages/Home/DecisionMaker.tsx:34-39 | `options` becomes `Engine.RemoveOption` of the old list; only `options` changes; the invariant is kept |
| `Component.DecisionMaker.UpdateOption` | src/pages/Home/DecisionMaker.tsx:41-55 | `options` becomes `Engine.UpdateOption` of the old list; only `options` changes; the invariant is kept |
| `Component.DecisionMaker.CalculateChoice` | src/pages/Home/DecisionMaker.tsx:57-96 | on a rejection only `error` changes, to that check's message; `result` and `isThinking` are untouched and no draw happens. On acceptance `error` is `""`, `isThinking` is false, and `result` is the text of `Selection(options, r)`, which always exists and is non-empty; `question` and `options` never change |

## Left out

- All rendering and styling (src/pages/Home/DecisionMaker.tsx:98-226) is presentation only. The one exception is the question's change handler, which is modelled as `SetQuestion`.
- src/components/ui/input.tsx is a styled `<input>` wrapper and is not part of this model.
- The two-second `await` before the draw is not modelled, and neither is the asynchronous handler. So a second "Make Decision" during the delay is not modelled either. The source prevents it only by disabling the button while `isThinking` is set (line 203), which is UI timing.
- Component.DecisionMaker.CalculateChoice: its postcondition gives only the final state. The state visible during the delay (`error == ""`, `isThinking`, `result == ""`) is kept by the loop invariant, but no contract states it.
- `Math.random()` is not modelled. The draw is a parameter `r` with `0 <= r < 100`, which is the range of `Math.random() * 100`.
- JavaScript's `Number(value)` coercion is not modelled, nor `NaN` passing through `Math.min`/`Math.max`, nor floating-point percentages and sums. Percentages are integers, and the clamp is stated over integers.
- `String.prototype.trim` strips every Unicode space separator. `Trimming.IsWhitespace` lists only a representative set of those characters.
- React's `useState` setters schedule updates that are applied on the next render. The model applies each update at once, as an assignment to a field.
- Engine.UpdateOption requires `index` to be in range. With an out-of-range index the source would write a partial object (`{[field]: value}`) past the end of the array. Its callers (line 161 and line 171) only pass indices of existing options.
- Engine.UpdateOption: the field name and the value are merged into one `Edit` value. A number written into `text`, or a string into `percentage`, is not modelled.
- Component.DecisionMaker.UpdateOption requires `index` to be in range, for the same reason as `Engine.UpdateOption`.
