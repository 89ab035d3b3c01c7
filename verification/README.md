# Balance-scale simulator: a Dafny model

This project models the core logic of a single-screen teaching simulator for a
philosophy lesson. The user drags weighted *factors* onto a balance scale.
Production forces (category LLSX) go on the left pan and production relations
(category QHSX) go on the right pan. The screen shows:

- the tilt of the beam;
- a status label and a glow colour;
- floating "conflict" phrases while one side outweighs the other by more than 15;
- an inactivity countdown of 20 seconds. When it runs out, a result popup opens
  with one of four verdicts.

The model is a reducer. `Simulation.State` holds:

- the two pans, each an ordered sequence of placed factors;
- the conflict-phrase buffer, newest phrase first;
- the countdown, with a flag that says whether its interval is still scheduled;
- the three popup flags.

`Simulation.Step(state, event)` applies one event. The events are:

- a drop;
- a remove;
- the reset button;
- a firing of the one-second countdown interval;
- a firing of the 1.5-second narration interval, with the random draw passed in;
- closing the result popup;
- opening or closing an information popup.

The modules follow the parts of the program. `App.tsx` is split over
`Pans`, `Narrator`, `Inactivity`, `Verdict` and `Simulation`:

| module | models |
|---|---|
| `Types` | the `Category`, `Factor` and `Fact` declarations |
| `Decimal` | the decimal rendering of the clock value inside instance ids |
| `Pans` | raw weight sums, the signed difference, the category gate, stamped copies, removal by id |
| `Narrator` | the two conflict flags, the phrase pools, the four-slot buffer |
| `Inactivity` | the countdown body and its one-shot expiry |
| `Verdict` | the choice among the four result verdicts |
| `ScaleVisual` | floored pan weights, rotation, pan shifts, status label, glow, the payload gate |
| `Catalog` | the sixteen factors and three facts |
| `Simulation` | state, events, the step function, reachable-state invariants |
| `Scenarios` | concrete runs with catalogue entries |

## Behaviour as the code has it

- **The threshold is not symmetric.** At a difference of exactly +15 or −15
  neither conflict flag is set, and the glow is green. The status label still
  falls through to "formalistic". The result verdict falls through to
  "relations over-engineered", even at +15, where the forces side is the
  heavier one. The model keeps all of this as written; see
  `ScaleVisual.GlowLabelMismatch` and `Scenarios.ExactlyFifteen`.
- **Remove deletes every match.** It deletes every placed copy whose id matches,
  not only the first one. Ids are the catalogue id plus the millisecond clock.
  So two drops of one entry in the same millisecond share an id, and one
  remove takes both away (`Pans.SameStampCollision`).
- **The app and the scale component compute different differences.** The app
  uses raw sums for its conflict flags and its verdict. The scale component
  floors each pan at 0 before it computes its own difference. With only q-3
  (weight −15) on the right, the app sees +15 and the component sees 0
  (`Scenarios.MicromanagementAlone`).
- **A malformed drag payload throws.** It is not silently ignored. The payload
  gate only skips an empty payload. A non-empty one that is not well-formed JSON
  throws before the app's handler runs. So neither case changes the state or restarts
  the countdown. A drop refused by the category gate does restart the
  countdown, because the restart comes before the gate.
- **The buffer is cleared only when both conflict flags are down.** The source
  clears it in an effect that runs when the flags change. The model clears it
  after every drop or remove that leaves both flags down. In reachable states
  the two agree, because a buffer with no flag set is already empty
  (`Simulation.RunInv`). A direct switch from one side's conflict to the other's
  keeps the buffer.
- **The beam tilts the other way from the comment beside it.** The comment at
  components/ScaleVisual.tsx:16-17 says a heavier left pan gives a negative
  rotation and sends the left pan down. The formula on line 18 gives a positive
  rotation instead (+16 degrees at a difference of 40). The pan shifts on lines
  65 and 85 follow the formula, so the left pan moves up. The heavier pan is
  drawn higher. `ScaleVisual.Rotation` models the formula as written; the
  commented direction is `ScaleVisual.RotationAsCommented` (see "Findings").

## Model

| member | source | states |
|---|---|---|
| `Pans.Diff` | App.tsx:20-23 | the raw difference is left sum minus right sum; `Pans.DropShiftsDiff` states how a drop moves it and `Pans.ReduceWeights` ties each sum to the `reduce` |
| `Pans.Accepts` | App.tsx:68-69 | the category gate: the left pan takes LLSX and the right pan QHSX; `Pans.Drop`, `Pans.DropShiftsDiff` and `Catalog.ForcesBelongLeft`/`Catalog.RelationsBelongRight` state what it lets through |
| `Pans.InstanceId` | App.tsx:72-74 | the id template `<catalogue id>-<clock>`; `Pans.InstanceIdInjective` states that two copies of one entry share an id iff they were stamped with the same clock value |
| `Pans.ReduceWeights` | App.tsx:20-21 | the left-to-right `reduce` over a pan computes exactly the recursive weight sum `Pans.Sum`, for every pan |
| `Pans.SumAppend` | App.tsx:20-23 | the weight of a concatenation is the sum of the weights of its parts |
| `Pans.Drop` | App.tsx:66-75 | a drop whose category does not match the pan leaves both pans unchanged; a matching one appends exactly one stamped copy at the end of that pan; the other pan never changes |
| `Pans.DropShiftsDiff` | App.tsx:66-75 | an accepted drop raises the raw difference by the item's weight on the left and lowers it on the right; a refused drop leaves it unchanged |
| `Pans.Placed` | App.tsx:72-74 | a placed copy carries the id `<catalogue id>-<clock>` and otherwise equals the dragged factor field for field |
| `Decimal.Show` | App.tsx:72-74 | the clock value written out in the id: at least one character, all decimal digits, and no leading zero unless it is the single digit 0; `Decimal.ParseShow` reads it back |
| `Decimal.ParseShow` | App.tsx:72 | reading back the decimal rendering of the clock value gives the clock value |
| `Decimal.ShowInjective` | App.tsx:72 | two clock values render to the same digits iff they are equal |
| `Pans.InstanceIdInjective` | App.tsx:72-74 | two copies of one catalogue entry get the same instance id iff they were stamped in the same millisecond |
| `Pans.RemoveId` | App.tsx:83-87 | the result holds exactly the elements whose id differs from the given one, none with that id, no more elements than before, and is the input itself when the id is absent |
| `Pans.RemoveIdAppend` | App.tsx:85-86 | removal distributes over concatenation, so survivors keep their relative order |
| `Pans.Remove` | App.tsx:83-87 | removal filters the chosen pan only; the other pan is untouched; an absent id changes nothing |
| `Pans.SameStampCollision` | App.tsx:66-87 | two accepted drops of one entry with the same clock value, followed by one remove of that id, restore the pans exactly |
| `Narrator.LeftConflict` | App.tsx:24 | the left flag is `diff > 15`, strictly; `Narrator.CalmBand` and `Narrator.PoolFor` state its consequences |
| `Narrator.RightConflict` | App.tsx:25 | the right flag is `diff < −15`, strictly; `Narrator.CalmBand` states that it is never set together with the left flag |
| `Narrator.InConflict` | App.tsx:50-52 | the narration runs while either flag is set; `Narrator.CalmBand` states that this fails exactly on −15 ≤ diff ≤ 15 |
| `Narrator.CalmBand` | App.tsx:24-25 | neither conflict flag is set exactly when −15 ≤ diff ≤ 15, and the two flags are never set together |
| `Narrator.PoolsDisjoint` | App.tsx:54-55 | no phrase belongs to both pools |
| `Narrator.PoolFor` | App.tsx:54-56 | the forces pool is drawn from iff diff > 15, otherwise the relations pool; both hold four phrases |
| `Narrator.Push` | App.tsx:58 | the new phrase becomes the head, followed by the older entries in order, and the length is capped at four |
| `Narrator.Narrate` | App.tsx:53-58 | after a narration firing the head lies in the forces pool iff diff > 15 and in the relations pool otherwise; the rest is the first at most three old entries; the length is between 1 and 4 |
| `Narrator.PushAllWindow` | App.tsx:58 | after any run of pushes the buffer is the newest phrases first, then the old buffer, cut to four |
| `Inactivity.Tick` | App.tsx:33-40 | a cleared interval never fires; a running one fires the popup iff it finds at most one second left, and then stops at 0; otherwise it loses exactly one second and keeps running; a non-negative clock never goes up or below 0 |
| `Inactivity.StoppedStaysStopped` | App.tsx:34-37 | once the interval is cleared, further firings change nothing and never raise the popup |
| `Inactivity.CountdownFrom` | App.tsx:32-41 | from k seconds left, n < k firings leave k − n with no expiry; k or more firings leave the clock stopped at 0 with exactly one expiry |
| `Inactivity.ExpiresAfterStart` | App.tsx:28-41 | after a restart, fewer than 20 firings leave 20 − n seconds and no expiry; 20 or more reach 0, stop the interval, and expire exactly once |
| `Verdict.ResultOf` | App.tsx:89-116 | stagnation iff both pans are empty, whatever the difference; otherwise ideal iff abs(diff) < 15, obsolete iff diff > 15, over-engineered iff diff ≤ −15 or diff = 15 |
| `ScaleVisual.Displayed` | components/ScaleVisual.tsx:12-13 | a displayed pan weight is never negative, is never below the raw sum, and is either the raw sum or 0 |
| `ScaleVisual.VisualDiff` | components/ScaleVisual.tsx:11-15 | the component's difference, from the floored pan weights; `ScaleVisual.VisualDiffAgrees` and `Scenarios.MicromanagementAlone` state when it agrees with the app's difference and when it does not |
| `ScaleVisual.VisualDiffAgrees` | components/ScaleVisual.tsx:12-15 | when neither raw pan sum is negative, the component's difference equals the app's difference |
| `ScaleVisual.Rotation` | components/ScaleVisual.tsx:18 | the rotation lies in [−25, 25], has the sign of diff, and equals diff · 0.4 whenever abs(diff) ≤ 62 |
| `ScaleVisual.RotationMonotone` | components/ScaleVisual.tsx:18 | the rotation never decreases as diff grows |
| `ScaleVisual.RotationSaturates` | components/ScaleVisual.tsx:18 | the rotation is pinned at 25 iff diff ≥ 63, and at −25 iff diff ≤ −63 |
| `ScaleVisual.PanShift` | components/ScaleVisual.tsx:65-85 | the left pan moves down iff the rotation is negative, the right pan iff it is positive, and neither moves iff the rotation is 0 |
| `ScaleVisual.HeavierPanDrawnHigher` | components/ScaleVisual.tsx:16-18 | as written, a heavier left pan gives a positive rotation that moves the left pan up and the right pan down, and vice versa for a heavier right pan; a difference of 40 gives +16 degrees |
| `ScaleVisual.RotationAsCommented` | components/ScaleVisual.tsx:16-18 | the commented rotation stays within ±25, is negative when the left pan is heavier and positive when the right pan is, and is the as-written rotation with its sign turned |
| `ScaleVisual.HeavierPanDrawnLowerAsCommented` | components/ScaleVisual.tsx:16-18 | with the commented rotation the heavier pan is the one that moves down; a difference of 40 gives −16 degrees |
| `ScaleVisual.StatusOf` | components/ScaleVisual.tsx:34-38 | optimal iff abs(diff) < 15; lagging iff diff > 15; formalistic iff diff ≤ −15 or diff = 15 |
| `ScaleVisual.GlowOf` | components/ScaleVisual.tsx:45-47 | the glow is red iff diff > 15, yellow iff diff < −15, and green iff −15 ≤ diff ≤ 15 |
| `ScaleVisual.GlowLabelMismatch` | components/ScaleVisual.tsx:34-47 | the glow differs from the label's colour iff abs(diff) = 15; there the glow is green and the label says formalistic |
| `ScaleVisual.HandleDrop` | components/ScaleVisual.tsx:25-31 | an empty payload is ignored and never reaches the app; a payload is delivered iff it is non-empty and decodes; it is delivered decoded, to the pan it was dropped on |
| `Simulation.Settle` | App.tsx:61-62 | with both flags down the buffer is emptied; `Simulation.DropStep`, `Simulation.RemoveStep` and `Simulation.SideSwitchKeepsBuffer` state its effect on a drop or remove |
| `Simulation.Step` | App.tsx:28-287 | a drop, remove, reset, result close or info open restarts the countdown at 20; an info close leaves it alone; only drop, remove and reset move the pans; a countdown firing leaves the buffer alone; a narration firing with no flag set changes nothing |
| `Simulation.Deliver` | components/ScaleVisual.tsx:25-31 | a payload that is not delivered leaves the whole state unchanged, timer included; a delivered one restarts the countdown |
| `Simulation.DropStep` | App.tsx:66-75 | a drop restarts the countdown even when refused; a refused drop leaves both pans; an accepted one appends one stamped copy; the other pan is untouched; the buffer is kept iff a conflict flag is set afterwards |
| `Simulation.RemoveStep` | App.tsx:83-87 | a remove restarts the countdown; it filters only the chosen pan; an absent id leaves both pans; the buffer is kept iff a conflict flag is set afterwards |
| `Simulation.ResetStep` | App.tsx:287 | the reset button empties both pans and the buffer, brings the difference to 0, and restarts the countdown; popups are untouched |
| `Simulation.PopupSteps` | App.tsx:182-279 | closing the result popup and opening an info popup restart the countdown; closing an info popup does not touch it |
| `Simulation.NarrateStep` | App.tsx:51-64 | a narration firing while a flag is set prepends a forces phrase iff diff > 15 and a relations phrase iff diff < −15, keeps at most three older phrases, and touches nothing else |
| `Simulation.SideSwitchKeepsBuffer` | App.tsx:51-64 | a drop or remove that swings the scale straight from one side's conflict to the other's keeps the buffer |
| `Simulation.TicksTouchTimerOnly` | App.tsx:32-41 | countdown firings change only the timer and raise the result flag iff some firing expires; they never lower it |
| `Simulation.IdleRun` | App.tsx:28-64 | over any run of events none of which is a user action (countdown firings, narration firings, information popup closes, in any order), the timer is where its own firings alone take it, the result flag is raised iff one of them expires, and the pans do not move |
| `Simulation.ResultAfterTwentyIdleFirings` | App.tsx:28-64 | after any action taken with the result popup closed, or the action that closes it, followed by any idle run, the result popup is up iff the run holds at least 20 countdown firings; the clock then rests stopped at 0, having expired exactly once, and the pans are as the action left them |
| `Simulation.ResultAfterTwentyIdleSeconds` | App.tsx:28-42 | the case of an idle run made of countdown firings only: after such an action and n firings the result popup is up iff n ≥ 20; the clock then rests stopped at 0, having expired exactly once |
| `Simulation.InitInv` | App.tsx:9-15 | the mounted screen satisfies the reachable-state invariant |
| `Simulation.StepInv` | App.tsx:28-64 | every event preserves the invariant: the buffer holds at most four pool phrases and is empty when no flag is set; the countdown is in [0, 20]; it is stopped iff at 0; it is stopped only with the result popup up |
| `Simulation.RunInv` | App.tsx:28-64 | every sequence of events from an invariant state keeps the invariant |
| `Simulation.ResultOf` | App.tsx:89-118 | the verdict read off the state, from the pan lengths and the raw difference; `Verdict.ResultOf` characterises it and `Simulation.VerdictMatchesStatus` relates it to the label |
| `Simulation.VerdictMatchesStatus` | App.tsx:89-116 | with something on the scale and no pan summing below zero, the verdict is ideal / obsolete / over-engineered iff the label is optimal / lagging / formalistic |
| `Catalog.ForcesBelongLeft` | constants.tsx:4-13 | the eight forces entries are all LLSX: accepted on the left, refused on the right |
| `Catalog.RelationsBelongRight` | constants.tsx:15-24 | the eight relations entries are all QHSX: accepted on the right, refused on the left |
| `Catalog.IdsDistinct` | constants.tsx:5-23 | the sixteen catalogue ids are pairwise distinct |
| `Catalog.WeightSigns` | constants.tsx:5-23 | every forces weight is positive; every relations weight is positive except q-3, which is −15 |
| `Catalog.FactIds` | constants.tsx:26-30 | there are three facts, with ids 1, 2, 3 in order |
| `Scenarios.EmptyScaleStagnates` | App.tsx:90-96 | the mounted screen's verdict is stagnation |
| `Scenarios.SeniorArchitectAlone` | constants.tsx:6 | l-2 alone on the left gives diff 40, the left conflict flag, the lagging label and the obsolete verdict |
| `Scenarios.IeltsAgainstAgile` | constants.tsx:10-19 | l-6 left and q-4 right give diff −5, the optimal label and the ideal verdict |
| `Scenarios.ExactlyFifteen` | constants.tsx:9 | l-5 alone gives diff 15: no flag, empty buffer, green glow, yet the formalistic label and the over-engineered verdict |
| `Scenarios.MicromanagementAlone` | constants.tsx:18 | q-3 alone gives app diff 15 but component diff 0: the optimal label beside the over-engineered verdict |
| `Scenarios.WrongPanRefused` | App.tsx:66-69 | l-2 dropped on the right leaves the pans unchanged but restarts the countdown at 20 |
| `Scenarios.DirectSwitchKeepsPhrases` | App.tsx:51-64 | a left conflict with two buffered phrases, swung to diff −25 by q-2, keeps both phrases |

## Left out

- Rendering is left out because it is presentation: JSX, CSS classes, animation
  styles, the `Tooltip` component, the colour of the floating text, and the
  wording of the four verdicts (titles, descriptions, advice). The verdict is
  modelled as an enumeration.
- Timer scheduling is not modelled. This covers `setInterval`/`clearInterval`,
  the 1000 ms and 1500 ms periods, effect cleanup on unmount, and the restart of
  the narration interval when the flags change. Each firing is an explicit
  `Tick` or `NarrateTick` event. A `NarrateTick` has an effect only while a
  conflict flag is set, which is when the interval exists.
- `Math.random` is replaced by the pool index carried by `NarrateTick`. That
  index must be below the pool size of 4.
- `Date.now()` is replaced by the `stamp` carried by `Drop`.
- `JSON.stringify` in `handleDragStart` (App.tsx:78-81) and `JSON.parse` are
  foreign serialisers. Decoding is the `decode` parameter of
  `ScaleVisual.HandleDrop`. A decode failure, malformed JSON, is the
  `ParseFailure` outcome, which stands for the thrown exception.
- Floating point is not modelled. Weights are integers; every catalogue weight
  is an integer. `ScaleVisual.Rotation` uses exact reals, so `diff * 0.4` carries no
  rounding error.
- Simulation.Step: does not model what the popup overlays block. The result
  popup (App.tsx:228) and the information popups (App.tsx:259, 272) are
  full-page layers that stop pointer input, so drops and clicks do not reach
  the page behind them. They do not make that page inert or trap focus, so the
  remove buttons (App.tsx:160, 165), the info buttons (App.tsx:182, 204) and
  the reset button (App.tsx:287) can still be fired from the keyboard. The
  model accepts every event in every state, which covers both routes. Which
  input reaches which element is a matter of layout and focus, which the model
  leaves out.
- Drag payloads are assumed to be either a complete factor or malformed JSON.
  Only the palette's drag start writes the `factor` payload. Well-formed JSON
  that is not a factor (`null`, `{}`) would pass `JSON.parse` and reach the
  app's drop handler, which restarts the countdown and then either throws or
  refuses the item on both pans. The `decode` parameter, which yields a factor
  or nothing, cannot express that case.
- The screen direction of the beam tilt is not modelled. That a CSS `rotate`
  with a positive angle turns the beam clockwise, lifting its left end, is a
  property of the browser. The model states only the sign of the rotation and
  of the pan shifts.
- `types.ts` is mirrored as datatypes in `Types`. It has no behaviour of its
  own.

## Findings

| source | as written | input that shows it | evidently intended | confidence | as-written member | corrected member |
|---|---|---|---|---|---|---|
| components/ScaleVisual.tsx:16-18 | the rotation is `diff * 0.4`, clamped, so it is positive when the left pan is heavier, and the left pan shifts up | left sum 40, right sum 0: rotation +16 degrees, left pan shifted −32 px | the comment: a heavier left pan rotates the beam negatively and goes down | medium, not executed | `ScaleVisual.HeavierPanDrawnHigher` | `ScaleVisual.RotationAsCommented` |
