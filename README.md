# Wheel-of-names widget: a Dafny model

This project models the one component with behaviour in a browser "random
wheel": `MainContent` (in `src/components/MainContent.tsx`). Users keep a
registry of named participants, each with a palette colour. They spin a wheel
that picks one participant at random. The wheel turns so that the pointer at
the top lands on the winner's segment. When the animation ends, the winner is
announced and prepended to a most-recent-first history.

The model has two parts.

- **State machine (imperative).** The class `MainContentState.MainContent`
  holds the five pieces of component state: `participants`, `history`,
  `isSpinning`, `rotation` and `winner`. A sixth field, `pending`, stands for
  the `setTimeout` callback scheduled by a spin. It holds what that closure
  captured: the winner record and the history as it was when the spin started.
  A spin is split into two transitions. `Spin(u)` is the button handler, with
  `u` the value `Math.random()` returned. `Settle()` is the timer firing. The
  captured values keep the closure's stale-snapshot behaviour. A history clear
  made during a spin is undone on settle. A winner removed during a spin is
  still announced.
- **Pure derivations.** The registry operations (`Registry`) are `trim`, add
  and `filter`-by-position. The spin arithmetic (`Spin`) is the winner index
  and the rotation target. The wheel layout (`Wheel`) covers segment count,
  placeholders, start/end/mid angles, the large-arc flag and label truncation.
  JavaScript's `%` and angle reduction are in `Degrees`.
  `Landing` proves that, with two or more participants, the rotation target
  puts the bisector of the winner's drawn segment exactly under the pointer
  at 270°.

Angles and rotations are exact `real`s. JavaScript's `rotation % 360` is
modelled as the truncating remainder (`Degrees.JsRem360`). The model proves
that the rotation never becomes negative, where this remainder equals the
floored one.

Some expectations one might hold of the widget are not met by the code; the
model follows the code and proves what does hold:

- A spin need not add eight full turns: `targetAngle` can be negative and
  `rotation % 360` is subtracted. `Spin.AdvanceCanBeBelowEightTurns` shows a
  spin from 0 with four participants that advances only 2835°.
  `Spin.NewRotation` and `Spin.RotationAdvances` prove the bounds that do hold:
  strictly between 2430° and 3150°.
- The truncation marker is three ASCII dots, not an ellipsis character, so a
  truncated label has length 12.
- Adding a name and then removing entry 0 returns the registry to its previous
  length for every registry, but leaves the new name absent only when the
  registry was empty: otherwise entry 0 is an older participant and the new
  name stays, at the end (`Registry.AddThenRemoveFirst`). Removing the entry
  just added, at the old length, restores the registry exactly
  (`Registry.RemoveUndoesAdd`).

Two more behaviours of the code are modelled as they are. Registry edits are
allowed while the wheel turns; only the spin button is disabled. So after a
removal mid-spin, the pointer can stop over another participant's segment
while the captured winner is announced; `Landing.RemovalDuringSpinMovesPointer`
exhibits one such case. With a single participant, the wheel draws eight
blank placeholders, so the landing theorem is stated for two or more
participants only.

## Model

| member | source | states |
|---|---|---|
| `Palette.ColorAt` | src/components/MainContent.tsx:129 | positions below 20 get the palette colour with that index |
| `Palette.ColorAtPeriodic` | src/components/MainContent.tsx:129 | colours repeat every 20 positions (`% WHEEL_COLORS.length`) |
| `Registry.TrimStart` | src/components/MainContent.tsx:128 | the result is a suffix of the name, everything dropped is whitespace, and it does not start with whitespace |
| `Registry.TrimEnd` | src/components/MainContent.tsx:128 | the result is a prefix of the name, everything dropped is whitespace, and it does not end with whitespace |
| `Registry.Trim` | src/components/MainContent.tsx:128 | `trim()` returns a string no longer than the name that neither starts nor ends with whitespace |
| `Registry.TrimKeepsMiddle` | src/components/MainContent.tsx:128 | `trim()` returns the part of the name between a whitespace-only prefix and a whitespace-only suffix: only leading and trailing whitespace is removed |
| `Registry.TrimEmptyIffBlank` | src/components/MainContent.tsx:128 | `name.trim()` is empty (falsy) exactly when every character of the name is JavaScript whitespace |
| `Registry.Added` | src/components/MainContent.tsx:127-133 | a blank name leaves the registry unchanged; any other name is appended untrimmed, exactly once, with colour `WHEEL_COLORS[oldLength % 20]`, and every earlier entry is kept |
| `Registry.Without` | src/components/MainContent.tsx:136 | removal by position shortens the registry by one for an in-range index and keeps its length otherwise |
| `Registry.WithoutDeletes` | src/components/MainContent.tsx:135-137 | for `0 <= i < n` the result is the registry with entry `i` deleted and the order kept; an out-of-range index leaves it unchanged |
| `Registry.RemainingEntriesUnchanged` | src/components/MainContent.tsx:135-137 | every surviving entry is the old entry before or after the removed position, so no colour is reassigned |
| `Registry.AddThenRemoveFirst` | src/components/MainContent.tsx:127-137 | adding a name and removing entry 0 restores the registry's length; the added entry survives unless the registry was empty |
| `Registry.RemoveUndoesAdd` | src/components/MainContent.tsx:127-137 | removing the entry at the old length restores the previous registry, whether the add was accepted or ignored as blank |
| `Spin.WinnerIndex` | src/components/MainContent.tsx:207 | `Math.floor(Math.random() * n)` is a valid index in `[0, n)` |
| `Spin.WinnerIndexPreimage` | src/components/MainContent.tsx:207 | index `k` is drawn exactly when the random value lies in `[k/n, (k+1)/n)`, an interval of width `1/n` for every participant |
| `Spin.SliceAngle` | src/components/MainContent.tsx:209 | the slice angle is positive and `n` slices make one full turn |
| `Spin.SliceMiddle` | src/components/MainContent.tsx:211 | the winner's slice middle is equidistant from the slice's two edges `idx * slice` and `(idx + 1) * slice`, and lies strictly inside one turn |
| `Spin.TargetAngle` | src/components/MainContent.tsx:211 | the target angle plus the slice middle is the pointer angle 270, and the target lies in (-90, 270) |
| `Spin.NewRotation` | src/components/MainContent.tsx:213 | from a non-negative rotation the new rotation is larger by more than 2430 and less than 3150 degrees; `RotationAdvances` and `Landing.PointerLandsOnWinner` state where it stops |
| `Spin.RotationAdvances` | src/components/MainContent.tsx:209-215 | from a non-negative rotation the new rotation is larger by more than 2430 and less than 3150 degrees, and equals the target angle up to whole turns |
| `Spin.AdvanceCanBeBelowEightTurns` | src/components/MainContent.tsx:213 | from rotation 0 with four participants and index 3 the new rotation is 2835, less than eight turns |
| `Degrees.Mod360` | src/components/MainContent.tsx:213 | an angle reduced to one turn lies in `[0, 360)` and differs from the angle by whole turns |
| `Degrees.JsRem360` | src/components/MainContent.tsx:213 | JavaScript's `% 360` keeps the sign of its operand, lies within one turn of zero and differs from the operand by whole turns |
| `Degrees.JsRemIsMod360OnNonNegative` | src/components/MainContent.tsx:213 | on a non-negative rotation JavaScript's `%` equals the floored reduction |
| `Wheel.SegmentCount` | src/components/MainContent.tsx:20 | the wheel always draws at least two segments: one per participant exactly when there are more than one, and 8 otherwise |
| `Wheel.Segments` | src/components/MainContent.tsx:20-21 | with more than one participant the segments are the registry itself; otherwise there are exactly 8 of them, placeholders with name `''` and colour `WHEEL_COLORS[i]` (the index `i % 20` of the source, with `i < 8`) |
| `Wheel.SegmentAngle` | src/components/MainContent.tsx:22 | the segment angle is positive and `count` segments make one full turn |
| `Wheel.StartAngle` | src/components/MainContent.tsx:35 | the first segment starts at 0 and no segment starts below 0 |
| `Wheel.EndAngle` | src/components/MainContent.tsx:36 | a segment ends one segment angle after its start, exactly where the next segment starts |
| `Wheel.MidAngle` | src/components/MainContent.tsx:47 | the label's bisector is equidistant from the segment's start and end, strictly between them |
| `Wheel.LargeArcFlag` | src/components/MainContent.tsx:37 | the flag is 0 or 1, and always 0 once the wheel has two segments or more |
| `Wheel.Label` | src/components/MainContent.tsx:66 | a name of at most 10 characters is shown unchanged; a longer one becomes its first 9 characters plus `...`, of length 12 |
| `Wheel.SegmentGeometry` | src/components/MainContent.tsx:35-47 | each segment spans `360/count`, its bisector lies strictly between its start and end, it stays within `[0, 360]`, and with at least two segments the large-arc flag is 0 |
| `Wheel.CircleClosed` | src/components/MainContent.tsx:22-36 | the first segment starts at 0 and the last ends at 360 |
| `Wheel.SegmentUnder` | src/components/MainContent.tsx:35-36 | every angle of one turn lies in some segment `[start, end)` |
| `Wheel.SegmentUnderUnique` | src/components/MainContent.tsx:35-36 | no angle lies in two segments: the segments do not overlap |
| `Wheel.View` | src/components/MainContent.tsx:34-66 | one segment's view carries its entry's colour and truncated label, spans one segment angle with the bisector inside, and has no large arc on a wheel of two segments or more |
| `Wheel.Render` | src/components/MainContent.tsx:20-70 | the wheel draws one view per segment |
| `Wheel.RenderTilesCircle` | src/components/MainContent.tsx:20-66 | each drawn segment has its entry's colour and truncated label; the segments lie edge to edge from 0 to 360; every bisector is inside its segment; no segment uses the large-arc flag |
| `Landing.UnderPointer` | src/components/MainContent.tsx:29 | the wheel angle under the pointer, once turned by the rotation, reaches 270 modulo 360 |
| `Landing.SliceIsSegment` | src/components/MainContent.tsx:209-211 | with two or more participants the spin's slice and slice middle are the drawn segment's angle and bisector |
| `Landing.PointerLandsOnWinner` | src/components/MainContent.tsx:209-215 | with two or more participants the winner's bisector plus the new rotation is 270 modulo 360, and the segment under the pointer is the winner's |
| `Landing.RemovalDuringSpinMovesPointer` | src/components/MainContent.tsx:202-221 | with the four initial players, a spin from rotation 0 that picks `player1`, followed by removing `player1`, stops with the pointer over `player2`'s segment while `player1` is the captured winner |
| `MainContentState.InitialParticipants` | src/components/MainContent.tsx:191-196 | the widget starts with four participants coloured with the first four palette colours |
| `MainContentState.MainContent.constructor` | src/components/MainContent.tsx:191-200 | initial state: four players, empty history, not spinning, rotation 0, no winner, no pending callback |
| `MainContentState.MainContent.Add` | src/components/MainContent.tsx:127-133 | the registry becomes `Added(old registry, name)` and nothing else changes |
| `MainContentState.MainContent.Remove` | src/components/MainContent.tsx:135-137 | the registry becomes `Without(old registry, index)` and nothing else changes |
| `MainContentState.MainContent.ClearHistory` | src/components/MainContent.tsx:178 | the history becomes empty and nothing else changes |
| `MainContentState.MainContent.Spin` | src/components/MainContent.tsx:202-216 | ignored while spinning or with no participants; otherwise clears the winner, starts spinning, raises the rotation to the target and captures the winner and current history for the callback, keeping the rotation non-negative |
| `MainContentState.MainContent.Settle` | src/components/MainContent.tsx:217-221 | stops spinning, announces the captured winner and sets the history to the winner's name before the captured history |
| `MainContentState.ClearDuringSpinIsUndone` | src/components/MainContent.tsx:217-221 | a clear made during a spin is undone: after settling the history is the winner before the history from spin time |
| `MainContentState.RemovalDuringSpinKeepsWinner` | src/components/MainContent.tsx:207-219 | removing the winner's entry during a spin does not change who is announced |
| `MainContentState.ThreeRounds` | src/components/MainContent.tsx:220 | three completed spins with winners A, B, C put C, B, A in front of the history |
| `MainContentState.SpinWhileSpinningIgnored` | src/components/MainContent.tsx:203 | a spin requested during a spin changes no state |

## Left out

- `src/components/Header.tsx`, `src/components/Footer.tsx`, `src/app/page.tsx`: static presentation; the sound and animation toggles and the language selector do nothing.
- SVG path strings and the `Math.cos`/`Math.sin` coordinates of segment edges and labels (lines 39-44, 48-50): floating-point trigonometry with no contract beyond the angles, which are modelled.
- Floating point: angles and rotations are exact reals, so rounding of `360 / n` and of the accumulated rotation is not modelled.
- The distribution of `Math.random()`: the drawn value is a parameter in `[0, 1)`; `Spin.WinnerIndexPreimage` states the equal-width preimages, not a statistical claim.
- `setTimeout` timing and the 10-second CSS transition: the callback firing is the separate transition `Settle`, and teardown of the component is not modelled.
- React rendering, the active tab, the text-input buffer (the name is passed to `Add` directly), the "Round #" text and the winner banner condition.
- `Wheel.Label`: counts Unicode code points, while JavaScript's `length` and `substring` count UTF-16 code units, so names with characters outside the Basic Multilingual Plane are truncated at a different place.
- `Registry.Without`: JavaScript compares positions with `!==` on numbers; the index is modelled as an integer, so fractional or non-numeric indices are not modelled.
