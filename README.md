# Screen-time scrollytelling page: a Dafny model of its core

The page (`app.js` of the gaze repository) asks for a daily screen-time value on a
circular dial, or in a numeric fallback field, and for the reader's age. From
these it derives weekly, monthly and yearly totals, opportunity costs (books,
languages, Camino walks), an 80-year grid of weeks, a silhouette of the screen
years left in a life, and a "reclaim" slider that shows how much of those years
a smaller daily figure would give back. As the reader scrolls, steps become active.
Each active step tweens a big counter, and every step except the opportunity
step starts a one-shot animation.

This project models the deterministic core of that page:

- `numerics.dfy` (`Numerics`): `Math.round`, `Math.floor` and the min/max clamp, on exact reals.
- `dial.dfy` (`Dial`): `state.hours` is held as a count of half-hours (`Halves`, 0..32).
  It covers quantisation of the dial fraction (angle / 2π), the fallback field,
  the count of lit tick marks and the fill fraction shared by every fill on the page.
- `stats.dfy` (`Stats`): the time breakdown of `updateAllStats` and the
  opportunity costs of `updateOpportunityCosts`, with their rounding rules and
  singular/plural labels.
- `life_grid.dfy` (`LifeGrid`): the classification loop of `generateLifeGrid`
  and its counting laws. The grid always spans 80 years (`GridYears`). Ages are
  validated against the separate life expectancy of 77 (`AppState.LifeExpectancy`).
- `reclaim.dfy` (`Reclaim`): the silhouette and reclaim arithmetic. It is guarded
  on `state.yearsLeft` being truthy.
- `app_state.dfy` (`AppState`): the shared `state` record and the handlers that
  write it. This is a class `App` whose methods update its fields and the tick and
  calendar arrays.
- `scrollytelling.dfy` (`Scrollytelling`): the step state machine (`currentStep`,
  `activateStep`, `deactivateStep`), the counter's target and snap, and the
  animation each step triggers. It is specified by the functions `Activate` and
  `Deactivate` on a `Stage` value, and implemented by the class `Steps`.

Exact real arithmetic stands in for IEEE doubles throughout. The `Stats`
figures shown with one decimal are held in tenths. The silhouette and reclaimed
years stay exact reals; their `toFixed(1)` formatting is not modelled.

One behaviour of the step machine is proved as written, not corrected.
`deactivateStep` only removes the step's class and leaves `currentStep`
unchanged. So scrolling back into the step just left, with no other step entered
in between, is skipped by the re-entry guard. The step's text then stays
inactive (`ReentryAfterLeaveStaysInactive`).

## Model

| member | source | states |
|---|---|---|
| `Numerics.Round` | app.js:82 | `Math.round`: the result lies in (x − ½, x + ½], so ties round up |
| `Numerics.Floor` | app.js:281-287 | `Math.floor`: the largest integer not above x |
| `Numerics.Clamp` | app.js:81 | `Math.min(hi, Math.max(lo, x))` lies in [lo, hi], is x inside the range and the nearer bound outside it |
| `Dial.QuantizeFraction` | app.js:79-82 | the stored hours are within ¼ h of the clamped value (nearest half hour, ties up) and always lie in [0, 16] on the 0.5 grid |
| `Dial.FallbackFraction` | app.js:185-187 | the fraction handed to updateClock lies in [0, 1]; what it stores is stated by `Dial.FallbackRoundsClamped` |
| `Dial.FallbackRoundsClamped` | app.js:184-189 | a fallback entry v stores round-to-half(clamp(v, 0, 16)); an empty or NaN entry stores 0 |
| `Dial.QuantizeIsStable` | app.js:99-103 | re-entering a stored value, through the dial at its own angle or through the fallback field, stores the same value (no drift) |
| `Dial.QuantizeMonotone` | app.js:81-82 | a larger dial fraction never stores fewer hours |
| `Dial.ActiveTickCount` | app.js:216-218 | the number of lit ticks is the number of whole hours: 2n ≤ half-hours < 2n + 2 |
| `Dial.FillFraction` | app.js:338 | hours / wakingHours lies in [0, 1] and equals half-hours / 32 |
| `Stats.TimeBreakdown` | app.js:240-252 | the monthly figure never exceeds the yearly one and none of the seven figures is negative; each figure is pinned by `Stats.BreakdownRounding` |
| `Stats.BreakdownRounding` | app.js:239-255 | weekly = 7·h and monthly = 30·h exactly; yearly is 365·h rounded half up; the day and month figures are within half a display unit of the exact quotients |
| `Stats.BreakdownMonotone` | app.js:240-252 | every breakdown figure is non-decreasing in the daily hours |
| `Stats.BreakdownAtEightHours` | app.js:240-252 | at 8 h: 56 weekly, 240 monthly (10.0 days), 2920 yearly (122 days, 4.1 months) |
| `Stats.OpportunityCosts` | app.js:277-287 | never more Camino walks than books, nothing negative; the exact figures are stated by `Stats.OpportunityBounds` |
| `Stats.OpportunityBounds` | app.js:277-287 | books = ⌊365·h / 6⌋, camino = ⌊365·h / 200⌋, languages = 365·h / 600 to the nearest tenth |
| `Stats.OpportunityMonotone` | app.js:277-287 | books, languages and Camino walks are non-decreasing in the daily hours |
| `Stats.BookLabel` | app.js:295-297 | the label is "book" exactly when the count is 1, else "books" |
| `Stats.LanguageLabel` | app.js:298-300 | the label is "language" exactly when the shown figure is 1.0, else "languages" |
| `Stats.LabelsAlwaysPlural` | app.js:281-299 | for every storable value both labels are plural: the book count goes from 0 straight to 30 at half an hour, and the language figure goes from 0.9 at 1.5 h to 1.2 at 2 h, skipping 1.0 |
| `LifeGrid.AgeInWeeks` | app.js:606 | the lived weeks are never negative and, for ages within the grid's 80 years, fit in the 4160 weeks |
| `LifeGrid.RemainingWeeks` | app.js:607 | the weeks after the lived ones are at most 4160 and, for ages within 80 years, never negative |
| `LifeGrid.ScrollWeeks` | app.js:605-611 | the scroll weeks are within half a week of remaining × fill, and for ages within the grid's 80 years lie in [0, remaining] |
| `LifeGrid.Classify` | app.js:626-636 | week i is lived exactly when i < 52·age; the scroll and free ranges are stated by `LifeGrid.ClassifyIsPartition` |
| `LifeGrid.ClassifyIsPartition` | app.js:626-636 | week i is lived iff i < 52·age; it is scroll iff it is among the last ScrollWeeks indices; otherwise it is free |
| `LifeGrid.Grid` | app.js:618-638 | the grid the loop builds, as a value: 4160 weeks, week i classified by `LifeGrid.Classify`; its counts are stated by `LifeGrid.GridCounts` |
| `LifeGrid.GenerateLifeGrid` | app.js:600-639 | the loop yields 4160 weeks, week i classified as the loop body decides |
| `LifeGrid.CountAppend` | app.js:618-638 | class counts add over concatenation |
| `LifeGrid.GridCounts` | app.js:605-636 | lived = 52·age, scroll = ScrollWeeks, free = remaining − ScrollWeeks, and together they are the 4160 weeks |
| `LifeGrid.GridAtThirtyEightHours` | app.js:605-636 | age 30 at 8 h: 1560 lived, 2600 remaining, 1300 scroll at the end, 1300 free between |
| `Reclaim.Applicable` | app.js:740 | the `!state.yearsLeft` guard: a null or zero yearsLeft is falsy and stops the update, any other number lets it run |
| `Reclaim.SilhouetteYears` | app.js:716-720 | the screen years are yearsLeft × hours / 16, and exist only when yearsLeft is truthy |
| `Reclaim.ReclaimDisplay` | app.js:739-775 | a view is computed exactly when yearsLeft is truthy; its contents are stated by `Reclaim.ReclaimMeaning` and `Reclaim.ReclaimEndpoints` |
| `Reclaim.ReclaimMeaning` | app.js:746-775 | reclaimed = yearsLeft·(h − slider)/16; the reclaimed fill depends only on h − slider; the overlay is visible iff slider < h |
| `Reclaim.ReclaimEndpoints` | app.js:747-752 | slider = h reclaims 0 and hides the overlay; slider = 0 reclaims all the silhouette's screen years |
| `Reclaim.ReclaimNeedsYearsLeft` | app.js:740 | with yearsLeft absent or zero nothing is computed |
| `Scrollytelling.CounterValue` | app.js:434-458 | the counter target is never negative; `Scrollytelling.CounterMatchesBreakdown` ties each of the five named targets to the breakdown and gives an unknown step the daily hours (the switch's default) |
| `Scrollytelling.CounterDisplay` | app.js:470-478 | the shown value is within ¼ of the tweened value for daily and weekly and within ½ otherwise, and it lies on the step's snap grid (a multiple of ½, or a whole number): together, the nearest half or the nearest whole |
| `Scrollytelling.CounterSnap` | app.js:460-463 | the snap is 0.5 exactly for daily and weekly, 1 otherwise |
| `Scrollytelling.CounterMatchesBreakdown` | app.js:434-458 | the counter targets are h, 7h, round(30h), round(365h), round(365h): the breakdown's figures; any other step name targets the daily hours |
| `Scrollytelling.CounterOnSnapGrid` | app.js:460-480 | for the five named steps the target lies on its snap grid and is shown unchanged at the end of the tween |
| `Scrollytelling.AnimationOf` | app.js:485-503 | daily starts the scrolly clock, weekly the week clocks, monthly the calendar fill, yearly the year bar; opportunity and unknown steps start none |
| `Scrollytelling.FirstViz` | app.js:409-413 | the visualisation activated is the first one with the step's name, and none when no visualisation has that name |
| `Scrollytelling.Activate` | app.js:397-420 | the entered step is current afterwards, and at most one counter tween and one trigger are added; the two cases are `Scrollytelling.ReentryIsNoop` and `Scrollytelling.ActivateNewStep` |
| `Scrollytelling.Deactivate` | app.js:422-424 | the step's own class is cleared; the rest is stated by `Scrollytelling.DeactivateKeepsCurrent` |
| `Scrollytelling.ReentryIsNoop` | app.js:400-401 | activating the current step changes nothing: no class, no counter tween, no trigger |
| `Scrollytelling.ActivateNewStep` | app.js:402-419 | otherwise the step becomes current and is the only active step; visualisation j is active iff it carries the step's name and no earlier one does (the first match); exactly one counter tween and one trigger are added |
| `Scrollytelling.DeactivateKeepsCurrent` | app.js:422-424 | deactivation clears only that step's class; currentStep, the visualisations and the logs are unchanged |
| `Scrollytelling.ReentryAfterLeaveStaysInactive` | app.js:390-424 | activate, leave, then re-enter the same step: the re-entry is skipped and the step stays inactive |
| `Scrollytelling.Steps.constructor` | app.js:378-383 | currentStep starts null with nothing fired |
| `Scrollytelling.Steps.ActivateStep` | app.js:397-420 | the new step state is `Activate` of the old one |
| `Scrollytelling.Steps.ClearActive` | app.js:405 | after the forEach every element has lost `active` |
| `Scrollytelling.Steps.DeactivateStep` | app.js:422-424 | the new step state is `Deactivate` of the old one |
| `AppState.AcceptedAge` | app.js:569-570 | an age reading is accepted iff it is a number with 0 < age < 77 |
| `AppState.AgeSubmissionExamples` | app.js:570 | 0, 77, 80 and NaN are refused; 40 is accepted (the years left, 77 − age, are stated by `AppState.App.SubmitAge`) |
| `AppState.App.constructor` | app.js:1-8 | hours 0, no age, ticks cleared, the 30 calendar days unfilled (the calendar is built after the first updateClock) |
| `AppState.App.UpdateTickMarks` | app.js:216-227 | tick i is active iff i < floor(hours) |
| `AppState.App.UpdateCalendar` | app.js:335-344 | every day is filled with 100 × the fill fraction |
| `AppState.App.UpdateReclaimDisplay` | app.js:739-776 | with yearsLeft set, the reclaim view is recomputed from the slider; otherwise nothing changes |
| `AppState.App.UpdateSilhouette` | app.js:716-727 | with yearsLeft set, the slider returns to the stored hours, nothing is reclaimed and the overlay is hidden |
| `AppState.App.UpdateClock` | app.js:79-110 | stores the quantised hours, refreshes ticks and calendar, and resets the silhouette once an age is known |
| `AppState.App.PointerDown` | app.js:112-117 | starts a drag and updates the dial at once; without an age the slider, silhouette and reclaim view are kept, and age, prompt, grid and sections never change |
| `AppState.App.PointerMove` | app.js:119-132 | moves the dial only while dragging; otherwise nothing changes; without an age the slider, silhouette and reclaim view are kept, and age, drag flag, prompt, grid and sections never change |
| `AppState.App.PointerUp` | app.js:148-156 | ends the drag; the scroll prompt is shown once the hours are positive |
| `AppState.App.FallbackInput` | app.js:184-189 | stores round-to-half(clamp(v, 0, 16)), or 0 for an unreadable entry, then acts as updateClock; age, drag flag, prompt, grid and sections are unchanged, and without an age so are the slider, silhouette and reclaim view |
| `AppState.App.SliderInput` | app.js:733-737 | sets the slider and recomputes the reclaim view when yearsLeft is set; every other field is unchanged |
| `AppState.App.SubmitAge` | app.js:568-592 | an accepted age sets age and yearsLeft = 77 − age, builds the grid from the current hours and shows the sections; any other reading changes nothing |
| `AppState.App.InitSilhouetteAnimation` | app.js:693-696 | its state effect is one updateSilhouette: the silhouette reset once an age is known, otherwise slider, silhouette and reclaim view kept; every other field is unchanged |

## Left out

- Rendering: DOM text, `innerHTML`, `toLocaleString`/`toFixed` formatting and the counter's unit strings. These are presentation only. The `active`/`visible`/`filled` classes are kept as booleans.
- Animation: GSAP tweens and ScrollTrigger. This covers the counter's intermediate values (the model keeps the target and the snap), the mini-clock arcs and their 0.01 threshold, the calendar fill progress, the year bar, the scrubbed silhouette and the staggered grid entry. These are an external library driven by wall-clock time.
- Scroll events: ScrollTrigger's enter and leave callbacks become calls of `ActivateStep`/`DeactivateStep`. The alternative items' own triggers (app.js:366-374) only toggle a class and are not modelled.
- Geometry: `getAngleFromMouse` (declared twice; the later declaration shadows the first), `describeArc`, `polarToCartesian` and the dial handle. The dial input is the fraction angle / 2π as a real.
- Timers: `debounce`, the `--vh` resize fix, `requestAnimationFrame` in `submitAge` (the model applies its effects at once) and the `setTimeout`s of `showRemainingSection`. The delayed `initSilhouetteAnimation` is a separate method for the caller to run later.
- Parsing: `parseInt`/`parseFloat` are replaced by optional numbers. `None` stands for NaN.
- Markup: the page markup is not part of this model. So the tick count, the slider's initial value and the initial step/visualisation classes are constructor parameters. The slider's range and step are not enforced, and `SliderInput` accepts any real.
- `.viz-<name>` lookup: `document.querySelector` is modelled as the first matching element among the visualisation states.
- Floating point: exact reals replace doubles, so the model can differ from the page wherever a double lands just below a rounding tie. The divergences below are known; the list is not claimed to be complete.
- Stats.OpportunityBounds: at 6 h a day the language figure is exactly 3.65. The model rounds it to 3.7; the double nearest 3.65 lies below it, so the page shows 3.6.
- Dial.FallbackRoundsClamped: the fallback field goes through the angle (c/16)·2π and back (app.js:187, app.js:81). In doubles the entry 2.75 comes back as 2.7499999999999996 and is stored as 2.5; the entry 3.75 is stored as 3.5. The model stores 3.0 and 4.0.
- AppState.App.FallbackInput: inherits the fallback divergence above, since it stores what `Dial.FallbackRoundsClamped` states.
- Scrollytelling.CounterOnSnapGrid: does not cover step names outside the five. There the target is the hours with snap 1, so a half-hour value is not on the grid.
