# A Dafny model of the logic inside a React Native UI component library

The library is a set of React Native widgets. Most of them only pass
styles to the host toolkit and leave layout, gestures and timing to it. A
few of them hold logic of their own, and this project models that logic and
proves properties of it:

- **Accordion** (`Accordion.dfy`). Pressing a section header computes the
  new list of open sections. The result goes to the parent through
  `onChange`. A section's body is collapsed exactly when its index is not in
  the list.
- **Collapsible** (`Collapsible.dfy`). A class whose state moves between
  measuring the content, animating the height and reacting to layout
  changes. The host's callbacks are explicit methods: the animation frame,
  the `measure` result, the end of an animation and `onLayout`.
- **Loading indicator** (`LoadingIndicator.dfy`). A class for the
  `animationState` cycle 0 → 1 → -1 → 0 and the saved progress. Start,
  stop, save and resume are guarded transitions.
- **Slider** (`Slider.dfy`). A class for the carousel's index, its looping
  list and its auto-play timer. With `loop` on, a copy of `props.data` is
  appended whenever the last item of a copy comes into view. The page shown
  is the raw index modulo the number of images.
- **Slider dots** (`SliderIndicator.dfy`). The loop that builds one dot per
  page, with at most one dot active.
- **Stepper** (`Stepper.dfy`). How each row looks (active, check mark,
  connector, colours), as a function of its position and `activeStep`.
- **Text utilities** (`TextUtils.dfy`). `reduceText`, and `toLocaleString`
  on non-negative integers. The regular expression of `toLocaleString` is
  modelled as written and proved to produce Indian digit grouping.
- **Inset tables** (`BaseProps.dfy`). `getMarginInset`, `getPaddingInset`
  and `getBorderRadius`.

`Digits.dfy` models JavaScript's decimal printing of non-negative integers
(`i.toString()` and the integer part of `toFixed`). `Wrappers.dfy` holds the
`Option` type.

React's `setState` is treated as an immediate update. A `setState`
callback runs right after its update. The host's timers, frames,
measurements and animation completions are method calls, made in whatever
order the caller chooses.

## Model

| member | source | states |
|---|---|---|
| `Accordion.RemoveAll` | src/Accordion/Accordion.tsx:76 | The filtered list no longer holds the pressed index, holds every other index it held before, and is no longer than the input. |
| `Accordion.RemoveAllAppend` | src/Accordion/Accordion.tsx:76 | Filtering distributes over concatenation, so the kept entries stay in their original order. |
| `Accordion.UpdatedSections` | src/Accordion/Accordion.tsx:75-81 | The pressed section is in the new list exactly when it was not in the old one. No other section is added. The full toggle behaviour is in the `ToggleSection`, `ToggleFlipsPressed`, `ToggleKeepsOthers`, `ToggleNoDuplicates` and `OpenThenCloseRestores` rows. |
| `Accordion.ToggleSection` | src/Accordion/Accordion.tsx:69-85 | `onChange` is not called exactly when the accordion is disabled or has no `onChange`. |
| `Accordion.ToggleFlipsPressed` | src/Accordion/Accordion.tsx:75-81 | After a press, the pressed section is open exactly when it was closed before. |
| `Accordion.ToggleKeepsOthers` | src/Accordion/Accordion.tsx:115 | Every other section's `collapsed` flag (`!activeSections.includes(key)`) is unchanged, except that opening a section while only one may be open collapses all the others. |
| `Accordion.ToggleNoDuplicates` | src/Accordion/Accordion.tsx:75-81 | A list of open sections without duplicates stays without duplicates. |
| `Accordion.OpenThenCloseRestores` | src/Accordion/Accordion.tsx:76-78 | With `expandMultiple`, opening a closed section and then closing it gives back the original list. |
| `Collapsible.Collapsible.constructor` | src/Accordion/Collapsible.tsx:51-60 | Initial state: not measuring, not measured, content height 0, not animating, height = `collapsedHeight`. The height is known (clipped, line 196) exactly when collapsed. Pointer events are off (line 229) exactly when collapsed and not enabled. |
| `Collapsible.Collapsible.SetContentHandle` | src/Accordion/Collapsible.tsx:95-97 | The ref callback sets or clears the content handle. |
| `Collapsible.Collapsible.Unmount` | src/Accordion/Collapsible.tsx:72-74 | Sets `unmounted` and keeps the invariant. |
| `Collapsible.Collapsible.TransitionToHeight` | src/Accordion/Collapsible.tsx:153-175 | Sets `animating`, then starts the one animation of the height toward the target. Starting it ends an animation that was running, and that animation's end callback clears `animating` and calls `onAnimationEnd` at once when mounted. So `animating` stays set exactly when nothing was running (or the component is unmounted). |
| `Collapsible.Collapsible.SetHeightValue` | src/Accordion/Collapsible.tsx:189 | `height.setValue(v)` (also at line 86) sets the height and ends a running animation, whose end callback calls `onAnimationEnd` when mounted. Afterwards no animation runs and, when mounted, `animating` is off. |
| `Collapsible.Collapsible.AnimationEnded` | src/Accordion/Collapsible.tsx:165-175 | When unmounted, the end of an animation changes nothing. Otherwise it clears `animating` and calls `onAnimationEnd` exactly once. |
| `Collapsible.Collapsible.MeasureContent` | src/Accordion/Collapsible.tsx:99-105 | Sets `measuring` and asks for one frame. The height then stops being known. |
| `Collapsible.Collapsible.AnimationFrame` | src/Accordion/Collapsible.tsx:105-120 | With no content handle, measuring ends and the height animates to `collapsedHeight`. With a handle, a `measure` is requested. |
| `Collapsible.Collapsible.MeasureResult` | src/Accordion/Collapsible.tsx:120-131 | Measuring ends, `measured` is set, `contentHeight` = h and the height animates to h, which makes the height known again. |
| `Collapsible.Collapsible.ToggleCollapsed` | src/Accordion/Collapsible.tsx:138-151 | Collapsing animates to `collapsedHeight` without measuring. Expanding measures when there is a handle. Without a handle it animates to `contentHeight` only if `measured`, and otherwise does nothing. |
| `Collapsible.Collapsible.Update` | src/Accordion/Collapsible.tsx:62-88 | A change of `collapsed` resets `measured`, then toggles, so expanding without a handle never animates. An unchanged `collapsed` = true with a new `collapsedHeight` sets the height to it, which ends a running collapse and calls `onAnimationEnd` for it. Otherwise nothing moves. |
| `Collapsible.Collapsible.LayoutChange` | src/Accordion/Collapsible.tsx:178-191 | The event is ignored while animating, collapsed or measuring, or when the height is unchanged. Otherwise both the height and `contentHeight` become the new height. Setting the height ends an animation that still runs after `animating` was cleared. |
| `Collapsible.InterruptedExpand` | src/Accordion/Collapsible.tsx:153-175 | Collapsing again while the expansion animates ends the expansion at once, with one `onAnimationEnd` call. The collapse then runs with `animating` off, and its own end makes a second `onAnimationEnd` call. |
| `Collapsible.ExpandSequence` | src/Accordion/Collapsible.tsx:99-149 | Expanding with a content handle goes update → frame → measure → end of animation. It ends expanded, measured, idle, at the content height, with exactly one `onAnimationEnd`. |
| `LoadingIndicator.ChildSlots` | src/LoadingIndicators/Indicator.tsx:174-197 | `render` makes exactly `count` child slots. Each slot holds the renderer's output exactly when a renderer is given. Slot i is rendered with `{index: i, count}`. |
| `LoadingIndicator.Indicator.constructor` | src/LoadingIndicators/Indicator.tsx:44-67 | Starts in state 0 with `savedValue` 0, nothing running, and the hide target matching `animating`. |
| `LoadingIndicator.Indicator.Mount` | src/LoadingIndicators/Indicator.tsx:69-75 | When `animating`, starts the loop from state 0. |
| `LoadingIndicator.Indicator.StartAnimation` | src/LoadingIndicators/Indicator.tsx:101-120 | Does nothing unless the state is 0. From 0 it starts the loop and moves to 1. |
| `LoadingIndicator.Indicator.StopAnimation` | src/LoadingIndicators/Indicator.tsx:122-135 | Does nothing unless the state is 1. From 1 it registers one listener and moves to -1. |
| `LoadingIndicator.Indicator.SaveAnimation` | src/LoadingIndicators/Indicator.tsx:137-146 | Stores the value and moves to 0. When `animating`, it resumes at once and ends in state 1 with `savedValue` 0. |
| `LoadingIndicator.Indicator.ResumeAnimation` | src/LoadingIndicators/Indicator.tsx:148-172 | Does nothing unless the state is 0. From 0 it starts the resume, resets `savedValue` to 0 and moves to 1. |
| `LoadingIndicator.Indicator.ProgressObserved` | src/LoadingIndicators/Indicator.tsx:129-132 | The listener fires once, stops the progress animation and saves the value. |
| `LoadingIndicator.Indicator.ResumeCompleted` | src/LoadingIndicators/Indicator.tsx:161-167 | A finished resume resets progress to 0 and restarts the loop, ending in state 1. |
| `LoadingIndicator.Indicator.Update` | src/LoadingIndicators/Indicator.tsx:77-99 | A rising edge of `animating` resumes, a falling edge stops, and an unchanged prop does neither. A rising edge outside state 0 leaves the running loop or resume as it was. The hide target always matches `animating`. The state invariant is kept: the state is in {-1, 0, 1}, it is 0 exactly when no animation runs, and a -1 has a listener waiting. |
| `LoadingIndicator.StopResumeCycle` | src/LoadingIndicators/Indicator.tsx:47-57 | Mount, stop, save, resume and completion go 0 → 1 → -1 → 0 → 1 and end back in the loop with no listener left. |
| `Slider.Repeat` | src/Slider/Slider.tsx:193 | k copies of the images have k times their length. |
| `Slider.RepeatAt` | src/Slider/Slider.tsx:132-140 | In the looped list, the item at raw index i is image `i mod n`. |
| `Slider.DisplayIndex` | src/Slider/Slider.tsx:140 | The page shown lies in [0, n) and equals the raw index while that is below n. |
| `Slider.ItemsAbut` | src/Slider/Slider.tsx:151-155 | `getItemLayout` reports each item's own index, and every item has the same length. Item 0 starts at 0, and each item starts where the previous one ends. |
| `Slider.Slider.constructor` | src/Slider/Slider.tsx:78-83 | Starts at index 0 with `data` = `props.data` (one copy) and no timer. |
| `Slider.Slider.OnViewableItemsChanged` | src/Slider/Slider.tsx:179-203 | No items in view changes nothing and fires no callback. Otherwise the index becomes the first item's index, and `currentIndexCallback`, when present, gets that raw index. One copy of `props.data` is appended exactly when `loop` is on and the index is the last of a copy. With `loop` on, an item of the list that comes into view always has a successor. |
| `Slider.Slider.ChangeSliderListIndex` | src/Slider/Slider.tsx:209-218 | Raises the index by exactly 1 and scrolls to the new index. |
| `Slider.Slider.StartAutoPlay` | src/Slider/Slider.tsx:220-225 | Starts one new interval and keeps its handle. An interval started earlier keeps running. |
| `Slider.Slider.StopAutoPlay` | src/Slider/Slider.tsx:227-232 | Clears the interval the handle names, if any, and empties the handle. A second call does nothing. |
| `Slider.Slider.Focus` | src/Slider/Slider.tsx:89-93 | With `autoScroll`, focus starts auto-play. Otherwise it does nothing. |
| `Slider.Slider.Blur` | src/Slider/Slider.tsx:94-109 | With `autoScroll`, blur and unmount stop auto-play. Otherwise they do nothing. |
| `Slider.Slider.UpdateData` | src/Slider/Slider.tsx:100-103 | A new `data` array resets the list to one copy of it. The same array leaves the list alone. |
| `Slider.Slider.ShownPage` | src/Slider/Slider.tsx:164 | The page given to the dots and items is below n and names the image at the raw index of the list. |
| `Slider.RefocusLeavesInterval` | src/Slider/Slider.tsx:220-232 | Two focus events and one blur leave one interval running. |
| `SliderIndicator.Dots` | src/Slider/Indicator.tsx:52-78 | Exactly `count` dots, or none when `count` ≤ 0. |
| `SliderIndicator.RenderIndicator` | src/Slider/Indicator.tsx:44-79 | The `for` loop builds exactly the dot list `Dots`. |
| `SliderIndicator.DotKeysDistinct` | src/Slider/Indicator.tsx:74 | Dot i is keyed with the decimal form of i, so no two dots share a key. |
| `SliderIndicator.ActiveDot` | src/Slider/Indicator.tsx:53-59 | Dot i is active exactly when i = `currentIndex`. At most one dot is active, and exactly one exactly when 0 ≤ `currentIndex` < `count`. |
| `SliderIndicator.DotStyles` | src/Slider/Indicator.tsx:59-72 | The active dot takes the active colour and width when that colour is non-empty, and the base style otherwise. Inactive dots take the inactive colour and the base width. |
| `Stepper.Rows` | src/Stepper.tsx:31 | One row per step, in order, each carrying its step's text. |
| `Stepper.RowClassification` | src/Stepper.tsx:32-88 | `activeStep` is any number. A row is active iff key = activeStep - 1. It shows a check mark iff key < activeStep - 1, so never when active. The last row has no connector and the short height. Border and label are success iff key < activeStep, and the background iff also not active. The solid success connector (`key <= activeStep - 2`) agrees with the check mark when `activeStep` is a whole number. |
| `Stepper.FractionalStepSplits` | src/Stepper.tsx:59-78 | With `activeStep` 2.5, row 1 of three shows a check mark but a dashed, light connector. |
| `Stepper.ExactlyOneActive` | src/Stepper.tsx:32 | Some row is active iff `activeStep` is a whole number with 1 ≤ activeStep ≤ the number of steps, and never more than one row is. |
| `Stepper.DoneRowsArePrefix` | src/Stepper.tsx:59 | The rows with a check mark form a prefix. |
| `TextUtils.Substr` | src/Text/utils.ts:22 | `substr(start, length)` within bounds is the slice from `start`, and a non-positive length gives the empty string. |
| `TextUtils.Limit` | src/Text/utils.ts:21 | `length \|\| 50`: the given limit unless it is absent or 0, then 50. |
| `TextUtils.ReduceText` | src/Text/utils.ts:20-25 | Text no longer than the limit L comes back unchanged. Longer text keeps its first max(L - 3, 0) characters and gets "..." appended. |
| `TextUtils.ReduceTextLength` | src/Text/utils.ts:21-22 | For L ≥ 3 the result is at most L long, and a shortened result is exactly L long. |
| `TextUtils.ReduceTextIdempotent` | src/Text/utils.ts:20-25 | Reducing a reduced text changes nothing, for every limit. |
| `TextUtils.ReduceTextDocExample` | src/Text/utils.ts:17 | `reduceText('123456', 3)` is "...", not the "123..." the doc comment claims. |
| `TextUtils.BeforeDot` | src/Text/utils.ts:6 | `split('.')[0]` holds no '.', and is the whole string when it has none. |
| `TextUtils.LookaheadOnDigits` | src/Text/utils.ts:5 | The lookahead `(?=(\d{2})+\d\.)` after a run of digits holds iff the run is odd and at least 3 long. |
| `TextUtils.InsertCommasOnFixed` | src/Text/utils.ts:4-5 | On `toFixed(2)` output, the replace puts a comma after each digit followed by an odd number, at least 3, of integer digits. |
| `TextUtils.ToLocaleString` | src/Text/utils.ts:1-7 | The output has no '.'. Its grouping is in the `ToLocaleStringGrouped`, `ToLocaleStringDigits` and `ToLocaleStringIndian` rows. |
| `TextUtils.ToLocaleStringGrouped` | src/Text/utils.ts:1-7 | `toLocaleString` is the integer digits with those commas. |
| `TextUtils.ToLocaleStringDigits` | src/Text/utils.ts:3-6 | The output holds no '.', and removing its commas gives the decimal digits of the number. |
| `TextUtils.GroupedIsIndian` | src/Text/utils.ts:5 | That comma placement equals the reference Indian grouping: a last group of 3, then groups of 2. |
| `TextUtils.ToLocaleStringIndian` | src/Text/utils.ts:5 | `toLocaleString(n)` is the Indian grouping of n's digits. It holds a comma exactly when n ≥ 1000. |
| `TextUtils.ToLocaleStringExample` | src/Text/utils.ts:1-7 | 1234567 prints as "12,34,567". |
| `Digits.NatToString` | src/Slider/Indicator.tsx:74 | `toString` of a non-negative integer is a non-empty digit string with no leading zero. |
| `Digits.ParseNatToString` | src/Slider/Indicator.tsx:74 | Reading the printed digits back gives the number. |
| `Digits.NatToStringInjective` | src/Slider/Indicator.tsx:74 | Different numbers print differently. |
| `Digits.LengthBound` | src/Text/utils.ts:4 | A number prints with at most k digits exactly when it is below 10^k. |
| `BaseProps.Pick` | src/baseProps.ts:93 | `field && {key: field}` is a style fragment exactly when the field is truthy. |
| `BaseProps.GetMarginInset` | src/baseProps.ts:92-100 | Seven entries. Entry i is a fragment iff field i is truthy. The table reads back under the margin keys to exactly the fields, in the order all, horizontal, vertical, left, right, top, bottom. |
| `BaseProps.GetPaddingInset` | src/baseProps.ts:102-110 | The same, with the padding keys. |
| `BaseProps.GetBorderRadius` | src/baseProps.ts:112-119 | Five entries that read back to all, topRight, topLeft, bottomLeft, bottomRight, in that order, each a fragment iff its field is truthy. |
| `BaseProps.PickReadsBack` | src/baseProps.ts:92-119 | A table built field by field reads back to its fields: each fragment carries its field's value unchanged under its key. |
| `BaseProps.ReadBackDetermines` | src/baseProps.ts:92-119 | A table that reads back to some fields is exactly the one built from them, so reading back loses nothing. |
| `BaseProps.PaddingIsRenamedMargin` | src/baseProps.ts:102-110 | Entry by entry, the padding table is the margin table with the key renamed. |

## Notes on the code as written

- The doc comment of `reduceText` (src/Text/utils.ts:17) gives
  `reduceText('123456', 3)` as `'123...'`. The code returns `'...'`, because
  it keeps `3 - 3 = 0` characters. The model follows the code, and
  `TextUtils.ReduceTextDocExample` states what the code returns.
- In the Collapsible, `_animation` is assigned the return value of
  `Animated.timing(...).start(...)`, and `start` returns nothing. So the
  `_animation.stop()` branch (src/Accordion/Collapsible.tsx:156-158) never
  runs. The host still ends a running animation when a new one starts on
  the same animated value, or when `setValue` is called (lines 86 and 189).
  The ended animation's callback runs at once. It ignores `finished`, so
  it clears `animating` and calls `onAnimationEnd` while the new animation
  runs. An interrupted transition therefore reports its end early, and the
  next one runs with `animating` off (`Collapsible.InterruptedExpand`).
- `componentDidUpdate` resets `measured` to false before it calls
  `_toggleCollapsed`. Because of that, the branch that animates to the last
  measured height when there is no content handle
  (src/Accordion/Collapsible.tsx:142-143) cannot run from an update.
  `Collapsible.Collapsible.Update` states that such an expansion does
  nothing.
- `startAutoPlay` overwrites `sliderTimer` without clearing the interval it
  held. A second `focus` without a `blur` between them leaves an interval
  that `stopAutoPlay` can no longer clear. `Slider.RefocusLeavesInterval`
  shows this.
- With no images (`props.data` empty), `currentIndex % 0` is `NaN`, which
  never equals -1, so nothing is appended. `OnViewableItemsChanged` models
  this case explicitly.

- `activeStep` is a `number`. The check mark (src/Stepper.tsx:59) tests
  `activeStep > key + 1`, and the connector (lines 72-78) tests
  `key <= activeStep - 2`. These agree only for whole numbers.
  `Stepper.FractionalStepSplits` shows a fractional step where they differ.

## Left out

- `TextUtils.ReduceText` and `TextUtils.Substr`: a string is a sequence of
  characters, each counted once. JavaScript's `length` and `substr` count
  UTF-16 code units, so a character outside the Basic Multilingual Plane
  counts twice there. `reduceText("😀😀", 3)` gives `"..."` in JavaScript,
  because the length is 4 > 3, but the model returns the text unchanged.
  Text outside the Basic Multilingual Plane is not modelled.

- Collapsible: easing, durations, the `align`-dependent `translateY`
  interpolations (src/Accordion/Collapsible.tsx:204-225) and the
  interpolated height values. Those are real-valued animation outputs of
  the host. `height` is the value the animated height was last set to or is
  animating toward.
- Collapsible: `HasKnownHeight` and `PointerEventsOff` are the `render`
  expressions themselves (src/Accordion/Collapsible.tsx:196,229). What they
  give in each state is stated in the method contracts.
- Collapsible: after unmount, the model drops the state updates of the
  frame and `measure` callbacks, because React ignores `setState` on an
  unmounted component. Props updates and layout events are only delivered
  while mounted.
- Collapsible: `collapsedHeight || 0` is the prop itself. The default prop
  is 0, and `NaN` heights are not modelled.
- Loading indicator: the resume duration `(1 - savedValue) * animationDuration`,
  easing and `interaction`. These are host timing values.
- Loading indicator: `progress.setValue(0)` can run progress listeners
  synchronously in the host. The model does not follow that re-entrancy.
  A listener fires only through `ProgressObserved`.
- Loading indicator: a non-integer or negative `count` makes `new Array`
  throw. `count` is a natural number here.
- Slider: `LayoutAnimation`, the FlatList scrolling itself (`scrollToIndex`
  is reduced to the index it is given) and image rendering.
- Slider: `changeSliderListIndex` reads `this.state.index` right after
  `setState`. With immediate updates, that is the new index. Under React's
  batching it would be the old one.
- Slider: the `focus`/`blur` listeners are only registered when
  `autoScroll` is set at mount. The model reads `autoScroll` when the event
  arrives, and the prop does not change.
- Slider: `props.data` identity is a flag passed to `UpdateData`, because a
  sequence value has no identity.
- `Slider.DisplayIndex`: requires at least one image. With none, `% 0` in
  `render` gives `NaN`.
- `TextUtils.ToLocaleString`: covers non-negative integers below 10^21 only.
  Negative and fractional numbers, strings parsed by `Number()`, `toFixed`
  rounding, and the exponent notation `toFixed` switches to from 10^21 on
  are not modelled.
- `TextUtils.ReduceText`: a `NaN` limit (also falsy, hence 50) is not
  modelled. A limit is an optional integer.
- Inset tables: `NaN` field values (falsy) are not modelled. Numbers are
  reals, strings are strings, and animated nodes are opaque truthy values.
  The host's flattening of the style array is not modelled.
- `Sizes` constants (src/metrics is not part of this model) are parameters:
  the dots' base width and the active width.
- Stepper: icon, text and size constants. The colours are the three theme
  roles the rows choose between.
- Accordion `render`: routing props to the view and the collapsibles, and
  the header/footer render callbacks, are host rendering. Only the
  `collapsed` rule is modelled.
