# Carousel hooks: a Dafny model

This project models the logic of two React hooks that drive a horizontally
scrolling carousel. The React, DOM and timer plumbing is left out. What remains
is state records and pure step functions.

- **Swipe engine** (`useSwipe`). There are `length` slides of equal width, laid
  out on a track of `length + 2` percentage slots: a clone, the slides, and a
  clone. The state is `{targetIndex, current, offset, shouldAnimate}`, where the
  drag `offset` is a pixel number or `NaN` ("no offset"). Steps:
  - `slideToNext`, `slideToPrev` and `slideTo`;
  - the drag-move and drag-release gesture callbacks;
  - the settle and autoplay timer callbacks;
  - the style derived on each render.
  The pure helpers of `useSwipe/utils.ts` live in module `SwipeUtils`:
  - circular next/previous index, using JavaScript's truncating `%`;
  - the track's width and left offset;
  - the one-slot translation, which picks the shorter way round the ring unless
    a live drag offset fixes the direction.
- **Paged-scroll engine** (`useScroll`). Children have measured pixel widths.
  The state is `{widths, containerWidth, contentWidth, maxLeftScroll,
  maxLeftReached, currentIndex, targetIndex, lastAllowedIndex, leftPosition}`.
  Steps:
  - `scrollLeft` and `scrollRight`;
  - the settle callback;
  - the sticky `lastAllowedIndex` effect, where 0 means "not yet known";
  - the navigation flags;
  - the style: a left offset clamped at `maxLeftScroll`, plus a translation
    while a move is pending.
  `Scroll.Stable` describes the states a measured carousel rests in between
  user steps. It is proved to hold after mount and to be preserved by every
  forward and backward step.

Modules: `Options` (an `Option` for JavaScript `undefined`/`NaN`), `SwipeUtils`,
`Swipe` and `Scroll`. Indices are unbounded `int`s, so the unchecked `slideTo`
and a negative `slice` end can be represented. Pixel widths are `int`s.
Percentages, drag deltas and the 0.3 and 1.2 factors are exact `real`s.

Behaviours of the code worth knowing:

- `maxLeftScroll` is `contentWidth - containerWidth` with no clamp at 0, so it
  is negative when the content is narrower than the container (`Scroll.Measure`).
- The recorded `leftPosition` is not clamped. At every end state (the
  remembered `lastAllowedIndex`) it exceeds `maxLeftScroll`, and only the
  style's left offset is clamped (`Scroll.EndIsSticky`). When the last child
  is at least `containerWidth` wide, forward steps end on index `|widths|`, one
  past the last child (`Scroll.EndPastLastChild`).
- `slideTo` takes any index without a range check (`Swipe.TransitionsKeepRange`).
- The "elastic" and "smooth" transitions of the swipe engine are the same
  timing string in the code. The model tells them apart by name only.

## Model

| member | source | states |
|---|---|---|
| SwipeUtils.JsRem | useSwipe/utils.ts:1-5 | The `%` the index helpers use: the remainder of truncating division. It is congruent to the dividend, smaller than the divisor in magnitude, and has the dividend's sign. |
| SwipeUtils.NextIndex | useSwipe/utils.ts:4-5 | The next index is congruent to `current + 1` and lies in `(-length, length)`. For `-1 <= current < length` it lies in `[0, length)`. For an in-range index it is `current + 1`, wrapping from `length - 1` to 0. |
| SwipeUtils.PreviousIndex | useSwipe/utils.ts:1-2 | The previous index is congruent to `current - 1` and lies in `(-length, length)`. For an in-range index it is `current - 1`, wrapping from 0 to `length - 1`. |
| SwipeUtils.NextPreviousInverse | useSwipe/utils.ts:1-5 | For every in-range index, the previous index of the next index is the index itself, and so is the next of the previous. |
| SwipeUtils.TranslateX | useSwipe/utils.ts:7-8 | A translation of `direction` slots is `direction` times one slot's share of the track, `100 / (length + 2)`, with the sign of `direction`. |
| SwipeUtils.ContainerWidth | useSwipe/utils.ts:10-16 | The track is `length + 2` slots of one slide width each, the width falling back to 100 when it is 0. |
| SwipeUtils.OneStepIsOneSlide | useSwipe/utils.ts:7-16 | A one-slot translation, a percentage of the track, moves the track by exactly one slide width. |
| SwipeUtils.GeometryExamples | useSwipe/utils.ts:10-29 | Slides of 20% on a five-slide track give a 140% track, and slide 2 is shifted by 60%. A slide width of 0 falls back to 100%, giving 700%. |
| SwipeUtils.SlotInsideTrack | useSwipe/utils.ts:10-29 | Every in-range slide's slot starts at least one slot into the track and ends at least one slot before its end, so neither clone slot is the resting position. |
| SwipeUtils.LeftOffset | useSwipe/utils.ts:18-29 | Centring subtracts `(100 - childWidth) / 2` from the uncentred offset. |
| SwipeUtils.CentringUsesRawWidth | useSwipe/utils.ts:18-29 | With slide width 0 the slot falls back to 100, but centring still subtracts 50, computed from the raw width. |
| SwipeUtils.TranslateXDistance | useSwipe/utils.ts:31-44 | The result is 0 or exactly one slot either way. It is 0 exactly when there is no non-zero offset and target equals current. A non-zero offset's sign decides the result's sign. Otherwise the naive direction is reversed unless the indices are more than half the ring apart. |
| SwipeUtils.ShorterWayAround | useSwipe/utils.ts:31-44 | Without a drag offset, the track moves toward later slides exactly when the forward way round is shorter (a tie goes the naive way), so the path taken is at most half the ring. |
| SwipeUtils.WrapAroundExample | useSwipe/utils.ts:31-44 | On five slides, 0 to 4 gives `+100/7`, the same as stepping from 1 to 0. |
| Swipe.ExposedCurrent | useSwipe/useSwipe.ts:155-157 | The reported current slide is the one the carousel will settle on; once settled it is the settled slide. |
| Swipe.Init | useSwipe/useSwipe.ts:61-64 | At mount: settled on slide 0, in range for every length, offset the number 0 rather than `NaN`, animation on. |
| Swipe.SlideToNext | useSwipe/useSwipe.ts:66-69 | Only `targetIndex` changes, to the successor of the settled `current` rather than of the target. |
| Swipe.SlideToPrev | useSwipe/useSwipe.ts:71-74 | Only `targetIndex` changes, to the predecessor of the settled `current`. |
| Swipe.SlideTo | useSwipe/useSwipe.ts:76-79 | The reported current slide (which is `targetIndex`) becomes the given index, unchecked. Animation is switched off. `current` and `offset` are kept. |
| Swipe.DragMove | useSwipe/useSwipe.ts:96-104 | The offset is at most 1.2 element widths in magnitude and opposite in sign to `deltaX`. It equals `-deltaX` within the cap and the full cap beyond it. Nothing else changes. |
| Swipe.DragRelease | useSwipe/useSwipe.ts:81-93 | At or past 0.3 widths in the gesture's direction, a left release steps to the next slide and a right release to the previous one. Short of that, only the offset changes, to 0. |
| Swipe.Settle | useSwipe/useSwipe.ts:120-131 | Afterwards target equals current, both being the old target. The offset is `NaN` and animation is back on. |
| Swipe.AutoplayTick | useSwipe/useSwipe.ts:115-118 | With autoplay on, the tick is `slideToNext`. With it off, nothing changes. |
| Swipe.TransitionsKeepRange | useSwipe/useSwipe.ts:66-131 | From in-range indices, every step except `slideTo` keeps both indices in range. `slideTo` does so exactly when its index is in range. |
| Swipe.NextThenPrevReturns | useSwipe/useSwipe.ts:66-74 | Next, settle, previous, settle returns to the starting slide, and so does the reverse order. |
| Swipe.RepeatedStepBeforeSettle | useSwipe/useSwipe.ts:66-74 | Asking for the next (or previous) slide twice before a settle requests the same slide as asking once. |
| Swipe.DragCancelKeepsSlide | useSwipe/useSwipe.ts:81-93 | A release below the threshold keeps both indices and resets the offset to 0. |
| Swipe.DragCommitSteps | useSwipe/useSwipe.ts:81-110 | A left release of at least 0.3 widths targets the next index, and a right release the previous one. |
| Swipe.Style | useSwipe/useSwipe.ts:133-153 | The track width and left always come from the geometry helpers. A percentage translation of exactly one slot, with the smooth transition, appears exactly while an animated transition is pending; it is the one-slot distance from `current` to the target given the live offset. Otherwise a non-zero offset gives a raw pixel translation, offset 0 the elastic transition, and `NaN` rest. |
| Swipe.AnimatedStepTakesShorterWay | useSwipe/useSwipe.ts:133-153 | With no live drag offset, a pending animated step between in-range slides moves the track toward later slides exactly when the forward way round the ring is shorter, a tie going the naive way. |
| Swipe.MountStyles | useSwipe/useSwipe.ts:61-153 | The first render carries the elastic transition, because the offset starts at 0. After the first settle the track is at rest. |
| Swipe.SettledTrackRests | useSwipe/useSwipe.ts:120-153 | After a settle the style has no translation and no transition, and is positioned at the new slide. |
| Swipe.CommittedDragFollowsFinger | useSwipe/useSwipe.ts:81-153 | After a committed drag the live offset remains, so the animation's step goes the way the finger moved, whichever way round is shorter. |
| Swipe.RenderedLeftAsWritten | useSwipe/useSwipe.ts:136 | The written `left` text is a CSS length only for a non-negative offset. A negative offset gives a doubled minus sign. |
| Swipe.CentredLeftDroppedAsWritten | useSwipe/useSwipe.ts:133-137 | Centred 20% slides at slide 0 have offset -20, so the written declaration is dropped. |
| Swipe.CentredSlideSitsMidViewport | useSwipe/useSwipe.ts:133-137 | With the signed `left` of the style record, centring places the settled slide's middle at 50% of the viewport for every non-zero slide width. |
| Scroll.SliceEnd | useScroll/useScroll.ts:66 | `slice(0, index)` ends at `min(index, len)` for a non-negative index and at `max(len + index, 0)` for a negative one. |
| Scroll.SumPrefixStep | useScroll/useScroll.ts:62-69 | Extending a prefix by one element adds that element to the prefix's sum. |
| Scroll.SumNonNegative | useScroll/useScroll.ts:62-69 | A list of non-negative widths has a non-negative sum. |
| Scroll.LeftPosition | useScroll/useScroll.ts:62-69 | Child 0 is at position 0, and with non-negative widths no position is negative. |
| Scroll.LeftPositionStep | useScroll/useScroll.ts:62-69 | The left position of child `i + 1` is that of child `i` plus the width of child `i`. |
| Scroll.LeftPositionPastEnd | useScroll/useScroll.ts:62-69 | From index `|widths|` on, the left position is the sum of all widths. |
| Scroll.LeftPositionMonotone | useScroll/useScroll.ts:62-69 | With non-negative widths, left positions never decrease with the index. |
| Scroll.Init | useScroll/useScroll.ts:44-52 | Before measurement, both indices are the start index, `lastAllowedIndex` is unset, the end is not reached, and there is no forward navigation. |
| Scroll.Measure | useScroll/useScroll.ts:105-131 | The content width is the left position at index `|widths|`. `maxLeftScroll` is content width minus container width, negative exactly when the content is narrower. Indices are kept. |
| Scroll.WillExceedMaxScroll | useScroll/useScroll.ts:59-60 | A move of `xDistance` is over the limit exactly when it is longer than the room left, `maxLeftScroll - leftPosition`. With no distance it says whether the current position is already beyond `maxLeftScroll`. |
| Scroll.WidthAt | useScroll/useScroll.ts:86 | A width lookup is defined exactly for indices inside the array. Outside it is `undefined`. |
| Scroll.ScrollLeftTranslateX | useScroll/useScroll.ts:79-82 | A forward distance is cut to `min(distance, maxLeftScroll - leftPosition)`. An `undefined` distance is read as the default 0 by `willExceedMaxScroll`, so it gives `maxLeftScroll - leftPosition` when `leftPosition > maxLeftScroll` and stays `undefined` otherwise. |
| Scroll.ScrollRightTranslateX | useScroll/useScroll.ts:71-77 | Beyond `maxLeftScroll`, a backward distance is `maxLeftScroll` minus the target's position. Otherwise it is the given distance. |
| Scroll.TranslateX | useScroll/useScroll.ts:84-93 | Forward from a real child, the content shifts left by that child's width cut to the room left. Off the array it is `undefined`, unless `leftPosition > maxLeftScroll`, where it shifts right by `leftPosition - maxLeftScroll`. Backward, it shifts right by the previous child's width, or from beyond `maxLeftScroll` by `maxLeftScroll` minus the target's position. |
| Scroll.ScrollDirection | useScroll/useScroll.ts:159-160 | A move is forward (`Directions.left`) exactly when the target index is above the current one, and backward (`Directions.right`) exactly when it is below. |
| Scroll.ScrollLeft | useScroll/useScroll.ts:95-98 | Only the target changes, to `max(0, currentIndex - 1)`. It is never negative and stays 0 at index 0. |
| Scroll.ScrollRight | useScroll/useScroll.ts:100-103 | Only the target changes: to `lastAllowedIndex` once the end is reached, else to `currentIndex + 1`. |
| Scroll.ScrollRepeatable | useScroll/useScroll.ts:95-103 | Repeating either call before a settle requests the same target. |
| Scroll.Settle | useScroll/useScroll.ts:133-143 | The target becomes current, and the position and end flag become those of the new current child. Nothing else changes. |
| Scroll.StickLastAllowed | useScroll/useScroll.ts:153-157 | A non-zero `lastAllowedIndex` never changes. An unset one becomes `currentIndex + 1` once the end is reached. Nothing else changes, and afterwards the end flag implies it is set. |
| Scroll.StickLastAllowedIdempotent | useScroll/useScroll.ts:153-157 | Running the effect twice is the same as running it once. |
| Scroll.Nav | useScroll/useScroll.ts:145-151 | `prev` holds iff `currentIndex > 0`. `next` holds iff there is more than one child, the content overflows, and the current child is not the set `lastAllowedIndex`. |
| Scroll.Style | useScroll/useScroll.ts:159-173 | The width is the content width. The left offset is `min(maxLeftScroll, current position)`: the current position when that is within `maxLeftScroll`, and `maxLeftScroll` otherwise. A transform appears exactly when target differs from current. |
| Scroll.ForwardMoveStaysInBounds | useScroll/useScroll.ts:84-93 | A forward move translates by `-min(widths[currentIndex], maxLeftScroll - leftPosition)` and ends no further than `maxLeftScroll`. |
| Scroll.BackwardMoveTranslate | useScroll/useScroll.ts:71-93 | A backward move translates by `+widths[currentIndex - 1]`, or by `maxLeftScroll` minus the target's position when `leftPosition > maxLeftScroll`. |
| Scroll.MountIsStable | useScroll/useScroll.ts:105-157 | Measuring a positive-width container with the start index on a child, then settling, gives a stable state. |
| Scroll.PastLastAllowed | useScroll/useScroll.ts:153-157 | Every left position from the remembered `lastAllowedIndex` on is beyond `maxLeftScroll`. |
| Scroll.ForwardCycleStable | useScroll/useScroll.ts:100-157 | Scroll right, settle, and the `lastAllowedIndex` effect keep a stable state stable. |
| Scroll.BackwardCycleStable | useScroll/useScroll.ts:95-157 | Scroll left, settle, and the `lastAllowedIndex` effect keep a stable state stable. |
| Scroll.EndIsSticky | useScroll/useScroll.ts:100-157 | Once the end is reached, a forward step lands on `lastAllowedIndex`, whose recorded position is beyond `maxLeftScroll`; further forward steps change nothing, and `next` is off. |
| Scroll.AnimationMeetsSettledStyle | useScroll/useScroll.ts:71-173 | From a stable state, a step's translation equals the change in the style's left offset at the settle: forward whenever the current position is within `maxLeftScroll` (including the step to the end), backward whenever the target's position is (including the step back from the end). |
| Scroll.ClampedScrollLeftTranslateX | useScroll/useScroll.ts:79-82 | The forward distance cut to the room left from the shown position `min(maxLeftScroll, leftPosition)`. |
| Scroll.ClampedScrollRightTranslateX | useScroll/useScroll.ts:71-77 | From beyond `maxLeftScroll`, the backward distance runs from `maxLeftScroll` to the target's shown position `min(maxLeftScroll, target position)`. |
| Scroll.ClampedTranslateX | useScroll/useScroll.ts:71-93 | The corrected getTranslateX: forward it never shifts the content right and is `undefined` exactly off the array; backward from beyond `maxLeftScroll` it never shifts the content left, running to the target's shown position. |
| Scroll.ClampedAgreesWithCode | useScroll/useScroll.ts:71-93 | The clamped translation equals the code's forward whenever the current position is within `maxLeftScroll`, and backward whenever the target's position is. |
| Scroll.ClampedMoveMeetsSettledStyle | useScroll/useScroll.ts:71-173 | From every stable state, the clamped translation of a forward or backward step equals the change in the style's left offset at the settle. |
| Scroll.WrongWayPastTheFit | useScroll/useScroll.ts:71-173 | Mounted at child 3 of five 100px children in a 300px container, the code animates forward by +100px and back by -100px while the shown position stays 200. |
| Scroll.ExactFitExtraStep | useScroll/useScroll.ts:133-173 | When a prefix of widths fills `maxLeftScroll` exactly, `next` stays on there and its step translates by 0: five 100px children in a 300px container. |
| Scroll.ForwardOffTheArray | useScroll/useScroll.ts:59-93 | Mounted at child 2 of two 100px children in a 100px container, "next" reads an `undefined` width as distance 0 and still animates, 100px to the right, while the shown position stays at 100. |
| Scroll.EndPastLastChild | useScroll/useScroll.ts:100-173 | A last child at least `containerWidth` wide lets forward steps reach index `|widths|`, where `leftPosition` exceeds `maxLeftScroll` while the style still stops at it. |

## Left out

- React hook machinery (state, effects, refs, memoised callbacks) and its
  re-render order. Each effect body is a step function. The navigation flags are
  a derivation from the state, which is what the effect recomputes after every
  change of its inputs. The initial `{next, prev}` value is replaced by that
  effect on mount.
- Timers. The 400 ms settle delay (0 after `slideTo`), the autoplay interval
  and timer cancellation are scheduling, so only the callback bodies are
  modelled. `Scroll.Stable` is stated for completed cycles (step, settle,
  effect). Steps taken inside the 400 ms window are covered only by
  `Swipe.RepeatedStepBeforeSettle` and `Scroll.ScrollRepeatable`.
- DOM measurement of `clientWidth` and `offsetWidth`. The widths are inputs,
  and so is the element width of a gesture. The layout effect runs once in the
  code, so re-measuring a carousel whose `lastAllowedIndex` is already set is
  not modelled.
- Gesture registration with the swipe library. Gestures are the inputs
  `(deltaX, width, direction)`.
- CSS text and the timing-function strings. Styles are records of numbers plus
  a transition kind. The only text-level rule kept is the sign of the swipe
  track's `left` (see Findings). The scroll style writes its `left` the same way.
  There a negative `maxLeftScroll` also gives a doubled minus sign, but dropping
  that declaration leaves the content at 0, so it is not claimed as a finding.
- JavaScript number quirks: floating-point rounding, `-0`, and `NaN` slide
  widths are not modelled. `NaN` offsets and `undefined` widths are `Option`
  values.
- SwipeUtils.JsRem: modelled for positive divisors only, the only ones the
  carousel passes.
- SwipeUtils.NextIndex and SwipeUtils.PreviousIndex require `length >= 1`. In
  the code, a length of 0 gives `NaN`.

## Findings

| source | as written | input that shows it | evidently intended | confidence | as-written member | corrected member |
|---|---|---|---|---|---|---|
| useSwipe/useSwipe.ts:136 | `left` is written as the text `-` followed by the left offset and `%` | centred mode, `childWidthPercent` 20, slide 0: the offset is -20 and the text is `--20%`, which is not a CSS length, so the browser drops it | `left` is the negated offset, 20%, which centres slide 0 | medium, not executed | Swipe.CentredLeftDroppedAsWritten | Swipe.CentredSlideSitsMidViewport |
| useScroll/useScroll.ts:71-82 | the forward clamp measures from the recorded `leftPosition`, and the backward clamp from `maxLeftScroll` to the unclamped target position, although the style shows both clamped at `maxLeftScroll` | `startIndex` 3, five 100px children, 300px container: the content is shown at 200; "next" animates `translateX(100px)` and settles at child 4, still shown at 200; "prev" from there animates `translateX(-100px)` and settles back at 200 | every animation runs from the shown position to the next shown position, here a translation of 0 | medium, not executed | Scroll.WrongWayPastTheFit | Scroll.ClampedMoveMeetsSettledStyle |
