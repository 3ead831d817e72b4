/** The swipe carousel's engine (useSwipe/useSwipe.ts) as a state record and
    pure step functions: navigation calls, the drag-move and drag-release
    gesture callbacks, the settle and autoplay timer callbacks, and the style
    derived from the state on every render. */
module Swipe {
  import opened Options
  import opened SwipeUtils

  /** Fraction of the element width a released drag must cover to commit. */
  const SwipeThreshold: real := 0.3
  /** Fraction of the element width the live drag offset is capped at. */
  const SwipeLimit: real := 1.2

  /** The direction a gesture ended in: `Left` is 1, `Right` is -1. */
  datatype SwipeDirection = Left | Right

  function DirectionSign(direction: SwipeDirection): int {
    match direction
    case Left => 1
    case Right => -1
  }

  /** Configuration; the autoplay `interval` only times the tick and is not modelled. */
  datatype Props = Props(length: nat, childWidthPercent: real, autoScroll: bool, alignCenter: bool)

  datatype SwipeState = SwipeState(targetIndex: int, current: int, offset: Offset, shouldAnimate: bool)

  /** Both indices name a real slide. */
  predicate InRange(length: int, s: SwipeState) {
    0 <= s.targetIndex < length && 0 <= s.current < length
  }

  /** No transition is pending. */
  predicate Settled(s: SwipeState) {
    s.targetIndex == s.current
  }

  /** The state at mount: slide 0, offset 0 (a number, not `NaN`), animation on. */
  function Init(): (s: SwipeState)
    ensures Settled(s) && s.current == 0
    ensures forall length :: length >= 1 ==> InRange(length, s)
    ensures s.offset == Pixels(0.0) && s.shouldAnimate
  {
    SwipeState(0, 0, Pixels(0.0), true)
  }

  /** The index the hook reports as `current`: the requested one, not the settled one. */
  function ExposedCurrent(s: SwipeState): (r: int)
    ensures r == Settle(s).current
    ensures Settled(s) ==> r == s.current
  {
    s.targetIndex
  }

  /** slideToNext: request the slide after the settled one. */
  function SlideToNext(length: int, s: SwipeState): (r: SwipeState)
    requires length >= 1
    ensures r == s.(targetIndex := r.targetIndex)
    ensures r.targetIndex == NextIndex(length, s.current)
    ensures 0 <= s.current < length ==>
              r.targetIndex == (if s.current == length - 1 then 0 else s.current + 1)
  {
    s.(targetIndex := NextIndex(length, s.current))
  }

  /** slideToPrev: request the slide before the settled one. */
  function SlideToPrev(length: int, s: SwipeState): (r: SwipeState)
    requires length >= 1
    ensures r == s.(targetIndex := r.targetIndex)
    ensures r.targetIndex == PreviousIndex(length, s.current)
    ensures 0 <= s.current < length ==>
              r.targetIndex == (if s.current == 0 then length - 1 else s.current - 1)
  {
    s.(targetIndex := PreviousIndex(length, s.current))
  }

  /** slideTo: jump to any index, unchecked, without the smooth animation. */
  function SlideTo(s: SwipeState, index: int): (r: SwipeState)
    ensures ExposedCurrent(r) == index && !r.shouldAnimate
    ensures r.current == s.current && r.offset == s.offset
  {
    s.(targetIndex := index, shouldAnimate := false)
  }

  /** onSwiping: record the live drag offset, opposite in sign to `deltaX` and
      capped at `SwipeLimit` element widths. */
  function DragMove(s: SwipeState, deltaX: real, width: real): (r: SwipeState)
    requires width >= 0.0
    ensures r.offset.Pixels? && RealAbs(r.offset.px) <= SwipeLimit * width
    ensures RealAbs(deltaX) <= SwipeLimit * width ==> r.offset.px == -deltaX
    ensures RealAbs(deltaX) > SwipeLimit * width ==> RealAbs(r.offset.px) == SwipeLimit * width
    ensures deltaX > 0.0 ==> r.offset.px <= 0.0
    ensures deltaX <= 0.0 ==> r.offset.px >= 0.0
    ensures r == s.(offset := r.offset)
  {
    var sign := if deltaX > 0.0 then DirectionSign(Right) else DirectionSign(Left);
    var limit := SwipeLimit * width;
    var capped := if RealAbs(deltaX) <= limit then RealAbs(deltaX) else limit;
    s.(offset := Pixels(sign as real * capped))
  }

  /** handleSwipe: on release, commit to the neighbouring slide when the drag,
      signed by its direction, covers the threshold; otherwise snap back. */
  function DragRelease(length: int, s: SwipeState, deltaX: real, width: real, direction: SwipeDirection): (r: SwipeState)
    requires length >= 1
    ensures deltaX * DirectionSign(direction) as real >= SwipeThreshold * width ==>
              r == (if direction == Left then SlideToNext(length, s) else SlideToPrev(length, s))
    ensures deltaX * DirectionSign(direction) as real < SwipeThreshold * width ==>
              r == s.(offset := Pixels(0.0))
  {
    var threshold := width * SwipeThreshold;
    var delta := deltaX * DirectionSign(direction) as real;
    if delta >= threshold then
      if DirectionSign(direction) > 0 then SlideToNext(length, s) else SlideToPrev(length, s)
    else
      s.(offset := Pixels(0.0))
  }

  /** The settle timer's callback: the requested slide becomes the settled one,
      the drag offset is cleared to `NaN` and animation is re-enabled. */
  function Settle(s: SwipeState): (r: SwipeState)
    ensures Settled(r) && r.current == s.targetIndex
    ensures r.offset == NoOffset && r.shouldAnimate
  {
    SwipeState(s.targetIndex, s.targetIndex, NoOffset, true)
  }

  /** The autoplay timer's callback: `autoScroll && slideToNext()`. */
  function AutoplayTick(props: Props, s: SwipeState): (r: SwipeState)
    requires props.length >= 1
    ensures props.autoScroll ==> r == SlideToNext(props.length, s)
    ensures !props.autoScroll ==> r == s
  {
    if props.autoScroll then SlideToNext(props.length, s) else s
  }

  /** Every transition but `SlideTo` keeps both indices on real slides; `SlideTo`
      does exactly when its index is one. */
  lemma TransitionsKeepRange(props: Props, s: SwipeState, deltaX: real, width: real, direction: SwipeDirection, index: int)
    requires props.length >= 1
    requires width >= 0.0
    requires InRange(props.length, s)
    ensures InRange(props.length, SlideToNext(props.length, s))
    ensures InRange(props.length, SlideToPrev(props.length, s))
    ensures InRange(props.length, DragMove(s, deltaX, width))
    ensures InRange(props.length, DragRelease(props.length, s, deltaX, width, direction))
    ensures InRange(props.length, Settle(s))
    ensures InRange(props.length, AutoplayTick(props, s))
    ensures InRange(props.length, SlideTo(s, index)) <==> 0 <= index < props.length
  {
  }

  /** Stepping forward and settling, then back and settling, returns to the
      starting slide (and the other way round). */
  lemma NextThenPrevReturns(length: int, s: SwipeState)
    requires length >= 1
    requires 0 <= s.current < length
    ensures Settle(SlideToPrev(length, Settle(SlideToNext(length, s)))).current == s.current
    ensures Settle(SlideToNext(length, Settle(SlideToPrev(length, s)))).current == s.current
  {
    NextPreviousInverse(length, s.current);
  }

  /** Both steps are computed from the settled slide, so asking twice before the
      transition settles requests the same slide as asking once. */
  lemma RepeatedStepBeforeSettle(length: int, s: SwipeState)
    requires length >= 1
    ensures SlideToNext(length, SlideToNext(length, s)) == SlideToNext(length, s)
    ensures SlideToPrev(length, SlideToPrev(length, s)) == SlideToPrev(length, s)
  {
  }

  /** A release short of the threshold leaves both indices where they were and
      resets the offset to 0. */
  lemma DragCancelKeepsSlide(length: int, s: SwipeState, deltaX: real, width: real, direction: SwipeDirection)
    requires length >= 1
    requires deltaX * DirectionSign(direction) as real < SwipeThreshold * width
    ensures var r := DragRelease(length, s, deltaX, width, direction);
            r.targetIndex == s.targetIndex && r.current == s.current && r.offset == Pixels(0.0)
  {
  }

  /** A leftward release at or past the threshold requests the next slide,
      a rightward one the previous slide. */
  lemma DragCommitSteps(length: int, s: SwipeState, deltaX: real, width: real)
    requires length >= 1
    requires 0 <= s.current < length
    ensures deltaX >= SwipeThreshold * width ==>
              DragRelease(length, s, deltaX, width, Left).targetIndex == NextIndex(length, s.current)
    ensures -deltaX >= SwipeThreshold * width ==>
              DragRelease(length, s, deltaX, width, Right).targetIndex == PreviousIndex(length, s.current)
  {
  }

  /** Kind of transition applied to the track. The two timing curves are the
      same text in the hook; they are told apart here by name only. */
  datatype Transition = NoTransition | Smooth | Elastic

  /** `translateX(0)`, a percentage translation, or a raw pixel translation. */
  datatype Transform = NoTranslate | TranslatePercent(percent: real) | TranslatePixels(px: real)

  /** The style record: track width and CSS `left`, both in percent, plus the
      transform and transition. */
  datatype SwipeStyle = SwipeStyle(widthPercent: real, leftPercent: real, transform: Transform, transition: Transition)

  /** animationStyles: geometry from the settled slide; a smooth one-step
      translation while an animated transition is pending; otherwise the live
      drag offset, the elastic snap-back for offset 0, or rest for `NaN`. */
  function Style(props: Props, s: SwipeState): (st: SwipeStyle)
    ensures st.widthPercent == ContainerWidth(props.childWidthPercent, props.length)
    ensures st.leftPercent == -LeftOffset(props.childWidthPercent, s.current, props.alignCenter)
    ensures st.transform.TranslatePercent? <==> s.shouldAnimate && !Settled(s)
    ensures st.transform.TranslatePercent? ==>
              st.transition == Smooth && RealAbs(st.transform.percent) == Step(props.length)
    ensures st.transform.TranslatePercent? ==>
              st.transform.percent == TranslateXDistance(props.length, s.current, s.targetIndex, s.offset)
    ensures st.transform.TranslatePixels? <==>
              !(s.shouldAnimate && !Settled(s)) && s.offset.Pixels? && s.offset.px != 0.0
    ensures st.transform.TranslatePixels? ==> st.transform.px == s.offset.px && st.transition == NoTransition
    ensures st.transition == Elastic <==> !(s.shouldAnimate && !Settled(s)) && s.offset == Pixels(0.0)
    ensures s.offset == NoOffset && !(s.shouldAnimate && !Settled(s)) ==>
              st.transform == NoTranslate && st.transition == NoTransition
  {
    var width := ContainerWidth(props.childWidthPercent, props.length);
    var left := -LeftOffset(props.childWidthPercent, s.current, props.alignCenter);
    if s.shouldAnimate && s.targetIndex != s.current then
      var d := TranslateXDistance(props.length, s.current, s.targetIndex, s.offset);
      assert d == TranslateX(props.length, 1.0) || d == TranslateX(props.length, -1.0);
      SwipeStyle(width, left, TranslatePercent(d), Smooth)
    else
      match s.offset
      case NoOffset => SwipeStyle(width, left, NoTranslate, NoTransition)
      case Pixels(px) =>
        if px != 0.0 then SwipeStyle(width, left, TranslatePixels(px), NoTransition)
        else SwipeStyle(width, left, NoTranslate, Elastic)
  }

  /** At mount the offset is 0 rather than `NaN`, so the first style carries the
      elastic transition; after the first settle the track is at rest. */
  lemma MountStyles(props: Props)
    ensures Style(props, Init()).transition == Elastic
    ensures Style(props, Settle(Init())).transform == NoTranslate
    ensures Style(props, Settle(Init())).transition == NoTransition
  {
  }

  /** Once settled the track rests at the settled slide's offset. */
  lemma SettledTrackRests(props: Props, s: SwipeState)
    ensures var st := Style(props, Settle(s));
            st.transform == NoTranslate && st.transition == NoTransition
            && st.leftPercent == -LeftOffset(props.childWidthPercent, s.targetIndex, props.alignCenter)
  {
  }

  /** Without a live drag offset, an animated step between two slides moves the
      track left (toward later slides) exactly when the forward way round the
      ring is the shorter one, a tie going the naive way. */
  lemma AnimatedStepTakesShorterWay(props: Props, s: SwipeState)
    requires InRange(props.length, s) && !Settled(s) && s.shouldAnimate
    requires OffsetSign(s.offset) == 0
    ensures var st := Style(props, s);
            var fwd := ForwardSteps(props.length, s.current, s.targetIndex);
            && st.transform.TranslatePercent?
            && (st.transform.percent < 0.0
                <==> 2 * fwd < props.length || (2 * fwd == props.length && s.targetIndex > s.current))
  {
    ShorterWayAround(props.length, s.current, s.targetIndex, s.offset);
  }

  /** A committed drag keeps its (non-zero) live offset, so the animated step
      moves the track the way the finger went, whichever way round is shorter. */
  lemma CommittedDragFollowsFinger(props: Props, s: SwipeState, deltaX: real, width: real, direction: SwipeDirection)
    requires props.length >= 2
    requires width > 0.0
    requires 0 <= s.current < props.length && Settled(s) && s.shouldAnimate
    requires deltaX * DirectionSign(direction) as real >= SwipeThreshold * width
    ensures var r := DragRelease(props.length, DragMove(s, deltaX, width), deltaX, width, direction);
            var st := Style(props, r);
            st.transform.TranslatePercent? && Sign(st.transform.percent) == -DirectionSign(direction)
  {
    var m := DragMove(s, deltaX, width);
    var r := DragRelease(props.length, m, deltaX, width, direction);
    if direction == Left {
      assert r.targetIndex == NextIndex(props.length, s.current);
    } else {
      assert r.targetIndex == PreviousIndex(props.length, s.current);
    }
    assert r.targetIndex != r.current;
    if direction == Left {
      assert deltaX > 0.0 && m.offset.px < 0.0;
    } else {
      assert deltaX < 0.0 && m.offset.px > 0.0;
    }
    assert OffsetSign(r.offset) == -DirectionSign(direction);
  }

  /** The `left` declaration as the hook writes it, the text "-" followed by
      the offset and "%": a negative offset produces a doubled minus sign, which
      is not a CSS length, so the declaration is dropped (`None`). */
  function RenderedLeftAsWritten(leftOffset: real): (r: Option<real>)
    ensures r.Some? <==> leftOffset >= 0.0
    ensures r.Some? ==> r.value == -leftOffset
  {
    if leftOffset >= 0.0 then Some(-leftOffset) else None
  }

  /** Centred mode with 20% slides at slide 0: the offset is -20, so the
      written declaration is "--20%" and the browser ignores it. */
  lemma CentredLeftDroppedAsWritten()
    ensures LeftOffset(20.0, 0, true) == -20.0
    ensures RenderedLeftAsWritten(LeftOffset(20.0, 0, true)) == None
  {
  }

  /** With the style record's signed `left`, centring puts the middle of the
      settled slide at the middle of the viewport for every slide width other
      than the 0 fallback, including the widths the written text drops. */
  lemma CentredSlideSitsMidViewport(props: Props, s: SwipeState)
    requires props.alignCenter && props.childWidthPercent != 0.0
    ensures var st := Style(props, s);
            var cw := props.childWidthPercent;
            st.leftPercent + (s.current + 1) as real * cw + cw / 2.0 == 50.0
  {
  }

}
