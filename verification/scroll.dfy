/** The paged-scroll engine (useScroll/useScroll.ts) as a state record and pure
    step functions. Children have measured pixel widths; `scrollLeft` and
    `scrollRight` request a neighbouring index, a settle callback commits it,
    the `lastAllowedIndex` effect remembers where forward scrolling must stop,
    and the navigation flags and the style are derived from the state. */
module Scroll {
  import opened Options

  function Min(a: int, b: int): int {
    if a <= b then a else b
  }

  function Max(a: int, b: int): int {
    if a >= b then a else b
  }

  /** Sum of a list of widths, as `reduce((acc, w) => acc + w, 0)`. */
  function Sum(xs: seq<int>): int {
    if |xs| == 0 then 0 else xs[0] + Sum(xs[1..])
  }

  predicate NonNegative(widths: seq<int>) {
    forall i :: 0 <= i < |widths| ==> widths[i] >= 0
  }

  /** The end `Array.prototype.slice(0, index)` cuts an array of `len` items at:
      a negative index counts back from the end, and both ends are clamped. */
  function SliceEnd(len: nat, index: int): (e: nat)
    ensures e <= len
    ensures index >= 0 ==> e == Min(index, len)
    ensures index < 0 ==> e == Max(len + index, 0)
  {
    if index >= 0 then (if index <= len then index else len)
    else if len + index >= 0 then len + index else 0
  }

  /** With no negative element the sum is not negative. */
  lemma {:induction false} SumNonNegative(xs: seq<int>)
    requires NonNegative(xs)
    ensures Sum(xs) >= 0
  {
    if |xs| > 0 {
      SumNonNegative(xs[1..]);
    }
  }

  /** getLeftPosition: the pixel position of child `index`, the sum of the widths
      before it. */
  function LeftPosition(widths: seq<int>, index: int): (r: int)
    ensures index == 0 ==> r == 0
    ensures NonNegative(widths) ==> r >= 0
  {
    if index == 0 then 0
    else
      var prefix := widths[..SliceEnd(|widths|, index)];
      if NonNegative(widths) then SumNonNegative(prefix); Sum(prefix) else Sum(prefix)
  }

  /** Adding one more element to a prefix adds its value to the prefix's sum. */
  lemma {:induction false} SumPrefixStep(xs: seq<int>, i: nat)
    requires i < |xs|
    ensures Sum(xs[..i + 1]) == Sum(xs[..i]) + xs[i]
  {
    if i == 0 {
      assert xs[..1][1..] == [];
    } else {
      SumPrefixStep(xs[1..], i - 1);
      assert xs[..i + 1][1..] == xs[1..][..i];
      assert xs[..i][1..] == xs[1..][..i - 1];
    }
  }

  /** The left position of the next child is this one's plus this child's width. */
  lemma LeftPositionStep(widths: seq<int>, i: nat)
    requires i < |widths|
    ensures LeftPosition(widths, i + 1) == LeftPosition(widths, i) + widths[i]
  {
    SumPrefixStep(widths, i);
    assert widths[..0] == [];
  }

  /** From the last child on, the left position is the whole content width. */
  lemma LeftPositionPastEnd(widths: seq<int>, i: int)
    requires i >= |widths|
    ensures LeftPosition(widths, i) == Sum(widths)
  {
    assert widths[..|widths|] == widths;
  }

  /** With no negative width, left positions never decrease along the children. */
  lemma {:induction false} LeftPositionMonotone(widths: seq<int>, i: nat, j: nat)
    requires NonNegative(widths)
    requires i <= j
    ensures LeftPosition(widths, i) <= LeftPosition(widths, j)
  {
    if i < j {
      LeftPositionMonotone(widths, i, j - 1);
      if j - 1 < |widths| {
        LeftPositionStep(widths, j - 1);
      } else {
        LeftPositionPastEnd(widths, j - 1);
        LeftPositionPastEnd(widths, j);
      }
    }
  }

  datatype ScrollState = ScrollState(
    widths: seq<int>,
    containerWidth: int,
    contentWidth: int,
    maxLeftScroll: int,
    maxLeftReached: bool,
    currentIndex: int,
    targetIndex: int,
    lastAllowedIndex: int,  // 0 means "not yet known"
    leftPosition: int)

  /** The state before measurement: one zero-width child, nothing measured. */
  function Init(startIndex: int): (s: ScrollState)
    ensures s.currentIndex == startIndex && s.targetIndex == startIndex
    ensures s.lastAllowedIndex == 0 && !s.maxLeftReached
    ensures !ShowNextNav(s) && s.maxLeftScroll == 0
  {
    ScrollState([0], 0, 0, 0, false, startIndex, startIndex, 0, 0)
  }

  /** The layout effect and the effect that follows it: record the measured
      widths, their total, and `maxLeftScroll = contentWidth - containerWidth`,
      which is negative when the content is narrower than the container. */
  function Measure(s: ScrollState, containerWidth: int, widths: seq<int>): (r: ScrollState)
    ensures r.widths == widths && r.containerWidth == containerWidth
    ensures r.contentWidth == LeftPosition(widths, |widths|)
    ensures r.maxLeftScroll == r.contentWidth - containerWidth
    ensures r.maxLeftScroll < 0 <==> Sum(widths) < containerWidth
    ensures r.currentIndex == s.currentIndex && r.targetIndex == s.targetIndex
    ensures r.lastAllowedIndex == s.lastAllowedIndex && r.leftPosition == s.leftPosition
  {
    LeftPositionPastEnd(widths, |widths|);
    var contentWidth := Sum(widths);
    s.(widths := widths, containerWidth := containerWidth, contentWidth := contentWidth,
       maxLeftScroll := contentWidth - containerWidth)
  }

  /** willExceedMaxScroll: moving `xDistance` further from the current left
      position would pass `maxLeftScroll`. */
  predicate WillExceedMaxScroll(s: ScrollState, xDistance: int): (b: bool)
    ensures b <==> xDistance > s.maxLeftScroll - s.leftPosition
    ensures xDistance == 0 ==> (b <==> s.leftPosition > s.maxLeftScroll)
  {
    xDistance + s.leftPosition > s.maxLeftScroll
  }

  /** `widths[i]`, or `undefined` outside the array. */
  function WidthAt(widths: seq<int>, i: int): (r: Option<int>)
    ensures r.Some? <==> 0 <= i < |widths|
    ensures r.Some? ==> r.value == widths[i]
  {
    if 0 <= i < |widths| then Some(widths[i]) else None
  }

  /** getScrollLeftTranslateX: the distance of a forward move, cut down so that
      it ends at `maxLeftScroll`. An `undefined` distance reaches
      `willExceedMaxScroll` as its default 0, so from beyond `maxLeftScroll` it
      still gives the distance back to `maxLeftScroll`; otherwise it stays
      `undefined`. */
  function ScrollLeftTranslateX(s: ScrollState, targetXDistance: Option<int>): (r: Option<int>)
    ensures targetXDistance.None? ==>
              r == (if s.leftPosition > s.maxLeftScroll then Some(s.maxLeftScroll - s.leftPosition) else None)
    ensures targetXDistance.Some? ==>
              r == Some(Min(targetXDistance.value, s.maxLeftScroll - s.leftPosition))
  {
    match targetXDistance
    case None => if WillExceedMaxScroll(s, 0) then Some(s.maxLeftScroll - s.leftPosition) else None
    case Some(d) => if WillExceedMaxScroll(s, d) then Some(s.maxLeftScroll - s.leftPosition) else Some(d)
  }

  /** getScrollRightTranslateX: the distance of a backward move; from beyond
      `maxLeftScroll` it is measured from `maxLeftScroll` to the target's position. */
  function ScrollRightTranslateX(s: ScrollState, targetXDistance: Option<int>): (r: Option<int>)
    ensures s.leftPosition > s.maxLeftScroll ==>
              r == Some(s.maxLeftScroll - LeftPosition(s.widths, s.targetIndex))
    ensures s.leftPosition <= s.maxLeftScroll ==> r == targetXDistance
  {
    if WillExceedMaxScroll(s, 0) then Some(s.maxLeftScroll - LeftPosition(s.widths, s.targetIndex))
    else targetXDistance
  }

  /** The hook's `Directions`: `Left` (-1) is used for moves to a higher index,
      `Right` (1) for moves to a lower one. */
  datatype Direction = Left | Right

  function DirectionSign(direction: Direction): int {
    match direction
    case Left => -1
    case Right => 1
  }

  function TimesSign(x: Option<int>, sign: int): Option<int> {
    match x
    case None => None
    case Some(v) => Some(v * sign)
  }

  /** getTranslateX: the pixel translation animating a move from child `index`.
      Forward, the content shifts left by child `index`'s width, cut down to the
      room left before `maxLeftScroll`; backward, it shifts right by child
      `index - 1`'s width, or from beyond `maxLeftScroll` by the distance from
      `maxLeftScroll` to the target's position. */
  function TranslateX(s: ScrollState, index: int, direction: Direction): (r: Option<int>)
    ensures direction == Left ==>
              (r.Some? <==> 0 <= index < |s.widths| || s.leftPosition > s.maxLeftScroll)
    ensures direction == Left && 0 <= index < |s.widths| ==>
              r == Some(-Min(s.widths[index], s.maxLeftScroll - s.leftPosition))
    ensures direction == Left && !(0 <= index < |s.widths|) && s.leftPosition > s.maxLeftScroll ==>
              r == Some(s.leftPosition - s.maxLeftScroll)
    ensures direction == Right && s.leftPosition > s.maxLeftScroll ==>
              r == Some(s.maxLeftScroll - LeftPosition(s.widths, s.targetIndex))
    ensures direction == Right && s.leftPosition <= s.maxLeftScroll ==> r == WidthAt(s.widths, index - 1)
  {
    var targetXDistance := WidthAt(s.widths, if direction == Left then index else index - 1);
    if direction == Left then TimesSign(ScrollLeftTranslateX(s, targetXDistance), DirectionSign(Left))
    else TimesSign(ScrollRightTranslateX(s, targetXDistance), DirectionSign(Right))
  }

  /** scrollDirection: a move to a higher index shifts the content left. */
  function ScrollDirection(s: ScrollState): (d: Direction)
    ensures d == Left <==> s.targetIndex > s.currentIndex
    ensures s.targetIndex != s.currentIndex ==> (d == Right <==> s.targetIndex < s.currentIndex)
  {
    if s.targetIndex > s.currentIndex then Left else Right
  }

  /** scrollLeft: request the previous child, never below index 0. */
  function ScrollLeft(s: ScrollState): (r: ScrollState)
    ensures r == s.(targetIndex := r.targetIndex)
    ensures r.targetIndex >= 0
    ensures s.currentIndex >= 1 ==> r.targetIndex == s.currentIndex - 1
    ensures s.currentIndex <= 0 ==> r.targetIndex == 0
  {
    s.(targetIndex := Max(0, s.currentIndex - 1))
  }

  /** scrollRight: request the next child, or the last allowed one once the
      end has been reached. */
  function ScrollRight(s: ScrollState): (r: ScrollState)
    ensures r == s.(targetIndex := r.targetIndex)
    ensures s.maxLeftReached ==> r.targetIndex == s.lastAllowedIndex
    ensures !s.maxLeftReached ==> r.targetIndex == s.currentIndex + 1
  {
    s.(targetIndex := if s.maxLeftReached then s.lastAllowedIndex else s.currentIndex + 1)
  }

  /** Asking again before anything settles requests the same child. */
  lemma ScrollRepeatable(s: ScrollState)
    ensures ScrollRight(ScrollRight(s)) == ScrollRight(s)
    ensures ScrollLeft(ScrollLeft(s)) == ScrollLeft(s)
  {
  }

  /** The settle timer's callback: the target becomes current, its left position
      is recorded, and whether one more step would pass `maxLeftScroll`. */
  function Settle(s: ScrollState): (r: ScrollState)
    ensures Settled(r) && r.currentIndex == s.targetIndex
    ensures r == s.(currentIndex := r.currentIndex, leftPosition := r.leftPosition, maxLeftReached := r.maxLeftReached)
  {
    var nextLeftPosition := LeftPosition(s.widths, s.targetIndex + 1);
    s.(currentIndex := s.targetIndex,
       leftPosition := LeftPosition(s.widths, s.targetIndex),
       maxLeftReached := nextLeftPosition > s.maxLeftScroll)
  }

  /** Nothing pending: the target is current and the recorded position and end
      flag are those of the current child. */
  predicate Settled(s: ScrollState) {
    && s.targetIndex == s.currentIndex
    && s.leftPosition == LeftPosition(s.widths, s.currentIndex)
    && s.maxLeftReached == (LeftPosition(s.widths, s.currentIndex + 1) > s.maxLeftScroll)
  }

  /** The `lastAllowedIndex` effect: the first time the end is reached the
      next index is remembered, and from then on it never changes. */
  function StickLastAllowed(s: ScrollState): (r: ScrollState)
    ensures r == s.(lastAllowedIndex := r.lastAllowedIndex)
    ensures s.lastAllowedIndex != 0 ==> r.lastAllowedIndex == s.lastAllowedIndex
    ensures s.lastAllowedIndex == 0 && s.maxLeftReached ==> r.lastAllowedIndex == s.currentIndex + 1
    ensures !s.maxLeftReached ==> r == s
    ensures s.currentIndex >= 0 && r.maxLeftReached ==> r.lastAllowedIndex != 0
  {
    if s.maxLeftReached && s.lastAllowedIndex == 0 then s.(lastAllowedIndex := s.currentIndex + 1) else s
  }

  /** Running the effect again changes nothing. */
  lemma StickLastAllowedIdempotent(s: ScrollState)
    ensures StickLastAllowed(StickLastAllowed(s)) == StickLastAllowed(s)
  {
  }

  datatype Navigation = Navigation(next: bool, prev: bool)

  /** showNextNav: more than one child and content wider than the container. */
  predicate ShowNextNav(s: ScrollState) {
    |s.widths| > 1 && s.contentWidth > s.containerWidth
  }

  /** The navigation effect: back is possible off the first child; forward is
      possible when there is overflow and the current child is not the last
      allowed one. */
  function Nav(s: ScrollState): (n: Navigation)
    ensures n.prev <==> s.currentIndex > 0
    ensures n.next <==> |s.widths| > 1 && s.contentWidth > s.containerWidth
                        && !(s.lastAllowedIndex != 0 && s.currentIndex == s.lastAllowedIndex)
  {
    Navigation(ShowNextNav(s) && !(s.lastAllowedIndex != 0 && s.currentIndex == s.lastAllowedIndex),
               s.currentIndex > 0)
  }

  /** No animation, or a timed transform by a pixel distance (`None` for `NaN`). */
  datatype Motion = Still | Moving(translate: Option<int>)

  /** The style record: content width, how far the content is shifted left
      (CSS `left` is its negation), and the motion. */
  datatype ScrollStyle = ScrollStyle(width: int, leftOffset: int, motion: Motion)

  /** animationStyles. */
  function Style(s: ScrollState): (st: ScrollStyle)
    ensures st.width == s.contentWidth
    ensures st.leftOffset <= s.maxLeftScroll
    ensures st.leftOffset == LeftPosition(s.widths, s.currentIndex) || st.leftOffset == s.maxLeftScroll
    ensures LeftPosition(s.widths, s.currentIndex) <= s.maxLeftScroll ==>
              st.leftOffset == LeftPosition(s.widths, s.currentIndex)
    ensures st.motion.Moving? <==> s.targetIndex != s.currentIndex
  {
    var left := Min(s.maxLeftScroll, LeftPosition(s.widths, s.currentIndex));
    if s.targetIndex != s.currentIndex then
      ScrollStyle(s.contentWidth, left, Moving(TranslateX(s, s.currentIndex, ScrollDirection(s))))
    else
      ScrollStyle(s.contentWidth, left, Still)
  }

  /** A forward move from a real child translates left by that child's width,
      cut down so the move ends no further than `maxLeftScroll`. */
  lemma ForwardMoveStaysInBounds(s: ScrollState)
    requires s.targetIndex > s.currentIndex
    requires 0 <= s.currentIndex < |s.widths|
    ensures var t := -Min(s.widths[s.currentIndex], s.maxLeftScroll - s.leftPosition);
            Style(s).motion == Moving(Some(t)) && s.leftPosition - t <= s.maxLeftScroll
  {
  }

  /** A backward move translates right by the width of the child being
      revealed, or, from beyond `maxLeftScroll`, by the distance from
      `maxLeftScroll` to the target's position. */
  lemma BackwardMoveTranslate(s: ScrollState)
    requires s.targetIndex < s.currentIndex
    requires 1 <= s.currentIndex <= |s.widths|
    ensures Style(s).motion == Moving(Some(
              if s.leftPosition > s.maxLeftScroll
              then s.maxLeftScroll - LeftPosition(s.widths, s.targetIndex)
              else s.widths[s.currentIndex - 1]))
  {
  }

  /** One user step and what follows it once the timer fires: settle, then the
      `lastAllowedIndex` effect. */
  function ForwardCycle(s: ScrollState): ScrollState {
    StickLastAllowed(Settle(ScrollRight(s)))
  }

  function BackwardCycle(s: ScrollState): ScrollState {
    StickLastAllowed(Settle(ScrollLeft(s)))
  }

  /** The states a measured carousel rests in between user steps. */
  predicate Stable(s: ScrollState) {
    && NonNegative(s.widths) && |s.widths| >= 1
    && s.containerWidth > 0
    && s.contentWidth == Sum(s.widths)
    && s.maxLeftScroll == s.contentWidth - s.containerWidth
    && Settled(s)
    && 0 <= s.currentIndex <= |s.widths|
    && (s.maxLeftReached ==> s.lastAllowedIndex != 0)
    && (s.lastAllowedIndex != 0 ==>
          && s.currentIndex <= s.lastAllowedIndex <= |s.widths|
          && LeftPosition(s.widths, s.lastAllowedIndex) > s.maxLeftScroll)
  }

  /** Measuring a positive-width container with a start index on a real child,
      then settling, yields a stable state. */
  lemma MountIsStable(startIndex: int, containerWidth: int, widths: seq<int>)
    requires NonNegative(widths) && |widths| >= 1
    requires containerWidth > 0
    requires 0 <= startIndex < |widths|
    ensures Stable(StickLastAllowed(Settle(Measure(Init(startIndex), containerWidth, widths))))
  {
    LeftPositionPastEnd(widths, |widths|);
  }

  /** Once the end has been remembered, left positions from there on are past
      `maxLeftScroll`. */
  lemma PastLastAllowed(s: ScrollState, i: nat)
    requires NonNegative(s.widths)
    requires s.lastAllowedIndex >= 1 && s.lastAllowedIndex <= i
    requires LeftPosition(s.widths, s.lastAllowedIndex) > s.maxLeftScroll
    ensures LeftPosition(s.widths, i) > s.maxLeftScroll
  {
    LeftPositionMonotone(s.widths, s.lastAllowedIndex, i);
  }

  /** A forward step keeps the carousel stable. */
  lemma ForwardCycleStable(s: ScrollState)
    requires Stable(s)
    ensures Stable(ForwardCycle(s))
  {
    var w := s.widths;
    var i := s.currentIndex;
    LeftPositionPastEnd(w, |w|);
    if s.maxLeftReached {
      PastLastAllowed(s, s.lastAllowedIndex + 1);
    } else {
      if i + 1 >= |w| {
        LeftPositionPastEnd(w, i + 1);
        assert false;
      }
      if s.lastAllowedIndex != 0 && s.lastAllowedIndex <= i + 1 {
        LeftPositionMonotone(w, s.lastAllowedIndex, i + 1);
        assert false;
      }
    }
  }

  /** A backward step keeps the carousel stable. */
  lemma BackwardCycleStable(s: ScrollState)
    requires Stable(s)
    ensures Stable(BackwardCycle(s))
  {
  }

  /** At the end, further forward steps stay on the last allowed child, whose
      recorded left position is beyond `maxLeftScroll`, and the forward button
      is off there. */
  lemma EndIsSticky(s: ScrollState)
    requires Stable(s) && s.maxLeftReached
    ensures ForwardCycle(s).currentIndex == s.lastAllowedIndex
    ensures ForwardCycle(s).leftPosition > s.maxLeftScroll
    ensures ForwardCycle(ForwardCycle(s)) == ForwardCycle(s)
    ensures !Nav(ForwardCycle(s)).next
  {
    PastLastAllowed(s, s.lastAllowedIndex + 1);
  }

  /** From a stable state, a step's animation ends exactly where the style
      places the content once the step settles: forward whenever the current
      position is within `maxLeftScroll` (at the end, too), and backward
      whenever the target's position is. */
  lemma AnimationMeetsSettledStyle(s: ScrollState)
    requires Stable(s)
    ensures var f := ScrollRight(s);
            s.leftPosition <= s.maxLeftScroll ==>
              Style(f).motion == Moving(Some(Style(s).leftOffset - Style(Settle(f)).leftOffset))
    ensures var b := ScrollLeft(s);
            s.currentIndex >= 1 && LeftPosition(s.widths, s.currentIndex - 1) <= s.maxLeftScroll ==>
              Style(b).motion == Moving(Some(Style(s).leftOffset - Style(Settle(b)).leftOffset))
  {
    var f := ScrollRight(s);
    var b := ScrollLeft(s);
    if s.leftPosition <= s.maxLeftScroll {
      ClampedMoveMeetsSettledStyle(s);
      ClampedAgreesWithCode(f);
    }
    if s.currentIndex >= 1 && LeftPosition(s.widths, s.currentIndex - 1) <= s.maxLeftScroll {
      ClampedMoveMeetsSettledStyle(s);
      ClampedAgreesWithCode(b);
    }
  }

  /** getScrollLeftTranslateX measured from where the style shows the content,
      `min(maxLeftScroll, leftPosition)`, rather than from `leftPosition`. */
  function ClampedScrollLeftTranslateX(s: ScrollState, targetXDistance: Option<int>): (r: Option<int>)
    ensures targetXDistance.None? ==> r.None?
    ensures targetXDistance.Some? ==>
              r == Some(Min(targetXDistance.value, s.maxLeftScroll - Min(s.maxLeftScroll, s.leftPosition)))
  {
    var shown := Min(s.maxLeftScroll, s.leftPosition);
    match targetXDistance
    case None => if shown > s.maxLeftScroll then Some(s.maxLeftScroll - shown) else None
    case Some(d) => if d + shown > s.maxLeftScroll then Some(s.maxLeftScroll - shown) else Some(d)
  }

  /** getScrollRightTranslateX with the target's position clamped at
      `maxLeftScroll`, as the style clamps it. */
  function ClampedScrollRightTranslateX(s: ScrollState, targetXDistance: Option<int>): (r: Option<int>)
    ensures s.leftPosition > s.maxLeftScroll ==>
              r == Some(s.maxLeftScroll - Min(s.maxLeftScroll, LeftPosition(s.widths, s.targetIndex)))
    ensures s.leftPosition <= s.maxLeftScroll ==> r == targetXDistance
  {
    if WillExceedMaxScroll(s, 0) then Some(s.maxLeftScroll - Min(s.maxLeftScroll, LeftPosition(s.widths, s.targetIndex)))
    else targetXDistance
  }

  /** getTranslateX built on the two clamped helpers. Forward it never shifts
      the content right and is `undefined` only off the array; backward from
      beyond `maxLeftScroll` it never shifts the content left. */
  function ClampedTranslateX(s: ScrollState, index: int, direction: Direction): (r: Option<int>)
    ensures direction == Left ==> (r.Some? <==> 0 <= index < |s.widths|)
    ensures direction == Left && 0 <= index < |s.widths| ==>
              r == Some(-Min(s.widths[index], s.maxLeftScroll - Min(s.maxLeftScroll, s.leftPosition)))
    ensures direction == Left && r.Some? && NonNegative(s.widths) ==> r.value <= 0
    ensures direction == Right && s.leftPosition > s.maxLeftScroll ==>
              r.Some? && r.value >= 0
              && r.value == s.maxLeftScroll - Min(s.maxLeftScroll, LeftPosition(s.widths, s.targetIndex))
    ensures direction == Right && s.leftPosition <= s.maxLeftScroll ==> r == WidthAt(s.widths, index - 1)
  {
    var targetXDistance := WidthAt(s.widths, if direction == Left then index else index - 1);
    if direction == Left then TimesSign(ClampedScrollLeftTranslateX(s, targetXDistance), DirectionSign(Left))
    else TimesSign(ClampedScrollRightTranslateX(s, targetXDistance), DirectionSign(Right))
  }

  /** The clamped translation is the code's own wherever the code measures from
      a position within `maxLeftScroll`. */
  lemma ClampedAgreesWithCode(s: ScrollState)
    ensures s.leftPosition <= s.maxLeftScroll ==>
              ClampedTranslateX(s, s.currentIndex, Left) == TranslateX(s, s.currentIndex, Left)
    ensures LeftPosition(s.widths, s.targetIndex) <= s.maxLeftScroll ==>
              ClampedTranslateX(s, s.currentIndex, Right) == TranslateX(s, s.currentIndex, Right)
  {
  }

  /** From every stable state, the clamped translation of a step ends exactly
      where the style places the content once the step settles. */
  lemma ClampedMoveMeetsSettledStyle(s: ScrollState)
    requires Stable(s)
    ensures var f := ScrollRight(s);
            f.targetIndex != s.currentIndex ==>
              ClampedTranslateX(f, f.currentIndex, Left)
              == Some(Style(s).leftOffset - Style(Settle(f)).leftOffset)
    ensures var b := ScrollLeft(s);
            s.currentIndex >= 1 ==>
              ClampedTranslateX(b, b.currentIndex, Right)
              == Some(Style(s).leftOffset - Style(Settle(b)).leftOffset)
  {
    var w := s.widths;
    var i := s.currentIndex;
    var f := ScrollRight(s);
    LeftPositionPastEnd(w, |w|);
    if f.targetIndex != i {
      if s.maxLeftReached {
        assert i < s.lastAllowedIndex <= |w|;
        LeftPositionStep(w, i);
        LeftPositionMonotone(w, i + 1, s.lastAllowedIndex);
      } else {
        if i + 1 > |w| {
          LeftPositionPastEnd(w, i + 1);
        }
        assert i < |w|;
        LeftPositionStep(w, i);
      }
    }
    if i >= 1 {
      LeftPositionStep(w, i - 1);
    }
  }

  /** Started past the point where the content fits, the code animates both
      ways wrongly: five 100px children in a 300px container mounted at child 3
      (shown at 200). Forward, the content moves 100px right and then settles
      at 4, still shown at 200; back from 4 it moves 100px left and settles at
      3, again shown at 200. */
  lemma WrongWayPastTheFit()
    ensures var s := StickLastAllowed(Settle(Measure(Init(3), 300, [100, 100, 100, 100, 100])));
            var f := ForwardCycle(s);
            && Stable(s) && s.lastAllowedIndex == 4
            && Style(s).leftOffset == 200
            && Style(ScrollRight(s)).motion == Moving(Some(100))
            && f.currentIndex == 4 && Style(f).leftOffset == 200
            && Style(ScrollLeft(f)).motion == Moving(Some(-100))
            && Style(BackwardCycle(f)).leftOffset == 200
  {
    var w := [100, 100, 100, 100, 100];
    assert w[..1] == [100];
    assert w[..2] == [100, 100];
    assert w[..3] == [100, 100, 100];
    assert w[..4] == [100, 100, 100, 100];
    assert w[..5] == w;
  }

  /** When a prefix of equal widths fills `maxLeftScroll` exactly, the forward
      button stays on at the end and its step has a translation of 0: five
      100px children in a 300px container, resting on child 1. */
  lemma ExactFitExtraStep()
    ensures var s := ScrollState([100, 100, 100, 100, 100], 300, 500, 200, false, 1, 1, 0, 100);
            && Stable(s)
            && ForwardCycle(s).currentIndex == 2
            && Style(ForwardCycle(s)).leftOffset == 200
            && Nav(ForwardCycle(s)).next
            && Style(ScrollRight(ForwardCycle(s))).motion == Moving(Some(0))
            && Style(ForwardCycle(ForwardCycle(s))).leftOffset == 200
  {
    var w := [100, 100, 100, 100, 100];
    assert w[..1] == [100];
    assert w[..2] == [100, 100];
    assert w[..3] == [100, 100, 100];
    assert w[..4] == [100, 100, 100, 100];
    assert w[..5] == w;
  }

  /** A start index past the last child leaves the forward width `undefined`,
      which `willExceedMaxScroll` reads as 0: two 100px children in a 100px
      container, mounted at child 2. "Next" still animates, 100px to the right,
      while the shown position stays at 100. */
  lemma ForwardOffTheArray()
    ensures var s := StickLastAllowed(Settle(Measure(Init(2), 100, [100, 100])));
            && s.leftPosition == 200 && s.maxLeftScroll == 100 && s.lastAllowedIndex == 3
            && ScrollRight(s).targetIndex == 3
            && Style(ScrollRight(s)).motion == Moving(Some(100))
            && Style(s).leftOffset == 100 && Style(ForwardCycle(s)).leftOffset == 100
  {
    var w := [100, 100];
    assert w[..1] == [100];
    assert w[..2] == w;
  }

  /** When the last child is at least `containerWidth` wide, forward steps end on
      index `|widths|`, one past the last child, with a recorded left position
      beyond `maxLeftScroll`; the style still stops the content at
      `maxLeftScroll`. Children of 100px and 400px in a 300px container. */
  lemma EndPastLastChild()
    ensures var s := ScrollState([100, 400], 300, 500, 200, false, 0, 0, 0, 0);
            && Stable(s)
            && Style(ScrollRight(ForwardCycle(s))).motion == Moving(Some(-100))
            && ForwardCycle(ForwardCycle(s)).currentIndex == 2
            && ForwardCycle(ForwardCycle(s)).leftPosition == 500
            && Style(ForwardCycle(ForwardCycle(s))).leftOffset == 200
            && !Nav(ForwardCycle(ForwardCycle(s))).next
  {
    var w := [100, 400];
    assert w[..1] == [100];
    assert w[..2] == w;
  }

}
