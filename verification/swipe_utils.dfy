/** Pure helpers of the swipe carousel (useSwipe/utils.ts): circular index
    arithmetic over `length` slides and the percentage geometry of the track.

    The track holds `length + 2` slots of equal width: a clone of the last slide,
    the `length` slides, and a clone of the first slide. Widths and offsets are
    percentages of the viewport and are modelled as exact `real`s. */
module SwipeUtils {

  function Abs(x: int): nat {
    if x < 0 then -x else x
  }

  function RealAbs(x: real): real {
    if x < 0.0 then -x else x
  }

  /** `Math.sign` on an integer. */
  function SignInt(x: int): int {
    if x > 0 then 1 else if x < 0 then -1 else 0
  }

  /** `Math.sign` on a real. */
  function Sign(x: real): int {
    if x > 0.0 then 1 else if x < 0.0 then -1 else 0
  }

  /** Euclidean division is unique: a quotient and a remainder in `[0, b)`
      that rebuild `x` are the ones Dafny's `%` finds. */
  lemma ModUnique(x: int, b: int, q: int, r: int)
    requires b > 0 && 0 <= r < b
    requires x == q * b + r
    ensures x % b == r
  {
    var q', r' := x / b, x % b;
    assert (q - q') * b == r' - r;
    MultipleBelowDivisor(q - q', b);
  }

  /** The only multiple of `b` strictly between `-b` and `b` is 0. */
  lemma MultipleBelowDivisor(k: int, b: int)
    requires b > 0
    requires -b < k * b < b
    ensures k == 0
  {
  }

  /** JavaScript's `%` by a positive divisor: the remainder of division
      truncated toward zero, which carries the sign of the dividend. (Dafny's
      `%` is Euclidean.) The clauses pin the remainder down uniquely. */
  function JsRem(a: int, b: int): (r: int)
    requires b > 0
    ensures (a - r) % b == 0
    ensures -b < r < b
    ensures a >= 0 ==> r >= 0
    ensures a <= 0 ==> r <= 0
  {
    if a >= 0 then
      ModUnique(a - a % b, b, a / b, 0);
      a % b
    else
      ModUnique(a + (-a) % b, b, -((-a) / b), 0);
      -((-a) % b)
  }

  /** getPreviousIndex: one step back around the ring, `(current - 1 + length) % length`. */
  function PreviousIndex(length: int, current: int): (r: int)
    requires length >= 1
    ensures (current - 1 - r) % length == 0
    ensures -length < r < length
    ensures 0 <= current < length ==> r == (if current == 0 then length - 1 else current - 1)
  {
    var r := JsRem(current - 1 + length, length);
    var k := current - 1 + length - r;
    assert k == (k / length) * length;
    ModUnique(k - length, length, k / length - 1, 0);
    if 0 <= current < length then
      if current == 0 then
        ModUnique(length - 1, length, 0, length - 1);
        r
      else
        ModUnique(current - 1 + length, length, 1, current - 1);
        r
    else
      r
  }

  /** getNextIndex: one step forward around the ring, `(current + 1) % length`. */
  function NextIndex(length: int, current: int): (r: int)
    requires length >= 1
    ensures (current + 1 - r) % length == 0
    ensures -length < r < length
    ensures -1 <= current < length ==> 0 <= r < length
    ensures 0 <= current < length ==> r == (if current == length - 1 then 0 else current + 1)
  {
    var r := JsRem(current + 1, length);
    if 0 <= current < length then
      if current == length - 1 then
        ModUnique(length, length, 1, 0);
        r
      else
        ModUnique(current + 1, length, 0, current + 1);
        r
    else
      r
  }

  /** On the ring, a step forward undoes a step back and vice versa. */
  lemma NextPreviousInverse(length: int, i: int)
    requires length >= 1
    requires 0 <= i < length
    ensures PreviousIndex(length, NextIndex(length, i)) == i
    ensures NextIndex(length, PreviousIndex(length, i)) == i
  {
    var n := NextIndex(length, i);
    var p := PreviousIndex(length, i);
    assert 0 <= n < length && 0 <= p < length;
  }

  /** Width of one slot in percent: `childWidth || 100`. */
  function Multiplier(childWidth: real): real {
    if childWidth == 0.0 then 100.0 else childWidth
  }

  /** Width of one of the `length + 2` slots, in percent of the track. */
  function Step(length: nat): real {
    100.0 / (length + 2) as real
  }

  /** getTranslateX: a translation of `direction` slots, in percent of the track. */
  function TranslateX(length: nat, direction: real): (r: real)
    ensures r == direction * Step(length)
    ensures Sign(r) == Sign(direction)
  {
    100.0 * direction / (length + 2) as real
  }

  /** getContainerWidth: the track's width in percent, room for `length + 2` slots. */
  function ContainerWidth(childWidth: real, length: nat): (r: real)
    ensures r / (length + 2) as real == Multiplier(childWidth)
    ensures childWidth == 0.0 ==> r == 100.0 * (length + 2) as real
  {
    var multiplier := Multiplier(childWidth);
    multiplier * (length + 2) as real
  }

  /** A one-slot translation, a percentage of the track, moves the track by
      exactly one slide width, a percentage of the viewport. */
  lemma OneStepIsOneSlide(childWidth: real, length: nat)
    ensures TranslateX(length, 1.0) / 100.0 * ContainerWidth(childWidth, length) == Multiplier(childWidth)
  {
    var n := (length + 2) as real;
    var m := Multiplier(childWidth);
    assert TranslateX(length, 1.0) / 100.0 == 1.0 / n;
    assert ContainerWidth(childWidth, length) == m * n;
    assert 1.0 / n * (m * n) == m;
  }

  /** getLeftOffset: how far, in percent, the track is shifted left so that slide
      `current` (slot `current + 1`) sits at the viewport's edge, or at its centre
      when `alignCenter` holds. The centring term uses the raw `childWidth`. */
  function LeftOffset(childWidth: real, current: int, alignCenter: bool): (r: real)
    ensures alignCenter ==> r == LeftOffset(childWidth, current, false) - (100.0 - childWidth) / 2.0
  {
    var multiplier := Multiplier(childWidth);
    var alignmentMultiplier := (100.0 - childWidth) / 2.0;
    if alignCenter then (current + 1) as real * multiplier - alignmentMultiplier
    else (current + 1) as real * multiplier
  }

  /** The two worked examples: a 20% slide over five slides gives a 140% track,
      and slide 2 of it is shifted left by 60%. */
  lemma GeometryExamples()
    ensures ContainerWidth(20.0, 5) == 140.0
    ensures LeftOffset(20.0, 2, false) == 60.0
    ensures ContainerWidth(0.0, 5) == 700.0
  {
  }

  /** Left alone, the slot of every in-range slide starts at least one slot into
      the track and ends at least one slot before its end: the clones on both
      sides are never shown as the resting slide. */
  lemma SlotInsideTrack(childWidth: real, length: nat, current: int)
    requires childWidth >= 0.0
    requires 0 <= current < length
    ensures Multiplier(childWidth) <= LeftOffset(childWidth, current, false)
    ensures LeftOffset(childWidth, current, false) + 2.0 * Multiplier(childWidth) <= ContainerWidth(childWidth, length)
  {
    var m := Multiplier(childWidth);
    assert m > 0.0;
    assert (current + 1) as real >= 1.0;
    assert (current + 1) as real * m >= 1.0 * m;
    assert (current + 3) as real <= (length + 2) as real;
    assert (current + 3) as real * m <= (length + 2) as real * m;
  }

  /** When the width falls back to 100, centring still subtracts half of the raw
      residual `100 - childWidth`, i.e. 50, not 0. */
  lemma CentringUsesRawWidth(current: int)
    ensures LeftOffset(0.0, current, true) == (current + 1) as real * 100.0 - 50.0
  {
  }

  /** A drag offset of JavaScript type number, or `NaN` meaning "no offset". */
  datatype Offset = NoOffset | Pixels(px: real)

  /** `Math.sign(offset || 0)`: `NaN` and 0 both give 0. */
  function OffsetSign(offset: Offset): int {
    match offset
    case NoOffset => 0
    case Pixels(px) => Sign(px)
  }

  /** getTranslateXDistance: the percentage step an animation from `current` to
      `target` translates the track by. A non-zero drag offset decides the
      direction; otherwise the naive direction is reversed unless the indices are
      more than half the ring apart. */
  function TranslateXDistance(length: nat, current: int, target: int, offset: Offset): (r: real)
    ensures r == 0.0 || r == TranslateX(length, 1.0) || r == TranslateX(length, -1.0)
    ensures r == 0.0 <==> OffsetSign(offset) == 0 && target == current
    ensures OffsetSign(offset) != 0 ==> Sign(r) == OffsetSign(offset)
    ensures OffsetSign(offset) == 0 ==>
              Sign(r) == (if 2 * Abs(current - target) > length then 1 else -1) * SignInt(target - current)
  {
    var distance := Abs(current - target);
    var preferred := OffsetSign(offset);
    var direction := (if 2 * distance > length then 1 else -1) * SignInt(target - current);
    TranslateX(length, (if preferred != 0 then preferred else direction) as real)
  }

  /** Steps from `current` to `target` moving forward around a ring of `length`. */
  function ForwardSteps(length: int, current: int, target: int): int
    requires length >= 1
  {
    (target - current) % length
  }

  /** Without a drag offset, the animation moves the track left (toward later
      slides) exactly when the forward way round is the shorter one, a tie going
      the naive way; either way the path taken is at most half the ring. */
  lemma ShorterWayAround(length: nat, current: int, target: int, offset: Offset)
    requires 0 <= current < length && 0 <= target < length && current != target
    requires OffsetSign(offset) == 0
    ensures var fwd := ForwardSteps(length, current, target);
            TranslateXDistance(length, current, target, offset) < 0.0
            <==> 2 * fwd < length || (2 * fwd == length && target > current)
    ensures var fwd := ForwardSteps(length, current, target);
            var taken := if TranslateXDistance(length, current, target, offset) < 0.0 then fwd else length - fwd;
            2 * taken <= length
  {
    var fwd := ForwardSteps(length, current, target);
    var r := TranslateXDistance(length, current, target, offset);
    assert r < 0.0 <==> Sign(r) == -1;
    if target > current {
      ModUnique(target - current, length, 0, target - current);
    } else {
      ModUnique(target - current, length, -1, target - current + length);
    }
  }

  /** On five slides, going from slide 0 to slide 4 takes the one-step way round
      and animates exactly like stepping back from 1 to 0. */
  lemma WrapAroundExample()
    ensures TranslateXDistance(5, 0, 4, NoOffset) == 100.0 / 7.0
    ensures TranslateXDistance(5, 0, 4, NoOffset) == TranslateXDistance(5, 1, 0, NoOffset)
  {
  }

}
