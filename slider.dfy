/**
 * The arithmetic of the carousel arrows: item sizes by viewport width, how many
 * items fit, how far a list may scroll, and the offset one click produces.
 * Offsets are in pixels and negative to the right; the viewport width and the
 * current offset are inputs.
 */
module Slider {

  /** `getItemWidth()`. */
  function ItemWidth(viewport: int): (w: int)
    ensures viewport <= 600 ==> w == 180
    ensures viewport > 600 ==> w == 270
  {
    if viewport <= 600 then 180 else 270
  }

  /** `getItemMargin()`. */
  function ItemMargin(viewport: int): (m: int)
    ensures viewport <= 600 ==> m == 15
    ensures viewport > 600 ==> m == 30
  {
    if viewport <= 600 then 15 else 30
  }

  /** The distance from one item to the next. */
  function Pitch(viewport: int): (p: int)
    ensures p == 195 || p == 300
  {
    ItemWidth(viewport) + ItemMargin(viewport)
  }

  function Max(a: int, b: int): int { if a >= b then a else b }
  function Min(a: int, b: int): int { if a <= b then a else b }

  /** `Math.max(1, Math.floor(innerWidth / (itemW + itemM)))`; the divisor is positive, so `/` floors. */
  function VisibleItems(viewport: int): (n: int)
    ensures n >= 1
    ensures viewport >= Pitch(viewport) ==> n * Pitch(viewport) <= viewport < (n + 1) * Pitch(viewport)
  {
    Max(1, viewport / Pitch(viewport))
  }

  /** `Math.max(0, items.length - visibleItems)`: how many items may be scrolled past. */
  function MaxScroll(count: nat, viewport: int): (s: int)
    ensures s >= 0
    ensures s <= count
    ensures count > VisibleItems(viewport) ==> s + VisibleItems(viewport) == count
  {
    Max(0, count - VisibleItems(viewport))
  }

  /** The furthest offset to the right. */
  function Lowest(count: nat, viewport: int): (l: int)
    ensures l <= 0
  {
    -MaxScroll(count, viewport) * Pitch(viewport)
  }

  /** One click moves by at most two items, and by one when only one fits. */
  function Step(viewport: int): (s: int)
    ensures s == Pitch(viewport) * (if VisibleItems(viewport) >= 2 then 2 else 1)
    ensures s > 0
  {
    Pitch(viewport) * Min(2, VisibleItems(viewport))
  }

  /** The offset after a click on the left arrow. */
  function ScrollLeft(tx: int, viewport: int): (r: int)
    ensures r <= 0
    ensures r == 0 || r == tx + Step(viewport)
    ensures tx + Step(viewport) <= 0 ==> r == tx + Step(viewport)
  {
    Min(0, tx + Step(viewport))
  }

  /** The offset after a click on the right arrow. */
  function ScrollRight(tx: int, count: nat, viewport: int): (r: int)
    ensures r >= Lowest(count, viewport)
    ensures r == Lowest(count, viewport) || r == tx - Step(viewport)
    ensures tx - Step(viewport) >= Lowest(count, viewport) ==> r == tx - Step(viewport)
  {
    Max(Lowest(count, viewport), tx - Step(viewport))
  }

  predicate InRange(tx: int, count: nat, viewport: int)
  {
    Lowest(count, viewport) <= tx <= 0
  }

  /** From an offset in range, either arrow keeps the offset in range and moves it by at most one step. */
  lemma ScrollStaysInRange(tx: int, count: nat, viewport: int)
    requires InRange(tx, count, viewport)
    ensures InRange(ScrollLeft(tx, viewport), count, viewport)
    ensures InRange(ScrollRight(tx, count, viewport), count, viewport)
    ensures tx <= ScrollLeft(tx, viewport) <= tx + Step(viewport)
    ensures tx - Step(viewport) <= ScrollRight(tx, count, viewport) <= tx
  {
  }

  /** A right click from the start followed by a left click comes back to the start. */
  lemma RightThenLeft(count: nat, viewport: int)
    ensures ScrollLeft(ScrollRight(0, count, viewport), viewport) == 0
  {
  }

  /** A list that fits in the viewport does not scroll at all. */
  lemma FittingListIsFixed(tx: int, count: nat, viewport: int)
    requires count <= VisibleItems(viewport) && InRange(tx, count, viewport)
    ensures tx == 0
    ensures ScrollRight(tx, count, viewport) == 0 && ScrollLeft(tx, viewport) == 0
  {
  }
}
