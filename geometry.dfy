/** Screen-space (layer point) geometry: every coordinate is a whole pixel. */
module Geometry {

  /** A layer point, as Leaflet's `L.point(x, y)` holds it. */
  datatype Point = Point(x: int, y: int)

  /** The size of a label's box: `offsetWidth` and `offsetHeight` of its container. */
  datatype Size = Size(width: nat, height: nat)

  /**
   * A marker's tooltip container, as `markerList[i].getTooltip()._container`
   * reaches it: its position (the `transform` the layout passes rewrite),
   * its size, and the position of the icon of the marker it is bound to.
   * A marker listed twice reaches the same container both times.
   */
  class Label {
    var pos: Point
    const size: Size
    const icon: Point

    constructor (pos: Point, size: Size, icon: Point)
      ensures this.pos == pos && this.size == size && this.icon == icon
    {
      this.pos := pos;
      this.size := size;
      this.icon := icon;
    }
  }

  /** `step` applied `k` times in a row to a label's position, with its own icon and size. */
  function Repeat(step: (Point, Point, Size) -> Point, p: Point, icon: Point, size: Size, k: nat): Point {
    if k == 0 then p else step(Repeat(step, p, icon, size, k - 1), icon, size)
  }

  /**
   * A pass of the layout over the marker list: each entry's label is read
   * back, moved by `step` and written back, in list order. A label listed
   * `k` times has been moved `k` times.
   */
  method RewriteAll(labels: seq<Label>, step: (Point, Point, Size) -> Point)
    modifies labels
    ensures forall l :: l in labels ==> l.pos == Repeat(step, old(l.pos), l.icon, l.size, multiset(labels)[l])
  {
    for i := 0 to |labels|
      invariant forall l :: l in labels ==> l.pos == Repeat(step, old(l.pos), l.icon, l.size, multiset(labels[..i])[l])
    {
      var l := labels[i];
      assert labels[..i + 1] == labels[..i] + [l];
      l.pos := step(l.pos, l.icon, l.size);
    }
    assert labels[..|labels|] == labels;
  }
}
