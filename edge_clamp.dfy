/**
 * `setEdgePosition`: the terminal correction that keeps each tooltip inside
 * the viewport, or pushes it out on the marker's side when the marker itself
 * is off screen. The viewport is given by its north-west and south-east
 * corners in the labels' coordinate space.
 */
module EdgeClamp {
  import opened Geometry

  /** The primary clamp's result on one axis: the coordinate and whether a clamp fired. */
  datatype AxisClamp = AxisClamp(coord: int, edge: bool)

  /**
   * Primary clamp on one axis, with `lo`/`hi` the viewport's near and far
   * edges: a tooltip past the near edge (marker beyond it) is snapped to it,
   * otherwise a tooltip past the far edge (marker short of it) is snapped flush
   * against it.
   */
  function PrimaryClamp(t: int, m: int, lo: int, hi: int, extent: nat): (r: AxisClamp)
    ensures r.edge ==> r.coord == lo || r.coord == hi - extent
    ensures !r.edge ==> r.coord == t
    ensures r.edge <==> r.coord != t
    ensures m > lo && lo <= t <= hi - extent ==> !r.edge
    ensures lo < m < hi && extent <= hi - lo ==> lo <= r.coord <= hi - extent
    ensures lo < m < hi && extent <= hi - lo ==> r.coord == Max(lo, Min(t, hi - extent))
    ensures m <= lo && m < hi ==> r.coord == Min(t, hi - extent)
    ensures hi <= m && lo < m ==> r.coord == Max(t, lo)
  {
    if m > lo && t < lo then AxisClamp(lo, true)
    else if m < hi && t > hi - extent then AxisClamp(hi - extent, true)
    else AxisClamp(t, false)
  }

  function Min(a: int, b: int): int {
    if a <= b then a else b
  }

  function Max(a: int, b: int): int {
    if a <= b then b else a
  }

  /**
   * Secondary rule on one axis, used only when no primary clamp fired: with
   * the marker before the near edge, a tooltip reaching into the viewport is
   * moved to end at the near edge; with the marker past the far edge, a tooltip
   * starting before the far edge is moved to start there.
   */
  function PushOutside(t: int, m: int, lo: int, hi: int, extent: nat): (r: int)
    ensures m < lo <= hi ==> r == Min(t, lo - extent)
    ensures !(m < lo) && m > hi ==> r == Max(t, hi)
    ensures !(m < lo) && !(m > hi) ==> r == t
  {
    if m < lo && t > lo - extent then lo - extent
    else if m > hi && t < hi then hi
    else t
  }

  /**
   * One tooltip's new position. A single edge flag is shared by both axes, so
   * the secondary rules run only when neither axis was primary-clamped.
   * When the marker is strictly inside the viewport on an axis and the tooltip
   * fits there, the tooltip ends up inside on that axis, untouched if it
   * already was.
   */
  function ClampLabel(tooltip: Point, anchor: Point, size: Size, nw: Point, se: Point): (r: Point)
    ensures nw.x < anchor.x < se.x && size.width <= se.x - nw.x ==>
              nw.x <= r.x <= se.x - size.width &&
              (nw.x <= tooltip.x <= se.x - size.width ==> r.x == tooltip.x)
    ensures nw.y < anchor.y < se.y && size.height <= se.y - nw.y ==>
              nw.y <= r.y <= se.y - size.height &&
              (nw.y <= tooltip.y <= se.y - size.height ==> r.y == tooltip.y)
    ensures nw.x < anchor.x < se.x && size.width <= se.x - nw.x ==>
              r.x == Max(nw.x, Min(tooltip.x, se.x - size.width))
    ensures nw.y < anchor.y < se.y && size.height <= se.y - nw.y ==>
              r.y == Max(nw.y, Min(tooltip.y, se.y - size.height))
  {
    var px := PrimaryClamp(tooltip.x, anchor.x, nw.x, se.x, size.width);
    var py := PrimaryClamp(tooltip.y, anchor.y, nw.y, se.y, size.height);
    if px.edge || py.edge then Point(px.coord, py.coord)
    else Point(PushOutside(tooltip.x, anchor.x, nw.x, se.x, size.width),
               PushOutside(tooltip.y, anchor.y, nw.y, se.y, size.height))
  }

  /** Whether the primary clamp fires on either axis for this tooltip. */
  predicate AtEdge(tooltip: Point, anchor: Point, size: Size, nw: Point, se: Point) {
    PrimaryClamp(tooltip.x, anchor.x, nw.x, se.x, size.width).edge ||
    PrimaryClamp(tooltip.y, anchor.y, nw.y, se.y, size.height).edge
  }

  /**
   * Unless a primary clamp fired on either axis: a marker west of the
   * viewport leaves its tooltip ending at the west edge or further west
   * (`nw.x - width` when it reached into the viewport, unmoved otherwise), a
   * marker east of it leaves the tooltip starting at the east edge or further
   * east, and a marker within the viewport's x range leaves x unchanged.
   */
  lemma ClampPushesOutsideX(tooltip: Point, anchor: Point, size: Size, nw: Point, se: Point)
    requires nw.x <= se.x
    requires !AtEdge(tooltip, anchor, size, nw, se)
    ensures anchor.x < nw.x ==> ClampLabel(tooltip, anchor, size, nw, se).x == Min(tooltip.x, nw.x - size.width)
    ensures se.x < anchor.x ==> ClampLabel(tooltip, anchor, size, nw, se).x == Max(tooltip.x, se.x)
    ensures nw.x <= anchor.x <= se.x ==> ClampLabel(tooltip, anchor, size, nw, se).x == tooltip.x
  {
  }

  /** The same as `ClampPushesOutsideX`, north and south of the viewport. */
  lemma ClampPushesOutsideY(tooltip: Point, anchor: Point, size: Size, nw: Point, se: Point)
    requires nw.y <= se.y
    requires !AtEdge(tooltip, anchor, size, nw, se)
    ensures anchor.y < nw.y ==> ClampLabel(tooltip, anchor, size, nw, se).y == Min(tooltip.y, nw.y - size.height)
    ensures se.y < anchor.y ==> ClampLabel(tooltip, anchor, size, nw, se).y == Max(tooltip.y, se.y)
    ensures nw.y <= anchor.y <= se.y ==> ClampLabel(tooltip, anchor, size, nw, se).y == tooltip.y
  {
  }

  /**
   * The shared flag: once a primary clamp fires on either axis, no secondary
   * rule runs, so an axis whose primary clamp did not fire keeps its
   * coordinate even when its marker is off screen.
   */
  lemma ClampSharedEdgeFlag(tooltip: Point, anchor: Point, size: Size, nw: Point, se: Point)
    requires AtEdge(tooltip, anchor, size, nw, se)
    ensures !PrimaryClamp(tooltip.x, anchor.x, nw.x, se.x, size.width).edge ==>
              ClampLabel(tooltip, anchor, size, nw, se).x == tooltip.x
    ensures !PrimaryClamp(tooltip.y, anchor.y, nw.y, se.y, size.height).edge ==>
              ClampLabel(tooltip, anchor, size, nw, se).y == tooltip.y
  {
  }

  /**
   * With the marker strictly inside the viewport and the tooltip fitting on
   * both axes, a second pass changes nothing.
   */
  lemma ClampIdempotentInside(tooltip: Point, anchor: Point, size: Size, nw: Point, se: Point)
    requires nw.x < anchor.x < se.x && size.width <= se.x - nw.x
    requires nw.y < anchor.y < se.y && size.height <= se.y - nw.y
    ensures var once := ClampLabel(tooltip, anchor, size, nw, se);
            ClampLabel(once, anchor, size, nw, se) == once
  {
  }

  /**
   * In general the pass is not idempotent: a marker far west of an
   * 800 by 600 viewport, whose tooltip overflows the south edge, first gets
   * only the south clamp; a second pass then finds no primary clamp and
   * pushes the tooltip west of the viewport.
   */
  lemma ClampNotIdempotent()
    ensures exists tooltip: Point, anchor: Point, size: Size, nw: Point, se: Point ::
              ClampLabel(ClampLabel(tooltip, anchor, size, nw, se), anchor, size, nw, se)
              != ClampLabel(tooltip, anchor, size, nw, se)
  {
    var tooltip, anchor, size := Point(50, 700), Point(-1000, 50), Size(100, 20);
    var nw, se := Point(0, 0), Point(800, 600);
    assert ClampLabel(tooltip, anchor, size, nw, se) == Point(50, 580);
    assert ClampLabel(Point(50, 580), anchor, size, nw, se) == Point(-100, 580);
  }

  /**
   * A marker far west of the viewport does not keep its tooltip west of it
   * when the tooltip overflows the east edge: the primary clamp snaps it
   * flush inside the east edge instead.
   */
  lemma ClampFlushEast()
    ensures ClampLabel(Point(750, 100), Point(-1000, 50), Size(100, 20), Point(0, 0), Point(800, 600))
            == Point(700, 100)
  {
  }

  /** `ClampLabel` against a fixed viewport, as a value the loop can pass around. */
  function ClampWithin(nw: Point, se: Point): (Point, Point, Size) -> Point {
    (tooltip: Point, anchor: Point, size: Size) => ClampLabel(tooltip, anchor, size, nw, se)
  }

  /** A label reached once is clamped once. */
  lemma ClampedOnce(p: Point, icon: Point, size: Size, nw: Point, se: Point)
    ensures Repeat(ClampWithin(nw, se), p, icon, size, 1) == ClampLabel(p, icon, size, nw, se)
  {
  }

  /**
   * The loop of `setEdgePosition`: each entry's label is read back, clamped
   * against its own marker's icon and its own size, and rewritten in place,
   * in list order. A label listed `k` times is clamped `k` times (which,
   * by `ClampNotIdempotent`, can differ from once); one listed once ends on
   * its clamped position.
   */
  method ClampLabels(labels: seq<Label>, nw: Point, se: Point)
    modifies labels
    ensures forall l :: l in labels ==>
              l.pos == Repeat(ClampWithin(nw, se), old(l.pos), l.icon, l.size, multiset(labels)[l])
    ensures forall i :: 0 <= i < |labels| && multiset(labels)[labels[i]] == 1 ==>
              labels[i].pos == ClampLabel(old(labels[i].pos), labels[i].icon, labels[i].size, nw, se)
  {
    RewriteAll(labels, ClampWithin(nw, se));
    forall i | 0 <= i < |labels| && multiset(labels)[labels[i]] == 1
      ensures labels[i].pos == ClampLabel(old(labels[i].pos), labels[i].icon, labels[i].size, nw, se)
    {
      ClampedOnce(old(labels[i].pos), labels[i].icon, labels[i].size, nw, se);
    }
  }
}
