/**
 * The synchronous part of `drawLine` for one marker: the screen point where
 * its connector meets its tooltip, or none when no connector is drawn.
 */
module Connector {
  import opened Wrappers
  import opened Geometry

  /** The fixed offset from a tooltip's corner to its default attachment point. */
  const BiasX: int := -5
  const BiasY: int := 2

  function Abs(v: int): nat {
    if v < 0 then -v else v
  }

  /**
   * Start at the tooltip's corner moved by the bias; no connector when that
   * point is the marker itself. Otherwise, on each axis on its own, move to
   * the far edge of the (biased) box when the whole box falls short of the
   * marker, so the attachment lies on one of the box's edges.
   */
  function Attachment(tooltip: Point, anchor: Point, size: Size): (r: Option<Point>)
    ensures r.None? <==> tooltip.x + BiasX == anchor.x && tooltip.y + BiasY == anchor.y
    ensures r.Some? ==> r.value.x == tooltip.x + BiasX || r.value.x == tooltip.x + BiasX + size.width
    ensures r.Some? ==> r.value.y == tooltip.y + BiasY || r.value.y == tooltip.y + BiasY + size.height
    ensures r.Some? && tooltip.x + BiasX + size.width < anchor.x ==> r.value.x == tooltip.x + BiasX + size.width
    ensures r.Some? && tooltip.x + BiasX + size.width >= anchor.x ==> r.value.x == tooltip.x + BiasX
    ensures r.Some? && tooltip.y + BiasY + size.height < anchor.y ==> r.value.y == tooltip.y + BiasY + size.height
    ensures r.Some? && tooltip.y + BiasY + size.height >= anchor.y ==> r.value.y == tooltip.y + BiasY
  {
    var x1, y1 := tooltip.x + BiasX, tooltip.y + BiasY;
    if x1 - anchor.x != 0 || y1 - anchor.y != 0 then
      var x2 := if x1 + size.width < anchor.x then x1 + size.width else x1;
      var y2 := if y1 + size.height < anchor.y then y1 + size.height else y1;
      Some(Point(x2, y2))
    else None
  }

  /**
   * When the biased box lies wholly on one side of the marker on the x axis,
   * the attachment is on the box's edge that faces the marker: no x of the
   * box is closer to the marker's x.
   */
  lemma AttachmentFacesMarkerX(tooltip: Point, anchor: Point, size: Size, px: int)
    requires Attachment(tooltip, anchor, size).Some?
    requires tooltip.x + BiasX + size.width < anchor.x || anchor.x <= tooltip.x + BiasX
    requires tooltip.x + BiasX <= px <= tooltip.x + BiasX + size.width
    ensures Abs(Attachment(tooltip, anchor, size).value.x - anchor.x) <= Abs(px - anchor.x)
  {
  }

  /** The same as `AttachmentFacesMarkerX` on the y axis. */
  lemma AttachmentFacesMarkerY(tooltip: Point, anchor: Point, size: Size, py: int)
    requires Attachment(tooltip, anchor, size).Some?
    requires tooltip.y + BiasY + size.height < anchor.y || anchor.y <= tooltip.y + BiasY
    requires tooltip.y + BiasY <= py <= tooltip.y + BiasY + size.height
    ensures Abs(Attachment(tooltip, anchor, size).value.y - anchor.y) <= Abs(py - anchor.y)
  {
  }

  /**
   * The attachment is on the boundary of the box moved by the bias, not of
   * the label's own box: it can lie strictly inside the label, here at
   * (95, 2) in a 100 by 20 label at the origin whose marker is at (200, 10).
   */
  lemma AttachmentInsideLabel()
    ensures exists tooltip: Point, anchor: Point, size: Size ::
              Attachment(tooltip, anchor, size).Some? &&
              tooltip.x < Attachment(tooltip, anchor, size).value.x < tooltip.x + size.width &&
              tooltip.y < Attachment(tooltip, anchor, size).value.y < tooltip.y + size.height
  {
    var tooltip, anchor, size := Point(0, 0), Point(200, 10), Size(100, 20);
    assert Attachment(tooltip, anchor, size) == Some(Point(95, 2));
  }
}
