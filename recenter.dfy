/**
 * The last step of `layoutByForce`: after the annealing iterations each
 * label's box is moved so that its centre, not its top-left corner, sits on
 * the point the simulation settled on.
 */
module Recenter {
  import opened Geometry

  /** `r` is the ceiling of the real number `v`, as `Math.ceil` computes it. */
  ghost predicate IsCeiling(r: int, v: real) {
    r as real - 1.0 < v <= r as real
  }

  /** There is only one ceiling, so a result characterised by `IsCeiling` is determined. */
  lemma CeilingUnique(r1: int, r2: int, v: real)
    requires IsCeiling(r1, v) && IsCeiling(r2, v)
    ensures r1 == r2
  {
  }

  /**
   * `Math.ceil(p - extent / 2)` on a whole-pixel coordinate and a whole-pixel
   * extent, computed without leaving the integers.
   */
  function ShiftByHalf(p: int, extent: nat): (r: int)
    ensures IsCeiling(r, p as real - extent as real / 2.0)
  {
    var half := extent / 2;
    assert extent == 2 * half || extent == 2 * half + 1;
    p - half
  }

  /** The corner that puts the centre of a box of `size` on `p`. */
  function Recentered(p: Point, size: Size): (r: Point)
    ensures IsCeiling(r.x, p.x as real - size.width as real / 2.0)
    ensures IsCeiling(r.y, p.y as real - size.height as real / 2.0)
  {
    Point(ShiftByHalf(p.x, size.width), ShiftByHalf(p.y, size.height))
  }

  /** `Recentered` as a step of a pass over the labels; the marker's icon plays no part. */
  function RecenterStep(): (Point, Point, Size) -> Point {
    (p: Point, icon: Point, size: Size) => Recentered(p, size)
  }

  /** A label reached once is re-centred once. */
  lemma RecenteredOnce(p: Point, icon: Point, size: Size)
    ensures Repeat(RecenterStep(), p, icon, size, 1) == Recentered(p, size)
  {
  }

  /**
   * Re-centring is not idempotent: a label reached twice (its marker listed
   * twice) moves by half its size twice.
   */
  lemma RecenterTwiceDiffers()
    ensures exists p: Point, icon: Point, size: Size ::
              Repeat(RecenterStep(), p, icon, size, 2) != Repeat(RecenterStep(), p, icon, size, 1)
  {
    var p, icon, size := Point(100, 100), Point(0, 0), Size(40, 20);
    assert Repeat(RecenterStep(), p, icon, size, 1) == Point(80, 90);
    assert Repeat(RecenterStep(), p, icon, size, 2) == Point(60, 80);
  }

  /**
   * The re-centring loop over the marker list: each entry's label is read
   * back and rewritten in place, in list order. A label listed `k` times is
   * re-centred `k` times; one listed once ends on its re-centred corner.
   */
  method RecenterLabels(labels: seq<Label>)
    modifies labels
    ensures forall l :: l in labels ==>
              l.pos == Repeat(RecenterStep(), old(l.pos), l.icon, l.size, multiset(labels)[l])
    ensures forall i :: 0 <= i < |labels| && multiset(labels)[labels[i]] == 1 ==>
              labels[i].pos == Recentered(old(labels[i].pos), labels[i].size)
  {
    RewriteAll(labels, RecenterStep());
    forall i | 0 <= i < |labels| && multiset(labels)[labels[i]] == 1
      ensures labels[i].pos == Recentered(old(labels[i].pos), labels[i].size)
    {
      RecenteredOnce(old(labels[i].pos), labels[i].icon, labels[i].size);
    }
  }
}
