/**
 * The plugin's module state: the ordered marker list, the list of connector
 * polylines currently on the map, and the polyline each marker last received
 * (`marker.__ply`), with the operations that change them.
 */
module Registry {
  import opened Wrappers
  import opened Geometry
  import Connector

  /** A connector from a marker to the layer point where it meets the marker's label. */
  datatype Polyline<M> = Polyline(marker: M, dest: Point)

  // ---------------------------------------------------------------------------
  // Removing the first occurrence (`indexOf` followed by `splice(i, 1)`)
  // ---------------------------------------------------------------------------

  /** Reference definition: `s` without its first `m`; `s` itself when there is none. */
  function RemoveFirst<M(==)>(s: seq<M>, m: M): seq<M> {
    if s == [] then []
    else if s[0] == m then s[1..]
    else [s[0]] + RemoveFirst(s[1..], m)
  }

  /** Removing an absent marker changes nothing. */
  lemma {:induction false} RemoveFirstAbsent<M>(s: seq<M>, m: M)
    requires m !in s
    ensures RemoveFirst(s, m) == s
  {
    if s != [] {
      RemoveFirstAbsent(s[1..], m);
    }
  }

  /** Removing the marker at its first index `i` leaves everything before and after it, in order. */
  lemma {:induction false} RemoveFirstAt<M>(s: seq<M>, m: M, i: nat)
    requires i < |s| && s[i] == m && m !in s[..i]
    ensures RemoveFirst(s, m) == s[..i] + s[i + 1..]
  {
    if i > 0 {
      assert s[0] == s[..i][0];
      assert s[1..][..i - 1] == s[1..i];
      RemoveFirstAt(s[1..], m, i - 1);
      assert s[..i] == [s[0]] + s[1..i];
    }
  }

  /** Exactly one copy of a present marker goes, and nothing else. */
  lemma {:induction false} RemoveFirstMultiset<M>(s: seq<M>, m: M)
    ensures m in s ==> multiset(RemoveFirst(s, m)) == multiset(s) - multiset{m}
    ensures m !in s ==> multiset(RemoveFirst(s, m)) == multiset(s)
  {
    if s != [] {
      assert s == [s[0]] + s[1..];
      RemoveFirstMultiset(s[1..], m);
    }
  }

  /**
   * `Array.prototype.indexOf`: the first index holding `m`, or -1 when
   * there is none.
   */
  method IndexOf<M(==)>(s: seq<M>, m: M) returns (i: int)
    ensures -1 <= i < |s|
    ensures i == -1 <==> m !in s
    ensures 0 <= i ==> i < |s| && s[i] == m && m !in s[..i]
  {
    i := 0;
    while i < |s|
      invariant 0 <= i <= |s|
      invariant m !in s[..i]
    {
      if s[i] == m {
        return;
      }
      assert s[..i + 1] == s[..i] + [s[i]];
      i := i + 1;
    }
    assert s[..i] == s;
    i := -1;
  }

  class TooltipLayout<M(==)> {
    /** `markerList`, in insertion order. */
    var markers: seq<M>
    /** `polylineList`: the connectors on the map, in creation order. */
    var polylines: seq<Polyline<M>>
    /** `marker.__ply`: the last connector created for each marker. */
    var lines: map<M, Polyline<M>>

    /** The state when the plugin is loaded: no markers, no connectors. */
    constructor ()
      ensures markers == [] && polylines == [] && lines == map[]
    {
      markers := [];
      polylines := [];
      lines := map[];
    }

    /** `addMarker`: append, keeping the existing list as a prefix. */
    method AddMarker(m: M)
      modifies this`markers
      ensures markers == old(markers) + [m]
      ensures markers[..|old(markers)|] == old(markers) && markers[|markers| - 1] == m
    {
      markers := markers + [m];
    }

    /**
     * `deleteMarker`: remove the first occurrence of `m`; every other marker
     * keeps its place in order, and an absent marker changes nothing.
     */
    method DeleteMarker(m: M)
      modifies this`markers
      ensures markers == RemoveFirst(old(markers), m)
      ensures m !in old(markers) ==> markers == old(markers)
      ensures m in old(markers) ==> multiset(markers) == multiset(old(markers)) - multiset{m}
    {
      RemoveFirstMultiset(markers, m);
      var i := IndexOf(markers, m);
      if i != -1 {
        RemoveFirstAt(markers, m, i);
        markers := markers[..i] + markers[i + 1..];
      } else {
        RemoveFirstAbsent(markers, m);
      }
    }

    /**
     * The list part of `resetMarker`: the marker is appended again whether or
     * not it is already listed, so it may appear twice.
     */
    method ResetMarker(m: M)
      modifies this`markers
      ensures markers == old(markers) + [m]
      ensures multiset(markers)[m] == multiset(old(markers))[m] + 1
    {
      markers := markers + [m];
    }

    /** `getMarkers`. */
    method GetMarkers() returns (r: seq<M>)
      ensures r == markers
    {
      r := markers;
    }

    /** `setMarkers`: the list is replaced wholesale. */
    method SetMarkers(arr: seq<M>)
      modifies this`markers
      ensures markers == arr
    {
      markers := arr;
    }

    /** `getLine`: the marker's last connector, `None` when it never had one. */
    method GetLine(m: M) returns (r: Option<Polyline<M>>)
      ensures m in lines <==> r.Some?
      ensures r.Some? ==> r.value == lines[m]
    {
      if m in lines {
        r := Some(lines[m]);
      } else {
        r := None;
      }
    }

    /**
     * `removeAllPolyline`: every connector is taken off the map, in list
     * order (`removed`), and the list is emptied. `marker.__ply` is left as it was.
     */
    method RemoveAllPolyline() returns (removed: seq<Polyline<M>>)
      modifies this`polylines
      ensures removed == old(polylines)
      ensures polylines == []
    {
      removed := [];
      for i := 0 to |polylines|
        invariant removed == polylines[..i]
      {
        removed := removed + [polylines[i]];
      }
      polylines := [];
    }

    /**
     * The synchronous part of `drawLine`: the connector list is emptied
     * first, then each entry in turn gets at most one pending connector, to
     * the attachment point of its label (`labels[i]`, the tooltip of
     * `markers[i]`) as seen from its marker's icon.
     */
    method DrawLine(labels: seq<Label>) returns (pending: seq<Option<Point>>)
      requires |labels| == |markers|
      modifies this`polylines
      ensures polylines == []
      ensures |pending| == |markers|
      ensures forall i :: 0 <= i < |pending| ==>
                pending[i] == Connector.Attachment(labels[i].pos, labels[i].icon, labels[i].size)
    {
      var _ := RemoveAllPolyline();
      pending := [];
      for i := 0 to |markers|
        invariant |pending| == i
        invariant forall j :: 0 <= j < i ==>
                    pending[j] == Connector.Attachment(labels[j].pos, labels[j].icon, labels[j].size)
      {
        var entry := labels[i];
        var x1 := entry.pos.x;
        var y1 := entry.pos.y;
        var x, y := entry.icon.x, entry.icon.y;
        x1 := x1 + Connector.BiasX;
        y1 := y1 + Connector.BiasY;
        if x1 - x != 0 || y1 - y != 0 {
          if x1 + entry.size.width < x {
            x1 := x1 + entry.size.width;
          }
          if y1 + entry.size.height < y {
            y1 := y1 + entry.size.height;
          }
          pending := pending + [Some(Point(x1, y1))];
        } else {
          pending := pending + [None];
        }
      }
    }

    /**
     * The deferred callback `drawLine` schedules for a marker: the new connector
     * is recorded as the marker's line and appended to the connector list.
     * It does not check whether a newer redraw has cleared the list since.
     */
    method CreatePolyline(m: M, dest: Point)
      modifies this`polylines, this`lines
      ensures polylines == old(polylines) + [Polyline(m, dest)]
      ensures lines == old(lines)[m := Polyline(m, dest)]
    {
      var ply := Polyline(m, dest);
      lines := lines[m := ply];
      polylines := polylines + [ply];
    }
  }
}
