# Leaflet tooltip layout — the integer core, in Dafny

`leaflet-tooltip-layout` places permanent tooltips ("labels") near their
markers on a Leaflet map. It spreads them out with a force-directed simulation,
re-centres each one on its simulated point, and clamps them to the viewport.
Then it draws a connector polyline from each marker to its label. This project
models the parts of that plugin that are exact integer or sequence
computations, and proves what they guarantee:

- **Position parsing** (`getPosition`). A position is read back from a CSS
  `transform` text such as `translate3d(12px, 34px, 0px)`. The model follows
  JavaScript's `split` and `parseInt` exactly. That covers whitespace, the
  sign, the `0x` prefix, the longest digit run and `NaN`.
- **Re-centring** (the tail of `layoutByForce`). `Math.ceil(p - w/2)` is
  computed in whole numbers. A lemma proves it is the real ceiling.
- **Edge clamping** (`setEdgePosition`). This is the per-axis primary clamp,
  plus the secondary "push outside" rules. Those rules run only when no axis
  was primary-clamped, because one flag is shared by both axes.
- **Connector attachment** (`drawLine`). The biased corner `(-5, +2)` is
  moved to the box's far edge on an axis where the box falls short of the
  marker. A marker sitting exactly on the biased corner gets no connector.
- **Registry** (`addMarker`, `deleteMarker`, `resetMarker`, `getMarkers`,
  `setMarkers`, `getLine`, `removeAllPolyline`). This is a class
  `TooltipLayout` whose `seq`/`map` fields the methods reassign.

Positions, label sizes and the viewport corners come from Leaflet and the DOM.
They are parameters here, in whole pixels. The label positions that the layout
passes rewrite in place are `Label` objects, one per tooltip container, so
a marker listed twice reaches the same label twice.

Points where the code behaves differently from what its purpose suggests:

- The connector bias is `(-5, +2)`: the attachment sits 2 px below the label corner.
- There is no snapping of the connector angle. The attachment is fixed by the two comparisons in `lib/index.js:138-143`.
- The attachment point lies on the boundary of the label box moved by the
  bias, not on the label's own boundary. It can even lie strictly inside the
  label (`Connector.AttachmentInsideLabel`: a 100 by 20 label at the origin
  whose marker is at (200, 10) is attached at (95, 2)).
- The clamp is not idempotent (`EdgeClamp.ClampNotIdempotent`). A marker far
  west of the viewport does not always push its label west. When the label
  overflows the south edge, only the south clamp runs. When it overflows the
  east edge, it is snapped flush inside the east edge
  (`EdgeClamp.ClampFlushEast`: (750, 100) becomes (700, 100) in an 800 by 600
  viewport).

## Model

| member | source | states |
|---|---|---|
| `JsString.SplitAt` | lib/index.js:203-206 | the `k`-th piece of `split(sep)` exists exactly when the text holds at least `k` separators, and never contains the separator |
| `JsString.TrimStart` | lib/index.js:207 | `parseInt` first drops a prefix made only of JavaScript whitespace; what remains is a suffix that starts with a non-space |
| `JsString.ParseInt` | lib/index.js:207 | `parseInt` gives a number (not `NaN`) exactly when, after the whitespace and an optional sign, a decimal digit follows (after `0x`/`0X`, a hexadecimal digit); such text contains a decimal digit |
| `JsString.SignThenLetterIsNaN` | lib/index.js:207 | a sign followed by a non-digit, as in `-x5`, parses to `NaN` although the text holds a digit |
| `JsString.LetterIsNaN` | lib/index.js:207 | text that starts with anything but whitespace, a sign or a digit parses to `NaN` |
| `JsString.ParseIntOfString` | lib/index.js:207 | round trip: `parseInt` of whitespace, the printed integer `n` and any text not continuing the number gives back `n` |
| `Position.ParseField` | lib/index.js:207 | a missing field (`undefined`) parses to `NaN`; a number needs a present field with a digit |
| `Position.ArgumentList` | lib/index.js:203-205 | the argument text exists exactly when the transform has a `(` and holds no `(` or `)` |
| `Position.PositionOfArguments` | lib/index.js:206-207 | a position needs a `,` in the argument text; every other failure is `NaN` |
| `Position.GetPosition` | lib/index.js:202-208 | the call throws (no arguments) exactly when the transform has no `(` |
| `Position.ArgumentListOf` | lib/index.js:203-205 | the argument text is what follows the first `(`, up to the next `(` or `)` |
| `Position.GetPositionNeedsTwoFields` | lib/index.js:206-207 | an argument list with no `,` has no y field and yields no position |
| `Position.GetPositionNeedsIntegers` | lib/index.js:206-207 | when the x field or the y field has no leading integer, `parseInt` gives `NaN` and there is no position, whatever further fields follow |
| `Position.GetPositionNeedsDigits` | lib/index.js:206-207 | in particular, an x or y field with no digit at all gives no position, whatever further fields follow |
| `Position.LeadingLetterIsNaN` | lib/index.js:207 | a field such as `px5` holds a digit and still parses to `NaN` |
| `Position.GetPositionOfTransform` | lib/index.js:202-208 | round trip: `name(<x>px,<spaces><y>px…` gives back `(x, y)` whatever the name and the tail |
| `Recenter.ShiftByHalf` | lib/index.js:279 | the integer result is the ceiling of `p - extent/2`, as `Math.ceil` computes it |
| `Recenter.Recentered` | lib/index.js:276-279 | both coordinates of the new corner are the ceilings of position minus half the size |
| `Geometry.RewriteAll` | lib/index.js:275-281 | a pass over the marker list reads each entry's label back and rewrites it in place, in list order; a label listed `k` times is moved `k` times |
| `Recenter.RecenterTwiceDiffers` | lib/index.js:275-281 | a label reached twice (its marker listed twice) is re-centred twice, which differs from once |
| `Recenter.RecenterLabels` | lib/index.js:275-281 | every label is re-centred once per list entry that reaches it, in place; a label listed once ends on its re-centred corner (one step of the pass is `Recentered`, by the helper `RecenteredOnce`) |
| `EdgeClamp.PrimaryClamp` | lib/index.js:296-310 | the clamp fires exactly when the coordinate changes; a marker inside with a fitting label gives `max(lo, min(t, hi - w))`; a marker at or before the near edge gives `min(t, hi - w)`; a marker at or past the far edge gives `max(t, lo)` |
| `EdgeClamp.PushOutside` | lib/index.js:312-324 | with the marker before the near edge the coordinate becomes `min(t, lo - w)`; with the marker past the far edge it becomes `max(t, hi)`; otherwise it is unchanged |
| `EdgeClamp.ClampLabel` | lib/index.js:290-326 | with the marker strictly inside on an axis and the label fitting, the coordinate becomes `max(nw, min(t, se - w))` on that axis: inside, and unchanged if it already was |
| `EdgeClamp.ClampPushesOutsideX` | lib/index.js:312-317 | with no primary clamp, a marker west of the viewport gives x = `min(x, nw.x - width)`, one east of it gives x = `max(x, se.x)`, and one in between leaves x unchanged |
| `EdgeClamp.ClampPushesOutsideY` | lib/index.js:319-323 | the same north and south, with `nw.y - height` and `se.y` |
| `EdgeClamp.ClampSharedEdgeFlag` | lib/index.js:295-312 | once a primary clamp fires on either axis, an axis without a primary clamp keeps its coordinate |
| `EdgeClamp.ClampIdempotentInside` | lib/index.js:296-310 | with the marker inside and the label fitting on both axes, a second pass changes nothing |
| `EdgeClamp.ClampNotIdempotent` | lib/index.js:295-324 | a second pass can move a label that the first pass left, so the pass is not idempotent |
| `EdgeClamp.ClampFlushEast` | lib/index.js:299-301 | a label of a marker far west that overflows the east edge is snapped flush inside the east edge, not pushed west |
| `EdgeClamp.ClampLabels` | lib/index.js:289-327 | every label is clamped in place against its own marker's icon and its own size, once per list entry that reaches it; a label listed once ends on its clamped position (one step of the pass is `ClampLabel`, by the helper `ClampedOnce`) |
| `Connector.Attachment` | lib/index.js:130-143 | no connector exactly when the biased corner is the marker; otherwise each coordinate is on the near or far edge of the biased box, and it is the far edge exactly when the box falls short of the marker |
| `Connector.AttachmentFacesMarkerX` | lib/index.js:138-140 | when the biased box lies to one side of the marker, no x of the box is closer to the marker than the attachment |
| `Connector.AttachmentFacesMarkerY` | lib/index.js:141-143 | the same on the y axis |
| `Connector.AttachmentInsideLabel` | lib/index.js:135-143 | the attachment can lie strictly inside the label's own box |
| `Registry.RemoveFirstAbsent` | lib/index.js:70-75 | deleting a marker that is not listed leaves the list unchanged |
| `Registry.RemoveFirstAt` | lib/index.js:70-75 | deleting removes exactly the first occurrence; the rest keep their order |
| `Registry.RemoveFirstMultiset` | lib/index.js:70-75 | deleting removes exactly one copy of a listed marker and nothing else |
| `Registry.IndexOf` | lib/index.js:71 | `indexOf` gives the first index holding the marker, or -1 exactly when it is absent |
| `Registry.TooltipLayout.constructor` | lib/index.js:14-16 | the plugin starts with no markers and no connectors |
| `Registry.TooltipLayout.AddMarker` | lib/index.js:66-68 | the marker is appended; the old list is a prefix of the new one |
| `Registry.TooltipLayout.DeleteMarker` | lib/index.js:70-75 | the new list is the old one without its first copy of the marker; an absent marker changes nothing |
| `Registry.TooltipLayout.ResetMarker` | lib/index.js:92 | the marker is appended even if already listed, so its count grows by one |
| `Registry.TooltipLayout.GetMarkers` | lib/index.js:95-97 | returns the marker list |
| `Registry.TooltipLayout.SetMarkers` | lib/index.js:99-101 | the marker list is replaced |
| `Registry.TooltipLayout.GetLine` | lib/index.js:103-105 | a marker's last connector, absent if it never had one |
| `Registry.TooltipLayout.RemoveAllPolyline` | lib/index.js:107-113 | every connector is removed from the map in list order, and the list ends empty |
| `Registry.TooltipLayout.DrawLine` | lib/index.js:119-143 | the connector list is emptied first; each list entry gets at most one pending connector, whose end is the attachment point of its `Label` as seen from its marker's icon |
| `Registry.TooltipLayout.CreatePolyline` | lib/index.js:147-156 | the deferred callback appends the new connector and records it as the marker's line |

## Left out

- The force simulation (`computePositionStep`, `normalize`, `fa`, `fr`, `scaleTo`) and the temperature schedule of `layoutByForce`: floating-point `sqrt` and division over the window size.
- `setRandomPos`: it places labels with `Math.sin` and `Math.cos`.
- `initialize` and `redrawLines`: event wiring and sequencing over the host map.
- Leaflet and DOM calls: `getBounds`, `latLngToLayerPoint`, `layerPointToLatLng`, `removeLayer`, `setTransform`, `setPosition`, `bindTooltip`, `unbindTooltip`, `offsetWidth` and `offsetHeight`. Their results are parameters. Connector ends stay layer points rather than map coordinates.
- `resetMarker`'s rebinding of the tooltip with new options: widget calls only. The model keeps the append.
- `setTimeout`: `DrawLine` returns the pending connectors in the order their deferred callbacks are queued. `CreatePolyline` is the body of one callback. `L.polyline` and the `onPolylineCreated` style callback are not modelled.
- The label list that `RecenterLabels` and `ClampLabels` walk stands for `markerList[i].getTooltip()`. The model does not derive it from `TooltipLayout.markers`. A label's size and its marker's icon position are fixed while a pass runs.
- Aliasing: `getMarkers` and `setMarkers` share the caller's array in JavaScript. Here they copy a sequence value, so later changes the caller makes to that array are not seen.
- `Position.GetPosition`: the source builds a point holding `NaN` and carries on. The model returns a failure for that position instead.
- `JsString.ParseIntOfString`: number precision is not modelled. Above 2^53 JavaScript rounds; the model gives the exact integer.
- `JsString.IntToString`: the text Leaflet writes is modelled only for integers below 10^21 in magnitude. Larger numbers print in exponent form.
