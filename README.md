# beedots: the point store of a draggable scatter plot

The plot in `client.js` draws N = 10 dots. Clicking the background conjures a new dot. Clicking a dot destroys it. Dragging a dot moves it. A table under the plot shows every dot's id and data coordinates. The logic behind this is small:

- **Scales** (`scales.dfy`, module `Scales`). Four linear maps between data space [0,1] and pixel space: `xsc` to [0,W], `ysc` to [H,0] (the y axis is inverted), and their inverses `xsci` and `ysci`. They are built from one function, `Linear`, which is the d3 linear scale with domain [d0,d1] and range [r0,r1]. W and H are positive reals (`Extent`). Arithmetic is exact `real` arithmetic.
- **Point values** (`points.dfy`, module `Points`). A point is `Point(i, x, y)`. The module holds:
  - the id rule (`MaxId`, `NextId`);
  - removal by id, which models the array `filter` (`Remove`);
  - the table projection, one row `[i, x, y]` per point (`Rows`);
  - the initial store (`InitialPoints`);
  - lemmas saying that ids stay distinct and what removal does.
- **Client state** (`client.dfy`, module `Client`). Class `Plot` holds the module-level variables of `client.js`:
  - the store `points`;
  - the drag offsets `xdelta` and `ydelta`;
  - W and H.

  Its methods are the event handlers `Conjure`, `Destroy`, `DragStart` and `Drag`. `DragGesture` is a start event followed by a drag event. The class invariant `Valid()` says that ids are pairwise distinct. The constructor establishes it and every handler preserves it, so the invariant holds after any sequence of handler calls.

A dragged dot does not jump. `dragstart` records the gap between the pointer and the dot's centre, with the margins added. `ondrag` subtracts the margins and adds the gap back. So the dot's pixel centre moves by exactly the pointer's displacement (`DragFollowsPointer`, `Plot.DragGesture`).

Ids can be reused. The code hands out `max(ids) + 1`, so destroying the point with the largest id makes that id available again. `InitialIdReuse` shows the reuse on the initial store: destroying id 10 and then conjuring a point gives id 10 again. No lemma claims that ids are never reused.

## Model

| member | source | states |
|---|---|---|
| Scales.Linear | client.js:16-19 | a linear scale maps the start of its domain to the start of its range and the end to the end |
| Scales.LinearIsAffine | client.js:16-19 | a linear scale is a lerp: the difference of two outputs is the difference of the inputs times the range's extent over the domain's |
| Scales.LinearInverse | client.js:16-19 | the scale with domain and range swapped undoes a linear scale, for every value |
| Scales.XScale | client.js:16 | xsc(0)=0 and xsc(1)=W |
| Scales.YScale | client.js:17 | ysc(0)=H and ysc(1)=0, so the y axis is inverted |
| Scales.XInvert | client.js:18 | xsci(0)=0 and xsci(W)=1 |
| Scales.YInvert | client.js:19 | ysci(H)=0 and ysci(0)=1 |
| Scales.ScaleClosedForms | client.js:16-19 | xsc(v)=W·v, ysc(v)=H−H·v, xsci(p)=p/W and ysci(p)=1−p/H for every v and p |
| Scales.ScaleIntervals | client.js:16-17 | xsc maps [0,1] into [0,W] and ysc maps [0,1] into [0,H] |
| Scales.XRoundTrip | client.js:16-18 | xsci(xsc(v))=v and xsc(xsci(p))=p for every v and p; no clamping is assumed |
| Scales.YRoundTrip | client.js:17-19 | ysci(ysc(v))=v and ysc(ysci(p))=p for every v and p |
| Scales.XShift | client.js:16-18 | moving a dot's pixel column by d and mapping it back gives a data x whose pixel column is exactly d further; d=0 gives back the same x |
| Scales.YShift | client.js:17-19 | the same for rows and data y through ysc/ysci |
| Points.MaxId | client.js:49 | the result is the id of some point in the non-empty store and no id exceeds it |
| Points.NextId | client.js:49 | the new id exceeds every id in the store; it is 1 when the store is empty, and otherwise one more than an id that is present, which makes it max+1 |
| Points.Remove | client.js:56 | no point left by the filter has the removed id, and the filter never grows the store |
| Points.RemoveMembers | client.js:56 | a point survives the filter exactly when it was in the store and its id differs from the removed one |
| Points.RemoveAppend | client.js:56 | filtering a concatenation gives the concatenation of the filtered parts, so survivors keep their relative order |
| Points.RemoveAbsent | client.js:56 | destroying an id that no point has leaves the store unchanged |
| Points.RemoveUnique | client.js:56 | in a store with distinct ids, destroying the id of the k-th point removes exactly that point: the result is the store without position k, one shorter |
| Points.RemoveKeepsDistinct | client.js:56 | filtering preserves pairwise-distinct ids |
| Points.ConjureKeepsDistinct | client.js:49-51 | appending a point with the id conjure hands out preserves pairwise-distinct ids |
| Points.MoveKeepsDistinct | client.js:80-81 | overwriting one point's x and y while keeping its id preserves pairwise-distinct ids |
| Points.Rows | client.js:89 | the table has one row per point in store order; each row has three cells holding that point's id, x and y |
| Points.RowsDetermineStore | client.js:89 | two stores that produce the same table are equal, so the table shows the stored data coordinates exactly |
| Points.InitialPoints | client.js:21-24 | the initial store has N=10 points with ids 1..N in order and distinct; each x lies in (0,1); x is strictly increasing with spacing 1/N and symmetric about 1/2; each y is the given random value in [0,1) |
| Points.InitialIdReuse | client.js:47-56 | destroying the point with id N from the initial store and then conjuring a point hands out id N again, so ids are reused |
| Client.DragFollowsPointer | client.js:69-81 | with the offsets dragstart records, the position ondrag computes has its pixel centre moved by exactly the pointer's displacement on each axis; no pointer motion means no change of x or y |
| Client.Plot.constructor | client.js:21-32 | the store starts as the initial store with distinct ids; both drag offsets start at 0 |
| Client.Plot.Conjure | client.js:47-53 | the store grows by one point at the end; earlier points are unchanged; the new point has the next id, which exceeds all old ids, and x=xsci(xm), y=ysci(ym); ids stay distinct |
| Client.Plot.Destroy | client.js:55-58 | the store becomes the filtered store; an absent id leaves it unchanged; a present id removes exactly that one position; ids stay distinct |
| Client.Plot.DragStart | client.js:69-75 | the offsets become the dot's centre (scale plus margin) minus the pointer's offset coordinates; the store is unchanged |
| Client.Plot.Drag | client.js:77-85 | only the k-th point's x and y change: they become xsci(pointer minus margin plus offset) and the same for y; its id, the other points and the order are unchanged; the dot's rescaled centre equals the cx/cy that ondrag sets; ids stay distinct |
| Client.Plot.DragGesture | client.js:104-108 | a drag start followed by a drag records the offsets dragstart sets, puts the dot at xsci(xsc(x0)+(nx−sx)) and ysci(ysc(y0)+(ny−sy)), so its pixel centre moves by the pointer's displacement; it keeps the dot's id and every other point; zero motion leaves the store unchanged |

## Left out

- Rendering through d3 is left out: `updateC`'s data join, circle attributes, colours from `colorScale`, the axes, `tr()` and the table's DOM join. These are calls into a library that is not part of this model. The table's content is modelled as `Rows(points)`.
- `d3.pointer` and `event.sourceEvent.offsetX/Y` become plain real parameters. The handlers receive the pointer coordinates directly. d3's suppression of a click after a drag is not modelled.
- W and H are computed from `window.innerWidth` and `window.innerHeight` minus the margins. The model takes them as arbitrary positive reals. The right and bottom margins (MR, MB) and the dot radius DR appear only in that sizing and in rendering, so they are not modelled.
- Scales.Linear: requires a non-degenerate domain. With W > 0 and H > 0 this always holds. d3's behaviour for an empty domain is not modelled.
- `Math.random()` becomes the parameter `ys`: ten arbitrary values in [0,1).
- Floating-point rounding is not modelled. Scales use exact `real` arithmetic, so the round-trips hold exactly here, while in the program they hold only up to rounding. Dragged or conjured coordinates are not clamped to [0,1], because the code does not clamp them.
- Client.Plot.Drag and Client.Plot.DragStart: the dragged datum `d` is identified by its index in the store. In the program `d` is an object reference that is always an element of the store, because circles are re-joined to the store after every destroy.
