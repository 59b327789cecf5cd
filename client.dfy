/**
 The module-level state of the scatter plot and the event handlers that
 change it: the point store `points`, the drag offsets `xdelta`/`ydelta`,
 and the surface size W x H fixed at start-up.
 */
module Client {
  import opened Scales
  import opened Points

  /** Left margin of the drawing surface, in pixels. */
  const ML: real := 31.0
  /** Top margin of the drawing surface, in pixels. */
  const MT: real := 11.0

  /**
   Dragging with the offsets recorded at drag start moves the dot's pixel
   centre by exactly the pointer's displacement since drag start, on both
   axes; a pointer that has not moved leaves the point where it was.
   (`sx`, `sy` are the pointer's offset coordinates at drag start and
   `nx`, `ny` at the current drag event.)
   */
  lemma DragFollowsPointer(w: Extent, h: Extent, p: Point, sx: real, sy: real, nx: real, ny: real)
    ensures var xdelta, ydelta := XScale(w, p.x) + ML - sx, YScale(h, p.y) + MT - sy;
            var x, y := XInvert(w, (nx - ML) + xdelta), YInvert(h, (ny - MT) + ydelta);
            XScale(w, x) == XScale(w, p.x) + (nx - sx) &&
            YScale(h, y) == YScale(h, p.y) + (ny - sy) &&
            (nx == sx ==> x == p.x) && (ny == sy ==> y == p.y)
  {
    var xdelta, ydelta := XScale(w, p.x) + ML - sx, YScale(h, p.y) + MT - sy;
    assert (nx - ML) + xdelta == XScale(w, p.x) + (nx - sx);
    assert (ny - MT) + ydelta == YScale(h, p.y) + (ny - sy);
    XShift(w, p.x, nx - sx);
    YShift(h, p.y, ny - sy);
  }

  class Plot {
    /** W: width of the drawing surface without the margins. */
    const w: Extent
    /** H: height of the drawing surface without the margins. */
    const h: Extent
    /** The point store, in insertion order. */
    var points: seq<Point>
    /** Offset from the pointer to the dragged dot's centre, recorded at drag start. */
    var xdelta: real
    var ydelta: real

    /** The store's invariant: ids are pairwise distinct. */
    ghost predicate Valid()
      reads this
    {
      IdsDistinct(points)
    }

    /** Start-up: N evenly spaced points with random heights `ys`, no drag offset yet. */
    constructor (w: Extent, h: Extent, ys: seq<real>)
      requires |ys| == N
      requires forall k :: 0 <= k < |ys| ==> 0.0 <= ys[k] < 1.0
      ensures Valid()
      ensures this.w == w && this.h == h
      ensures points == InitialPoints(ys)
      ensures xdelta == 0.0 && ydelta == 0.0
    {
      this.w, this.h := w, h;
      points := InitialPoints(ys);
      xdelta, ydelta := 0.0, 0.0;
    }

    /**
     A click on the background at (xm, ym), relative to the surface, appends
     a point there whose id is one past every id in the store.
     */
    method Conjure(xm: real, ym: real)
      requires Valid()
      modifies this`points
      ensures Valid()
      ensures |points| == |old(points)| + 1 && points[..|old(points)|] == old(points)
      ensures points[|old(points)|] == Point(NextId(old(points)), XInvert(w, xm), YInvert(h, ym))
      ensures forall k :: 0 <= k < |old(points)| ==> old(points)[k].i < points[|old(points)|].i
    {
      ConjureKeepsDistinct(points, XInvert(w, xm), YInvert(h, ym));
      points := points + [Point(NextId(points), XInvert(w, xm), YInvert(h, ym))];
    }

    /**
     A click on the dot with id `i` removes every point with that id; the
     rest keep their order. With distinct ids that is exactly one point, or
     none when the id is absent.
     */
    method Destroy(i: int)
      requires Valid()
      modifies this`points
      ensures Valid()
      ensures points == Remove(old(points), i)
      ensures !HasId(old(points), i) ==> points == old(points)
      ensures forall k :: 0 <= k < |old(points)| && old(points)[k].i == i ==>
                points == old(points)[..k] + old(points)[k + 1..]
    {
      ghost var before := points;
      RemoveKeepsDistinct(points, i);
      points := Remove(points, i);
      if !HasId(before, i) {
        RemoveAbsent(before, i);
      }
      forall k | 0 <= k < |before| && before[k].i == i
        ensures points == before[..k] + before[k + 1..]
      {
        RemoveUnique(before, k);
      }
    }

    /**
     Press on the k-th dot with the pointer at offset coordinates (ox, oy):
     remember the offset from the pointer to the dot's centre (the centre
     is shifted by the margins, like the pointer).
     */
    method DragStart(k: nat, ox: real, oy: real)
      requires k < |points|
      modifies this`xdelta, this`ydelta
      ensures xdelta == XScale(w, points[k].x) + ML - ox
      ensures ydelta == YScale(h, points[k].y) + MT - oy
    {
      var xp, yp := XScale(w, points[k].x) + ML, YScale(h, points[k].y) + MT;
      xdelta, ydelta := xp - ox, yp - oy;
    }

    /**
     The pointer moves to offset coordinates (ox, oy) while dragging the
     k-th dot: its data position becomes the pointer plus the recorded
     offset, converted back through the scales. Nothing else changes.
     */
    method Drag(k: nat, ox: real, oy: real)
      requires Valid() && k < |points|
      modifies this`points
      ensures Valid()
      ensures |points| == |old(points)|
      ensures points[k] == Point(old(points)[k].i, XInvert(w, ox - ML + xdelta), YInvert(h, oy - MT + ydelta))
      ensures forall j :: 0 <= j < |points| && j != k ==> points[j] == old(points)[j]
      ensures XScale(w, points[k].x) == ox - ML + xdelta
      ensures YScale(h, points[k].y) == oy - MT + ydelta
    {
      var xm, ym := ox - ML, oy - MT;
      var x, y := XInvert(w, xm + xdelta), YInvert(h, ym + ydelta);
      XRoundTrip(w, points[k].x, xm + xdelta);
      YRoundTrip(h, points[k].y, ym + ydelta);
      MoveKeepsDistinct(points, k, x, y);
      points := points[k := Point(points[k].i, x, y)];
    }

    /**
     One drag gesture as the drag behaviour wires it: a start event at
     (sx, sy) and then a drag event at (nx, ny). The dot's pixel centre
     moves by exactly the pointer's displacement, so it does not jump; the
     recorded offsets stay in place for the gesture's later drag events.
     */
    method DragGesture(k: nat, sx: real, sy: real, nx: real, ny: real)
      requires Valid() && k < |points|
      modifies this`points, this`xdelta, this`ydelta
      ensures Valid() && |points| == |old(points)|
      ensures xdelta == XScale(w, old(points)[k].x) + ML - sx
      ensures ydelta == YScale(h, old(points)[k].y) + MT - sy
      ensures points[k].i == old(points)[k].i
      ensures points[k].x == XInvert(w, XScale(w, old(points)[k].x) + (nx - sx))
      ensures points[k].y == YInvert(h, YScale(h, old(points)[k].y) + (ny - sy))
      ensures XScale(w, points[k].x) == XScale(w, old(points)[k].x) + (nx - sx)
      ensures YScale(h, points[k].y) == YScale(h, old(points)[k].y) + (ny - sy)
      ensures nx == sx && ny == sy ==> points == old(points)
      ensures forall j :: 0 <= j < |points| && j != k ==> points[j] == old(points)[j]
    {
      DragStart(k, sx, sy);
      DragFollowsPointer(w, h, points[k], sx, sy, nx, ny);
      Drag(k, nx, ny);
    }
  }
}
