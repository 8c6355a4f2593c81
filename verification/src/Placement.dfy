/** Zone.place: shelf packing of footprints inside a rectangular zone. Lengths in millimetres. */
module Placement {
  import opened Common

  const MARGIN: real := 0.5
  const INSET: real := 1.0

  datatype Bounds = Bounds(xMin: real, yMin: real, xMax: real, yMax: real)
  datatype Cursor = Cursor(x: real, y: real, rowHeight: real)

  /** A placed footprint, by its centre. */
  datatype Box = Box(x: real, y: real, w: real, h: real) {
    function Left(): real { x - w / 2.0 }
    function Right(): real { x + w / 2.0 }
    function Bottom(): real { y - h / 2.0 }
    function Top(): real { y + h / 2.0 }
  }

  datatype Request = Request(w: real, h: real)

  function Home(b: Bounds): Cursor {
    Cursor(b.xMin + INSET, b.yMin + INSET, 0.0)
  }

  /** Start a new row when the footprint does not fit in the current one. */
  function Wrapped(b: Bounds, c: Cursor, w: real): Cursor {
    if c.x + (w + MARGIN) > b.xMax then Cursor(b.xMin + INSET, c.y + (c.rowHeight + MARGIN), 0.0) else c
  }

  function Fits(b: Bounds, c: Cursor, r: Request): bool {
    Wrapped(b, c, r.w).y + (r.h + MARGIN) <= b.yMax
  }

  function Max(a: real, b: real): real {
    if b > a then b else a
  }

  function Placed(b: Bounds, c: Cursor, r: Request): Box {
    var d := Wrapped(b, c, r.w);
    Box(d.x + r.w / 2.0, d.y + r.h / 2.0, r.w, r.h)
  }

  function Next(b: Bounds, c: Cursor, r: Request): Cursor {
    var d := Wrapped(b, c, r.w);
    if Fits(b, c, r) then Cursor(d.x + (r.w + MARGIN), d.y, Max(d.rowHeight, r.h + MARGIN)) else d
  }

  class Zone {
    const bounds: Bounds
    var cursorX: real
    var cursorY: real
    var rowHeight: real

    function View(): Cursor
      reads this
    {
      Cursor(cursorX, cursorY, rowHeight)
    }

    constructor (xMin: real, yMin: real, xMax: real, yMax: real)
      ensures bounds == Bounds(xMin, yMin, xMax, yMax) && View() == Home(bounds)
    {
      bounds := Bounds(xMin, yMin, xMax, yMax);
      cursorX, cursorY, rowHeight := xMin + INSET, yMin + INSET, 0.0;
    }

    method Place(w: real, h: real) returns (r: Option<(real, real)>)
      modifies this
      ensures View() == Next(bounds, old(View()), Request(w, h))
      ensures r == if Fits(bounds, old(View()), Request(w, h))
                   then Some((Placed(bounds, old(View()), Request(w, h)).x, Placed(bounds, old(View()), Request(w, h)).y))
                   else None
    {
      var neededW, neededH := w + MARGIN, h + MARGIN;
      if cursorX + neededW > bounds.xMax {
        cursorX := bounds.xMin + INSET;
        cursorY := cursorY + (rowHeight + MARGIN);
        rowHeight := 0.0;
      }
      if cursorY + neededH > bounds.yMax {
        return None;
      }
      r := Some((cursorX + w / 2.0, cursorY + h / 2.0));
      cursorX := cursorX + neededW;
      rowHeight := Max(rowHeight, neededH);
    }
  }

  // -------------------------------------------------------------------- runs

  function Run(b: Bounds, rs: seq<Request>): Cursor {
    if rs == [] then Home(b) else Next(b, Run(b, rs[..|rs| - 1]), rs[|rs| - 1])
  }

  /** The boxes placed by a sequence of calls; a call that fails places none. */
  function Boxes(b: Bounds, rs: seq<Request>): seq<Box> {
    if rs == [] then []
    else
      var c, r := Run(b, rs[..|rs| - 1]), rs[|rs| - 1];
      Boxes(b, rs[..|rs| - 1]) + if Fits(b, c, r) then [Placed(b, c, r)] else []
  }

  /** At least a margin apart on one axis. */
  predicate Apart(p: Box, q: Box) {
    || p.Right() + MARGIN <= q.Left() || q.Right() + MARGIN <= p.Left()
    || p.Top() + MARGIN <= q.Bottom() || q.Top() + MARGIN <= p.Bottom()
  }

  /** Every box lies left of the cursor in the current row, or wholly below that row. */
  ghost predicate Behind(b: Bounds, c: Cursor, boxes: seq<Box>) {
    && c.rowHeight >= 0.0 && c.x >= b.xMin + INSET && c.y >= b.yMin + INSET
    && (forall i :: 0 <= i < |boxes| ==>
          boxes[i].Top() + MARGIN <= c.y || (boxes[i].Right() + MARGIN <= c.x && boxes[i].Top() + MARGIN <= c.y + c.rowHeight))
    && (forall i, j :: 0 <= i < j < |boxes| ==> Apart(boxes[i], boxes[j]))
  }

  lemma WrapKeeps(b: Bounds, c: Cursor, boxes: seq<Box>, w: real)
    requires Behind(b, c, boxes)
    ensures Behind(b, Wrapped(b, c, w), boxes)
  {
  }

  lemma PlaceKeeps(b: Bounds, c: Cursor, boxes: seq<Box>, r: Request)
    requires Behind(b, c, boxes) && r.w > 0.0 && r.h > 0.0 && Fits(b, c, r)
    ensures Behind(b, Next(b, c, r), boxes + [Placed(b, c, r)])
  {
    WrapKeeps(b, c, boxes, r.w);
    var box, d := Placed(b, c, r), Wrapped(b, c, r.w);
    assert box.Left() == d.x && box.Right() == d.x + r.w && box.Bottom() == d.y && box.Top() == d.y + r.h;
    forall i | 0 <= i < |boxes| ensures Apart(boxes[i], box) {
    }
  }

  ghost predicate Inside(b: Bounds, box: Box) {
    b.xMin + INSET <= box.Left() && b.yMin + INSET <= box.Bottom() && box.Top() + MARGIN <= b.yMax
  }

  /** Over any sequence of calls with positive sizes, failing ones included: the boxes placed keep the margin from each
      other pairwise, and stay inside the zone on three sides. */
  lemma {:induction false} BoxesApart(b: Bounds, rs: seq<Request>)
    requires forall r :: r in rs ==> r.w > 0.0 && r.h > 0.0
    ensures Behind(b, Run(b, rs), Boxes(b, rs))
    ensures forall i, j :: 0 <= i < j < |Boxes(b, rs)| ==> Apart(Boxes(b, rs)[i], Boxes(b, rs)[j])
    ensures forall i :: 0 <= i < |Boxes(b, rs)| ==> Inside(b, Boxes(b, rs)[i])
  {
    if rs != [] {
      var init, r := rs[..|rs| - 1], rs[|rs| - 1];
      assert r in rs;
      BoxesApart(b, init);
      var c := Run(b, init);
      if Fits(b, c, r) {
        PlaceKeeps(b, c, Boxes(b, init), r);
        WrapKeeps(b, c, Boxes(b, init), r.w);
      } else {
        WrapKeeps(b, c, Boxes(b, init), r.w);
      }
    }
  }

  /** The tallest of the boxes standing at height `y`, its margin included. */
  function RowHeight(boxes: seq<Box>, y: real): real {
    if boxes == [] then 0.0
    else
      var rest, last := RowHeight(boxes[..|boxes| - 1], y), boxes[|boxes| - 1];
      if last.Bottom() == y && last.h + MARGIN > rest then last.h + MARGIN else rest
  }

  lemma {:induction false} EmptyRow(boxes: seq<Box>, y: real)
    requires forall i :: 0 <= i < |boxes| ==> boxes[i].Bottom() < y
    ensures RowHeight(boxes, y) == 0.0
  {
    if boxes != [] {
      EmptyRow(boxes[..|boxes| - 1], y);
    }
  }

  ghost predicate NoneAbove(c: Cursor, boxes: seq<Box>) {
    (forall i :: 0 <= i < |boxes| ==> boxes[i].Bottom() <= c.y) && c.rowHeight == RowHeight(boxes, c.y)
  }

  lemma WrapTracks(b: Bounds, c: Cursor, boxes: seq<Box>, w: real)
    requires NoneAbove(c, boxes) && c.rowHeight >= 0.0
    ensures NoneAbove(Wrapped(b, c, w), boxes)
  {
    var d := Wrapped(b, c, w);
    if d != c {
      EmptyRow(boxes, d.y);
    }
  }

  lemma PlaceTracks(b: Bounds, c: Cursor, boxes: seq<Box>, r: Request)
    requires NoneAbove(c, boxes) && c.rowHeight >= 0.0 && Fits(b, c, r)
    ensures NoneAbove(Next(b, c, r), boxes + [Placed(b, c, r)])
  {
    WrapTracks(b, c, boxes, r.w);
    var box := Placed(b, c, r);
    assert box.Bottom() == Wrapped(b, c, r.w).y;
    assert (boxes + [box])[..|boxes + [box]| - 1] == boxes;
  }

  lemma {:induction false} RowTracked(b: Bounds, rs: seq<Request>)
    requires forall r :: r in rs ==> r.w > 0.0 && r.h > 0.0
    ensures NoneAbove(Run(b, rs), Boxes(b, rs)) && Run(b, rs).rowHeight >= 0.0
  {
    if rs != [] {
      var init, r := rs[..|rs| - 1], rs[|rs| - 1];
      assert r in rs;
      RowTracked(b, init);
      var c, boxes := Run(b, init), Boxes(b, init);
      hide NoneAbove, Behind, Placed;
      if Fits(b, c, r) {
        PlaceTracks(b, c, boxes, r);
      } else {
        WrapTracks(b, c, boxes, r.w);
        assert boxes + [] == boxes;
      }
    }
  }

  /** Where the box after a placed box `p` goes. If there is room to the right it stands next to `p`, a margin away, at
      the same height; otherwise it starts a new row at the left, a margin above the row of `p`. It is placed exactly when
      it keeps the margin to the top there. */
  lemma NextToLast(b: Bounds, rs: seq<Request>, r: Request)
    requires rs != [] && r.w > 0.0 && r.h > 0.0 && forall q :: q in rs ==> q.w > 0.0 && q.h > 0.0
    requires Fits(b, Run(b, rs[..|rs| - 1]), rs[|rs| - 1])
    ensures Boxes(b, rs) != []
    ensures var boxes := Boxes(b, rs); var p := boxes[|boxes| - 1];
            var beside := p.Right() + MARGIN + r.w + MARGIN <= b.xMax;
            var left := if beside then p.Right() + MARGIN else b.xMin + INSET;
            var bottom := if beside then p.Bottom() else p.Bottom() + RowHeight(boxes, p.Bottom()) + MARGIN;
            Boxes(b, rs + [r]) ==
            if bottom + r.h + MARGIN <= b.yMax then boxes + [Box(left + r.w / 2.0, bottom + r.h / 2.0, r.w, r.h)] else boxes
  {
    var c := Run(b, rs[..|rs| - 1]);
    var p := Placed(b, c, rs[|rs| - 1]);
    RowTracked(b, rs);
    assert p.Right() + MARGIN == Run(b, rs).x && p.Bottom() == Run(b, rs).y;
    assert Boxes(b, rs)[|Boxes(b, rs)| - 1] == p;
    assert (rs + [r])[..|rs|] == rs;
  }

  /** A call that fails places nothing. It leaves no trace when there was room to the right; otherwise the row it would
      have needed stays begun. */
  lemma FailedCall(b: Bounds, rs: seq<Request>, r: Request)
    requires !Fits(b, Run(b, rs), r)
    ensures Boxes(b, rs + [r]) == Boxes(b, rs)
    ensures var c := Run(b, rs);
            Run(b, rs + [r]) == if c.x + r.w + MARGIN <= b.xMax then c
                                else Cursor(b.xMin + INSET, c.y + c.rowHeight + MARGIN, 0.0)
  {
    assert (rs + [r])[..|rs|] == rs;
  }

  /** The first box goes to the lower left corner, an inset away from both sides, if it fits at all. */
  lemma FirstBox(b: Bounds, r: Request)
    requires r.w + INSET + MARGIN <= b.xMax - b.xMin
    ensures Boxes(b, [r]) ==
            if b.yMin + INSET + r.h + MARGIN <= b.yMax
            then [Box(b.xMin + INSET + r.w / 2.0, b.yMin + INSET + r.h / 2.0, r.w, r.h)] else []
  {
    assert [r][..0] == [];
  }

  /** The fourth side is not checked by the code: a box stays clear of the right edge by at least `slack`, not more than
      the margin, exactly when its width leaves room for the inset and that slack. */
  lemma RightEdge(b: Bounds, rs: seq<Request>, r: Request, slack: real)
    requires forall q :: q in rs ==> q.w > 0.0 && q.h > 0.0
    requires r.w > 0.0 && 0.0 <= slack <= MARGIN
    ensures Placed(b, Run(b, rs), r).Right() + slack <= b.xMax <==> r.w + INSET + slack <= b.xMax - b.xMin
  {
    BoxesApart(b, rs);
  }
}
