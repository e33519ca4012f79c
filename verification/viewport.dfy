/** The editor's pan/zoom transform `translate(tx, ty) scale(scale)` and the
    coordinate conversions and gestures built on it. Coordinates are exact
    reals; the transform origin is the viewport's top-left corner. */
module Viewport {

  const MinScale: real := 0.4
  const MaxScale: real := 2.5

  datatype Point = Point(x: real, y: real)

  /** The editor element's bounding rectangle in client coordinates. */
  datatype Rect = Rect(left: real, top: real, width: real, height: real)

  /** The transform state `{scale, tx, ty}`. */
  datatype View = View(scale: real, tx: real, ty: real)

  const Initial: View := View(1.0, 0.0, 0.0)

  predicate Valid(v: View) {
    MinScale <= v.scale <= MaxScale
  }

  /** `clamp(v, a, b)`: `Math.max(a, Math.min(b, v))`. */
  function Clamp(v: real, lo: real, hi: real): (r: real)
    requires lo <= hi
    ensures lo <= r <= hi
    ensures lo <= v <= hi ==> r == v
    ensures v < lo ==> r == lo
    ensures v > hi ==> r == hi
  {
    if v < lo then lo else if v > hi then hi else v
  }

  /** A point relative to the editor's top-left corner, in content
      coordinates: undo the translation, then the scale. */
  function LocalToContent(v: View, local: Point): (r: Point)
    requires v.scale > 0.0
    ensures r.x * v.scale + v.tx == local.x && r.y * v.scale + v.ty == local.y
  {
    Point((local.x - v.tx) / v.scale, (local.y - v.ty) / v.scale)
  }

  /** `clientToContent(x, y)`: the content point the transform draws at
      `client`. */
  function ClientToContent(v: View, editor: Rect, client: Point): (r: Point)
    requires v.scale > 0.0
    ensures ContentToClient(v, editor, r) == client
  {
    LocalToContent(v, Point(client.x - editor.left, client.y - editor.top))
  }

  /** Where the transform draws a content point, in client coordinates (what
      `getBoundingClientRect` reports for an element placed there). */
  function ContentToClient(v: View, editor: Rect, c: Point): Point {
    Point(editor.left + v.tx + v.scale * c.x, editor.top + v.ty + v.scale * c.y)
  }

  /** Converting a drawn point back gives the content point. */
  lemma ContentRoundTrip(v: View, editor: Rect, c: Point)
    requires v.scale > 0.0
    ensures ClientToContent(v, editor, ContentToClient(v, editor, c)) == c
  {
    var r := ClientToContent(v, editor, ContentToClient(v, editor, c));
    assert r.x * v.scale == c.x * v.scale;
    assert r.y * v.scale == c.y * v.scale;
  }

  /** `centerContent()`: the content point drawn at the editor's centre. */
  function CenterContent(v: View, editor: Rect): (r: Point)
    requires v.scale > 0.0
    ensures ContentToClient(v, editor, r) == Point(editor.left + editor.width / 2.0, editor.top + editor.height / 2.0)
  {
    ClientToContent(v, editor, Point(editor.left + editor.width / 2.0, editor.top + editor.height / 2.0))
  }

  /** The wheel handler: scale by `factor` (`Math.exp(-deltaY * 0.001)`,
      always positive), clamped to the allowed range, about the pointer
      position `local` relative to the editor. */
  function Wheel(v: View, local: Point, factor: real): (r: View)
    requires Valid(v) && factor > 0.0
    ensures Valid(r)
    ensures r.scale == Clamp(v.scale * factor, MinScale, MaxScale)
    ensures r.scale == v.scale ==> r == v
    ensures LocalToContent(r, local) == LocalToContent(v, local)
  {
    var next := Clamp(v.scale * factor, MinScale, MaxScale);
    if next == v.scale then v
    else
      var world := LocalToContent(v, local);
      var r := View(next, local.x - world.x * next, local.y - world.y * next);
      assert LocalToContent(r, local).x * next == world.x * next;
      assert LocalToContent(r, local).y * next == world.y * next;
      r
  }

  /** Zooming in and back out by the inverse factor, about the same point,
      restores the view when neither step was clamped. */
  lemma WheelUndo(v: View, local: Point, factor: real)
    requires Valid(v) && factor > 0.0
    requires MinScale <= v.scale * factor <= MaxScale
    ensures Wheel(Wheel(v, local, factor), local, 1.0 / factor) == v
  {
    var w := Wheel(v, local, factor);
    assert w.scale * (1.0 / factor) == v.scale;
    var u := Wheel(w, local, 1.0 / factor);
    assert u.scale == v.scale;
    var c := LocalToContent(v, local);
    assert LocalToContent(u, local) == c;
    assert u.tx == local.x - c.x * v.scale;
    assert u.ty == local.y - c.y * v.scale;
  }

  /** What a middle-button press remembers: `{startX, startY, startTx,
      startTy, pointerId}`. */
  datatype PanGrab = PanGrab(start: Point, startTx: real, startTy: real, pointerId: int)

  function PanStart(v: View, client: Point, pointerId: int): (g: PanGrab)
    ensures g.start == client && g.startTx == v.tx && g.startTy == v.ty && g.pointerId == pointerId
  {
    PanGrab(client, v.tx, v.ty, pointerId)
  }

  /** The pan's pointer-move handler: the translation is the grab-time
      translation plus the pointer's travel; other pointers are ignored. */
  function PanMove(v: View, g: PanGrab, pointerId: int, client: Point): (r: View)
    ensures pointerId != g.pointerId ==> r == v
    ensures r.scale == v.scale
    ensures pointerId == g.pointerId ==>
              r.tx - g.startTx == client.x - g.start.x && r.ty - g.startTy == client.y - g.start.y
  {
    if pointerId != g.pointerId then v
    else View(v.scale, g.startTx + (client.x - g.start.x), g.startTy + (client.y - g.start.y))
  }

  /** Only the latest pointer position matters: a pan does not accumulate
      error over many moves. */
  lemma PanPathIndependent(v: View, g: PanGrab, pointerId: int, a: Point, b: Point)
    ensures PanMove(PanMove(v, g, pointerId, a), g, pointerId, b) == PanMove(v, g, pointerId, b)
  {
  }

  /** The content point grabbed stays under the pointer while panning. */
  lemma PanKeepsGrabbedPoint(v: View, editor: Rect, client: Point, pointerId: int, to: Point)
    requires v.scale > 0.0
    ensures var g := PanStart(v, client, pointerId);
            ClientToContent(PanMove(v, g, pointerId, to), editor, to) == ClientToContent(v, editor, client)
  {
  }

  /** What a node-header press remembers: the pointer and the node's
      position (`offsetLeft`, `offsetTop`) at the press. */
  datatype NodeGrab = NodeGrab(pointerId: int, start: Point, startPos: Point)

  /** The node's new position: the pointer's travel divided by the current
      scale, added to the position at the press. */
  function NodeDragMove(v: View, g: NodeGrab, client: Point): (r: Point)
    requires v.scale > 0.0
    ensures (r.x - g.startPos.x) * v.scale == client.x - g.start.x
    ensures (r.y - g.startPos.y) * v.scale == client.y - g.start.y
  {
    Point(g.startPos.x + (client.x - g.start.x) / v.scale, g.startPos.y + (client.y - g.start.y) / v.scale)
  }

  /** On screen, a dragged node travels exactly as far as the pointer. */
  lemma NodeFollowsPointer(v: View, editor: Rect, g: NodeGrab, client: Point)
    requires v.scale > 0.0
    ensures var moved := ContentToClient(v, editor, NodeDragMove(v, g, client));
            var before := ContentToClient(v, editor, g.startPos);
            moved.x - before.x == client.x - g.start.x && moved.y - before.y == client.y - g.start.y
  {
  }
}
