/** The node editor as a whole (`initializeInteractables`): its state, the
    event handlers the editor, the node headers and the palette install,
    and the invariant they keep. Handlers of one event run in the order the
    browser dispatches them: the node header's listener first, then the
    editor's listeners in registration order. */
module Editor {
  import opened Wrappers
  import opened JsText
  import opened Viewport
  import opened Graph
  import DropTarget
  import WireCurve
  import Palette

  /** The element a pointer event is dispatched to, after pointer capture
      has retargeted it. */
  datatype Target = OutputPort(port: PortId) | InputPort(port: PortId) | Header(node: NodeId) | Background

  /** `wireDrag`: the output port the wire leaves and the pointer's last
      client position, where the temporary path ends. */
  datatype WireDrag = WireDrag(from: PortId, tip: Point)

  datatype Editor = Editor(
    view: View,                                // state {scale, tx, ty}
    graph: Graph,                              // connections, inputMap, outputMap
    wire: Option<WireDrag>,                    // wireDrag
    pan: Option<PanGrab>,                      // pan
    positions: map<NodeId, Point>,             // each spawned node's style.left / style.top
    order: seq<NodeId>,                        // the nodes in document order
    drags: map<NodeId, NodeGrab>,              // each node header's `start`, when set
    valueTypes: map<NodeId, Palette.ValueType>, // each value node's selected type
    counter: nat,                              // nodeCounter
    paletteOpen: bool,                         // the overlay's `open` class
    query: JsString)                           // the query the palette list was last rendered for

  const Start: Editor := Editor(Initial, Empty, None, None, map[], [], map[], map[], 0, false, [])

  /** What the layout engine decides and the model takes as given: the
      editor's bounding rectangle, and where each port's centre sits
      relative to its node's top-left corner. */
  datatype Env = Env(rect: Rect, portOffset: (NodeKind, Direction, string) -> Point)

  datatype Event =
    | PointerDown(target: Target, button: int, pointerId: int, client: Point)
    | PointerMove(target: Target, pointerId: int, client: Point)
      /** `pointerup` or `pointercancel`; `direct` is the input port the hit
          test `elementFromPoint(...).closest('.port.input')` finds. */
    | PointerUp(target: Target, pointerId: int, client: Point, direct: Option<PortId>)
    | DoubleClick(target: Target)
      /** `factor` is `Math.exp(-deltaY * 0.001)`. */
    | WheelTurn(client: Point, factor: real)
    | OpenPalette
      /** The close button, or a click on the overlay itself. */
    | ClosePalette
    | KeyDown(key: JsString)
    | SearchInput(raw: JsString)
      /** A click on row `row` of the palette list. */
    | PickRow(row: nat)
    | SelectValueType(node: NodeId, valueType: Palette.ValueType)

  const Escape: JsString := Lit("Escape")

  // ---------------------------------------------------------------------
  // Ports and the invariant
  // ---------------------------------------------------------------------

  /** `p` is a port element of a node in the document. */
  predicate IsPort(e: Editor, p: PortId) {
    p.node in e.positions && (p.dir, p.name) in Palette.PortsOf(p.node.kind)
  }

  predicate Distinct<T(==)>(s: seq<T>) {
    forall i, j | 0 <= i < j < |s| :: s[i] != s[j]
  }

  /** Every connection joins an output to an input of nodes that exist,
      and the indexes describe exactly the connections. */
  ghost predicate GraphOk(e: Editor) {
    && Consistent(e.graph) && WellTyped(e.graph)
    && (forall c | c in e.graph.connections :: IsPort(e, c.from) && IsPort(e, c.to))
  }

  /** A wire being dragged leaves an output port that exists. */
  predicate WireOk(e: Editor) {
    e.wire.Some? ==> IsPort(e, e.wire.value.from) && e.wire.value.from.dir == Out
  }

  /** Only nodes that exist are grabbed. */
  predicate DragsOk(e: Editor) {
    forall n | n in e.drags :: n in e.positions
  }

  /** Node numbers are odd and below the even counter, so the next number
      is free. */
  predicate NumberingOk(e: Editor) {
    && (forall n | n in e.positions :: n.n < e.counter && n.n % 2 == 1)
    && e.counter % 2 == 0
  }

  /** The document lists every node once. */
  predicate OrderOk(e: Editor) {
    && Distinct(e.order)
    && (forall n | n in e.order :: n in e.positions)
    && (forall n | n in e.positions :: n in e.order)
  }

  /** Exactly the value nodes have a selected type. */
  predicate ValueTypesOk(e: Editor) {
    && (forall n | n in e.valueTypes :: n in e.positions && n.kind == ValueNode)
    && (forall n | n in e.positions && n.kind == ValueNode :: n in e.valueTypes)
  }

  /** What every reachable state satisfies. */
  ghost predicate Inv(e: Editor) {
    && Valid(e.view)
    && GraphOk(e)
    && WireOk(e)
    && DragsOk(e)
    && NumberingOk(e)
    && OrderOk(e)
    && ValueTypesOk(e)
  }

  /** The events the document can deliver: targets and hit-test results
      are elements of nodes that exist. */
  predicate WellFormed(e: Editor, ev: Event) {
    match ev
    case PointerDown(t, _, _, _) => TargetExists(e, t)
    case PointerMove(t, _, _) => TargetExists(e, t)
    case PointerUp(t, _, _, direct) =>
      TargetExists(e, t) && (direct.Some? ==> IsPort(e, direct.value) && direct.value.dir == In)
    case DoubleClick(t) => TargetExists(e, t)
    case WheelTurn(_, factor) => factor > 0.0
    case _ => true
  }

  predicate TargetExists(e: Editor, t: Target) {
    match t
    case OutputPort(p) => IsPort(e, p) && p.dir == Out
    case InputPort(p) => IsPort(e, p) && p.dir == In
    case Header(n) => n in e.positions
    case Background => true
  }

  lemma StartInv()
    ensures Inv(Start)
  {
    EmptyConsistent();
  }

  /** `portCenter(el)`: the port's centre in content coordinates. It sits
      at the port's layout offset from its node, so it moves with the node
      and with nothing else. */
  function PortCentre(e: Editor, env: Env, p: PortId): (r: Point)
    requires p.node in e.positions
    ensures r.x - e.positions[p.node].x == env.portOffset(p.node.kind, p.dir, p.name).x
    ensures r.y - e.positions[p.node].y == env.portOffset(p.node.kind, p.dir, p.name).y
  {
    var pos := e.positions[p.node];
    var off := env.portOffset(p.node.kind, p.dir, p.name);
    Point(pos.x + off.x, pos.y + off.y)
  }

  /** `portCenter` measures the port's drawn rectangle and converts back;
      that gives the content point it was drawn from, whatever the view. */
  lemma PortCentreIndependentOfView(e: Editor, env: Env, p: PortId)
    requires p.node in e.positions && e.view.scale > 0.0
    ensures var c := PortCentre(e, env, p);
            ClientToContent(e.view, env.rect, ContentToClient(e.view, env.rect, c)) == c
  {
    ContentRoundTrip(e.view, env.rect, PortCentre(e, env, p));
  }

  /** Moving a node by `d` moves each of its ports' centres by `d`, and
      leaves the centres of other nodes' ports where they were. */
  lemma PortCentreFollowsNode(e: Editor, env: Env, n: NodeId, d: Point, p: PortId)
    requires n in e.positions && p.node in e.positions
    ensures var moved := e.(positions := e.positions[n := Point(e.positions[n].x + d.x, e.positions[n].y + d.y)]);
            var c, c' := PortCentre(e, env, p), PortCentre(moved, env, p);
            if p.node == n then c' == Point(c.x + d.x, c.y + d.y) else c' == c
  {
  }

  /** The path drawn for a connection (`refreshConnection`). */
  function ConnectionCurve(e: Editor, env: Env, c: Conn): (r: WireCurve.Curve)
    requires c.from.node in e.positions && c.to.node in e.positions
    ensures r.start == PortCentre(e, env, c.from) && r.end == PortCentre(e, env, c.to)
  {
    WireCurve.WirePath(PortCentre(e, env, c.from), PortCentre(e, env, c.to))
  }

  /** The temporary path of a wire drag (`updateTempWireToPoint`): from the
      output port to the pointer. */
  function TempCurve(e: Editor, env: Env): (r: Option<WireCurve.Curve>)
    requires e.wire.Some? ==> e.wire.value.from.node in e.positions
    requires e.view.scale > 0.0
    ensures r.Some? <==> e.wire.Some?
    ensures r.Some? ==> r.value.start == PortCentre(e, env, e.wire.value.from)
    ensures r.Some? ==> ContentToClient(e.view, env.rect, r.value.end) == e.wire.value.tip
  {
    match e.wire
    case None => None
    case Some(w) =>
      Some(WireCurve.WirePath(PortCentre(e, env, w.from), ClientToContent(e.view, env.rect, w.tip)))
  }

  // ---------------------------------------------------------------------
  // Drop candidates
  // ---------------------------------------------------------------------

  /** The input ports among `ports`, in order, with their centres. */
  function InputsFrom(e: Editor, env: Env, n: NodeId, ports: seq<(Direction, string)>): (r: seq<DropTarget.Candidate>)
    requires n in e.positions
    requires forall i | 0 <= i < |ports| :: ports[i] in Palette.PortsOf(n.kind)
    ensures forall i | 0 <= i < |r| ::
              r[i].port.dir == In && IsPort(e, r[i].port) && r[i].centre == PortCentre(e, env, r[i].port)
  {
    if ports == [] then []
    else
      var rest := InputsFrom(e, env, n, ports[1..]);
      if ports[0].0 == In then
        var p := PortId(n, In, ports[0].1);
        [DropTarget.Candidate(p, PortCentre(e, env, p))] + rest
      else rest
  }

  /** `viewport.querySelectorAll('.port.input')`, node by node in document
      order, each node's ports in the order its markup lists them. */
  function CandidatesOf(e: Editor, env: Env, nodes: seq<NodeId>): (r: seq<DropTarget.Candidate>)
    requires forall i | 0 <= i < |nodes| :: nodes[i] in e.positions
    ensures forall i | 0 <= i < |r| ::
              r[i].port.dir == In && IsPort(e, r[i].port) && r[i].centre == PortCentre(e, env, r[i].port)
  {
    if nodes == [] then []
    else InputsFrom(e, env, nodes[0], Palette.PortsOf(nodes[0].kind)) + CandidatesOf(e, env, nodes[1..])
  }

  function Candidates(e: Editor, env: Env): (r: seq<DropTarget.Candidate>)
    requires forall n | n in e.order :: n in e.positions
    ensures forall i | 0 <= i < |r| :: r[i].port.dir == In && IsPort(e, r[i].port)
  {
    CandidatesOf(e, env, e.order)
  }

  // ---------------------------------------------------------------------
  // Pointer handlers
  // ---------------------------------------------------------------------

  /** `pointerdown`: the header's listener (button 0 grabs the node at its
      current position), the wire listener (button 0 on an output port
      starts a wire there) and the pan listener (button 1 anywhere grabs
      the view). */
  function OnPointerDown(e: Editor, t: Target, button: int, pointerId: int, client: Point): (r: Editor)
    ensures r.view == e.view && r.graph == e.graph && r.positions == e.positions
    ensures r.order == e.order && r.counter == e.counter && r.valueTypes == e.valueTypes
    ensures t.Header? && button == 0 && t.node in e.positions ==>
              t.node in r.drags && r.drags[t.node].startPos == e.positions[t.node]
              && r.drags[t.node].start == client && r.drags[t.node].pointerId == pointerId
    ensures forall n | n in r.drags && !(t.Header? && n == t.node) :: n in e.drags && r.drags[n] == e.drags[n]
    ensures r.drags.Keys <= e.drags.Keys + (if t.Header? then {t.node} else {})
    ensures t.OutputPort? && button == 0 ==> r.wire == Some(WireDrag(t.port, client))
    ensures !(t.OutputPort? && button == 0) ==> r.wire == e.wire
    ensures button == 1 ==> r.pan == Some(PanStart(e.view, client, pointerId))
    ensures button != 1 ==> r.pan == e.pan
    ensures r.paletteOpen == e.paletteOpen && r.query == e.query
  {
    var drags :=
      if t.Header? && button == 0 && t.node in e.positions
      then e.drags[t.node := NodeGrab(pointerId, client, e.positions[t.node])]
      else e.drags;
    var wire := if t.OutputPort? && button == 0 then Some(WireDrag(t.port, client)) else e.wire;
    var pan := if button == 1 then Some(PanStart(e.view, client, pointerId)) else e.pan;
    e.(drags := drags, wire := wire, pan := pan)
  }

  /** `pointermove`: a grabbed node under its header follows the pointer,
      the temporary wire follows the pointer, and the pan follows its own
      pointer. */
  function OnPointerMove(e: Editor, t: Target, pointerId: int, client: Point): (r: Editor)
    requires Valid(e.view)
    ensures r.graph == e.graph && r.drags == e.drags && r.order == e.order && r.counter == e.counter
    ensures r.positions.Keys == e.positions.Keys
    ensures forall n | n in e.positions && !(t.Header? && n == t.node) :: r.positions[n] == e.positions[n]
    ensures t.Header? && t.node in e.drags && t.node in e.positions ==>
              r.positions[t.node] == NodeDragMove(e.view, e.drags[t.node], client)
    ensures e.wire.Some? ==> r.wire == Some(e.wire.value.(tip := client))
    ensures e.wire.None? ==> r.wire.None?
    ensures e.pan.Some? ==> r.view == PanMove(e.view, e.pan.value, pointerId, client)
    ensures e.pan.None? ==> r.view == e.view
    ensures r.pan == e.pan && r.valueTypes == e.valueTypes
    ensures r.paletteOpen == e.paletteOpen && r.query == e.query
  {
    var positions :=
      if t.Header? && t.node in e.drags && t.node in e.positions
      then e.positions[t.node := NodeDragMove(e.view, e.drags[t.node], client)]
      else e.positions;
    var wire := match e.wire case None => None case Some(w) => Some(w.(tip := client));
    var view := match e.pan case None => e.view case Some(g) => PanMove(e.view, g, pointerId, client);
    e.(positions := positions, wire := wire, view := view)
  }

  /** The accepting test of `endWireDrag`: only an input port other than
      the source is accepted; since drags start at outputs, the
      `toPort !== fromEl` test never decides anything there. */
  function Accepts(from: PortId, to: Option<PortId>): (r: bool)
    ensures r ==> to.Some? && to.value.dir == In && to.value != from
    ensures from.dir == Out ==> (r <==> to.Some? && to.value.dir == In)
  {
    to.Some? && to.value != from && to.value.dir == In
  }

  /** Where a wire released at `client` lands. */
  function DropOf(e: Editor, env: Env, client: Point, direct: Option<PortId>): (r: Option<PortId>)
    requires Valid(e.view)
    requires forall n | n in e.order :: n in e.positions
    ensures direct.Some? ==> r == direct
    ensures direct.None? && r.Some? ==> IsPort(e, r.value) && r.value.dir == In
  {
    DropTarget.Find(direct, Candidates(e, env), ClientToContent(e.view, env.rect, client), e.view.scale)
  }

  /** The graph after `endWireDrag`: the wire, if any, connects when it
      lands on an input port other than its own start. */
  function ReleaseWire(e: Editor, env: Env, client: Point, direct: Option<PortId>): (g: Graph)
    requires Valid(e.view)
    requires forall n | n in e.order :: n in e.positions
    ensures var to := DropOf(e, env, client, direct);
            if e.wire.Some? && Accepts(e.wire.value.from, to)
            then g == Commit(e.graph, e.wire.value.from, to.value)
            else g == e.graph
  {
    var to := DropOf(e, env, client, direct);
    if e.wire.Some? && Accepts(e.wire.value.from, to) then Commit(e.graph, e.wire.value.from, to.value) else e.graph
  }

  /** `pointerup` / `pointercancel`: the header's listener drops its node,
      `endWireDrag` connects the wire when it lands on an input and always
      ends it, and `endPan` ends the pan of the same pointer. */
  function OnPointerUp(e: Editor, env: Env, t: Target, pointerId: int, client: Point, direct: Option<PortId>): (r: Editor)
    requires Valid(e.view)
    requires forall n | n in e.order :: n in e.positions
    ensures r.wire.None?
    ensures r.view == e.view && r.positions == e.positions && r.order == e.order && r.counter == e.counter
    ensures r.drags == (if t.Header? then e.drags - {t.node} else e.drags)
    ensures r.graph == ReleaseWire(e, env, client, direct)
    ensures e.pan.Some? && e.pan.value.pointerId == pointerId ==> r.pan.None?
    ensures !(e.pan.Some? && e.pan.value.pointerId == pointerId) ==> r.pan == e.pan
    ensures r.valueTypes == e.valueTypes && r.paletteOpen == e.paletteOpen && r.query == e.query
  {
    var drags := if t.Header? then e.drags - {t.node} else e.drags;
    var graph := ReleaseWire(e, env, client, direct);
    var pan := if e.pan.Some? && e.pan.value.pointerId == pointerId then None else e.pan;
    e.(drags := drags, graph := graph, wire := None, pan := pan)
  }

  /** `dblclick` on an input port removes its connection. */
  function OnDoubleClick(e: Editor, t: Target): (r: Editor)
    ensures t.InputPort? ==> r == e.(graph := Disconnect(e.graph, t.port))
    ensures !t.InputPort? ==> r == e
  {
    if t.InputPort? then e.(graph := Disconnect(e.graph, t.port)) else e
  }

  /** `wheel`: zoom about the pointer. */
  function OnWheel(e: Editor, env: Env, client: Point, factor: real): (r: Editor)
    requires Valid(e.view) && factor > 0.0
    ensures Valid(r.view)
    ensures r == e.(view := r.view)
    ensures ClientToContent(r.view, env.rect, client) == ClientToContent(e.view, env.rect, client)
  {
    e.(view := Wheel(e.view, Point(client.x - env.rect.left, client.y - env.rect.top), factor))
  }

  // ---------------------------------------------------------------------
  // Palette handlers
  // ---------------------------------------------------------------------

  /** The rows of the palette list as last rendered. */
  function Rows(e: Editor): seq<Palette.Row> {
    Palette.RenderRows(Palette.FilterPalette(Palette.Catalogue, e.query))
  }

  /** A row's `onclick`: place the template's node at the view centre plus
      the stagger, numbered by the pre-incremented counter, then count
      again and close the palette. */
  function Spawn(e: Editor, env: Env, t: Palette.Template): (r: Editor)
    requires Valid(e.view)
    ensures var id := NodeId(Palette.KindOf(t), e.counter + 1);
            && r.positions.Keys == e.positions.Keys + {id}
            && r.order == e.order + [id]
            && r.counter == e.counter + 2
    ensures forall n | n in e.positions && n != NodeId(Palette.KindOf(t), e.counter + 1) :: r.positions[n] == e.positions[n]
    ensures !r.paletteOpen
    ensures r.graph == e.graph && r.view == e.view && r.wire == e.wire && r.pan == e.pan && r.drags == e.drags
  {
    var centre := CenterContent(e.view, env.rect);
    var off := Palette.SpawnOffset(e.counter);
    var id := NodeId(Palette.KindOf(t), e.counter + 1);
    var valueTypes := match t
      case ValueTemplate(vt) => e.valueTypes[id := vt]
      case _ => e.valueTypes;
    e.(positions := e.positions[id := Point(centre.x + off.x, centre.y + off.y)],
       order := e.order + [id],
       valueTypes := valueTypes,
       counter := e.counter + 2,
       paletteOpen := false)
  }

  /** The spawned node is drawn at the editor's centre plus the stagger,
      scaled by the zoom. */
  lemma SpawnPlacement(e: Editor, env: Env, t: Palette.Template)
    requires Valid(e.view)
    ensures var id := NodeId(Palette.KindOf(t), e.counter + 1);
            ContentToClient(e.view, env.rect, Spawn(e, env, t).positions[id])
            == Point(env.rect.left + env.rect.width / 2.0 + e.view.scale * Palette.SpawnOffset(e.counter).x,
                     env.rect.top + env.rect.height / 2.0 + e.view.scale * Palette.SpawnOffset(e.counter).y)
  {
    var c, off := CenterContent(e.view, env.rect), Palette.SpawnOffset(e.counter);
    assert Spawn(e, env, t).positions[NodeId(Palette.KindOf(t), e.counter + 1)] == Point(c.x + off.x, c.y + off.y);
    ShiftedOnScreen(e.view, env.rect, c, off);
  }

  /** Moving a content point by `off` moves its drawing by `off` scaled. */
  lemma ShiftedOnScreen(v: View, rect: Rect, c: Point, off: Point)
    ensures ContentToClient(v, rect, Point(c.x + off.x, c.y + off.y))
            == Point(ContentToClient(v, rect, c).x + v.scale * off.x, ContentToClient(v, rect, c).y + v.scale * off.y)
  {
    assert v.scale * (c.x + off.x) == v.scale * c.x + v.scale * off.x;
    assert v.scale * (c.y + off.y) == v.scale * c.y + v.scale * off.y;
  }

  /** A click on a palette row: item rows spawn their template; group
      headings and "No matches" have no handler. */
  function OnPickRow(e: Editor, env: Env, row: nat): (r: Editor)
    requires Valid(e.view)
    ensures row < |Rows(e)| && Rows(e)[row].ItemRow? ==> r == Spawn(e, env, Rows(e)[row].item.spawn)
    ensures !(row < |Rows(e)| && Rows(e)[row].ItemRow?) ==> r == e
  {
    var rows := Rows(e);
    if row < |rows| && rows[row].ItemRow? then Spawn(e, env, rows[row].item.spawn) else e
  }

  /** The palette's open, close, Escape and search handlers. */
  function OnPalette(e: Editor, ev: Event): (r: Editor)
    requires ev.OpenPalette? || ev.ClosePalette? || ev.KeyDown? || ev.SearchInput?
    ensures ev.OpenPalette? ==> r.paletteOpen && r.query == []
    ensures ev.ClosePalette? ==> !r.paletteOpen && r.query == e.query
    ensures ev.KeyDown? ==> r.query == e.query && (r.paletteOpen <==> e.paletteOpen && ev.key != Escape)
    ensures ev.SearchInput? ==> r.paletteOpen == e.paletteOpen && r.query == Palette.SearchQuery(ev.raw)
    ensures r == e.(paletteOpen := r.paletteOpen, query := r.query)
  {
    match ev
    case OpenPalette => e.(paletteOpen := true, query := [])
    case ClosePalette => e.(paletteOpen := false)
    case KeyDown(key) => if e.paletteOpen && key == Escape then e.(paletteOpen := false) else e
    case SearchInput(raw) => e.(query := Palette.SearchQuery(raw))
  }

  /** The value-type `<select>`'s change handler. */
  function OnSelectValueType(e: Editor, n: NodeId, vt: Palette.ValueType): (r: Editor)
    ensures n in e.valueTypes ==> r == e.(valueTypes := e.valueTypes[n := vt])
    ensures n !in e.valueTypes ==> r == e
  {
    if n in e.valueTypes then e.(valueTypes := e.valueTypes[n := vt]) else e
  }

  /** The input a value node shows for its selected type. */
  function ValueInputOf(e: Editor, n: NodeId): (r: Palette.ValueInput)
    requires n in e.valueTypes
    ensures r.Checkbox? <==> e.valueTypes[n] == Palette.BoolType
  {
    Palette.ValueInputFor(Palette.TypeName(e.valueTypes[n]))
  }

  // ---------------------------------------------------------------------
  // One event
  // ---------------------------------------------------------------------

  function Step(e: Editor, env: Env, ev: Event): (r: Editor)
    requires Valid(e.view)
    requires forall n | n in e.order :: n in e.positions
    requires ev.WheelTurn? ==> ev.factor > 0.0
    ensures Valid(r.view)
  {
    match ev
    case PointerDown(t, button, pid, client) => OnPointerDown(e, t, button, pid, client)
    case PointerMove(t, pid, client) => OnPointerMove(e, t, pid, client)
    case PointerUp(t, pid, client, direct) => OnPointerUp(e, env, t, pid, client, direct)
    case DoubleClick(t) => OnDoubleClick(e, t)
    case WheelTurn(client, factor) => OnWheel(e, env, client, factor)
    case PickRow(row) => OnPickRow(e, env, row)
    case SelectValueType(n, vt) => OnSelectValueType(e, n, vt)
    case _ => OnPalette(e, ev)
  }

  // ---------------------------------------------------------------------
  // The invariant is kept
  // ---------------------------------------------------------------------

  lemma PointerDownInv(e: Editor, t: Target, button: int, pid: int, client: Point)
    requires Inv(e) && TargetExists(e, t)
    ensures Inv(OnPointerDown(e, t, button, pid, client))
  {
  }

  lemma PointerMoveInv(e: Editor, t: Target, pid: int, client: Point)
    requires Inv(e)
    ensures Inv(OnPointerMove(e, t, pid, client))
  {
    var r := OnPointerMove(e, t, pid, client);
    assert forall p :: IsPort(r, p) <==> IsPort(e, p);
  }

  /** Committing a wire between two existing ports keeps the graph part of
      the invariant. */
  lemma CommitKeepsGraph(e: Editor, from: PortId, to: PortId)
    requires GraphOk(e)
    requires IsPort(e, from) && from.dir == Out && IsPort(e, to) && to.dir == In
    ensures var g := Commit(e.graph, from, to);
            && Consistent(g) && WellTyped(g)
            && forall c | c in g.connections :: IsPort(e, c.from) && IsPort(e, c.to)
  {
    CommitCorrect(e.graph, from, to);
    var wires := Commit(e.graph, from, to).connections;
    assert wires <= e.graph.connections + {Conn(from, to)};
  }

  lemma PointerUpInv(e: Editor, env: Env, t: Target, pid: int, client: Point, direct: Option<PortId>)
    requires Inv(e)
    requires direct.Some? ==> IsPort(e, direct.value) && direct.value.dir == In
    ensures Inv(OnPointerUp(e, env, t, pid, client, direct))
  {
    var r := OnPointerUp(e, env, t, pid, client, direct);
    assert r.positions == e.positions && r.order == e.order && r.counter == e.counter;
    assert r.valueTypes == e.valueTypes && r.view == e.view;
    assert forall n | n in r.drags :: n in e.drags;
    if e.wire.Some? && Accepts(e.wire.value.from, DropOf(e, env, client, direct)) {
      CommitKeepsGraph(e, e.wire.value.from, DropOf(e, env, client, direct).value);
    } else {
      assert r.graph == e.graph;
    }
    assert forall p :: IsPort(r, p) == IsPort(e, p);
  }

  lemma DoubleClickInv(e: Editor, t: Target)
    requires Inv(e)
    ensures Inv(OnDoubleClick(e, t))
  {
    if t.InputPort? {
      DisconnectCorrect(e.graph, t.port);
    }
  }

  lemma SpawnInv(e: Editor, env: Env, t: Palette.Template)
    requires Inv(e)
    ensures Inv(Spawn(e, env, t))
  {
    SpawnGraph(e, env, t);
    SpawnNumbering(e, env, t);
    SpawnOrder(e, env, t);
    SpawnValueTypes(e, env, t);
  }

  /** Spawning leaves the connections, the wire and the grabs valid. */
  lemma SpawnGraph(e: Editor, env: Env, t: Palette.Template)
    requires Valid(e.view) && GraphOk(e) && WireOk(e) && DragsOk(e)
    ensures var r := Spawn(e, env, t);
            GraphOk(r) && WireOk(r) && DragsOk(r)
  {
    SpawnKeepsPorts(e, env, t);
  }

  /** The spawned node takes the counter's next odd number. */
  lemma SpawnNumbering(e: Editor, env: Env, t: Palette.Template)
    requires Valid(e.view) && NumberingOk(e)
    ensures NumberingOk(Spawn(e, env, t))
  {
    var r := Spawn(e, env, t);
    NextNumberFree(e.positions.Keys, e.counter, NodeId(Palette.KindOf(t), e.counter + 1));
    assert r.positions.Keys == e.positions.Keys + {NodeId(Palette.KindOf(t), e.counter + 1)};
  }

  /** Numbering a new node `counter + 1` and counting by two keeps every
      number odd and below the even counter. */
  lemma NextNumberFree(ids: set<NodeId>, counter: nat, id: NodeId)
    requires forall n | n in ids :: n.n < counter && n.n % 2 == 1
    requires counter % 2 == 0 && id.n == counter + 1
    ensures forall n | n in ids + {id} :: n.n < counter + 2 && n.n % 2 == 1
    ensures (counter + 2) % 2 == 0
  {
    assert id.n % 2 == 1 && (counter + 2) % 2 == 0 by {
      var k := counter / 2;
      assert counter == 2 * k;
      assert id.n == 2 * k + 1 && counter + 2 == 2 * (k + 1);
    }
  }

  /** Spawning only adds ports. */
  lemma SpawnKeepsPorts(e: Editor, env: Env, t: Palette.Template)
    requires Valid(e.view)
    ensures forall p | IsPort(e, p) :: IsPort(Spawn(e, env, t), p)
  {
  }

  /** The spawned node is appended to the document once. */
  lemma SpawnOrder(e: Editor, env: Env, t: Palette.Template)
    requires Valid(e.view) && NumberingOk(e) && OrderOk(e)
    ensures OrderOk(Spawn(e, env, t))
  {
    var r := Spawn(e, env, t);
    var id := NodeId(Palette.KindOf(t), e.counter + 1);
    assert id !in e.order;
    forall i, j | 0 <= i < j < |r.order| ensures r.order[i] != r.order[j] {
      if j == |e.order| {
        assert r.order[i] == e.order[i];
      }
    }
  }

  /** A spawn records a selected type for exactly the value nodes. */
  lemma SpawnValueTypes(e: Editor, env: Env, t: Palette.Template)
    requires Valid(e.view) && ValueTypesOk(e)
    ensures ValueTypesOk(Spawn(e, env, t))
  {
  }

  /** Every event the document can deliver keeps the invariant. */
  lemma StepInv(e: Editor, env: Env, ev: Event)
    requires Inv(e) && WellFormed(e, ev)
    ensures Inv(Step(e, env, ev))
  {
    if ev.PointerDown? || ev.PointerMove? || ev.PointerUp? || ev.DoubleClick? {
      PointerEventInv(e, env, ev);
    } else {
      OtherEventInv(e, env, ev);
    }
  }

  lemma PointerEventInv(e: Editor, env: Env, ev: Event)
    requires Inv(e) && WellFormed(e, ev)
    requires ev.PointerDown? || ev.PointerMove? || ev.PointerUp? || ev.DoubleClick?
    ensures Inv(Step(e, env, ev))
  {
    match ev
    case PointerDown(t, button, pid, client) => PointerDownInv(e, t, button, pid, client);
    case PointerMove(t, pid, client) => PointerMoveInv(e, t, pid, client);
    case PointerUp(t, pid, client, direct) => PointerUpInv(e, env, t, pid, client, direct);
    case DoubleClick(t) => DoubleClickInv(e, t);
  }

  lemma OtherEventInv(e: Editor, env: Env, ev: Event)
    requires Inv(e) && WellFormed(e, ev)
    requires !(ev.PointerDown? || ev.PointerMove? || ev.PointerUp? || ev.DoubleClick?)
    ensures Inv(Step(e, env, ev))
  {
    match ev
    case WheelTurn(client, factor) => CosmeticInv(e, OnWheel(e, env, client, factor));
    case PickRow(row) => PickRowInv(e, env, row);
    case SelectValueType(n, vt) => CosmeticInv(e, OnSelectValueType(e, n, vt));
    case OpenPalette => CosmeticInv(e, OnPalette(e, ev));
    case ClosePalette => CosmeticInv(e, OnPalette(e, ev));
    case KeyDown(_) => CosmeticInv(e, OnPalette(e, ev));
    case SearchInput(_) => CosmeticInv(e, OnPalette(e, ev));
  }

  lemma PickRowInv(e: Editor, env: Env, row: nat)
    requires Inv(e)
    ensures Inv(OnPickRow(e, env, row))
  {
    if row < |Rows(e)| && Rows(e)[row].ItemRow? {
      SpawnInv(e, env, Rows(e)[row].item.spawn);
    }
  }

  /** A change to the view, the palette or a value node's selected type
      keeps the invariant: the nodes, ports and grabs are untouched. */
  lemma CosmeticInv(e: Editor, r: Editor)
    requires Inv(e) && Valid(r.view)
    requires r.graph == e.graph && r.wire == e.wire && r.drags == e.drags
    requires r.positions == e.positions && r.order == e.order && r.counter == e.counter
    requires r.valueTypes.Keys == e.valueTypes.Keys
    ensures Inv(r)
  {
    assert forall p | IsPort(r, p) :: IsPort(e, p);
  }

  // ---------------------------------------------------------------------
  // Behaviour
  // ---------------------------------------------------------------------

  /** Releasing a wire over an input port connects it to exactly that port:
      whatever fed the port before is gone, every other connection stays,
      and the indexes still describe the connections. */
  lemma DropReplacesFeed(e: Editor, env: Env, t: Target, pid: int, client: Point, to: PortId)
    requires Inv(e) && e.wire.Some?
    requires IsPort(e, to) && to.dir == In
    ensures var r := OnPointerUp(e, env, t, pid, client, Some(to));
            var from := e.wire.value.from;
            && Into(r.graph.connections, to) == {Conn(from, to)}
            && r.graph.connections == (e.graph.connections - Into(e.graph.connections, to)) + {Conn(from, to)}
            && Consistent(r.graph)
  {
    CommitCorrect(e.graph, e.wire.value.from, to);
  }

  /** Releasing a wire away from every input leaves the connections as
      they were; the temporary wire is discarded either way. */
  lemma DropOutsideDiscards(e: Editor, env: Env, t: Target, pid: int, client: Point)
    requires Inv(e) && e.wire.Some?
    requires forall c | c in Candidates(e, env) ::
               DropTarget.ScreenDist2(c.centre, ClientToContent(e.view, env.rect, client), e.view.scale)
               > DropTarget.DropRadius * DropTarget.DropRadius
    ensures OnPointerUp(e, env, t, pid, client, None).graph == e.graph
    ensures TempCurve(OnPointerUp(e, env, t, pid, client, None), env).None?
  {
    var cands := Candidates(e, env);
    assert forall j | 0 <= j < |cands| :: cands[j] in cands;
  }

  /** A second pointer moving or lifting does not disturb a pan. */
  lemma OtherPointerLeavesPan(e: Editor, env: Env, pid: int, client: Point)
    requires Valid(e.view) && e.pan.Some? && pid != e.pan.value.pointerId
    requires forall n | n in e.order :: n in e.positions
    ensures OnPointerMove(e, Background, pid, client).view == e.view
    ensures OnPointerUp(e, env, Background, pid, client, None).pan == e.pan
  {
  }

  /** Dragging a node moves only the wires attached to it: every other
      connection is drawn exactly where it was. */
  lemma DragRedrawsOnlyAttached(e: Editor, env: Env, n: NodeId, pid: int, client: Point, c: Conn)
    requires Valid(e.view) && c.from.node in e.positions && c.to.node in e.positions
    requires c.from.node != n && c.to.node != n
    ensures var r := OnPointerMove(e, Header(n), pid, client);
            ConnectionCurve(r, env, c) == ConnectionCurve(e, env, c)
  {
    var r := OnPointerMove(e, Header(n), pid, client);
    assert r.positions[c.from.node] == e.positions[c.from.node];
    assert r.positions[c.to.node] == e.positions[c.to.node];
    assert PortCentre(r, env, c.from) == PortCentre(e, env, c.from);
    assert PortCentre(r, env, c.to) == PortCentre(e, env, c.to);
  }

  /** A wire follows the pointer: after a move its temporary path ends
      under the pointer and still starts at the port it left. */
  lemma WireFollowsPointer(e: Editor, env: Env, t: Target, pid: int, client: Point)
    requires Inv(e) && e.wire.Some? && e.pan.None?
    ensures var r := OnPointerMove(e, t, pid, client);
            var c := TempCurve(r, env);
            && c.Some?
            && ContentToClient(r.view, env.rect, c.value.end) == client
            && c.value.start == PortCentre(r, env, e.wire.value.from)
  {
  }

  /** A spawned node gets a number no node had: numbers are odd and below
      the counter, and each spawn advances the counter by two. */
  lemma SpawnFresh(e: Editor, env: Env, t: Palette.Template)
    requires Inv(e)
    ensures NodeId(Palette.KindOf(t), e.counter + 1) !in e.positions
    ensures |Spawn(e, env, t).order| == |e.order| + 1
    ensures Palette.SpawnOffset(e.counter).x == 0.0 || Palette.SpawnOffset(e.counter).x == 40.0
  {
    Palette.EvenCounterOffsets(e.counter);
  }

  /** Escape closes an open palette and does nothing to a closed one. */
  lemma EscapeCloses(e: Editor)
    ensures !OnPalette(e, KeyDown(Escape)).paletteOpen
    ensures !e.paletteOpen ==> OnPalette(e, KeyDown(Escape)) == e
  {
  }

  /** Opening the palette lists the whole catalogue, in order. */
  lemma OpenListsCatalogue(e: Editor)
    ensures Palette.ItemsOf(Rows(OnPalette(e, OpenPalette))) == Palette.Catalogue
  {
    Palette.RenderShowsItems(Palette.Catalogue, []);
  }

  /** When nothing matches, no click on the list spawns anything. */
  lemma NoMatchesSpawnsNothing(e: Editor, env: Env, row: nat)
    requires Valid(e.view)
    requires Palette.FilterPalette(Palette.Catalogue, e.query) == []
    ensures OnPickRow(e, env, row) == e
  {
  }
}
