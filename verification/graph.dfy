/** The connection store of the node editor: the set of connections and the
    two indexes kept beside it, `inputMap` (input port to its one
    connection) and `outputMap` (output port to its connections). */
module Graph {
  import opened Wrappers

  datatype NodeKind = ValueNode | DisplayNode | AddNode

  /** A spawned node: its kind (the id's letter V, D or A) and number. */
  datatype NodeId = NodeId(kind: NodeKind, n: nat)

  datatype Direction = In | Out

  /** A port element, identified by its node, side and name
      (`data-port-id="<node>:<in|out>:<name>"`). */
  datatype PortId = PortId(node: NodeId, dir: Direction, name: string)

  /** A connection `{path, fromEl, toEl}`; the path element is drawn from
      the two ports and so is not part of its identity here. */
  datatype Conn = Conn(from: PortId, to: PortId)

  datatype Graph = Graph(
    connections: set<Conn>,
    inputMap: map<PortId, Conn>,
    outputMap: map<PortId, set<Conn>>)

  const Empty: Graph := Graph({}, map[], map[])

  /** Every connection is the entry of its input port. */
  ghost predicate InputsIndexed(g: Graph) {
    forall c | c in g.connections :: c.to in g.inputMap && g.inputMap[c.to] == c
  }

  /** Every entry of `inputMap` is a connection ending at its key. */
  ghost predicate InputEntriesExact(g: Graph) {
    forall p | p in g.inputMap :: g.inputMap[p] in g.connections && g.inputMap[p].to == p
  }

  /** Every connection is in the set of its output port. */
  ghost predicate OutputsIndexed(g: Graph) {
    forall c | c in g.connections :: c.from in g.outputMap && c in g.outputMap[c.from]
  }

  /** Every set in `outputMap` is non-empty and holds connections leaving
      its key. */
  ghost predicate OutputEntriesExact(g: Graph) {
    forall p | p in g.outputMap ::
      g.outputMap[p] != {} && forall c | c in g.outputMap[p] :: c in g.connections && c.from == p
  }

  /** The indexes describe exactly the connection set. */
  ghost predicate Consistent(g: Graph) {
    InputsIndexed(g) && InputEntriesExact(g) && OutputsIndexed(g) && OutputEntriesExact(g)
  }

  /** Every connection runs from an output port to an input port. */
  ghost predicate WellTyped(g: Graph) {
    forall c | c in g.connections :: c.from.dir == Out && c.to.dir == In
  }

  /** `removeConnection(conn)`. */
  function RemoveConnection(g: Graph, c: Conn): (r: Graph)
    ensures r.connections == g.connections - {c}
    ensures c.to in g.inputMap && g.inputMap[c.to] == c ==> r.inputMap == g.inputMap - {c.to}
    ensures !(c.to in g.inputMap && g.inputMap[c.to] == c) ==> r.inputMap == g.inputMap
    ensures c.from in r.outputMap ==> c.from in g.outputMap && r.outputMap[c.from] == g.outputMap[c.from] - {c}
    ensures c.from in g.outputMap ==> (c.from in r.outputMap <==> g.outputMap[c.from] - {c} != {})
    ensures forall p | p != c.from :: (p in r.outputMap <==> p in g.outputMap)
    ensures forall p | p != c.from && p in r.outputMap :: r.outputMap[p] == g.outputMap[p]
  {
    var inputs := if c.to in g.inputMap && g.inputMap[c.to] == c then g.inputMap - {c.to} else g.inputMap;
    var outputs :=
      if c.from in g.outputMap then
        var rest := g.outputMap[c.from] - {c};
        if rest == {} then g.outputMap - {c.from} else g.outputMap[c.from := rest]
      else g.outputMap;
    Graph(g.connections - {c}, inputs, outputs)
  }

  /** Removing a connection keeps the indexes exact. */
  lemma RemoveConnectionConsistent(g: Graph, c: Conn)
    requires Consistent(g)
    ensures Consistent(RemoveConnection(g, c))
    ensures WellTyped(g) ==> WellTyped(RemoveConnection(g, c))
  {
    RemoveKeepsInputs(g, c);
    RemoveKeepsOutputs(g, c);
  }

  lemma RemoveKeepsInputs(g: Graph, c: Conn)
    requires InputsIndexed(g) && InputEntriesExact(g)
    ensures InputsIndexed(RemoveConnection(g, c)) && InputEntriesExact(RemoveConnection(g, c))
  {
  }

  lemma RemoveKeepsOutputs(g: Graph, c: Conn)
    requires OutputsIndexed(g) && OutputEntriesExact(g)
    ensures OutputsIndexed(RemoveConnection(g, c)) && OutputEntriesExact(RemoveConnection(g, c))
  {
  }

  /** Removes whatever connection ends at `to`. */
  function Evict(g: Graph, to: PortId): (r: Graph)
    ensures to !in g.inputMap ==> r == g
    ensures to in g.inputMap ==> r == RemoveConnection(g, g.inputMap[to])
  {
    if to in g.inputMap then RemoveConnection(g, g.inputMap[to]) else g
  }

  /** Records a new connection in the set and in both indexes. */
  function Add(g: Graph, c: Conn): (r: Graph)
    ensures r.connections == g.connections + {c}
    ensures r.inputMap == g.inputMap[c.to := c]
    ensures c.from in r.outputMap && c in r.outputMap[c.from]
    ensures c.from in g.outputMap ==> r.outputMap[c.from] == g.outputMap[c.from] + {c}
    ensures c.from !in g.outputMap ==> r.outputMap[c.from] == {c}
    ensures forall p | p != c.from :: (p in r.outputMap <==> p in g.outputMap)
    ensures forall p | p != c.from && p in r.outputMap :: r.outputMap[p] == g.outputMap[p]
  {
    var existing := if c.from in g.outputMap then g.outputMap[c.from] else {};
    Graph(g.connections + {c}, g.inputMap[c.to := c], g.outputMap[c.from := existing + {c}])
  }

  /** The accepting branch of the wire drop: evict the connection already on
      `to`, then record `from -> to` in the set and both indexes. */
  function Commit(g: Graph, from: PortId, to: PortId): (r: Graph)
    ensures to in r.inputMap && r.inputMap[to] == Conn(from, to)
    ensures Conn(from, to) in r.connections
    ensures from in r.outputMap && Conn(from, to) in r.outputMap[from]
  {
    Add(Evict(g, to), Conn(from, to))
  }

  /** The connections that end at `p`. */
  function Into(conns: set<Conn>, p: PortId): set<Conn> {
    set c | c in conns && c.to == p
  }

  /** The connections that start at `p`. */
  function OutOf(conns: set<Conn>, p: PortId): set<Conn> {
    set c | c in conns && c.from == p
  }

  /** In a consistent graph every input port has at most one connection. */
  lemma AtMostOnePerInput(g: Graph, c1: Conn, c2: Conn)
    requires Consistent(g)
    requires c1 in g.connections && c2 in g.connections && c1.to == c2.to
    ensures c1 == c2
  {
  }

  /** Eviction frees the input and removes only what ended there. */
  lemma EvictCorrect(g: Graph, to: PortId)
    requires Consistent(g)
    ensures Consistent(Evict(g, to))
    ensures WellTyped(g) ==> WellTyped(Evict(g, to))
    ensures to !in Evict(g, to).inputMap
    ensures Evict(g, to).connections == g.connections - Into(g.connections, to)
  {
    if to in g.inputMap {
      RemoveConnectionConsistent(g, g.inputMap[to]);
      forall c | c in Into(g.connections, to) ensures c == g.inputMap[to] {
        AtMostOnePerInput(g, c, g.inputMap[to]);
      }
    }
  }

  /** Adding a connection to a free input keeps the indexes exact. */
  lemma AddConsistent(g: Graph, c: Conn)
    requires Consistent(g) && c.to !in g.inputMap
    ensures Consistent(Add(g, c))
  {
    assert c !in g.connections;
    AddKeepsInputs(g, c);
    AddKeepsOutputs(g, c);
  }

  lemma AddKeepsInputs(g: Graph, c: Conn)
    requires InputsIndexed(g) && InputEntriesExact(g) && c.to !in g.inputMap
    ensures InputsIndexed(Add(g, c)) && InputEntriesExact(Add(g, c))
  {
  }

  lemma AddKeepsOutputs(g: Graph, c: Conn)
    requires OutputsIndexed(g) && OutputEntriesExact(g)
    ensures OutputsIndexed(Add(g, c)) && OutputEntriesExact(Add(g, c))
  {
  }

  /** Adding a connection keeps every connection well typed when the new
      one is. */
  lemma AddWellTyped(g: Graph, c: Conn)
    requires WellTyped(g) && c.from.dir == Out && c.to.dir == In
    ensures WellTyped(Add(g, c))
  {
  }

  /** After eviction and addition, exactly the new connection ends at `to`. */
  lemma CommitInto(g: Graph, from: PortId, to: PortId)
    requires Consistent(g)
    ensures Commit(g, from, to).connections == (g.connections - Into(g.connections, to)) + {Conn(from, to)}
    ensures Into(Commit(g, from, to).connections, to) == {Conn(from, to)}
  {
    EvictCorrect(g, to);
    var e := Evict(g, to);
    var c := Conn(from, to);
    assert Commit(g, from, to).connections == e.connections + {c};
    assert Into(e.connections, to) == {};
  }

  /** Committing keeps the graph consistent and well typed, replaces
      whatever ended at `to` by the new connection, and leaves every other
      connection in place. */
  lemma CommitCorrect(g: Graph, from: PortId, to: PortId)
    requires Consistent(g)
    ensures Consistent(Commit(g, from, to))
    ensures WellTyped(g) && from.dir == Out && to.dir == In ==> WellTyped(Commit(g, from, to))
    ensures Commit(g, from, to).connections == (g.connections - Into(g.connections, to)) + {Conn(from, to)}
    ensures Into(Commit(g, from, to).connections, to) == {Conn(from, to)}
  {
    EvictCorrect(g, to);
    AddConsistent(Evict(g, to), Conn(from, to));
    if WellTyped(g) && from.dir == Out && to.dir == In {
      AddWellTyped(Evict(g, to), Conn(from, to));
    }
    CommitInto(g, from, to);
  }

  /** Double-clicking an input port: remove the connection ending there. */
  function Disconnect(g: Graph, p: PortId): (r: Graph)
    ensures p !in g.inputMap ==> r == g
    ensures p in g.inputMap ==> r.connections == g.connections - {g.inputMap[p]}
  {
    Evict(g, p)
  }

  /** After a double-click the port has no connection, and only the
      connection that ended there is gone. */
  lemma DisconnectCorrect(g: Graph, p: PortId)
    requires Consistent(g)
    ensures Consistent(Disconnect(g, p))
    ensures WellTyped(g) ==> WellTyped(Disconnect(g, p))
    ensures p !in Disconnect(g, p).inputMap
    ensures Disconnect(g, p).connections == g.connections - Into(g.connections, p)
  {
    EvictCorrect(g, p);
  }

  /** Connecting and then disconnecting the same input leaves that input
      free and every connection not ending there untouched. */
  lemma CommitThenDisconnect(g: Graph, from: PortId, to: PortId)
    requires Consistent(g)
    ensures Disconnect(Commit(g, from, to), to).connections == g.connections - Into(g.connections, to)
  {
    CommitCorrect(g, from, to);
    DisconnectCorrect(Commit(g, from, to), to);
  }

  /** In a consistent graph the indexes are the ones the connection set
      determines: nothing is cached that could go stale. */
  lemma IndexesDetermined(g: Graph)
    requires Consistent(g)
    ensures forall p | p in g.inputMap :: Into(g.connections, p) == {g.inputMap[p]}
    ensures forall p | p !in g.inputMap :: Into(g.connections, p) == {}
    ensures forall p | p in g.outputMap :: g.outputMap[p] == OutOf(g.connections, p)
    ensures forall p | p !in g.outputMap :: OutOf(g.connections, p) == {}
  {
    forall p | p in g.inputMap ensures Into(g.connections, p) == {g.inputMap[p]} {
      forall c | c in Into(g.connections, p) ensures c == g.inputMap[p] {
        AtMostOnePerInput(g, c, g.inputMap[p]);
      }
    }
  }

  lemma EmptyConsistent()
    ensures Consistent(Empty) && WellTyped(Empty)
  {
  }
}
