/** Publishing a communication object as nodes of an OPC UA server: the nodes that
    a description creates, opens and writes. */
module PushModel {
  import opened CodecModel

  datatype ServerNode = Object | Variable(dataType: TypeIndex, value: Variant, readable: bool)

  /** Nodes by the text of their identifier, in the namespace of the component. */
  type Nodes = map<string, ServerNode>

  datatype Outcome = Outcome(ok: bool, nodes: Nodes)

  /** A parent with a numeric identifier stands here as its decimal text. */
  function GenerateNodeId(parent: string, name: string): string { parent + "." + name }

  // ---------- services of the server ----------

  function AddNode(nodes: Nodes, id: string, node: ServerNode): Outcome {
    if id in nodes then Outcome(false, nodes) else Outcome(true, nodes[id := node])
  }

  function WriteAccessLevel(nodes: Nodes, id: string, readable: bool): Outcome {
    if id !in nodes || !nodes[id].Variable? then Outcome(false, nodes)
    else Outcome(true, nodes[id := nodes[id].(readable := readable)])
  }

  /** The value must have the type of the node; a node of the base type takes any. */
  function WriteValue(nodes: Nodes, id: string, v: Variant): Outcome {
    if id !in nodes || !nodes[id].Variable? then Outcome(false, nodes)
    else if nodes[id].dataType != VARIANT && (v.Null? || v.tag != nodes[id].dataType) then Outcome(false, nodes)
    else Outcome(true, nodes[id := nodes[id].(value := v)])
  }

  /** What a client reads: nothing from a node that is missing or closed. */
  function Read(nodes: Nodes, id: string): Variant {
    if id in nodes && nodes[id].Variable? && nodes[id].readable then nodes[id].value else Null
  }

  function ReadAll(nodes: Nodes, ids: seq<string>): (r: seq<Variant>)
    ensures |r| == |ids| && forall i :: 0 <= i < |ids| ==> r[i] == Read(nodes, ids[i])
  {
    seq(|ids|, i requires 0 <= i < |ids| => Read(nodes, ids[i]))
  }

  // ---------- creating ----------

  /** Data type of the node of a leaf. */
  function NodeType(leaf: Node): TypeIndex
    requires !leaf.Complex?
  {
    if leaf.Arr? then VARIANT
    else
      match leaf.kind
      case Bool => BOOLEAN
      case Int8 => BYTE
      case Int16 => INT16
      case Int32 => INT32
      case Int64 => INT64
      case UInt8 => BYTE
      case UInt16 => UINT16
      case UInt32 => UINT32
      case UInt64 => UINT64
      case Float => FLOAT
      case Double => DOUBLE
      case String => STRING
  }

  /** Nodes of leaves are created empty and then closed. */
  function Create(nodes: Nodes, parent: string, n: Node): Outcome
    decreases n, 1
  {
    var id := GenerateNodeId(parent, n.name);
    if n.Complex? then
      var added := AddNode(nodes, id, Object);
      if added.ok then CreateAll(added.nodes, id, n.children) else added
    else
      var added := AddNode(nodes, id, Variable(NodeType(n), Null, true));
      if added.ok then WriteAccessLevel(added.nodes, id, false) else added
  }

  /** A failure ends the traversal. */
  function CreateAll(nodes: Nodes, parent: string, ns: seq<Node>): Outcome
    decreases ns, 0
  {
    if ns == [] then Outcome(true, nodes)
    else
      var front := CreateAll(nodes, parent, ns[..|ns| - 1]);
      if front.ok then Create(front.nodes, parent, ns[|ns| - 1]) else front
  }

  // ---------- opening ----------

  function Enable(nodes: Nodes, parent: string, n: Node): Outcome
    decreases n, 1
  {
    var id := GenerateNodeId(parent, n.name);
    if n.Complex? then EnableAll(nodes, id, n.children) else WriteAccessLevel(nodes, id, true)
  }

  function EnableAll(nodes: Nodes, parent: string, ns: seq<Node>): Outcome
    decreases ns, 0
  {
    if ns == [] then Outcome(true, nodes)
    else
      var front := EnableAll(nodes, parent, ns[..|ns| - 1]);
      if front.ok then Enable(front.nodes, parent, ns[|ns| - 1]) else front
  }

  // ---------- writing ----------

  function UpdateType(k: Kind): TypeIndex {
    match k
    case Bool => BOOLEAN
    case Int8 => BYTE
    case Int16 => INT16
    case Int32 => INT32
    case Int64 => INT64
    case UInt8 => BYTE
    case UInt16 => UINT16
    case UInt32 => UINT32
    case UInt64 => UINT64
    case Float => FLOAT
    case Double => DOUBLE
    case String => STRING
  }

  function UpdateValue(leaf: Node): Variant
    requires !leaf.Complex?
  {
    if leaf.Arr? then EncodeArray(leaf.proto, leaf.items)
    else Scalar(UpdateType(leaf.kind), StoreScalar(leaf.kind, leaf.value))
  }

  function Update(nodes: Nodes, parent: string, n: Node): Outcome
    decreases n, 1
  {
    var id := GenerateNodeId(parent, n.name);
    if n.Complex? then UpdateAll(nodes, id, n.children) else WriteValue(nodes, id, UpdateValue(n))
  }

  function UpdateAll(nodes: Nodes, parent: string, ns: seq<Node>): Outcome
    decreases ns, 0
  {
    if ns == [] then Outcome(true, nodes)
    else
      var front := UpdateAll(nodes, parent, ns[..|ns| - 1]);
      if front.ok then Update(front.nodes, parent, ns[|ns| - 1]) else front
  }

  // ---------- a service ----------

  /** The first value that is put opens the nodes. */
  function Put(nodes: Nodes, firstTime: bool, parent: string, v: Node): Outcome {
    var enabled := if firstTime then Enable(nodes, parent, v) else Outcome(true, nodes);
    if enabled.ok then Update(enabled.nodes, parent, v) else enabled
  }

  function Puts(nodes: Nodes, firstTime: bool, parent: string, vs: seq<Node>): Outcome {
    if vs == [] then Outcome(true, nodes)
    else
      var front := Puts(nodes, firstTime, parent, vs[..|vs| - 1]);
      if front.ok then Put(front.nodes, firstTime && |vs| == 1, parent, vs[|vs| - 1]) else front
  }

  // ---------- identifiers ----------

  /** Identifiers of the variable nodes, in the order of the flat list. */
  function VariableIds(parent: string, n: Node): seq<string>
    decreases n, 1
  {
    var id := GenerateNodeId(parent, n.name);
    if n.Complex? then VariableIdsOfAll(id, n.children) else [id]
  }

  function VariableIdsOfAll(parent: string, ns: seq<Node>): seq<string>
    decreases ns, 0
  {
    if ns == [] then [] else VariableIdsOfAll(parent, ns[..|ns| - 1]) + VariableIds(parent, ns[|ns| - 1])
  }

  /** Identifiers of all nodes. */
  function NodeIds(parent: string, n: Node): seq<string>
    decreases n, 1
  {
    var id := GenerateNodeId(parent, n.name);
    if n.Complex? then [id] + NodeIdsOfAll(id, n.children) else [id]
  }

  function NodeIdsOfAll(parent: string, ns: seq<Node>): seq<string>
    decreases ns, 0
  {
    if ns == [] then [] else NodeIdsOfAll(parent, ns[..|ns| - 1]) + NodeIds(parent, ns[|ns| - 1])
  }
}
