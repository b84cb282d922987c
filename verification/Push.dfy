/** The server and the visitors that publish communication objects on it. */
module Push {
  import opened CodecModel
  import opened PushModel
  import Codec

  /** The server, as far as it is used here. Services report whether they worked. */
  class OpcUaServer {
    var nodes: Nodes

    constructor ()
      ensures nodes == map[]
    {
      nodes := map[];
    }

    method AddNode(id: string, node: ServerNode) returns (ok: bool)
      modifies this
      ensures Outcome(ok, nodes) == PushModel.AddNode(old(nodes), id, node)
    {
      ok := id !in nodes;
      if ok {
        nodes := nodes[id := node];
      }
    }

    method WriteAccessLevel(id: string, readable: bool) returns (ok: bool)
      modifies this
      ensures Outcome(ok, nodes) == PushModel.WriteAccessLevel(old(nodes), id, readable)
    {
      ok := id in nodes && nodes[id].Variable?;
      if ok {
        nodes := nodes[id := nodes[id].(readable := readable)];
      }
    }

    method WriteValue(id: string, v: Variant) returns (ok: bool)
      modifies this
      ensures Outcome(ok, nodes) == PushModel.WriteValue(old(nodes), id, v)
    {
      ok := id in nodes && nodes[id].Variable?
        && (nodes[id].dataType == VARIANT || (!v.Null? && v.tag == nodes[id].dataType));
      if ok {
        nodes := nodes[id := nodes[id].(value := v)];
      }
    }
  }

  /** Creates the nodes of a description below a parent. */
  class ToPushModelVisitor {
    const server: OpcUaServer
    const parent: string

    constructor (server: OpcUaServer, parent: string)
      ensures this.server == server && this.parent == parent
    {
      this.server := server;
      this.parent := parent;
    }

    method Visit(n: Node) returns (ok: bool)
      modifies server
      ensures Outcome(ok, server.nodes) == Create(old(server.nodes), parent, n)
      decreases n, 1
    {
      var id := GenerateNodeId(parent, n.name);
      if !n.Complex? {
        ok := server.AddNode(id, Variable(NodeType(n), Null, true));
        if ok {
          ok := server.WriteAccessLevel(id, false);
        }
        return;
      }
      ok := server.AddNode(id, Object);
      if !ok {
        return;
      }
      var visitor := new ToPushModelVisitor(server, id);
      ghost var added := server.nodes;
      for i := 0 to |n.children|
        invariant Outcome(true, server.nodes) == CreateAll(added, id, n.children[..i])
      {
        ok := visitor.Visit(n.children[i]);
        Codec.PrefixStep(n.children, i);
        if !ok {
          FailureStays(added, id, n.children, i + 1, |n.children|);
          assert n.children[..|n.children|] == n.children;
          return;
        }
      }
      assert n.children[..|n.children|] == n.children;
      ok := true;
    }
  }

  lemma {:induction false} FailureStays(nodes: Nodes, parent: string, ns: seq<Node>, m: nat, k: nat)
    requires m <= k <= |ns|
    ensures !CreateAll(nodes, parent, ns[..m]).ok ==>
      CreateAll(nodes, parent, ns[..k]) == CreateAll(nodes, parent, ns[..m])
    ensures !EnableAll(nodes, parent, ns[..m]).ok ==>
      EnableAll(nodes, parent, ns[..k]) == EnableAll(nodes, parent, ns[..m])
    ensures !UpdateAll(nodes, parent, ns[..m]).ok ==>
      UpdateAll(nodes, parent, ns[..k]) == UpdateAll(nodes, parent, ns[..m])
    decreases k
  {
    if m < k {
      FailureStays(nodes, parent, ns, m, k - 1);
      assert ns[..k][..k - 1] == ns[..k - 1];
    }
  }

  /** Opens the variable nodes of a description for reading. */
  class EnableOpcuaServerVisitor {
    const server: OpcUaServer
    const parent: string

    constructor (server: OpcUaServer, parent: string)
      ensures this.server == server && this.parent == parent
    {
      this.server := server;
      this.parent := parent;
    }

    method Visit(n: Node) returns (ok: bool)
      modifies server
      ensures Outcome(ok, server.nodes) == Enable(old(server.nodes), parent, n)
      decreases n, 1
    {
      var id := GenerateNodeId(parent, n.name);
      if !n.Complex? {
        ok := server.WriteAccessLevel(id, true);
        return;
      }
      var visitor := new EnableOpcuaServerVisitor(server, id);
      for i := 0 to |n.children|
        invariant Outcome(true, server.nodes) == EnableAll(old(server.nodes), id, n.children[..i])
      {
        ok := visitor.Visit(n.children[i]);
        Codec.PrefixStep(n.children, i);
        if !ok {
          FailureStays(old(server.nodes), id, n.children, i + 1, |n.children|);
          assert n.children[..|n.children|] == n.children;
          return;
        }
      }
      assert n.children[..|n.children|] == n.children;
      ok := true;
    }
  }

  /** Writes a value to the variable nodes of its description. */
  class UpdateOpcuaServerVisitor {
    const server: OpcUaServer
    const parent: string

    constructor (server: OpcUaServer, parent: string)
      ensures this.server == server && this.parent == parent
    {
      this.server := server;
      this.parent := parent;
    }

    method Visit(n: Node) returns (ok: bool)
      modifies server
      ensures Outcome(ok, server.nodes) == Update(old(server.nodes), parent, n)
      decreases n, 1
    {
      var id := GenerateNodeId(parent, n.name);
      match n
      case Leaf(_, k, value) =>
        ok := server.WriteValue(id, Scalar(UpdateType(k), StoreScalar(k, value)));
      case Arr(_, proto, items) =>
        var converter := new Codec.CommObjArrayToValue(proto, items);
        ok := server.WriteValue(id, converter.Value());
      case Complex(_, children) =>
        var visitor := new UpdateOpcuaServerVisitor(server, id);
        for i := 0 to |children|
          invariant Outcome(true, server.nodes) == UpdateAll(old(server.nodes), id, children[..i])
        {
          ok := visitor.Visit(children[i]);
          Codec.PrefixStep(children, i);
          if !ok {
            FailureStays(old(server.nodes), id, children, i + 1, |children|);
            assert children[..|children|] == children;
            return;
          }
        }
        assert children[..|children|] == children;
        ok := true;
    }
  }

  /** A service that publishes values of one description. */
  class PushServer {
    const server: OpcUaServer
    const parent: string
    var firstTimePut: bool

    constructor (server: OpcUaServer, parent: string)
      ensures this.server == server && this.parent == parent && firstTimePut
    {
      this.server := server;
      this.parent := parent;
      firstTimePut := true;
    }

    /** The nodes are created with the service. There is no service if that fails. */
    static method Open(server: OpcUaServer, parent: string, t: Node) returns (service: PushServer?)
      modifies server
      ensures Outcome(service != null, server.nodes) == Create(old(server.nodes), parent, t)
      ensures service != null ==> service.server == server && service.parent == parent && service.firstTimePut
    {
      var visitor := new ToPushModelVisitor(server, parent);
      var ok := visitor.Visit(t);
      service := null;
      if ok {
        service := new PushServer(server, parent);
      }
    }

    method Put(v: Node) returns (ok: bool)
      modifies this, server
      ensures Outcome(ok, server.nodes) == PushModel.Put(old(server.nodes), old(firstTimePut), parent, v)
      ensures ok ==> !firstTimePut
    {
      if firstTimePut {
        var enabler := new EnableOpcuaServerVisitor(server, parent);
        ok := enabler.Visit(v);
        if !ok {
          return;
        }
        firstTimePut := false;
      }
      var updater := new UpdateOpcuaServerVisitor(server, parent);
      ok := updater.Visit(v);
    }
  }
}
