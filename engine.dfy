/**
 * The oscillator network: nodes whose fields are updated in place, held in
 * a dictionary by id.
 */
module Engine {
  import opened Wrappers
  import opened Waveform
  import opened Links

  class Node {
    const id: string
    var waveform: seq<Complex>
    var connections: seq<Node>
    var collapsed: bool
    var value: Option<nat>

    /** A fresh node: all-ones waveform, no links, not collapsed, no value. */
    constructor (id: string, waveformLength: nat)
      ensures this.id == id
      ensures waveform == Ones(waveformLength)
      ensures connections == []
      ensures !collapsed && value == None
    {
      this.id := id;
      waveform := Ones(waveformLength);
      connections := [];
      collapsed := false;
      value := None;
    }

    /**
     * Divides the waveform by its L2 norm when that is positive; `norm`
     * computes the norm.
     */
    method Normalize(norm: seq<Complex> -> real)
      modifies this`waveform
      ensures waveform == Normalized(old(waveform), norm(old(waveform)))
    {
      var n := norm(waveform);
      if n > 0.0 {
        waveform := Scaled(waveform, 1.0 / n);
      }
    }
  }

  /** The ids of a list of nodes, in list order. */
  function Ids(cs: seq<Node>): (ids: seq<string>)
    ensures |ids| == |cs|
    ensures forall m :: 0 <= m < |cs| ==> ids[m] == cs[m].id
  {
    seq(|cs|, m requires 0 <= m < |cs| => cs[m].id)
  }

  class Network {
    var nodes: map<string, Node>
    /** The ids in dictionary insertion order. */
    var keys: seq<string>
    /** Every node ever added: the objects the network may update. */
    ghost var repr: set<Node>

    /** The nodes by id with their ids in dictionary order. */
    function Shape(): Graph<Node>
      reads this
    {
      Graph(nodes, keys)
    }

    /**
     * Every node is stored under its own id and is one the network may
     * update, and every id in the key order names a node.
     */
    ghost predicate Indexed()
      reads this
    {
      (forall k :: k in nodes ==> nodes[k].id == k && nodes[k] in repr) &&
      (forall i :: 0 <= i < |keys| ==> keys[i] in nodes)
    }

    /** Moreover the key order lists every id exactly once. */
    ghost predicate Valid()
      reads this
    {
      Indexed() &&
      (forall k :: k in nodes ==> k in keys) &&
      Distinct(keys)
    }

    /**
     * The connection lists of all nodes, by id (every node is one of `repr`
     * when the network is indexed).
     */
    ghost function Table(): Table<Node>
      reads this, repr`connections
    {
      map k | k in nodes && nodes[k] in repr :: nodes[k].connections
    }

    /** With every node unlinked, each id maps to the empty list. */
    lemma UnlinkedTable()
      requires Valid()
      requires forall k :: k in nodes ==> nodes[k].connections == []
      ensures Table() == map k | k in nodes :: []
    {
    }

    /**
     * Every listed node is the node stored under its own id: links can be
     * followed by id.
     */
    ghost predicate Linked()
      reads this, repr`connections
    {
      forall k, m :: k in nodes && nodes[k] in repr && 0 <= m < |nodes[k].connections| ==>
        nodes[k].connections[m].id in nodes && nodes[nodes[k].connections[m].id] == nodes[k].connections[m]
    }

    /** A table whose lists hold only nodes of the network can be followed by id. */
    lemma ClosedLinked()
      requires Indexed() && Closed(Table(), Shape())
      ensures Linked()
    {
      forall k, m | k in nodes && 0 <= m < |nodes[k].connections|
        ensures nodes[k].connections[m].id in nodes && nodes[nodes[k].connections[m].id] == nodes[k].connections[m]
      {
        var c := nodes[k].connections[m];
        assert Table()[k][m] == c;
        assert c in nodes.Values;
        var j :| j in nodes && nodes[j] == c;
      }
    }

    lemma ValidShape()
      requires Valid()
      ensures WellFormed(Shape())
    {
      forall a, b | a in nodes && b in nodes && nodes[a] == nodes[b]
        ensures a == b
      {
        assert nodes[a].id == a && nodes[b].id == b;
      }
    }

    /**
     * After a change to the list of the node with id `k` alone, the table
     * differs from `before` only at `k`.
     */
    lemma TableAfterAppend(before: Table<Node>, k: string)
      requires Indexed() && k in nodes
      requires before.Keys == nodes.Keys
      requires forall j :: j in nodes && j != k ==> nodes[j].connections == before[j]
      ensures Table() == before[k := nodes[k].connections]
    {
      var after := before[k := nodes[k].connections];
      assert Table().Keys == after.Keys;
      forall j | j in nodes
        ensures Table()[j] == after[j]
      {
      }
    }

    constructor ()
      ensures nodes == map[] && keys == [] && repr == {}
      ensures Valid()
    {
      nodes := map[];
      keys := [];
      repr := {};
    }

    /**
     * `nodes[node.id] = node`: an existing entry with that id is replaced
     * and keeps its place in the key order; a new id goes last.
     */
    method AddNode(node: Node)
      requires Valid()
      modifies this
      ensures nodes == old(nodes)[node.id := node]
      ensures keys == if node.id in old(nodes) then old(keys) else old(keys) + [node.id]
      ensures repr == old(repr) + {node}
      ensures Valid()
    {
      if node.id !in nodes {
        keys := keys + [node.id];
      }
      nodes := nodes[node.id := node];
      repr := repr + {node};
    }

    /**
     * `connect(id1, id2)`. With both ids present, each node is appended to
     * the other's list unless it is already there; a missing id raises, and
     * then `ok` is false and nothing has changed.
     */
    method Connect(id1: string, id2: string) returns (ok: bool)
      requires Indexed()
      modifies repr`connections
      ensures ok == (id1 in nodes && id2 in nodes)
      ensures ok ==> Table() == Connected(old(Table()), Shape(), id1, id2)
      ensures !ok ==> Table() == old(Table())
      ensures forall n :: n in repr && n !in nodes.Values ==> n.connections == old(n.connections)
    {
      if id1 !in nodes || id2 !in nodes {
        return false;
      }
      var n1, n2 := nodes[id1], nodes[id2];
      ghost var t0 := Table();
      if n2 !in n1.connections {
        n1.connections := n1.connections + [n2];
      }
      assert n1.connections == AppendNew(Get(t0, id1), n2);
      ghost var t1 := t0[id1 := n1.connections];
      TableAfterAppend(t0, id1);
      if n1 !in n2.connections {
        n2.connections := n2.connections + [n1];
      }
      assert n2.connections == AppendNew(Get(t1, id2), n1);
      TableAfterAppend(t1, id2);
      return true;
    }

    /**
     * `random_connect(prob)`: for every pair of positions i < j in key
     * order, row by row, connect the pair when its draw is below `prob`.
     */
    method RandomConnect(d: Draws)
      requires Indexed()
      modifies repr`connections
      ensures Table() == RandomConnected(old(Table()), Shape(), d)
      ensures forall n :: n in repr && n !in nodes.Values ==> n.connections == old(n.connections)
    {
      hide Row, Rows, PairStep, Connected, RandomConnected;
      ghost var t0 := Table();
      ghost var g := Shape();
      RowsStart(t0, g, d);
      var i := 0;
      while i < |keys|
        invariant 0 <= i <= |keys|
        invariant Table() == Rows(t0, g, d, i)
        invariant forall n :: n in repr && n !in nodes.Values ==> n.connections == old(n.connections)
      {
        ConnectRow(d, i);
        RowsNext(t0, g, d, i);
        i := i + 1;
      }
      RowsAll(t0, g, d);
    }

    /**
     * One pass of the inner loop of `random_connect`: the pairs (i, j) for
     * j from i + 1 to the end of the key order.
     */
    method ConnectRow(d: Draws, i: nat)
      requires Indexed() && i < |keys|
      modifies repr`connections
      ensures Table() == Row(old(Table()), Shape(), d, i, |keys|)
      ensures forall n :: n in repr && n !in nodes.Values ==> n.connections == old(n.connections)
    {
      hide Row, Rows, PairStep, Connected, RandomConnected;
      ghost var t0 := Table();
      ghost var g := Shape();
      RowStart(t0, g, d, i);
      var j := i + 1;
      while j < |keys|
        invariant i + 1 <= j <= |keys|
        invariant Table() == Row(t0, g, d, i, j)
        invariant forall n :: n in repr && n !in nodes.Values ==> n.connections == old(n.connections)
      {
        RowNext(t0, g, d, i, j);
        if d.draw(i, j) < d.prob {
          var _ := Connect(keys[i], keys[j]);
        }
        j := j + 1;
      }
    }
  }
}
