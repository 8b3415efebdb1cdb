/**
 * `SolironaSimulation`: a network built at start-up and the operations that
 * update its nodes in place, each proved against the value-level step of
 * module `Rounds`.
 */
module Simulation {
  import opened Wrappers
  import opened Waveform
  import opened Links
  import opened Naming
  import opened Engine
  import opened Rounds
  import opened Snapshot

  /** A node's fields as a value, with its links by id. */
  function CellOf(node: Node): (c: Cell)
    reads node
    ensures c.wave == node.waveform && c.collapsed == node.collapsed && c.value == node.value
    ensures c.links == Ids(node.connections)
  {
    Cell(node.waveform, Ids(node.connections), node.collapsed, node.value)
  }

  /**
   * Where the interference loop reads each neighbour's waveform from: the
   * running sum for a self-link, the neighbour's stored waveform otherwise.
   */
  ghost function SourcesAt(node: Node): (srcs: seq<Source>)
    reads node, node.connections
    ensures |srcs| == |node.connections|
    ensures forall m :: 0 <= m < |srcs| ==>
      srcs[m] == if node.connections[m] == node then Itself else Other(node.connections[m].waveform)
  {
    var cs := node.connections;
    seq(|cs|, m reads cs requires 0 <= m < |cs| => if cs[m] == node then Itself else Other(cs[m].waveform))
  }

  /** `rotate_phase(node, angle)`, given the phase factor e^(i*angle). */
  method RotatePhase(node: Node, z: Complex)
    modifies node`waveform
    ensures node.waveform == Rotated(old(node.waveform), z)
  {
    node.waveform := Rotated(node.waveform, z);
  }

  /**
   * `interfere(node)`: add half of every neighbour's waveform, in list
   * order, then normalise.
   */
  method Interfere(node: Node, norm: seq<Complex> -> real)
    requires Fits(SourcesAt(node), |node.waveform|)
    modifies node`waveform
    ensures var mixed := Interfered(old(node.waveform), old(SourcesAt(node)));
      node.waveform == Normalized(mixed, norm(mixed))
  {
    ghost var w0 := node.waveform;
    ghost var srcs := SourcesAt(node);
    var cs := node.connections;
    var i := 0;
    while i < |cs|
      invariant 0 <= i <= |cs|
      invariant node.waveform == Interfered(w0, srcs[..i])
    {
      var nb := cs[i];
      assert srcs[..i + 1][..i] == srcs[..i];
      node.waveform := AddScaled(node.waveform, nb.waveform, Gain);
      i := i + 1;
    }
    assert srcs[..|cs|] == srcs;
    node.Normalize(norm);
  }

  /**
   * `propagate_resonance(node, iterations)`: per iteration, interfere, then
   * rotate by that iteration's phase factor.
   */
  method PropagateResonance(node: Node, factors: seq<Complex>, norm: seq<Complex> -> real)
    requires Fits(SourcesAt(node), |node.waveform|)
    modifies node`waveform
    ensures node.waveform == Resonated(old(node.waveform), old(SourcesAt(node)), norm, factors)
  {
    ghost var w0 := node.waveform;
    ghost var srcs := SourcesAt(node);
    var i := 0;
    while i < |factors|
      invariant 0 <= i <= |factors|
      invariant SourcesAt(node) == srcs
      invariant node.waveform == Resonated(w0, srcs, norm, factors[..i])
    {
      assert factors[..i + 1][..i] == factors[..i];
      Interfere(node, norm);
      RotatePhase(node, factors[i]);
      i := i + 1;
    }
    assert factors[..|factors|] == factors;
  }

  /**
   * `collapse(node)`, with `u` the uniform draw behind `np.random.choice`.
   * `ok` is false when the waveform has no weight: numpy then refuses the
   * NaN probabilities, and the node is left as it was.
   */
  method Collapse(node: Node, u: real) returns (ok: bool)
    requires 0.0 <= u < 1.0
    modifies node`waveform, node`collapsed, node`value
    ensures var r := CollapseCell(old(CellOf(node)), u);
      ok == r.Some? && CellOf(node) == if ok then r.value else old(CellOf(node))
  {
    if node.collapsed {
      return true;
    }
    var w := node.waveform;
    if Total(w) == 0.0 {
      return false;
    }
    var choice := Sample(w, u);
    node.collapsed := true;
    node.value := Some(choice);
    node.waveform := Zeros(|w|);
    node.waveform := node.waveform[choice := One];
    return true;
  }

  /** The value of every node of a network, by id. */
  ghost function Cells(net: Network): (s: State)
    reads net, net.repr
    ensures net.Indexed() ==> s.Keys == net.nodes.Keys
    ensures net.Indexed() ==> forall k :: k in net.nodes ==> s[k] == CellOf(net.nodes[k])
  {
    map k | k in net.nodes && net.nodes[k] in net.repr :: CellOf(net.nodes[k])
  }

  /**
   * What holds of the links between operations: the network is indexed
   * with one key per node, links can be followed by id, and the adjacency
   * is symmetric, loop-free and duplicate-free.
   */
  ghost predicate Shaped(net: Network)
    reads net, net.repr`connections
  {
    net.Valid() && net.Linked() &&
    Symmetric(net.Table(), net.Shape()) && Loopless(net.Table(), net.Shape()) && NoDuplicates(net.Table())
  }

  /**
   * What holds of the network between operations: its links are shaped, and
   * every node has `width` slots and a value exactly when it has collapsed.
   */
  ghost predicate Wired(net: Network, width: nat)
    reads net, net.repr
  {
    Shaped(net) && WellShaped(Cells(net), width)
  }

  lemma ShapedFacts(net: Network)
    requires Shaped(net)
    ensures net.Indexed() && net.Linked()
  {
  }

  lemma WiredFacts(net: Network, width: nat)
    requires Wired(net, width)
    ensures Shaped(net) && WellShaped(Cells(net), width)
    ensures net.Valid() && net.Indexed() && Covers(Cells(net), net.keys)
    ensures forall i :: 0 <= i < |net.keys| ==> net.keys[i] in net.nodes
  {
  }

  lemma WiredOf(net: Network, width: nat)
    requires Shaped(net) && WellShaped(Cells(net), width)
    ensures Wired(net, width)
  {
  }

  /** Where node `k` reads its neighbours from, as the value-level step sees it. */
  lemma SourcesMatch(net: Network, k: string)
    requires net.Indexed() && net.Linked() && k in net.nodes
    ensures forall m :: 0 <= m < |net.nodes[k].connections| ==> net.nodes[k].connections[m].id in Cells(net)
    ensures SourcesAt(net.nodes[k]) == SourcesOf(Cells(net), k)
  {
    var node := net.nodes[k];
    var s := Cells(net);
    var cs := node.connections;
    forall m | 0 <= m < |cs|
      ensures SourcesAt(node)[m] == SourcesOf(s, k)[m]
    {
      var c := cs[m];
      assert net.nodes[c.id] == c;
      if c.id == k {
        assert c == node;
      } else {
        assert c != node;
      }
    }
  }

  /** After a change to the node with id `k` alone, the values differ only at `k`. */
  lemma CellsAfterUpdate(net: Network, before: State, k: string)
    requires net.Indexed() && k in net.nodes
    requires before.Keys == net.nodes.Keys
    requires forall j :: j in net.nodes && j != k ==> CellOf(net.nodes[j]) == before[j]
    ensures Cells(net) == before[k := CellOf(net.nodes[k])]
  {
    var after := before[k := CellOf(net.nodes[k])];
    assert Cells(net).Keys == after.Keys;
    forall j | j in net.nodes
      ensures Cells(net)[j] == after[j]
    {
    }
  }

  /**
   * A network whose links can be followed by id, and whose nodes have
   * `width` slots and have not collapsed, is well shaped.
   */
  lemma WellShapedAtStart(net: Network, width: nat)
    requires net.Indexed() && net.Linked()
    requires forall k :: k in net.nodes ==>
      |net.nodes[k].waveform| == width && !net.nodes[k].collapsed && net.nodes[k].value == None
    ensures WellShaped(Cells(net), width)
  {
    var s := Cells(net);
    forall k, m | k in s && 0 <= m < |s[k].links|
      ensures s[k].links[m] in s
    {
      assert s[k].links[m] == net.nodes[k].connections[m].id;
    }
  }

  /**
   * A network of fresh nodes connected by `random_connect` is wired, and
   * links exactly the pairs whose draw fell below the probability.
   */
  lemma WiredAtStart(net: Network, t0: Table<Node>, d: Draws, width: nat)
    requires net.Valid()
    requires t0.Keys == net.nodes.Keys && forall k :: k in t0 ==> t0[k] == []
    requires net.Table() == RandomConnected(t0, net.Shape(), d)
    requires forall k :: k in net.nodes ==>
      |net.nodes[k].waveform| == width && !net.nodes[k].collapsed && net.nodes[k].value == None
    ensures Wired(net, width)
    ensures forall p, q :: 0 <= p < |net.keys| && 0 <= q < |net.keys| ==>
      (net.nodes[net.keys[q]] in net.nodes[net.keys[p]].connections <==> Chosen(d, p, q))
  {
    var g := net.Shape();
    net.ValidShape();
    RandomConnectedFromEmpty(t0, g, d);
    net.ClosedLinked();
    WellShapedAtStart(net, width);
    forall p, q | 0 <= p < |net.keys| && 0 <= q < |net.keys|
      ensures net.nodes[net.keys[q]] in net.nodes[net.keys[p]].connections <==> Chosen(d, p, q)
    {
      assert Get(net.Table(), net.keys[p]) == net.nodes[net.keys[p]].connections;
    }
  }

  /**
   * The first loop of the constructor: nodes `n0` .. `n{numNodes - 1}`,
   * fresh and unlinked, added in that order.
   */
  method NewNetwork(numNodes: nat, waveformLength: nat) returns (net: Network)
    ensures fresh(net) && fresh(net.repr)
    ensures net.Valid()
    ensures net.keys == NodeNames(numNodes)
    ensures forall k :: k in net.nodes ==>
      net.nodes[k].waveform == Ones(waveformLength) && net.nodes[k].connections == [] &&
      !net.nodes[k].collapsed && net.nodes[k].value == None
    ensures net.Table() == map k | k in net.nodes :: []
  {
    net := new Network();
    var names := NodeNames(numNodes);
    hide Network.Indexed;
    var i := 0;
    while i < numNodes
      invariant 0 <= i <= numNodes
      invariant net.keys == names[..i]
      invariant net.Valid() && fresh(net) && fresh(net.repr)
      invariant forall k :: k in net.nodes ==>
        net.nodes[k].waveform == Ones(waveformLength) && net.nodes[k].connections == [] &&
        !net.nodes[k].collapsed && net.nodes[k].value == None
    {
      var node := new Node(NodeName(i), waveformLength);
      assert NodeName(i) !in net.keys;
      net.AddNode(node);
      assert names[..i + 1] == names[..i] + [NodeName(i)];
      i := i + 1;
    }
    assert net.keys == names;
    net.UnlinkedTable();
  }

  class Simulation {
    const network: Network
    var running: bool
    /** The number of slots of every waveform. */
    ghost const width: nat

    ghost predicate Valid()
      reads network, network.repr
    {
      Wired(network, width)
    }

    /**
     * `SolironaSimulation(num_nodes, connect_prob, waveform_length)`: nodes
     * `n0` .. `n{num_nodes - 1}` in that order, linked by `random_connect`
     * with the draws `draw`, and not running. The link lists, order
     * included, are those `random_connect` builds from empty lists.
     */
    constructor (numNodes: nat, connectProb: real, waveformLength: nat, draw: (nat, nat) -> real)
      ensures Valid()
      ensures width == waveformLength && !running
      ensures fresh(network) && fresh(network.repr)
      ensures network.keys == NodeNames(numNodes)
      ensures forall k :: k in network.nodes ==>
        network.nodes[k].waveform == Ones(waveformLength) &&
        !network.nodes[k].collapsed && network.nodes[k].value == None
      ensures forall p, q :: 0 <= p < numNodes && 0 <= q < numNodes ==>
        (network.nodes[network.keys[q]] in network.nodes[network.keys[p]].connections <==>
         Chosen(Draws(draw, connectProb), p, q))
      ensures network.Table() ==
        RandomConnected(map k | k in network.nodes :: [], network.Shape(), Draws(draw, connectProb))
    {
      hide Wired, RandomConnected, Network.Table;
      var net := NewNetwork(numNodes, waveformLength);
      ghost var t0 := net.Table();
      var d := Draws(draw, connectProb);
      net.RandomConnect(d);
      WiredAtStart(net, t0, d, waveformLength);
      network := net;
      width := waveformLength;
      running := false;
    }

    /**
     * `step(collapse_chance)`: propagation on every node in key order, then
     * a chance to collapse for every node that has not collapsed. `ok` is
     * false when a collapse failed; the step stops there.
     */
    method Step(chance: real, d: StepDraws, norm: seq<Complex> -> real) returns (ok: bool)
      requires Valid()
      requires forall i :: 0 <= i < |network.keys| ==> 0.0 <= d.pick(i) < 1.0
      modifies network.repr`waveform, network.repr`collapsed, network.repr`value
      ensures Valid()
      ensures var o := StepSpec(old(Cells(network)), width, network.keys, d, chance, norm);
        Cells(network) == o.state && ok == o.ok
    {
      PropagateAll(d, norm);
      ok := CollapseAll(chance, d);
    }

    /** What validity gives the methods below, which hide every definition. */
    lemma ValidFacts()
      requires Valid()
      ensures Shaped(network) && WellShaped(Cells(network), width)
      ensures network.Valid() && network.Indexed() && Covers(Cells(network), network.keys)
      ensures forall i :: 0 <= i < |network.keys| ==> network.keys[i] in network.nodes
      ensures forall k :: k in network.nodes ==> k in network.keys
    {
      WiredFacts(network, width);
    }

    /**
     * `get_state`: the snapshot of every node, built entry by entry in key
     * order; `abs` and `angle` stand for the modulus and numpy's `angle`.
     * Nothing changes.
     */
    method GetState(abs: Complex -> real, angle: Complex -> real) returns (r: map<string, Entry>)
      requires Valid()
      ensures r == Take(Cells(network), abs, angle)
      ensures Restore(r) == Cells(network)
    {
      hide *;
      ValidFacts();
      ghost var s := Cells(network);
      var keys := network.keys;
      r := map[];
      var i := 0;
      while i < |keys|
        invariant 0 <= i <= |keys|
        invariant forall j :: 0 <= j < i ==> keys[j] in r
        invariant forall k :: k in r ==> k in s && r[k] == Snap(s[k], abs, angle)
      {
        var node := network.nodes[keys[i]];
        r := r[keys[i] := Snap(CellOf(node), abs, angle)];
        i := i + 1;
      }
      assert r == Take(s, abs, angle);
      RestoreTake(s, abs, angle);
    }

    /** The first loop of `step`: `propagate_resonance` on every node. */
    method PropagateAll(d: StepDraws, norm: seq<Complex> -> real)
      requires Valid()
      modifies network.repr`waveform
      ensures Valid()
      ensures Cells(network) == PropagatePass(old(Cells(network)), width, network.keys, d, norm, |network.keys|)
    {
      WiredFacts(network, width);
      hide *;
      ghost var s0 := Cells(network);
      var keys := network.keys;
      PropagatePassStart(s0, width, keys, d, norm);
      var i := 0;
      while i < |keys|
        invariant 0 <= i <= |keys|
        invariant Valid()
        invariant Cells(network) == PropagatePass(s0, width, keys, d, norm, i)
      {
        PropagatePassNext(s0, width, keys, d, norm, i + 1);
        ResonateNode(keys[i], [d.phase(i)], norm);
        i := i + 1;
      }
    }

    /** `propagate_resonance` on the node with id `k`. */
    method ResonateNode(k: string, factors: seq<Complex>, norm: seq<Complex> -> real)
      requires Valid() && k in network.nodes
      modifies network.repr`waveform
      ensures Valid()
      ensures Cells(network) == Resonate(old(Cells(network)), width, k, norm, factors)
    {
      hide Wired, Shaped, WellShaped, Cells;
      WiredFacts(network, width);
      ShapedFacts(network);
      var node := network.nodes[k];
      ghost var prev := Cells(network);
      SourcesMatch(network, k);
      SourcesFit(prev, width, k);
      PropagateResonance(node, factors, norm);
      forall j | j in network.nodes && j != k
        ensures CellOf(network.nodes[j]) == prev[j]
      {
        assert network.nodes[j].id == j;
      }
      CellsAfterUpdate(network, prev, k);
      assert Shaped(network);
      assert Cells(network) == Resonate(prev, width, k, norm, factors);
      WiredOf(network, width);
    }

    /** The second loop of `step`: the collapse chances, in key order. */
    method CollapseAll(chance: real, d: StepDraws) returns (ok: bool)
      requires Valid()
      requires forall i :: 0 <= i < |network.keys| ==> 0.0 <= d.pick(i) < 1.0
      modifies network.repr`waveform, network.repr`collapsed, network.repr`value
      ensures Valid()
      ensures var o := CollapsePass(old(Cells(network)), width, network.keys, d, chance, |network.keys|);
        Cells(network) == o.state && ok == o.ok
    {
      WiredFacts(network, width);
      hide *;
      ghost var s0 := Cells(network);
      var keys := network.keys;
      CollapsePassStart(s0, width, keys, d, chance);
      ok := true;
      var i := 0;
      while i < |keys| && ok
        invariant 0 <= i <= |keys|
        invariant Valid()
        invariant Cells(network) == CollapsePass(s0, width, keys, d, chance, i).state
        invariant ok == CollapsePass(s0, width, keys, d, chance, i).ok
      {
        CollapsePassAfter(s0, width, keys, d, chance, i);
        ok := CollapseNode(keys[i], d.chance(i) < chance, d.pick(i));
        i := i + 1;
      }
      if !ok {
        CollapsePassStopped(s0, width, keys, d, chance, i, |keys|);
      }
    }

    /**
     * One iteration of the second loop of `step`: the node with id `k`
     * collapses when it has not collapsed and its draw `fired`.
     */
    method CollapseNode(k: string, fired: bool, u: real) returns (ok: bool)
      requires Valid() && k in network.nodes && 0.0 <= u < 1.0
      modifies network.repr`waveform, network.repr`collapsed, network.repr`value
      ensures Valid()
      ensures var o := CollapseStep(old(Cells(network)), width, k, fired, u);
        Cells(network) == o.state && ok == o.ok
    {
      hide Wired, Shaped, WellShaped, Cells;
      WiredFacts(network, width);
      ShapedFacts(network);
      var node := network.nodes[k];
      ghost var prev := Cells(network);
      ghost var o := CollapseStep(prev, width, k, fired, u);
      ok := true;
      if !node.collapsed && fired {
        ok := Collapse(node, u);
        forall j | j in network.nodes && j != k
          ensures CellOf(network.nodes[j]) == prev[j]
        {
          assert network.nodes[j].id == j;
        }
        CellsAfterUpdate(network, prev, k);
      }
      assert Cells(network) == o.state && ok == o.ok;
      assert Shaped(network);
      WiredOf(network, width);
    }
  }
}
