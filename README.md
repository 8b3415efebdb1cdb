# Solirona oscillator network, modelled in Dafny

Solirona simulates a network of oscillators. Each node carries a complex
waveform, a list of linked nodes, a `collapsed` flag and an optional
`value`. A `SolironaNetwork` keeps its nodes in a dictionary by id. `connect`
links two nodes both ways without duplicates. `random_connect` links each
unordered pair of nodes, in dictionary order, when that pair's random draw is
below a probability.

A `SolironaSimulation` builds nodes `n0` … `n{N-1}` and links them at random.
Each `step` first runs `propagate_resonance` (interference with the
neighbours, normalisation, phase rotation) on every node in dictionary order.
Then it gives every node that has not collapsed a chance to collapse. A
collapse samples a slot by the Born rule and replaces the waveform with that
slot's basis vector. `get_state` returns a serialisable copy of every node.

The model has these modules:

- `Waveform` holds complex waveforms as sequences of exact complex numbers:
  - the Born weights and their totals;
  - numpy's `choice` sampling, as a search over cumulative weights;
  - normalisation, phase rotation and interference.
- `Links` holds the link structure as values: a table from ids to lists of
  node references. On it are `connect`, `random_connect` and their invariants
  (symmetric, free of duplicates, no self-links, closed) and what
  `random_connect` links exactly.
- `Engine` holds the imperative network:
  - `Node`, a class with fields updated in place;
  - `Network`, a class with a `nodes` map, the dictionary key order `keys`,
    and methods `AddNode`, `Connect` and `RandomConnect`.
  - `Connect` and `RandomConnect` are proved against the `Links` functions;
    `AddNode` is proved against the dictionary update it performs.
- `Naming` holds node ids `"n" + str(i)` and their injectivity.
- `Rounds` is one simulation step as a function on a value state (one `Cell`
  per node id). It also holds the lemmas about which nodes collapse, which
  do not, and when a step fails.
- `Snapshot` is the `get_state` value and its inverse.
- `Simulation` holds:
  - the per-node methods (`RotatePhase`, `Interfere`, `PropagateResonance`,
    `Collapse`), which update a `Node` in place;
  - the `Simulation` class: a constructor, `Step` and `GetState`.
  - `RotatePhase`, `Interfere` and `PropagateResonance` are proved against
    the `Waveform` functions `Rotated`, `Interfered`, `Normalized` and
    `Resonated`.
  - `Collapse` and `Step` are proved against the `Rounds` functions, and
    `GetState` against the `Snapshot` functions.
  - The constructor is proved against `Naming.NodeNames`, `Waveform.Ones`
    and the `Links` functions `RandomConnected` and `Chosen`.
  - The network's validity (`Valid`) is kept as an invariant.

The random numbers are inputs:

- `Draws` holds one draw per pair for `random_connect`.
- `StepDraws` holds, per node position in key order, the phase factor
  `e^(i·angle)`, the draw compared with the collapse chance, and the uniform
  draw behind `np.random.choice`.

The L2 norm, `abs` and `angle` are parameters, because they need square
roots and trigonometry. Where their properties matter, the lemmas state them
as requirements.

## Behaviours of the code worth knowing

- A new node's waveform is all ones (`np.ones`), not random.
- `connect(a, a)` makes the node list itself once; it is not ignored.
- `connect` with an unknown id raises `KeyError` before changing anything.
  Here that is `ok == false` with nothing changed.
- `random_connect` adds links and never clears the existing ones.
- `collapse` on a waveform with no weight raises in numpy: the probabilities
  are NaN after the division by zero, and the node is left as it was. Here
  that is a failed outcome, and `step` stops at that node, because the
  exception propagates out of the loop.

## Model

| member | source | states |
|---|---|---|
| Engine.Node.constructor | server/solirona_engine.py:9-14 | a new node has the given id, a waveform of exactly `waveform_length` ones, no links, is not collapsed and has no value |
| Engine.Node.Normalize | server/solirona_engine.py:16-19 | the waveform becomes `Normalized(old waveform, norm)`: divided by the norm when it is positive, unchanged otherwise |
| Engine.Ids | server/simulation.py:77 | the ids of a node list, one per node, in list order |
| Engine.Network.constructor | server/solirona_engine.py:22-23 | a new network has no nodes |
| Engine.Network.AddNode | server/solirona_engine.py:25-26 | `nodes[node.id]` becomes the node; every other entry is unchanged; a new id goes last in key order, a replaced one keeps its place; the network stays valid |
| Engine.Network.Connect | server/solirona_engine.py:28-33 | succeeds exactly when both ids are present, and then the link table becomes `Connected(old table, a, b)`; with a missing id nothing changes; a node no longer in the dictionary keeps its links |
| Engine.Network.RandomConnect | server/solirona_engine.py:35-40 | the link table becomes `RandomConnected(old table, d)`, the nested loop over pairs i < j in key order; a node no longer in the dictionary keeps its links |
| Engine.Network.ConnectRow | server/solirona_engine.py:38-40 | one pass of the inner loop: the table becomes `Row(old table, i, |keys|)`; a node no longer in the dictionary keeps its links |
| Engine.Network.ClosedLinked | server/solirona_engine.py:29-33 | when every listed node is a node of the network, every link can be followed back by its id |
| Engine.Network.ValidShape | server/solirona_engine.py:25-26 | a valid network's key order lists each id once, and distinct ids hold distinct nodes |
| Links.AppendNew | server/solirona_engine.py:30-33 | the guarded append: the element is in the result, the old list is a prefix, and at most one element is added; nothing is added when it was already there |
| Links.AppendNewMembers | server/solirona_engine.py:30-33 | the guarded append adds that element and no other |
| Links.AppendNewDistinct | server/solirona_engine.py:30-33 | the guarded append keeps a list without duplicates free of them |
| Links.Connected | server/solirona_engine.py:28-33 | after `connect(a, b)`, `a` lists `b`'s node and `b` lists `a`'s node |
| Links.ConnectedMembers | server/solirona_engine.py:28-33 | `connect` only appends: old lists are prefixes of the new ones, lists of other nodes are unchanged, and exactly the two new entries are added |
| Links.ConnectedKeepsSymmetric | server/solirona_engine.py:28-33 | `connect` keeps the links symmetric |
| Links.ConnectedKeepsNoDuplicates | server/solirona_engine.py:30-33 | `connect` never lists a node twice |
| Links.ConnectedKeepsLoopless | server/solirona_engine.py:28-33 | connecting two distinct ids never makes a node list itself |
| Links.ConnectedKeepsClosed | server/solirona_engine.py:28-33 | `connect` only lists nodes of the network |
| Links.ConnectTwice | server/solirona_engine.py:30-33 | connecting a pair again, in either order, changes nothing: each list keeps one entry for the other node |
| Links.EmptyTableShape | server/solirona_engine.py:12 | a table of empty lists is symmetric, loop-free, duplicate-free and closed |
| Links.Chosen | server/solirona_engine.py:37-39 | whether the loop links positions p and q: their pair, visited as (i, j) with i < j, drew below `prob`; a chosen pair is always two distinct positions |
| Links.PairStep | server/solirona_engine.py:39-40 | one iteration of the inner loop only appends: every old list is a prefix of the new one, so existing links keep their order |
| Links.Row | server/solirona_engine.py:38-40 | the inner loop for row i only appends: every old list is a prefix of the new one |
| Links.Rows | server/solirona_engine.py:37-40 | the outer loop only appends: every old list is a prefix of the new one |
| Links.RandomConnected | server/solirona_engine.py:35-40 | `random_connect` only appends: existing links are kept, in their order, as prefixes of the new lists |
| Links.ConnectedLinked | server/solirona_engine.py:39-40 | a chosen pair gets linked both ways, and who lists whom changes in no other way |
| Links.SkippedLinked | server/solirona_engine.py:39 | a pair whose draw is not below `prob` changes no links |
| Links.PairStepLinked | server/solirona_engine.py:38-40 | one iteration of the inner loop keeps the characterisation of who lists whom |
| Links.RowStepLinked | server/solirona_engine.py:38-40 | the same, stated over the inner loop's fold |
| Links.RowLinked | server/solirona_engine.py:38-40 | after row i up to j, a node lists another exactly when it did before or their pair was visited and chosen |
| Links.NextRowLinked | server/solirona_engine.py:37-38 | finishing row i - 1 is the point where row i starts |
| Links.RowsLinked | server/solirona_engine.py:37-40 | after rows 0 … i - 1, a node lists another exactly when it did before or their pair was visited and chosen |
| Links.RandomConnectedLinks | server/solirona_engine.py:35-40 | after `random_connect`, the node at position p lists the node at position q exactly when it did before or the pair's draw is below `prob`: existing links are kept, and only pairs of distinct positions are added |
| Links.RowUnchanged | server/solirona_engine.py:38-40 | a row with no successful draw changes nothing |
| Links.RowsUnchanged | server/solirona_engine.py:37-40 | rows with no successful draw change nothing |
| Links.RandomConnectedNone | server/solirona_engine.py:35-40 | when no draw is below `prob` (as with `prob = 0`), the links are exactly as before |
| Links.RandomConnectedAll | server/solirona_engine.py:35-40 | when every draw is below `prob` (as with `prob = 1`), every two distinct nodes list each other |
| Links.RandomConnectedKeepsShape | server/solirona_engine.py:35-40 | `random_connect` keeps the links symmetric and never makes a node list itself |
| Links.PairStepKeepsNoDuplicates | server/solirona_engine.py:39-40 | one iteration never lists a node twice |
| Links.RowKeepsNoDuplicates | server/solirona_engine.py:38-40 | one row never lists a node twice |
| Links.RowsKeepNoDuplicates | server/solirona_engine.py:37-40 | the rows never list a node twice |
| Links.RandomConnectedKeepsNoDuplicates | server/solirona_engine.py:35-40 | `random_connect` never lists a node twice |
| Links.PairStepKeepsClosed | server/solirona_engine.py:39-40 | one iteration only lists nodes of the network |
| Links.RowKeepsClosed | server/solirona_engine.py:38-40 | one row only lists nodes of the network |
| Links.RowsKeepClosed | server/solirona_engine.py:37-40 | the rows only list nodes of the network |
| Links.RandomConnectedKeepsClosed | server/solirona_engine.py:35-40 | `random_connect` only lists nodes of the network |
| Links.RandomConnectedFromEmpty | server/solirona_engine.py:35-40 | on nodes without links, `random_connect` gives symmetric, loop-free, duplicate-free, closed links, and p lists q exactly when their pair was chosen |
| Naming.Digit | server/simulation.py:13 | a decimal digit character with the given value |
| Naming.Decimal | server/simulation.py:13 | `str(i)`: a non-empty string of digits with no leading zero |
| Naming.ParseDecimalOfDecimal | server/simulation.py:13 | reading the digits of `str(i)` back gives `i` |
| Naming.DecimalInjective | server/simulation.py:13 | different numbers have different decimal spellings |
| Naming.NodeName | server/simulation.py:13 | `f"n{i}"` starts with `n` and has at least one digit after it |
| Naming.NodeNameInjective | server/simulation.py:13 | different node numbers give different ids |
| Naming.NodeNames | server/simulation.py:12-13 | the ids `n0` … `n{N-1}` in creation order, pairwise different |
| Waveform.Weight | server/simulation.py:31 | the squared magnitude of a slot is non-negative |
| Waveform.WeightOfProduct | server/simulation.py:21 | the weight of a product is the product of the weights |
| Waveform.Ones | server/solirona_engine.py:11 | `np.ones(n)` has `n` slots |
| Waveform.Zeros | server/simulation.py:36 | `np.zeros_like` has the same number of slots |
| Waveform.Basis | server/simulation.py:36-37 | the basis vector has `n` slots, one at `k` and zero everywhere else |
| Waveform.Total | server/simulation.py:31-32 | the sum of the weights is non-negative |
| Waveform.TotalSnoc | server/simulation.py:31-32 | one more slot adds its weight to the running total |
| Waveform.FirstAbove | server/simulation.py:33 | the search finds the first slot whose cumulative weight exceeds the threshold |
| Waveform.Threshold | server/simulation.py:32-33 | the draw's share of the total lies in [0, total) |
| Waveform.Sample | server/simulation.py:31-33 | the chosen index is a slot of non-zero weight, and it is the first whose cumulative weight exceeds the draw's fraction of the total |
| Waveform.SampleSingleSupport | server/simulation.py:31-33 | when only one slot has weight, it is chosen whatever the draw |
| Waveform.SampleBasis | server/simulation.py:31-37 | sampling a basis vector yields its index |
| Waveform.SameWeightsSameTotals | server/simulation.py:31 | waveforms with the same weights slot by slot have the same cumulative totals |
| Waveform.Scaled | server/solirona_engine.py:19 | scaling keeps the length |
| Waveform.Normalized | server/solirona_engine.py:16-19 | normalisation keeps the length and leaves the waveform alone when the norm is not positive |
| Waveform.NormalizedInverse | server/solirona_engine.py:18-19 | multiplying a normalised waveform back by its positive norm restores it |
| Waveform.TotalScaled | server/solirona_engine.py:19 | scaling by g multiplies the total weight by g² |
| Waveform.WeightScaled | server/solirona_engine.py:19 | scaling a slot by g multiplies its weight by g² |
| Waveform.NormalizedIsUnit | server/solirona_engine.py:16-19 | dividing by the true L2 norm gives total weight 1 |
| Waveform.Rotated | server/simulation.py:21 | the phase rotation keeps the length |
| Waveform.RotationKeepsWeights | server/simulation.py:18-21 | a unit phase factor changes no slot's weight and not the total |
| Waveform.AddScaled | server/simulation.py:25 | `a += g * b` keeps the length |
| Waveform.Interfered | server/simulation.py:23-25 | the interference loop keeps the length |
| Waveform.AddWaves | server/simulation.py:25 | slotwise sum keeps the length |
| Waveform.SumOfOthers | server/simulation.py:24-25 | the sum of the neighbours' waveforms has the node's length |
| Waveform.InterferedIsGainTimesSum | server/simulation.py:24-25 | without self-links, interference adds one half of the sum of the neighbours' waveforms |
| Waveform.Resonated | server/simulation.py:39-42 | propagation keeps the length |
| Waveform.ResonatedIsUnit | server/simulation.py:39-42 | with a unit phase factor and the true norm, propagation leaves a unit waveform |
| Rounds.SourcesOf | server/simulation.py:24-25 | one source per link, in list order |
| Rounds.SourcesFit | server/simulation.py:24-25 | in a well-shaped state every neighbour's waveform has the node's length |
| Rounds.SourcesIgnoreOwnWave | server/simulation.py:24-25 | a node's sources do not depend on its own stored waveform |
| Rounds.Resonate | server/simulation.py:39-42 | propagation on node k changes only k's waveform: ids, links, flags, values and lengths stay |
| Rounds.PropagatePass | server/simulation.py:45-46 | the first loop of `step` keeps ids, links, flags and values, and the state well shaped |
| Rounds.CollapseCell | server/simulation.py:28-37 | a collapsed node is left as it is; otherwise the node collapses with the same links and length, and it fails exactly when its waveform has no weight; flag and value keep agreeing |
| Rounds.CollapseCellSamples | server/simulation.py:31-37 | a collapse takes as value the sampled slot, which has non-zero weight, and the waveform becomes that slot's basis vector |
| Rounds.CollapseBasis | server/simulation.py:31-37 | collapsing a basis vector yields its slot and keeps the waveform |
| Rounds.CollapseStep | server/simulation.py:48-49 | one iteration of the second loop: links and ids stay; a node already collapsed, or whose draw did not fire, is unchanged; the flag becomes set when the draw fired; it fails exactly when an uncollapsed node whose draw fired has no weight, and then nothing changes |
| Rounds.CollapsePass | server/simulation.py:47-49 | the second loop keeps ids and links, and a collapsed node stays as it is |
| Rounds.CollapsePassStopped | server/simulation.py:47-49 | once an iteration fails, the rest change nothing |
| Rounds.StepSpec | server/simulation.py:44-49 | `step` keeps the node ids, every link list and every waveform length, and never un-collapses a node or changes its value |
| Rounds.CollapsePassNone | server/simulation.py:47-49 | with no draw below the chance, the second loop changes nothing and succeeds |
| Rounds.CollapsePassAll | server/simulation.py:47-49 | with every draw below the chance, a successful second loop leaves every node it reached collapsed |
| Rounds.CollapsePassOnlyFired | server/simulation.py:47-49 | the second loop collapses only nodes that had not collapsed and whose draw fired |
| Rounds.CollapsePassLater | server/simulation.py:47-49 | the second loop has not yet touched the nodes after its current position |
| Rounds.CollapsePassFails | server/simulation.py:47-49 | the second loop fails only at a node that had not collapsed, whose draw fired and whose waveform has no weight |
| Rounds.StepNoCollapse | server/simulation.py:44-49 | with collapse chance 0 (no draw below it), a step succeeds and changes no flag and no value |
| Rounds.StepCollapseAll | server/simulation.py:44-49 | with collapse chance 1 (every draw below it), a successful step leaves every node collapsed |
| Rounds.StepCollapsesOnlyFired | server/simulation.py:47-49 | a step collapses a node only when it had not collapsed and its draw fired |
| Rounds.StepFails | server/simulation.py:44-49 | a step fails only at a node that had not collapsed, whose draw fired and whose propagated waveform has no weight |
| Snapshot.Spell | server/simulation.py:67-72 | a slot's object carries its real and imaginary parts |
| Snapshot.SpellWave | server/simulation.py:66-74 | one object per slot, in slot order |
| Snapshot.Snap | server/simulation.py:65-78 | a node's entry has one object per slot with the slot's parts, the node's flag and value, and the ids of its links in list order |
| Snapshot.Unsnap | server/simulation.py:65-78 | reading an entry back keeps its length, flag, value and links |
| Snapshot.UnsnapSnap | server/simulation.py:65-78 | an entry loses nothing of the node's state |
| Snapshot.Take | server/simulation.py:61-79 | one entry per node id, each the node's entry |
| Snapshot.Restore | server/simulation.py:61-79 | reading a snapshot back gives one state per entry |
| Snapshot.RestoreTake | server/simulation.py:61-79 | the snapshot loses nothing: the node states are read back exactly |
| Snapshot.TakeClosed | server/simulation.py:77 | every link id in a snapshot of a well-shaped state names an entry of the snapshot |
| Simulation.CellOf | server/simulation.py:75-77 | a node's fields as a value, with its links by id |
| Simulation.SourcesAt | server/simulation.py:24-25 | what each neighbour contributes: the running sum for a self-link, the neighbour's waveform otherwise |
| Simulation.RotatePhase | server/simulation.py:18-21 | the waveform becomes `Rotated(old waveform, z)`; nothing else changes |
| Simulation.Interfere | server/simulation.py:23-26 | the waveform becomes the normalised result of adding half of every neighbour's waveform, in list order |
| Simulation.PropagateResonance | server/simulation.py:39-42 | the waveform becomes `Resonated(old waveform, sources, norm, factors)` |
| Simulation.Collapse | server/simulation.py:28-37 | the node's fields become `CollapseCell` of the old ones, and `ok` is false exactly when that fails, with the node then unchanged |
| Simulation.Cells | server/simulation.py:64 | the value state has one cell per node id, each the node's fields |
| Simulation.SourcesMatch | server/simulation.py:24-25 | a node's sources in the heap are its sources in the value state |
| Simulation.WellShapedAtStart | server/simulation.py:11-13 | new nodes of one length with no links form a well-shaped state |
| Simulation.WiredAtStart | server/simulation.py:11-14 | after `random_connect` on new nodes the network is valid, and p lists q exactly when their pair was chosen |
| Simulation.NewNetwork | server/simulation.py:11-13 | the loop of `__init__` that adds nodes `n0` … `n{N-1}`: keys in that order, each node new, with ones, no links (every id maps to the empty list), not collapsed and no value |
| Simulation.Simulation.constructor | server/simulation.py:10-15 | exactly the ids `n0` … `n{N-1}`, in order; all-ones waveforms of the given length; nothing collapsed; a node lists another exactly when their pair was chosen; the link lists, order included, are `RandomConnected` of empty lists; not running |
| Simulation.Simulation.Step | server/simulation.py:44-49 | the node states become `StepSpec` of the old ones, and `ok` is its outcome; the simulation stays valid |
| Simulation.Simulation.GetState | server/simulation.py:61-79 | changes nothing and returns `Take` of the node states, from which `Restore` gives them back exactly |
| Simulation.Simulation.PropagateAll | server/simulation.py:45-46 | the first loop: the node states become `PropagatePass` of the old ones |
| Simulation.Simulation.ResonateNode | server/simulation.py:46 | propagation on one node: the node states become `Resonate` of the old ones |
| Simulation.Simulation.CollapseAll | server/simulation.py:47-49 | the second loop: the node states become `CollapsePass` of the old ones, stopping at the first failure |
| Simulation.Simulation.CollapseNode | server/simulation.py:48-49 | one iteration of the second loop: the node states become `CollapseStep` of the old ones |

The unfolding lemmas `Links.RowNext`, `Links.RowsNext`, `Links.RowStart`,
`Links.RowsStart`, `Links.RowsAll`, `Links.RowsStartLinked`,
`Rounds.PropagatePassStart`, `Rounds.PropagatePassNext`,
`Rounds.CollapsePassStart`, `Rounds.CollapsePassNext`,
`Rounds.CollapsePassAfter`, `Engine.Network.UnlinkedTable` and
`Simulation.Simulation.ValidFacts` are proof helpers. Each takes one step of a
definition above and states nothing new about the source.

## Left out

- `run`, `stop` and `lock` (server/simulation.py:51-59) are left out. They are a timed loop driven from another thread, and each `step` is taken to run atomically under the lock. `running` is modelled only as `false` after construction.
- server/server.py (Flask and Socket.IO transport) and web_client/app.js are not part of this model.
- Floating point: waveforms hold exact reals, not `complex128`. Rounding, NaN and infinity are not modelled, except that `collapse` of a waveform with no weight fails, as numpy does.
- `np.linalg.norm`, `np.exp(1j * angle)`, `abs` and `np.angle` are inputs, because they need square roots and trigonometry. They are the `norm` function, the phase factors in `StepDraws.phase`, and the `abs`/`angle` functions of `GetState`. Their true values are stated as requirements where a lemma needs them (`IsNorm`, unit phase factors).
- Random numbers are inputs indexed by a node's position in key order. Python calls `random.random()` only for nodes that have not collapsed, so the order in which it consumes the generator's stream is not modelled. Nor is the distribution of the draws.
- `rotate_phase` with an explicit `angle` and `propagate_resonance` with `iterations` other than 1 appear only through `PropagateResonance`'s list of phase factors. `step` uses one factor per node.
- `Simulation.Simulation.GetState` returns a map, so the dictionary order of the JSON object is not kept. The nodes' entries are built in key order.
- `Snapshot.Spell` states nothing about `magnitude` and `phase`, because `abs` and `angle` are inputs.
- `Waveform.Interfered`, `Waveform.Resonated`, `Waveform.Rotated` and `Waveform.Scaled` state only that the length is kept. What they compute is related to the source by `InterferedIsGainTimesSum`, `RotationKeepsWeights`, `NormalizedInverse`, `TotalScaled` and `ResonatedIsUnit`.
- `Simulation.Simulation.Step` and `Simulation.Simulation.CollapseAll` model a failed collapse as `ok == false`, with the nodes processed before it keeping their updates. The exception that Python raises out of `step` and its thread is not modelled.
- `Engine.Network.Connect` models the `KeyError` for a missing id as `ok == false`, with nothing changed.
- Python's `int` and `None` become `nat` and `Option`. Node ids are strings.
- Default arguments are not modelled; every operation takes its arguments explicitly. The defaults are `num_nodes=30`, `connect_prob=0.25` and `waveform_length=128` for the simulation, `waveform_length=128` for a node, `prob=0.2` for `random_connect`, `collapse_chance=0.05` for `step`, `iterations=1` for `propagate_resonance`, and `angle=None` for `rotate_phase`, which then draws the angle uniformly from [0, pi).
