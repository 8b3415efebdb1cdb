/**
 * One simulation step as a function on values.
 *
 * The state of every node, by id: its waveform, the ids of the nodes it is
 * linked to (in list order), whether it has collapsed and the value it
 * collapsed to. A step first runs `propagate_resonance` on every node in
 * key order, then gives every node that has not collapsed a chance to
 * collapse. The random numbers of a step are inputs.
 */
module Rounds {
  import opened Wrappers
  import opened Waveform
  import opened Links

  datatype Cell = Cell(wave: seq<Complex>, links: seq<string>, collapsed: bool, value: Option<nat>)

  type State = map<string, Cell>

  /** A node has a value exactly when it has collapsed, and the value is a slot. */
  predicate Consistent(c: Cell) {
    (c.value.None? <==> !c.collapsed) && (c.value.Some? ==> c.value.value < |c.wave|)
  }

  /**
   * Every link names a node of the state, every waveform has `n` slots and
   * every node is consistent.
   */
  ghost predicate WellShaped(s: State, n: nat) {
    (forall k, m :: k in s && 0 <= m < |s[k].links| ==> s[k].links[m] in s) &&
    (forall k :: k in s ==> |s[k].wave| == n && Consistent(s[k]))
  }

  /** Every id of the key order names a node. */
  ghost predicate Covers(s: State, keys: seq<string>) {
    forall i :: 0 <= i < |keys| ==> keys[i] in s
  }

  /**
   * Where the interference loop of node `k` reads each neighbour's waveform
   * from: itself for a self-link, another node's waveform otherwise.
   */
  function SourcesOf(s: State, k: string): (srcs: seq<Source>)
    requires k in s
    requires forall m :: 0 <= m < |s[k].links| ==> s[k].links[m] in s
    ensures |srcs| == |s[k].links|
  {
    var ls := s[k].links;
    seq(|ls|, m requires 0 <= m < |ls| => if ls[m] == k then Itself else Other(s[ls[m]].wave))
  }

  /** In a well-shaped state every neighbour's waveform fits the node's. */
  lemma SourcesFit(s: State, n: nat, k: string)
    requires WellShaped(s, n) && k in s
    ensures Fits(SourcesOf(s, k), |s[k].wave|)
  {
  }

  /**
   * The sources of node `k` do not depend on `k`'s own waveform: a self-link
   * reads the running sum, not the stored waveform.
   */
  lemma SourcesIgnoreOwnWave(s: State, k: string, w: seq<Complex>)
    requires k in s
    requires forall m :: 0 <= m < |s[k].links| ==> s[k].links[m] in s
    ensures SourcesOf(s[k := s[k].(wave := w)], k) == SourcesOf(s, k)
  {
  }

  /** `propagate_resonance(node, iterations)` with one phase factor per iteration. */
  function Resonate(s: State, n: nat, k: string, norm: seq<Complex> -> real, factors: seq<Complex>): (r: State)
    requires WellShaped(s, n) && k in s
    ensures r.Keys == s.Keys
    ensures WellShaped(r, n)
    ensures forall j :: j in s ==> r[j].links == s[j].links && r[j].collapsed == s[j].collapsed && r[j].value == s[j].value
    ensures forall j :: j in s && j != k ==> r[j] == s[j]
  {
    SourcesFit(s, n, k);
    s[k := s[k].(wave := Resonated(s[k].wave, SourcesOf(s, k), norm, factors))]
  }

  /** The random numbers of one step, by position of the node in key order. */
  datatype StepDraws = StepDraws(
    /** The phase factor e^(i*angle) applied by `rotate_phase`. */
    phase: nat -> Complex,
    /** The `random.random()` compared with the collapse chance. */
    chance: nat -> real,
    /** The uniform draw in [0, 1) behind `np.random.choice`. */
    pick: nat -> real)

  /** The first loop of `step`: propagation on the first `j` nodes in key order. */
  function PropagatePass(s: State, n: nat, keys: seq<string>, d: StepDraws, norm: seq<Complex> -> real, j: nat): (r: State)
    requires WellShaped(s, n) && Covers(s, keys) && j <= |keys|
    ensures r.Keys == s.Keys
    ensures WellShaped(r, n)
    ensures forall k :: k in s ==> r[k].links == s[k].links && r[k].collapsed == s[k].collapsed && r[k].value == s[k].value
    decreases j
  {
    if j == 0 then s
    else Resonate(PropagatePass(s, n, keys, d, norm, j - 1), n, keys[j - 1], norm, [d.phase(j - 1)])
  }

  /** Before the first iteration of the propagation loop nothing has changed. */
  lemma PropagatePassStart(s: State, n: nat, keys: seq<string>, d: StepDraws, norm: seq<Complex> -> real)
    requires WellShaped(s, n) && Covers(s, keys)
    ensures PropagatePass(s, n, keys, d, norm, 0) == s
  {
  }

  /** One more iteration of the propagation loop. */
  lemma PropagatePassNext(s: State, n: nat, keys: seq<string>, d: StepDraws, norm: seq<Complex> -> real, j: nat)
    requires WellShaped(s, n) && Covers(s, keys) && 0 < j <= |keys|
    ensures var prev := PropagatePass(s, n, keys, d, norm, j - 1);
      keys[j - 1] in prev &&
      PropagatePass(s, n, keys, d, norm, j) == Resonate(prev, n, keys[j - 1], norm, [d.phase(j - 1)])
  {
  }

  /**
   * `collapse(node)`: nothing when the node has collapsed; otherwise the
   * sampled slot becomes the value and the waveform the basis vector of
   * that slot. `None` when all weights are zero: numpy refuses to sample
   * from the NaN probabilities that the division by zero produces.
   */
  function CollapseCell(c: Cell, u: real): (r: Option<Cell>)
    requires 0.0 <= u < 1.0
    ensures r.None? <==> !c.collapsed && Total(c.wave) == 0.0
    ensures c.collapsed ==> r == Some(c)
    ensures r.Some? ==> r.value.collapsed && r.value.links == c.links && |r.value.wave| == |c.wave|
    ensures r.Some? && Consistent(c) ==> Consistent(r.value)
  {
    if c.collapsed then Some(c)
    else if Total(c.wave) == 0.0 then None
    else
      var v := Sample(c.wave, u);
      Some(c.(collapsed := true, value := Some(v), wave := Basis(|c.wave|, v)))
  }

  /**
   * A node that collapses takes a value drawn by the Born rule: a slot of
   * non-zero weight, the first whose cumulative weight exceeds the draw's
   * fraction of the total; its waveform becomes the basis vector of that
   * slot.
   */
  lemma CollapseCellSamples(c: Cell, u: real)
    requires 0.0 <= u < 1.0 && !c.collapsed && Total(c.wave) > 0.0
    ensures var r := CollapseCell(c, u);
      r.Some? && r.value.value.Some? &&
      var v := r.value.value.value;
      v < |c.wave| && Weight(c.wave[v]) > 0.0 &&
      Total(c.wave[..v]) <= Threshold(c.wave, u) < Total(c.wave[..v + 1]) &&
      r.value.wave == Basis(|c.wave|, v)
  {
  }

  /**
   * Collapsing a node whose waveform is already a basis vector yields that
   * slot whatever the draw, and leaves the waveform as it is.
   */
  lemma CollapseBasis(c: Cell, u: real, v: nat)
    requires 0.0 <= u < 1.0 && !c.collapsed && v < |c.wave| && c.wave == Basis(|c.wave|, v)
    ensures var r := CollapseCell(c, u);
      r.Some? && r.value.value == Some(v) && r.value.wave == c.wave
  {
    SampleBasis(|c.wave|, v, u);
  }

  /** Whether a step, or the part of it run so far, ended without an error. */
  datatype Outcome = Outcome(state: State, ok: bool)

  /**
   * One iteration of the second loop of `step` on node `k`: when the node
   * has not collapsed and its draw fired, it collapses.
   */
  function CollapseStep(s: State, n: nat, k: string, fired: bool, u: real): (o: Outcome)
    requires WellShaped(s, n) && k in s && 0.0 <= u < 1.0
    ensures o.state.Keys == s.Keys
    ensures WellShaped(o.state, n)
    ensures forall j :: j in s ==> o.state[j].links == s[j].links
    ensures forall j :: j in s && (j != k || s[j].collapsed) ==> o.state[j] == s[j]
    ensures o.ok ==> o.state[k].collapsed == (s[k].collapsed || fired)
    ensures !o.ok <==> !s[k].collapsed && fired && Total(s[k].wave) == 0.0
    ensures !o.ok ==> o.state == s
    ensures !fired ==> o == Outcome(s, true)
  {
    var c := s[k];
    if !c.collapsed && fired then
      match CollapseCell(c, u)
      case None => Outcome(s, false)
      case Some(c') => Outcome(s[k := c'], true)
    else Outcome(s, true)
  }

  /**
   * The second loop of `step` over the first `j` nodes in key order: a node
   * that has not collapsed and whose draw is below `chance` collapses. An
   * error stops the loop; the nodes handled before it keep their updates.
   */
  function CollapsePass(s: State, n: nat, keys: seq<string>, d: StepDraws, chance: real, j: nat): (o: Outcome)
    requires WellShaped(s, n) && Covers(s, keys) && j <= |keys|
    requires forall i :: 0 <= i < |keys| ==> 0.0 <= d.pick(i) < 1.0
    ensures o.state.Keys == s.Keys
    ensures WellShaped(o.state, n)
    ensures forall k :: k in s ==> o.state[k].links == s[k].links
    ensures forall k :: k in s && s[k].collapsed ==> o.state[k] == s[k]
    decreases j
  {
    if j == 0 then Outcome(s, true)
    else
      var prev := CollapsePass(s, n, keys, d, chance, j - 1);
      if !prev.ok then prev
      else CollapseStep(prev.state, n, keys[j - 1], d.chance(j - 1) < chance, d.pick(j - 1))
  }

  /** Before the first iteration of the collapse loop nothing has changed. */
  lemma CollapsePassStart(s: State, n: nat, keys: seq<string>, d: StepDraws, chance: real)
    requires WellShaped(s, n) && Covers(s, keys)
    requires forall i :: 0 <= i < |keys| ==> 0.0 <= d.pick(i) < 1.0
    ensures CollapsePass(s, n, keys, d, chance, 0) == Outcome(s, true)
  {
  }

  /** One more iteration of the collapse loop. */
  lemma CollapsePassNext(s: State, n: nat, keys: seq<string>, d: StepDraws, chance: real, j: nat)
    requires WellShaped(s, n) && Covers(s, keys) && 0 < j <= |keys|
    requires forall i :: 0 <= i < |keys| ==> 0.0 <= d.pick(i) < 1.0
    ensures var prev := CollapsePass(s, n, keys, d, chance, j - 1);
      CollapsePass(s, n, keys, d, chance, j) ==
        if !prev.ok then prev
        else CollapseStep(prev.state, n, keys[j - 1], d.chance(j - 1) < chance, d.pick(j - 1))
  {
  }

  /** `step(collapse_chance)`: propagation on every node, then the collapse pass. */
  function StepSpec(s: State, n: nat, keys: seq<string>, d: StepDraws, chance: real, norm: seq<Complex> -> real): (o: Outcome)
    requires WellShaped(s, n) && Covers(s, keys)
    requires forall i :: 0 <= i < |keys| ==> 0.0 <= d.pick(i) < 1.0
    ensures o.state.Keys == s.Keys
    ensures WellShaped(o.state, n)
    ensures forall k :: k in s ==> o.state[k].links == s[k].links
    ensures forall k :: k in s && s[k].collapsed ==> o.state[k].collapsed && o.state[k].value == s[k].value
  {
    var mid := PropagatePass(s, n, keys, d, norm, |keys|);
    CollapsePass(mid, n, keys, d, chance, |keys|)
  }

  /** Once an iteration has failed, the later ones change nothing. */
  lemma {:induction false} CollapsePassStopped(s: State, n: nat, keys: seq<string>, d: StepDraws, chance: real, j: nat, j': nat)
    requires WellShaped(s, n) && Covers(s, keys) && j <= j' <= |keys|
    requires forall i :: 0 <= i < |keys| ==> 0.0 <= d.pick(i) < 1.0
    requires !CollapsePass(s, n, keys, d, chance, j).ok
    ensures CollapsePass(s, n, keys, d, chance, j') == CollapsePass(s, n, keys, d, chance, j)
    decreases j'
  {
    hide WellShaped, CollapseStep, CollapsePass;
    if j' > j {
      CollapsePassStopped(s, n, keys, d, chance, j, j' - 1);
      CollapsePassNext(s, n, keys, d, chance, j');
    }
  }

  /** An iteration after successful ones is one collapse step. */
  lemma CollapsePassAfter(s: State, n: nat, keys: seq<string>, d: StepDraws, chance: real, i: nat)
    requires WellShaped(s, n) && Covers(s, keys) && i < |keys|
    requires forall i :: 0 <= i < |keys| ==> 0.0 <= d.pick(i) < 1.0
    requires CollapsePass(s, n, keys, d, chance, i).ok
    ensures var prev := CollapsePass(s, n, keys, d, chance, i);
      keys[i] in prev.state &&
      CollapsePass(s, n, keys, d, chance, i + 1) ==
        CollapseStep(prev.state, n, keys[i], d.chance(i) < chance, d.pick(i))
  {
    CollapsePassNext(s, n, keys, d, chance, i + 1);
  }

  /** When no draw fires, the collapse pass changes nothing and succeeds. */
  lemma {:induction false} CollapsePassNone(s: State, n: nat, keys: seq<string>, d: StepDraws, chance: real, j: nat)
    requires WellShaped(s, n) && Covers(s, keys) && j <= |keys|
    requires forall i :: 0 <= i < |keys| ==> 0.0 <= d.pick(i) < 1.0
    requires forall i :: 0 <= i < j ==> d.chance(i) >= chance
    ensures CollapsePass(s, n, keys, d, chance, j) == Outcome(s, true)
    decreases j
  {
    hide WellShaped, CollapseStep, CollapsePass;
    if j > 0 {
      CollapsePassNone(s, n, keys, d, chance, j - 1);
      CollapsePassNext(s, n, keys, d, chance, j);
    } else {
      CollapsePassStart(s, n, keys, d, chance);
    }
  }

  /**
   * When every draw fires and the pass succeeds, every node it reached has
   * collapsed.
   */
  lemma {:induction false} CollapsePassAll(s: State, n: nat, keys: seq<string>, d: StepDraws, chance: real, j: nat)
    requires WellShaped(s, n) && Covers(s, keys) && j <= |keys|
    requires forall i :: 0 <= i < |keys| ==> 0.0 <= d.pick(i) < 1.0
    requires forall i :: 0 <= i < j ==> d.chance(i) < chance
    ensures var o := CollapsePass(s, n, keys, d, chance, j);
      o.ok ==> forall i :: 0 <= i < j ==> o.state[keys[i]].collapsed
    decreases j
  {
    hide WellShaped, CollapseStep, CollapsePass;
    if j > 0 {
      CollapsePassAll(s, n, keys, d, chance, j - 1);
      CollapsePassNext(s, n, keys, d, chance, j);
      var prev := CollapsePass(s, n, keys, d, chance, j - 1);
      var o := CollapsePass(s, n, keys, d, chance, j);
      if prev.ok && o.ok {
        var k := keys[j - 1];
        assert o == CollapseStep(prev.state, n, k, true, d.pick(j - 1));
        forall i | 0 <= i < j
          ensures o.state[keys[i]].collapsed
        {
          if i < j - 1 {
            assert prev.state[keys[i]].collapsed;
            assert keys[i] in prev.state;
          }
        }
      }
    }
  }

  /**
   * A node that the pass collapses had not collapsed before and sits at a
   * position whose draw fired.
   */
  lemma {:induction false} CollapsePassOnlyFired(s: State, n: nat, keys: seq<string>, d: StepDraws, chance: real, j: nat, k: string)
    requires WellShaped(s, n) && Covers(s, keys) && j <= |keys|
    requires forall i :: 0 <= i < |keys| ==> 0.0 <= d.pick(i) < 1.0
    requires k in s && !s[k].collapsed
    requires CollapsePass(s, n, keys, d, chance, j).state[k].collapsed
    ensures exists i :: 0 <= i < j && keys[i] == k && d.chance(i) < chance
    decreases j
  {
    hide WellShaped, CollapseStep, CollapsePass;
    if j > 0 {
      CollapsePassNext(s, n, keys, d, chance, j);
      var prev := CollapsePass(s, n, keys, d, chance, j - 1);
      if prev.state[k].collapsed {
        CollapsePassOnlyFired(s, n, keys, d, chance, j - 1, k);
      } else {
        assert keys[j - 1] == k && d.chance(j - 1) < chance;
      }
    } else {
      CollapsePassStart(s, n, keys, d, chance);
      assert false;
    }
  }

  /** The pass has not yet touched the nodes after position `j`. */
  lemma {:induction false} CollapsePassLater(s: State, n: nat, keys: seq<string>, d: StepDraws, chance: real, j: nat, p: nat)
    requires WellShaped(s, n) && Covers(s, keys) && Distinct(keys) && j <= p < |keys|
    requires forall i :: 0 <= i < |keys| ==> 0.0 <= d.pick(i) < 1.0
    ensures CollapsePass(s, n, keys, d, chance, j).state[keys[p]] == s[keys[p]]
    decreases j
  {
    hide WellShaped, CollapseStep, CollapsePass;
    if j > 0 {
      CollapsePassLater(s, n, keys, d, chance, j - 1, p);
      CollapsePassNext(s, n, keys, d, chance, j);
    } else {
      CollapsePassStart(s, n, keys, d, chance);
    }
  }

  /**
   * The pass fails only at a node that had not collapsed, whose draw fired
   * and whose waveform has no weight.
   */
  lemma {:induction false} CollapsePassFails(s: State, n: nat, keys: seq<string>, d: StepDraws, chance: real, j: nat)
    requires WellShaped(s, n) && Covers(s, keys) && Distinct(keys) && j <= |keys|
    requires forall i :: 0 <= i < |keys| ==> 0.0 <= d.pick(i) < 1.0
    requires !CollapsePass(s, n, keys, d, chance, j).ok
    ensures exists i :: 0 <= i < j && !s[keys[i]].collapsed && d.chance(i) < chance && Total(s[keys[i]].wave) == 0.0
    decreases j
  {
    hide WellShaped, CollapseStep, CollapsePass;
    if j > 0 {
      CollapsePassNext(s, n, keys, d, chance, j);
      var prev := CollapsePass(s, n, keys, d, chance, j - 1);
      if !prev.ok {
        CollapsePassFails(s, n, keys, d, chance, j - 1);
      } else {
        var k := keys[j - 1];
        CollapsePassLater(s, n, keys, d, chance, j - 1, j - 1);
        assert prev.state[k] == s[k];
      }
    } else {
      CollapsePassStart(s, n, keys, d, chance);
      assert false;
    }
  }

  /**
   * With no draw below the collapse chance (as with chance 0, draws being
   * in [0, 1)), a step collapses nothing: every flag and value stays.
   */
  lemma StepNoCollapse(s: State, n: nat, keys: seq<string>, d: StepDraws, chance: real, norm: seq<Complex> -> real)
    requires WellShaped(s, n) && Covers(s, keys)
    requires forall i :: 0 <= i < |keys| ==> 0.0 <= d.pick(i) < 1.0
    requires forall i :: 0 <= i < |keys| ==> d.chance(i) >= chance
    ensures var o := StepSpec(s, n, keys, d, chance, norm);
      o.ok && forall k :: k in s ==> o.state[k].collapsed == s[k].collapsed && o.state[k].value == s[k].value
  {
    var mid := PropagatePass(s, n, keys, d, norm, |keys|);
    CollapsePassNone(mid, n, keys, d, chance, |keys|);
  }

  /**
   * With every draw below the collapse chance (as with chance 1), a step
   * that succeeds leaves every node of the key order collapsed.
   */
  lemma StepCollapseAll(s: State, n: nat, keys: seq<string>, d: StepDraws, chance: real, norm: seq<Complex> -> real)
    requires WellShaped(s, n) && Covers(s, keys)
    requires forall i :: 0 <= i < |keys| ==> 0.0 <= d.pick(i) < 1.0
    requires forall i :: 0 <= i < |keys| ==> d.chance(i) < chance
    ensures var o := StepSpec(s, n, keys, d, chance, norm);
      o.ok ==> forall i :: 0 <= i < |keys| ==> o.state[keys[i]].collapsed
  {
    var mid := PropagatePass(s, n, keys, d, norm, |keys|);
    CollapsePassAll(mid, n, keys, d, chance, |keys|);
  }

  /**
   * A step collapses a node only when it had not collapsed before the step
   * and the draw at its position fired.
   */
  lemma StepCollapsesOnlyFired(s: State, n: nat, keys: seq<string>, d: StepDraws, chance: real, norm: seq<Complex> -> real, k: string)
    requires WellShaped(s, n) && Covers(s, keys)
    requires forall i :: 0 <= i < |keys| ==> 0.0 <= d.pick(i) < 1.0
    requires k in s && !s[k].collapsed
    requires StepSpec(s, n, keys, d, chance, norm).state[k].collapsed
    ensures exists i :: 0 <= i < |keys| && keys[i] == k && d.chance(i) < chance
  {
    var mid := PropagatePass(s, n, keys, d, norm, |keys|);
    CollapsePassOnlyFired(mid, n, keys, d, chance, |keys|, k);
  }

  /**
   * A step fails only at a node that had not collapsed, whose draw fired and
   * whose waveform after propagation has no weight.
   */
  lemma StepFails(s: State, n: nat, keys: seq<string>, d: StepDraws, chance: real, norm: seq<Complex> -> real)
    requires WellShaped(s, n) && Covers(s, keys) && Distinct(keys)
    requires forall i :: 0 <= i < |keys| ==> 0.0 <= d.pick(i) < 1.0
    requires !StepSpec(s, n, keys, d, chance, norm).ok
    ensures var mid := PropagatePass(s, n, keys, d, norm, |keys|);
      exists i :: 0 <= i < |keys| && !s[keys[i]].collapsed && d.chance(i) < chance && Total(mid[keys[i]].wave) == 0.0
  {
    var mid := PropagatePass(s, n, keys, d, norm, |keys|);
    CollapsePassFails(mid, n, keys, d, chance, |keys|);
  }
}
