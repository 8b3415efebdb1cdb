/**
 * `get_state`: a serialisable copy of every node, with each complex slot
 * spelled out as its real and imaginary parts, magnitude and phase.
 */
module Snapshot {
  import opened Wrappers
  import opened Waveform
  import opened Rounds

  /** The JSON object of one slot: keys "real", "imag", "magnitude" and "phase". */
  datatype Amplitude = Amplitude(re: real, im: real, magnitude: real, phase: real)

  datatype Entry = Entry(waveform: seq<Amplitude>, collapsed: bool, value: Option<nat>, connections: seq<string>)

  /**
   * One slot as `get_state` writes it; `abs` and `angle` stand for the
   * modulus and numpy's `angle`.
   */
  function Spell(z: Complex, abs: Complex -> real, angle: Complex -> real): (a: Amplitude)
    ensures a.re == z.re && a.im == z.im
  {
    Amplitude(z.re, z.im, abs(z), angle(z))
  }

  function SpellWave(w: seq<Complex>, abs: Complex -> real, angle: Complex -> real): (r: seq<Amplitude>)
    ensures |r| == |w|
    ensures forall m :: 0 <= m < |w| ==> r[m] == Spell(w[m], abs, angle)
  {
    seq(|w|, m requires 0 <= m < |w| => Spell(w[m], abs, angle))
  }

  /**
   * The object `get_state` writes for one node: its slots, flag, value and
   * the ids of its links in list order.
   */
  function Snap(c: Cell, abs: Complex -> real, angle: Complex -> real): (e: Entry)
    ensures |e.waveform| == |c.wave|
    ensures forall m :: 0 <= m < |c.wave| ==> e.waveform[m].re == c.wave[m].re && e.waveform[m].im == c.wave[m].im
    ensures e.collapsed == c.collapsed && e.value == c.value && e.connections == c.links
  {
    Entry(SpellWave(c.wave, abs, angle), c.collapsed, c.value, c.links)
  }

  /** Reads a node state back from an entry's real and imaginary parts. */
  function Unsnap(e: Entry): (c: Cell)
    ensures |c.wave| == |e.waveform|
    ensures c.collapsed == e.collapsed && c.value == e.value && c.links == e.connections
  {
    Cell(seq(|e.waveform|, m requires 0 <= m < |e.waveform| => Complex(e.waveform[m].re, e.waveform[m].im)),
      e.connections, e.collapsed, e.value)
  }

  /** An entry loses nothing of the node state. */
  lemma UnsnapSnap(c: Cell, abs: Complex -> real, angle: Complex -> real)
    ensures Unsnap(Snap(c, abs, angle)) == c
  {
    assert Unsnap(Snap(c, abs, angle)).wave == c.wave;
  }

  /** The snapshot of every node, by id. */
  function Take(s: State, abs: Complex -> real, angle: Complex -> real): (r: map<string, Entry>)
    ensures r.Keys == s.Keys
    ensures forall k :: k in s ==> r[k] == Snap(s[k], abs, angle)
  {
    map k | k in s :: Snap(s[k], abs, angle)
  }

  /** Reads the node states back from a snapshot. */
  function Restore(r: map<string, Entry>): (s: State)
    ensures s.Keys == r.Keys
    ensures forall k :: k in r ==> s[k] == Unsnap(r[k])
  {
    map k | k in r :: Unsnap(r[k])
  }

  /** The snapshot loses nothing: every node state can be read back from it. */
  lemma RestoreTake(s: State, abs: Complex -> real, angle: Complex -> real)
    ensures Restore(Take(s, abs, angle)) == s
  {
    var back := Restore(Take(s, abs, angle));
    forall k | k in s
      ensures back[k] == s[k]
    {
      UnsnapSnap(s[k], abs, angle);
    }
  }

  /** Every link in a snapshot of a well-shaped state names a node of the snapshot. */
  lemma TakeClosed(s: State, n: nat, abs: Complex -> real, angle: Complex -> real)
    requires WellShaped(s, n)
    ensures var r := Take(s, abs, angle);
      forall k, m :: k in r && 0 <= m < |r[k].connections| ==> r[k].connections[m] in r
  {
  }
}
