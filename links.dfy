/**
 * The connection lists of the node graph as pure values.
 *
 * A `Table` gives, for node ids, the list of node references that node is
 * connected to, in the order they were appended. A `Graph` holds the nodes
 * by id and the ids in dictionary (insertion) order. `T` is the node
 * reference type, compared by identity as Python compares node objects.
 */
module Links {

  type Table<T> = map<string, seq<T>>

  /** The connection list of `k`; a node without an entry lists nobody. */
  function Get<T>(table: Table<T>, k: string): seq<T> {
    if k in table then table[k] else []
  }

  /** `if x not in s: s.append(x)` */
  function AppendNew<T(==)>(s: seq<T>, x: T): (r: seq<T>)
    ensures x in r
    ensures s <= r && |r| <= |s| + 1
    ensures x in s ==> r == s
  {
    if x in s then s else s + [x]
  }

  /** Appending adds `x` and nothing else. */
  lemma AppendNewMembers<T>(s: seq<T>, x: T)
    ensures forall y :: y in AppendNew(s, x) <==> y in s || y == x
  {
  }

  /** No element occurs twice. */
  ghost predicate Distinct<T>(s: seq<T>) {
    forall i, j :: 0 <= i < j < |s| ==> s[i] != s[j]
  }

  /** The membership guard keeps a duplicate-free list duplicate-free. */
  lemma AppendNewDistinct<T>(s: seq<T>, x: T)
    requires Distinct(s)
    ensures Distinct(AppendNew(s, x))
  {
    if x !in s {
      var r := s + [x];
      forall i, j | 0 <= i < j < |r|
        ensures r[i] != r[j]
      {
        if j == |s| {
          assert r[i] == s[i];
        }
      }
    }
  }

  /** The network's nodes by id, and their ids in dictionary order. */
  datatype Graph<T> = Graph(nodes: map<string, T>, keys: seq<string>)

  /** Every id in the key order names a node. */
  ghost predicate Keyed<T>(g: Graph<T>) {
    forall i :: 0 <= i < |g.keys| ==> g.keys[i] in g.nodes
  }

  /**
   * The key order lists every id once, and distinct ids name distinct
   * node objects.
   */
  ghost predicate WellFormed<T>(g: Graph<T>) {
    Keyed(g) && Distinct(g.keys) &&
    (forall k :: k in g.nodes ==> k in g.keys) &&
    (forall a, b :: a in g.nodes && b in g.nodes && g.nodes[a] == g.nodes[b] ==> a == b)
  }

  /** If `a` lists `b`, then `b` lists `a`. */
  ghost predicate Symmetric<T>(table: Table<T>, g: Graph<T>) {
    forall a, b :: a in g.nodes && b in g.nodes && g.nodes[b] in Get(table, a) ==> g.nodes[a] in Get(table, b)
  }

  /** No list holds the same node twice. */
  ghost predicate NoDuplicates<T>(table: Table<T>) {
    forall k :: k in table ==> Distinct(table[k])
  }

  /** No node lists itself. */
  ghost predicate Loopless<T>(table: Table<T>, g: Graph<T>) {
    forall k :: k in g.nodes ==> g.nodes[k] !in Get(table, k)
  }

  /** Every listed node is a node of the graph. */
  ghost predicate Closed<T>(table: Table<T>, g: Graph<T>) {
    forall k, i :: k in table && 0 <= i < |table[k]| ==> table[k][i] in g.nodes.Values
  }

  /** A table in which nobody lists anybody has every shape property. */
  lemma EmptyTableShape<T>(table: Table<T>, g: Graph<T>)
    requires forall k :: k in table ==> table[k] == []
    ensures Symmetric(table, g) && Loopless(table, g) && NoDuplicates(table) && Closed(table, g)
  {
  }

  /**
   * `connect(a, b)`: append `b`'s node to `a`'s list unless it is there,
   * then `a`'s node to `b`'s list unless it is there. With `a == b` the
   * node ends up listing itself once.
   */
  function Connected<T(==)>(table: Table<T>, g: Graph<T>, a: string, b: string): (r: Table<T>)
    requires a in g.nodes && b in g.nodes
    ensures a in r && b in r
    ensures g.nodes[b] in r[a] && g.nodes[a] in r[b]
  {
    var first := table[a := AppendNew(Get(table, a), g.nodes[b])];
    first[b := AppendNew(Get(first, b), g.nodes[a])]
  }

  /**
   * After `connect(a, b)` every list holds what it held before, in front,
   * plus `b`'s node in `a`'s list and `a`'s node in `b`'s list; lists of
   * other nodes are untouched.
   */
  lemma ConnectedMembers<T>(table: Table<T>, g: Graph<T>, a: string, b: string)
    requires a in g.nodes && b in g.nodes
    ensures var r := Connected(table, g, a, b);
      (forall k :: k in table ==> k in r) &&
      (forall k :: Get(table, k) <= Get(r, k)) &&
      (forall k :: k != a && k != b ==> Get(r, k) == Get(table, k)) &&
      (forall k, x :: x in Get(r, k) <==>
        x in Get(table, k) || (k == a && x == g.nodes[b]) || (k == b && x == g.nodes[a]))
  {
    var first := table[a := AppendNew(Get(table, a), g.nodes[b])];
    AppendNewMembers(Get(table, a), g.nodes[b]);
    AppendNewMembers(Get(first, b), g.nodes[a]);
  }

  lemma ConnectedKeepsSymmetric<T>(table: Table<T>, g: Graph<T>, a: string, b: string)
    requires a in g.nodes && b in g.nodes
    requires WellFormed(g) && Symmetric(table, g)
    ensures Symmetric(Connected(table, g, a, b), g)
  {
    ConnectedMembers(table, g, a, b);
  }

  lemma ConnectedKeepsNoDuplicates<T>(table: Table<T>, g: Graph<T>, a: string, b: string)
    requires a in g.nodes && b in g.nodes
    requires NoDuplicates(table)
    ensures NoDuplicates(Connected(table, g, a, b))
  {
    var first := table[a := AppendNew(Get(table, a), g.nodes[b])];
    AppendNewDistinct(Get(table, a), g.nodes[b]);
    AppendNewDistinct(Get(first, b), g.nodes[a]);
  }

  /** Connecting two distinct nodes never makes a node list itself. */
  lemma ConnectedKeepsLoopless<T>(table: Table<T>, g: Graph<T>, a: string, b: string)
    requires a in g.nodes && b in g.nodes && a != b
    requires WellFormed(g) && Loopless(table, g)
    ensures Loopless(Connected(table, g, a, b), g)
  {
    ConnectedMembers(table, g, a, b);
  }

  lemma ConnectedKeepsClosed<T>(table: Table<T>, g: Graph<T>, a: string, b: string)
    requires a in g.nodes && b in g.nodes
    requires Closed(table, g)
    ensures Closed(Connected(table, g, a, b), g)
  {
    var r := Connected(table, g, a, b);
    ConnectedMembers(table, g, a, b);
    forall k, i | k in r && 0 <= i < |r[k]|
      ensures r[k][i] in g.nodes.Values
    {
      assert r[k][i] in Get(r, k);
      if r[k][i] in Get(table, k) {
        var n :| 0 <= n < |table[k]| && table[k][n] == r[k][i];
      }
    }
  }

  /**
   * Connecting a pair again, in either order, changes nothing: each list
   * keeps a single entry for the other node.
   */
  lemma ConnectTwice<T>(table: Table<T>, g: Graph<T>, a: string, b: string)
    requires a in g.nodes && b in g.nodes
    ensures var once := Connected(table, g, a, b);
      Connected(once, g, a, b) == once && Connected(once, g, b, a) == once
  {
    var once := Connected(table, g, a, b);
    assert AppendNew(once[a], g.nodes[b]) == once[a];
    assert AppendNew(once[b], g.nodes[a]) == once[b];
  }

  /** The random numbers of one `random_connect` call, and its probability. */
  datatype Draws = Draws(draw: (nat, nat) -> real, prob: real)

  /**
   * Whether the unordered pair at positions `p` and `q` is connected by
   * `random_connect`: the draw of the pair, taken with the smaller position
   * first, is below `prob`.
   */
  function Chosen(d: Draws, p: nat, q: nat): (b: bool)
    ensures b ==> p != q
  {
    (p < q && d.draw(p, q) < d.prob) || (q < p && d.draw(q, p) < d.prob)
  }

  /** One iteration of the inner loop of `random_connect`. */
  function PairStep<T(==)>(table: Table<T>, g: Graph<T>, d: Draws, i: nat, j: nat): (r: Table<T>)
    requires Keyed(g) && i < |g.keys| && j < |g.keys|
    ensures forall k :: Get(table, k) <= Get(r, k)
  {
    if d.draw(i, j) < d.prob then
      ConnectedMembers(table, g, g.keys[i], g.keys[j]);
      Connected(table, g, g.keys[i], g.keys[j])
    else table
  }

  /** The inner loop for row `i` after the pairs (i, i+1) .. (i, j-1). */
  function Row<T(==)>(table: Table<T>, g: Graph<T>, d: Draws, i: nat, j: nat): (r: Table<T>)
    requires Keyed(g) && i < |g.keys| && j <= |g.keys|
    ensures forall k :: Get(table, k) <= Get(r, k)
    decreases j
  {
    if j <= i + 1 then table
    else PairStep(Row(table, g, d, i, j - 1), g, d, i, j - 1)
  }

  /** The outer loop after rows 0 .. i-1. */
  function Rows<T(==)>(table: Table<T>, g: Graph<T>, d: Draws, i: nat): (r: Table<T>)
    requires Keyed(g) && i <= |g.keys|
    ensures forall k :: Get(table, k) <= Get(r, k)
    decreases i
  {
    if i == 0 then table
    else Row(Rows(table, g, d, i - 1), g, d, i - 1, |g.keys|)
  }

  /** The inner loop takes one more pair. */
  lemma RowNext<T>(table: Table<T>, g: Graph<T>, d: Draws, i: nat, j: nat)
    requires Keyed(g) && i + 1 <= j < |g.keys|
    ensures Row(table, g, d, i, j + 1) ==
      if d.draw(i, j) < d.prob then Connected(Row(table, g, d, i, j), g, g.keys[i], g.keys[j])
      else Row(table, g, d, i, j)
  {
  }

  /** The outer loop takes one more row. */
  lemma RowsNext<T>(table: Table<T>, g: Graph<T>, d: Draws, i: nat)
    requires Keyed(g) && i < |g.keys|
    ensures Rows(table, g, d, i + 1) == Row(Rows(table, g, d, i), g, d, i, |g.keys|)
  {
  }

  /** A row starts where the previous one ended. */
  lemma RowStart<T>(table: Table<T>, g: Graph<T>, d: Draws, i: nat)
    requires Keyed(g) && i < |g.keys|
    ensures Row(table, g, d, i, i + 1) == table
  {
  }

  /** The outer loop starts from the table it is given. */
  lemma RowsStart<T>(table: Table<T>, g: Graph<T>, d: Draws)
    requires Keyed(g)
    ensures Rows(table, g, d, 0) == table
  {
  }

  /** `random_connect` is the outer loop run over every row. */
  lemma RowsAll<T>(table: Table<T>, g: Graph<T>, d: Draws)
    requires Keyed(g)
    ensures RandomConnected(table, g, d) == Rows(table, g, d, |g.keys|)
  {
  }

  /** `random_connect(prob)`: every pair i < j in key order, in loop order. */
  function RandomConnected<T(==)>(table: Table<T>, g: Graph<T>, d: Draws): (r: Table<T>)
    requires Keyed(g)
    ensures forall k :: Get(table, k) <= Get(r, k)
  {
    Rows(table, g, d, |g.keys|)
  }

  /** Pair (p, q) is visited by the nested loop before the pair (i, j). */
  predicate Before(p: nat, q: nat, i: nat, j: nat) {
    var lo := if p < q then p else q;
    var hi := if p < q then q else p;
    lo < i || (lo == i && hi < j)
  }

  /** The node at position `p` lists the node at position `q`. */
  ghost predicate Lists<T>(r: Table<T>, g: Graph<T>, p: int, q: int)
    requires Keyed(g) && 0 <= p < |g.keys| && 0 <= q < |g.keys|
  {
    g.nodes[g.keys[q]] in Get(r, g.keys[p])
  }

  /**
   * Who lists whom once the nested loop has reached the pair (i, j): a node
   * lists another exactly when it did so before the loop or their pair was
   * visited and chosen.
   */
  ghost predicate LinkedUpTo<T>(table: Table<T>, r: Table<T>, g: Graph<T>, d: Draws, i: nat, j: nat)
    requires Keyed(g)
  {
    forall p, q :: 0 <= p < |g.keys| && 0 <= q < |g.keys| ==>
      (Lists(r, g, p, q) <==> Lists(table, g, p, q) || (Chosen(d, p, q) && Before(p, q, i, j)))
  }

  /** A chosen pair gets linked both ways, and nothing else changes. */
  lemma ConnectedLinked<T>(table: Table<T>, r: Table<T>, g: Graph<T>, d: Draws, i: nat, j: nat)
    requires WellFormed(g) && i < j < |g.keys| && d.draw(i, j) < d.prob
    requires LinkedUpTo(table, r, g, d, i, j)
    ensures LinkedUpTo(table, Connected(r, g, g.keys[i], g.keys[j]), g, d, i, j + 1)
  {
    hide Connected;
    var r' := Connected(r, g, g.keys[i], g.keys[j]);
    ConnectedMembers(r, g, g.keys[i], g.keys[j]);
    forall p, q | 0 <= p < |g.keys| && 0 <= q < |g.keys|
      ensures Lists(r', g, p, q) <==> Lists(table, g, p, q) || (Chosen(d, p, q) && Before(p, q, i, j + 1))
    {
      var pair := (p == i && q == j) || (p == j && q == i);
      assert Before(p, q, i, j + 1) <==> Before(p, q, i, j) || pair;
      assert pair ==> Chosen(d, p, q);
      assert g.nodes[g.keys[q]] == g.nodes[g.keys[j]] ==> q == j;
      assert g.nodes[g.keys[q]] == g.nodes[g.keys[i]] ==> q == i;
    }
  }

  /** A pair that is not chosen leaves the lists as they are. */
  lemma SkippedLinked<T>(table: Table<T>, r: Table<T>, g: Graph<T>, d: Draws, i: nat, j: nat)
    requires Keyed(g) && i < j < |g.keys| && d.draw(i, j) >= d.prob
    requires LinkedUpTo(table, r, g, d, i, j)
    ensures LinkedUpTo(table, r, g, d, i, j + 1)
  {
    forall p, q | 0 <= p < |g.keys| && 0 <= q < |g.keys| && Chosen(d, p, q)
      ensures Before(p, q, i, j + 1) <==> Before(p, q, i, j)
    {
    }
  }

  lemma PairStepLinked<T>(table: Table<T>, r: Table<T>, g: Graph<T>, d: Draws, i: nat, j: nat)
    requires WellFormed(g) && i < j < |g.keys|
    requires LinkedUpTo(table, r, g, d, i, j)
    ensures LinkedUpTo(table, PairStep(r, g, d, i, j), g, d, i, j + 1)
  {
    if d.draw(i, j) < d.prob {
      ConnectedLinked(table, r, g, d, i, j);
    } else {
      SkippedLinked(table, r, g, d, i, j);
    }
  }

  /** One more iteration of the inner loop, in terms of `Row`. */
  lemma RowStepLinked<T>(table: Table<T>, r: Table<T>, g: Graph<T>, d: Draws, i: nat, j: nat)
    requires WellFormed(g) && i + 1 < j <= |g.keys|
    requires LinkedUpTo(table, Row(r, g, d, i, j - 1), g, d, i, j - 1)
    ensures LinkedUpTo(table, Row(r, g, d, i, j), g, d, i, j)
  {
    hide PairStep;
    var prev := Row(r, g, d, i, j - 1);
    var next := PairStep(prev, g, d, i, j - 1);
    PairStepLinked(table, prev, g, d, i, j - 1);
    assert Row(r, g, d, i, j) == next;
  }

  lemma {:induction false} RowLinked<T>(table: Table<T>, r: Table<T>, g: Graph<T>, d: Draws, i: nat, j: nat)
    requires WellFormed(g) && i < |g.keys| && i + 1 <= j <= |g.keys|
    requires LinkedUpTo(table, r, g, d, i, i + 1)
    ensures LinkedUpTo(table, Row(r, g, d, i, j), g, d, i, j)
    decreases j
  {
    hide PairStep;
    if j > i + 1 {
      RowLinked(table, r, g, d, i, j - 1);
      RowStepLinked(table, r, g, d, i, j);
    } else {
      assert Row(r, g, d, i, j) == r;
    }
  }

  /** Finishing row i - 1 is the same point of the loop as starting row i. */
  lemma NextRowLinked<T>(table: Table<T>, r: Table<T>, g: Graph<T>, d: Draws, i: nat)
    requires Keyed(g) && 0 < i <= |g.keys|
    requires LinkedUpTo(table, r, g, d, i - 1, |g.keys|)
    ensures LinkedUpTo(table, r, g, d, i, i + 1)
  {
    forall p, q | 0 <= p < |g.keys| && 0 <= q < |g.keys| && Chosen(d, p, q)
      ensures Before(p, q, i - 1, |g.keys|) <==> Before(p, q, i, i + 1)
    {
    }
  }

  /** Before the outer loop nothing has changed and no pair has been visited. */
  lemma RowsStartLinked<T>(table: Table<T>, g: Graph<T>, d: Draws)
    requires Keyed(g)
    ensures Rows(table, g, d, 0) == table
    ensures LinkedUpTo(table, table, g, d, 0, 1)
  {
  }

  lemma {:induction false} RowsLinked<T>(table: Table<T>, g: Graph<T>, d: Draws, i: nat)
    requires WellFormed(g) && i <= |g.keys|
    ensures LinkedUpTo(table, Rows(table, g, d, i), g, d, i, i + 1)
    decreases i
  {
    hide PairStep, Row, Rows, LinkedUpTo;
    if i > 0 {
      var prev := Rows(table, g, d, i - 1);
      RowsLinked(table, g, d, i - 1);
      RowLinked(table, prev, g, d, i - 1, |g.keys|);
      var next := Row(prev, g, d, i - 1, |g.keys|);
      NextRowLinked(table, next, g, d, i);
      RowsNext(table, g, d, i - 1);
    } else {
      RowsStartLinked(table, g, d);
    }
  }

  /**
   * After `random_connect` the node at position p lists the node at
   * position q exactly when it did before or the draw of their pair was
   * below `prob`.
   */
  lemma RandomConnectedLinks<T>(table: Table<T>, g: Graph<T>, d: Draws)
    requires WellFormed(g)
    ensures var r := RandomConnected(table, g, d);
      forall p, q :: 0 <= p < |g.keys| && 0 <= q < |g.keys| ==>
        (g.nodes[g.keys[q]] in Get(r, g.keys[p]) <==> g.nodes[g.keys[q]] in Get(table, g.keys[p]) || Chosen(d, p, q))
  {
    var n := |g.keys|;
    var r := RandomConnected(table, g, d);
    RowsLinked(table, g, d, n);
    forall p, q | 0 <= p < n && 0 <= q < n
      ensures g.nodes[g.keys[q]] in Get(r, g.keys[p]) <==> g.nodes[g.keys[q]] in Get(table, g.keys[p]) || Chosen(d, p, q)
    {
      assert Lists(r, g, p, q) <==> Lists(table, g, p, q) || (Chosen(d, p, q) && Before(p, q, n, n + 1));
    }
  }

  lemma {:induction false} RowUnchanged<T>(table: Table<T>, g: Graph<T>, d: Draws, i: nat, j: nat)
    requires Keyed(g) && i < |g.keys| && j <= |g.keys|
    requires forall q :: i < q < |g.keys| ==> d.draw(i, q) >= d.prob
    ensures Row(table, g, d, i, j) == table
    decreases j
  {
    if j > i + 1 {
      RowUnchanged(table, g, d, i, j - 1);
    }
  }

  lemma {:induction false} RowsUnchanged<T>(table: Table<T>, g: Graph<T>, d: Draws, i: nat)
    requires Keyed(g) && i <= |g.keys|
    requires forall p, q :: 0 <= p < q < |g.keys| ==> d.draw(p, q) >= d.prob
    ensures Rows(table, g, d, i) == table
    decreases i
  {
    if i > 0 {
      RowsUnchanged(table, g, d, i - 1);
      RowUnchanged(table, g, d, i - 1, |g.keys|);
    }
  }

  /**
   * When no draw is below `prob` (as with prob = 0, draws being in [0, 1))
   * `random_connect` leaves every list exactly as it was.
   */
  lemma RandomConnectedNone<T>(table: Table<T>, g: Graph<T>, d: Draws)
    requires Keyed(g)
    requires forall p, q :: 0 <= p < q < |g.keys| ==> d.draw(p, q) >= d.prob
    ensures RandomConnected(table, g, d) == table
  {
    RowsUnchanged(table, g, d, |g.keys|);
  }

  /**
   * When every draw is below `prob` (as with prob = 1) every two distinct
   * nodes end up listing each other.
   */
  lemma RandomConnectedAll<T>(table: Table<T>, g: Graph<T>, d: Draws)
    requires WellFormed(g)
    requires forall p, q :: 0 <= p < q < |g.keys| ==> d.draw(p, q) < d.prob
    ensures var r := RandomConnected(table, g, d);
      forall a, b :: a in g.nodes && b in g.nodes && a != b ==> g.nodes[b] in Get(r, a)
  {
    var r := RandomConnected(table, g, d);
    RandomConnectedLinks(table, g, d);
    forall a, b | a in g.nodes && b in g.nodes && a != b
      ensures g.nodes[b] in Get(r, a)
    {
      var p :| 0 <= p < |g.keys| && g.keys[p] == a;
      var q :| 0 <= q < |g.keys| && g.keys[q] == b;
      assert Chosen(d, p, q);
    }
  }

  /**
   * `random_connect` keeps the graph invariants: symmetric links and no
   * node linked to itself.
   */
  lemma RandomConnectedKeepsShape<T>(table: Table<T>, g: Graph<T>, d: Draws)
    requires WellFormed(g)
    requires Symmetric(table, g) && Loopless(table, g)
    ensures var r := RandomConnected(table, g, d);
      Symmetric(r, g) && Loopless(r, g)
  {
    var r := RandomConnected(table, g, d);
    RandomConnectedLinks(table, g, d);
    forall a, b | a in g.nodes && b in g.nodes && g.nodes[b] in Get(r, a)
      ensures g.nodes[a] in Get(r, b)
    {
      var p :| 0 <= p < |g.keys| && g.keys[p] == a;
      var q :| 0 <= q < |g.keys| && g.keys[q] == b;
      assert Chosen(d, p, q) <==> Chosen(d, q, p);
    }
    forall a | a in g.nodes
      ensures g.nodes[a] !in Get(r, a)
    {
      var p :| 0 <= p < |g.keys| && g.keys[p] == a;
      assert !Chosen(d, p, p);
    }
  }

  lemma PairStepKeepsNoDuplicates<T>(table: Table<T>, g: Graph<T>, d: Draws, i: nat, j: nat)
    requires Keyed(g) && i < |g.keys| && j < |g.keys|
    requires NoDuplicates(table)
    ensures NoDuplicates(PairStep(table, g, d, i, j))
  {
    if d.draw(i, j) < d.prob {
      ConnectedKeepsNoDuplicates(table, g, g.keys[i], g.keys[j]);
    }
  }

  lemma {:induction false} RowKeepsNoDuplicates<T>(table: Table<T>, g: Graph<T>, d: Draws, i: nat, j: nat)
    requires Keyed(g) && i < |g.keys| && j <= |g.keys|
    requires NoDuplicates(table)
    ensures NoDuplicates(Row(table, g, d, i, j))
    decreases j
  {
    hide PairStep;
    if j > i + 1 {
      var prev := Row(table, g, d, i, j - 1);
      RowKeepsNoDuplicates(table, g, d, i, j - 1);
      PairStepKeepsNoDuplicates(prev, g, d, i, j - 1);
      assert Row(table, g, d, i, j) == PairStep(prev, g, d, i, j - 1);
    } else {
      assert Row(table, g, d, i, j) == table;
    }
  }

  lemma {:induction false} RowsKeepNoDuplicates<T>(table: Table<T>, g: Graph<T>, d: Draws, i: nat)
    requires Keyed(g) && i <= |g.keys|
    requires NoDuplicates(table)
    ensures NoDuplicates(Rows(table, g, d, i))
    decreases i
  {
    hide PairStep;
    if i > 0 {
      var prev := Rows(table, g, d, i - 1);
      RowsKeepNoDuplicates(table, g, d, i - 1);
      RowKeepsNoDuplicates(prev, g, d, i - 1, |g.keys|);
      assert Rows(table, g, d, i) == Row(prev, g, d, i - 1, |g.keys|);
    } else {
      assert Rows(table, g, d, i) == table;
    }
  }

  /** `random_connect` never lists a node twice in one list. */
  lemma RandomConnectedKeepsNoDuplicates<T>(table: Table<T>, g: Graph<T>, d: Draws)
    requires Keyed(g) && NoDuplicates(table)
    ensures NoDuplicates(RandomConnected(table, g, d))
  {
    RowsKeepNoDuplicates(table, g, d, |g.keys|);
  }

  lemma PairStepKeepsClosed<T>(table: Table<T>, g: Graph<T>, d: Draws, i: nat, j: nat)
    requires Keyed(g) && i < |g.keys| && j < |g.keys|
    requires Closed(table, g)
    ensures Closed(PairStep(table, g, d, i, j), g)
  {
    if d.draw(i, j) < d.prob {
      ConnectedKeepsClosed(table, g, g.keys[i], g.keys[j]);
    }
  }

  lemma {:induction false} RowKeepsClosed<T>(table: Table<T>, g: Graph<T>, d: Draws, i: nat, j: nat)
    requires Keyed(g) && i < |g.keys| && j <= |g.keys|
    requires Closed(table, g)
    ensures Closed(Row(table, g, d, i, j), g)
    decreases j
  {
    hide PairStep;
    if j > i + 1 {
      var prev := Row(table, g, d, i, j - 1);
      RowKeepsClosed(table, g, d, i, j - 1);
      PairStepKeepsClosed(prev, g, d, i, j - 1);
      assert Row(table, g, d, i, j) == PairStep(prev, g, d, i, j - 1);
    } else {
      assert Row(table, g, d, i, j) == table;
    }
  }

  lemma {:induction false} RowsKeepClosed<T>(table: Table<T>, g: Graph<T>, d: Draws, i: nat)
    requires Keyed(g) && i <= |g.keys|
    requires Closed(table, g)
    ensures Closed(Rows(table, g, d, i), g)
    decreases i
  {
    hide PairStep;
    if i > 0 {
      var prev := Rows(table, g, d, i - 1);
      RowsKeepClosed(table, g, d, i - 1);
      RowKeepsClosed(prev, g, d, i - 1, |g.keys|);
      assert Rows(table, g, d, i) == Row(prev, g, d, i - 1, |g.keys|);
    } else {
      assert Rows(table, g, d, i) == table;
    }
  }

  /** `random_connect` only lists nodes of the graph. */
  lemma RandomConnectedKeepsClosed<T>(table: Table<T>, g: Graph<T>, d: Draws)
    requires Keyed(g) && Closed(table, g)
    ensures Closed(RandomConnected(table, g, d), g)
  {
    RowsKeepClosed(table, g, d, |g.keys|);
  }

  /**
   * `random_connect` on a graph without links: the result is symmetric,
   * loop-free, duplicate-free and closed, and links exactly the chosen pairs.
   */
  lemma RandomConnectedFromEmpty<T>(table: Table<T>, g: Graph<T>, d: Draws)
    requires WellFormed(g)
    requires forall k :: k in table ==> table[k] == []
    ensures var r := RandomConnected(table, g, d);
      Symmetric(r, g) && Loopless(r, g) && NoDuplicates(r) && Closed(r, g) &&
      forall p, q :: 0 <= p < |g.keys| && 0 <= q < |g.keys| ==>
        (g.nodes[g.keys[q]] in Get(r, g.keys[p]) <==> Chosen(d, p, q))
  {
    EmptyTableShape(table, g);
    RandomConnectedKeepsShape(table, g, d);
    RandomConnectedKeepsNoDuplicates(table, g, d);
    RandomConnectedKeepsClosed(table, g, d);
    RandomConnectedLinks(table, g, d);
  }
}
