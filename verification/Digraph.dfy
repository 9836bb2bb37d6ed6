/** Finite directed graphs as successor maps: paths, reachability, closed sets. */
module Digraph {

  type Graph<K(==)> = map<K, set<K>>

  function Out<K>(g: Graph<K>, k: K): set<K> {
    if k in g then g[k] else {}
  }

  ghost predicate Path<K>(g: Graph<K>, p: seq<K>) {
    |p| > 0 && forall i :: 0 <= i < |p| - 1 ==> p[i + 1] in Out(g, p[i])
  }

  ghost predicate PathBetween<K>(g: Graph<K>, p: seq<K>, a: K, b: K) {
    Path(g, p) && p[0] == a && p[|p| - 1] == b
  }

  ghost predicate Reach<K(!new)>(g: Graph<K>, a: K, b: K) {
    exists p :: PathBetween(g, p, a, b)
  }

  /** `s` contains the successors of each of its members. */
  ghost predicate Closed<K(!new)>(g: Graph<K>, s: set<K>) {
    forall k :: k in s ==> Out(g, k) <= s
  }

  /** `rank` strictly decreases along every edge, so the graph has no cycle. */
  ghost predicate Ranked<K(!new)>(g: Graph<K>, rank: K -> nat) {
    forall k, c :: c in Out(g, k) ==> rank(c) < rank(k)
  }

  ghost predicate Inverse<K(!new)>(g: Graph<K>, p: Graph<K>) {
    forall a, b :: b in Out(g, a) <==> a in Out(p, b)
  }

  lemma ReachSelf<K(!new)>(g: Graph<K>, a: K)
    ensures Reach(g, a, a)
  {
    assert PathBetween(g, [a], a, a);
  }

  lemma ReachStep<K(!new)>(g: Graph<K>, a: K, b: K, c: K)
    requires Reach(g, a, b) && c in Out(g, b)
    ensures Reach(g, a, c)
  {
    var p :| PathBetween(g, p, a, b);
    assert PathBetween(g, p + [c], a, c);
  }

  lemma ReachTransitive<K(!new)>(g: Graph<K>, a: K, b: K, c: K)
    requires Reach(g, a, b) && Reach(g, b, c)
    ensures Reach(g, a, c)
  {
    var p :| PathBetween(g, p, a, b);
    var q :| PathBetween(g, q, b, c);
    assert PathBetween(g, p + q[1..], a, c);
  }

  /** A closed set that holds the start of a path holds its end. */
  lemma {:induction false} ClosedPath<K(!new)>(g: Graph<K>, s: set<K>, p: seq<K>, a: K, b: K)
    requires Closed(g, s) && PathBetween(g, p, a, b) && a in s
    ensures b in s
    decreases |p|
  {
    if |p| > 1 {
      assert p[1] in Out(g, p[0]);
      assert PathBetween(g, p[1..], p[1], b);
      ClosedPath(g, s, p[1..], p[1], b);
    }
  }

  lemma ClosedReach<K(!new)>(g: Graph<K>, s: set<K>, a: K, b: K)
    requires Closed(g, s) && Reach(g, a, b) && a in s
    ensures b in s
  {
    var p :| PathBetween(g, p, a, b);
    ClosedPath(g, s, p, a, b);
  }
}
