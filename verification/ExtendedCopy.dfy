/** Extended copy, end to end: from the root search to the destination. */
module ExtendedCopy {
  import opened Content
  import opened Digraph
  import opened CopyMachine
  import opened CopyProgress
  import opened CopyResult
  import opened FindRoots

  /** All edges of the stored graph, those to foreign layers included. */
  function AllEdges(src: Storage): (g: Graph<Key>)
    ensures forall n :: Out(g, n) == if Successors(src, n).Ok? then SetOf(Keys(Successors(src, n).value)) else {}
  {
    var g := map n | n in src :: if Successors(src, n).Ok? then SetOf(Keys(Successors(src, n).value)) else {};
    assert forall n :: n !in src && Successors(src, n).Ok? ==> Successors(src, n).value == [];
    g
  }

  lemma {:induction false} LocalKeeps(ds: seq<Descriptor>, k: Key)
    ensures k in Keys(Local(ds)) <==> k in Keys(ds) && !IsForeignLayer(k.mediaType)
  {
    if ds != [] {
      var front, d := ds[..|ds| - 1], ds[|ds| - 1];
      assert ds == front + [d];
      KeysConcat(front, [d]);
      KeysConcat(Local(front), [d]);
      LocalKeeps(front, k);
    }
  }

  /** The copied edges are those that do not lead to a foreign layer. */
  lemma CopiedEdges(src: Storage, n: Key, k: Key)
    ensures k in Out(CopyEdges(src), n) <==> k in Out(AllEdges(src), n) && !IsForeignLayer(k.mediaType)
  {
    if Successors(src, n).Ok? {
      LocalKeeps(Successors(src, n).value, k);
    }
  }

  /** A path up from a distributable node is, read downwards, made of copied edges. */
  lemma {:induction false} UpIsCopied(src: Storage, up: Graph<Key>, p: seq<Key>, v: Key, r: Key)
    requires Inverse(AllEdges(src), up) && PathBetween(up, p, v, r) && !IsForeignLayer(v.mediaType)
    ensures Reach(CopyEdges(src), r, v)
    decreases |p|
  {
    if |p| == 1 {
      ReachSelf(CopyEdges(src), v);
    } else {
      var q := p[1];
      assert q in Out(up, v);
      assert v in Out(AllEdges(src), q);
      assert IsManifest(q.mediaType);
      assert PathBetween(up, p[1..], q, r);
      UpIsCopied(src, up, p[1..], q, r);
      CopiedEdges(src, q, v);
      ReachStep(CopyEdges(src), r, q, v);
    }
  }

  /** What `ExtendedCopyGraph` dispatches for the roots it has found. */
  function Dispatches(roots: seq<Descriptor>): (jobs: seq<Kind>)
    ensures |jobs| == |roots|
  {
    seq(|roots|, i requires 0 <= i < |roots| => Root(KeyOf(roots[i])))
  }

  /** The root list is the result of the search without a depth limit. */
  ghost predicate FoundRoots(find: Finder, all: set<Key>, node: Key, roots: seq<Descriptor>) {
    && (forall k :: Reach(Up(find, all), node, k) ==> find(k).Ok?)
    && (forall k :: k in SetOf(Keys(roots)) <==> IsRootAbove(find, all, node, k))
  }

  /** Every ancestor of `node` lies below one of the found roots. */
  lemma AncestorBelowRoot(src: Storage, find: Finder, all: set<Key>, node: Key, roots: seq<Descriptor>,
                          rank: Key -> nat, a: Key) returns (r: Key)
    requires Known(find, all, node) && FoundRoots(find, all, node, roots)
    requires Inverse(AllEdges(src), Up(find, all)) && Ranked(AllEdges(src), rank)
    requires Reach(Up(find, all), node, a)
    ensures r in SetOf(Keys(roots)) && Reach(Up(find, all), a, r)
  {
    var up := Up(find, all);
    assert Closed(up, all);
    ClosedReach(up, all, node, a);
    var above := set k | k in all && Reach(up, a, k);
    ReachSelf(up, a);
    assert a in above;
    r := Highest(above, rank);
    ReachTransitive(up, node, a, r);
    assert find(r).value != [] ==> Keys(find(r).value)[0] in Out(up, r);
    NoneHigher(up, all, a, r, rank);
    assert forall p :: p in Out(up, r) ==> r in Out(AllEdges(src), p);
  }

  lemma RootRequested(cfg: Config, roots: seq<Descriptor>, g: Graph<Key>, r: Key, k: Key)
    requires cfg.jobs == Dispatches(roots) && r in SetOf(Keys(roots)) && Reach(g, r, k)
    ensures Requested(cfg, g, k)
  {
    var i :| 0 <= i < |roots| && Keys(roots)[i] == r;
    assert JobKey(cfg.jobs[i]) == r;
  }

  /**
   End to end: when an extended copy without a depth limit succeeds, the destination holds the node, all its
   ancestors and all that can be reached down from any of them without crossing into foreign layers.
   */
  lemma ExtendedCopyComplete(cfg: Config, dst: set<Key>, s: State, find: Finder, all: set<Key>, node: Key,
                             roots: seq<Descriptor>, rank: Key -> nat, a: Key, k: Key)
    requires ValidConfig(cfg) && Reachable(cfg, dst, s) && Succeeded(s)
    requires Closed(CopyEdges(cfg.src), dst)
    requires cfg.jobs == Dispatches(roots) && Known(find, all, node) && FoundRoots(find, all, node, roots)
    requires Inverse(AllEdges(cfg.src), Up(find, all)) && Ranked(AllEdges(cfg.src), rank)
    requires !IsForeignLayer(node.mediaType)
    requires Reach(Up(find, all), node, a) && Reach(CopyEdges(cfg.src), a, k)
    ensures k in s.dst
  {
    var up, g := Up(find, all), CopyEdges(cfg.src);
    var r := AncestorBelowRoot(cfg.src, find, all, node, roots, rank, a);
    AncestorDistributable(cfg.src, up, node, a);
    var p :| PathBetween(up, p, a, r);
    UpIsCopied(cfg.src, up, p, a, r);
    ReachTransitive(g, r, a, k);
    RootRequested(cfg, roots, g, r, k);
    CopyIsComplete(cfg, dst, s, k);
  }

  lemma AncestorDistributable(src: Storage, up: Graph<Key>, node: Key, a: Key)
    requires Inverse(AllEdges(src), up) && Reach(up, node, a)
    ensures a == node || !IsForeignLayer(a.mediaType)
  {
    var p :| PathBetween(up, p, node, a);
    if |p| > 1 {
      assert p[|p| - 2 + 1] in Out(up, p[|p| - 2]);
      assert p[|p| - 2] in Out(AllEdges(src), a);
    }
  }

  /**
   The node itself is in the destination exactly when it was there, or is not a foreign layer, or has no
   predecessor and so is its own root.
   */
  lemma NodeCopied(cfg: Config, dst: set<Key>, s: State, find: Finder, all: set<Key>, node: Key,
                   roots: seq<Descriptor>, rank: Key -> nat)
    requires ValidConfig(cfg) && Reachable(cfg, dst, s) && Succeeded(s)
    requires Closed(CopyEdges(cfg.src), dst)
    requires cfg.jobs == Dispatches(roots) && Known(find, all, node) && FoundRoots(find, all, node, roots)
    requires Inverse(AllEdges(cfg.src), Up(find, all)) && Ranked(AllEdges(cfg.src), rank)
    ensures node in s.dst <==> node in dst || !IsForeignLayer(node.mediaType) || find(node) == Ok([])
  {
    var up, g := Up(find, all), CopyEdges(cfg.src);
    ReachSelf(up, node);
    ReachSelf(g, node);
    if !IsForeignLayer(node.mediaType) {
      ExtendedCopyComplete(cfg, dst, s, find, all, node, roots, rank, node, node);
    } else {
      CopyIsComplete(cfg, dst, s, node);
      if find(node) == Ok([]) {
        RootRequested(cfg, roots, g, node, node);
      } else if Requested(cfg, g, node) {
        var i :| 0 <= i < |cfg.jobs| && Reach(g, JobKey(cfg.jobs[i]), node);
        var p :| PathBetween(g, p, JobKey(cfg.jobs[i]), node);
        if |p| == 1 {
          assert Keys(roots)[i] == node;
          assert node in SetOf(Keys(roots));
        } else {
          assert p[|p| - 2 + 1] in Out(g, p[|p| - 2]);
          CopiedEdges(cfg.src, p[|p| - 2], node);
        }
      }
    }
  }
}
