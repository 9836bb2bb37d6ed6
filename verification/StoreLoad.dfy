/** Opening a layout: `loadIndex` brings back the references and indexes what is below them. */
module StoreLoad {
  import opened Content
  import opened Layout
  import opened IndexAll
  import opened IndexFile
  import G = GraphMemory
  import R = Resolver
  import StoreGC

  /** The state after `done` entries, over a graph with what is below `above`. */
  ghost predicate Loading(files: Files, above: set<Key>, before: RefMap, done: seq<Descriptor>, nodes: set<Key>,
                          index: RefMap)
  {
    && index == Load(before, done)
    && Gathered(files, above + SetOf(Keys(done)), nodes)
    && forall k {:trigger BrokenUnder(files, k)} :: k in Keys(done) ==> !BrokenUnder(files, k)
  }

  lemma LoadStep(files: Files, above: set<Key>, before: RefMap, done: seq<Descriptor>, nodes: set<Key>, index: RefMap,
                 desc: Descriptor, reached: set<Key>, nodes': set<Key>)
    requires Loading(files, above, before, done, nodes, index)
    requires Outcome(files, KeyOf(desc), nodes, nodes', reached, false)
    ensures Loading(files, above, before, done + [desc], nodes', LoadOne(index, desc))
  {
    var all := done + [desc];
    assert all[..|all| - 1] == done;
    KeysConcat(done, [desc]);
    assert Keys([desc]) == [KeyOf(desc)];
    assert above + SetOf(Keys(all)) == above + SetOf(Keys(done)) + {KeyOf(desc)};
    GatherMore(files, above + SetOf(Keys(done)), nodes, KeyOf(desc), reached, nodes');
    NothingBroken(files, KeyOf(desc), reached);
  }

  /** One entry: tagged by its digest and by the name it carries, and everything below it indexed. */
  method LoadEntry(desc: Descriptor, files: Files, resolver: R.Memory, graph: G.Memory)
    returns (err: Option<Error>, ghost reached: set<Key>)
    requires resolver.Valid() && Sound(graph, files)
    modifies resolver, graph
    ensures resolver.Valid() && Sound(graph, files) && resolver.index == LoadOne(old(resolver.index), desc)
    ensures Outcome(files, KeyOf(desc), old(graph.nodes.Keys), graph.nodes.Keys, reached, err.Some?)
  {
    resolver.Tag(Unnamed(desc), desc.digest);
    var ref := RefName(desc);
    if ref != "" {
      resolver.Tag(desc, ref);
    }
    err, reached := IndexBelow(graph, files, Plain(KeyOf(desc)));
  }

  /** `loadIndex`, entry by entry; `above` are the nodes below which the graph has been indexed before. */
  method LoadIndex(manifests: seq<Descriptor>, files: Files, resolver: R.Memory, graph: G.Memory, ghost above: set<Key>)
    returns (err: Option<Error>)
    requires resolver.Valid() && Sound(graph, files) && Gathered(files, above, graph.nodes.Keys)
    modifies resolver, graph
    ensures resolver.Valid() && Sound(graph, files)
    ensures err.Some? <==> exists k :: k in Keys(manifests) && BrokenUnder(files, k)
    ensures err.None? ==> resolver.index == Load(old(resolver.index), manifests)
    ensures err.None? ==> Gathered(files, above + SetOf(Keys(manifests)), graph.nodes.Keys)
  {
    ghost var before := resolver.index;
    assert above + SetOf(Keys([])) == above;
    for i := 0 to |manifests|
      invariant resolver.Valid() && Sound(graph, files)
      invariant Loading(files, above, before, manifests[..i], graph.nodes.Keys, resolver.index)
    {
      ghost var nodes, index := graph.nodes.Keys, resolver.index;
      ghost var reached;
      err, reached := LoadEntry(manifests[i], files, resolver, graph);
      if err.Some? {
        assert Keys(manifests)[i] == KeyOf(manifests[i]) && BrokenUnder(files, KeyOf(manifests[i]));
        return;
      }
      LoadStep(files, above, before, manifests[..i], nodes, index, manifests[i], reached, graph.nodes.Keys);
      assert manifests[..i + 1] == manifests[..i] + [manifests[i]];
    }
    assert manifests[..|manifests|] == manifests;
    err := None;
  }

  /** The entries of a saved index have the keys of what the references resolve to. */
  lemma EntryKeys(m: RefMap, refs: seq<string>)
    requires StoreRefs(m) && SaveOrder(m, refs)
    ensures SetOf(Keys(Entries(m, refs))) == StoreGC.Targets(m, m.Keys)
  {
    var keys := Keys(Entries(m, refs));
    forall i | 0 <= i < |refs|
      ensures keys[i] == KeyOf(m[refs[i]])
    {
      assert refs[i] in refs;
    }
    forall k | k in StoreGC.Targets(m, m.Keys)
      ensures k in keys
    {
      var r :| r in m && KeyOf(m[r]) == k;
      DigestHasEntry(m, refs, r);
      var q :| q in refs && m[q].digest == m[r].digest;
      assert DigestIdentifies(m, q, r);
      var i :| 0 <= i < |refs| && refs[i] == q;
      assert keys[i] == k;
    }
  }

  /** After saving and loading, the graph holds exactly what the saved references reach. */
  lemma LoadedGraph(m: RefMap, file: seq<Descriptor>, files: Files, nodes: set<Key>, k: Key)
    requires StoreRefs(m) && Saved(m, file) && Gathered(files, SetOf(Keys(file)), nodes)
    ensures k in nodes <==> StoreGC.Justified(files, m, m.Keys, k)
  {
    var refs :| SaveOrder(m, refs) && file == Entries(m, refs);
    EntryKeys(m, refs);
    GatheredExact(files, SetOf(Keys(file)), nodes, k);
  }
}
