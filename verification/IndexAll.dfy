/** Indexing everything below a node: concurrent tasks that claim a node, read it and spawn its successors. */
module IndexAll {
  import opened Content
  import opened GraphMemory
  import opened Layout

  function Below(files: Files, k: Key): set<Key> {
    if ReadSuccessors(files, k).Ok? then SetOf(Keys(ReadSuccessors(files, k).value)) else {}
  }

  /** Reading the node fails otherwise than because it is missing. */
  predicate Broken(files: Files, k: Key) {
    ReadSuccessors(files, k).Err? && ReadSuccessors(files, k).error != NotFound
  }

  /** What is below a key is what its stored manifest names. */
  lemma BelowIsNamed(files: Files, k: Key, c: Key)
    ensures c in Below(files, k) <==>
      Holds(files, k) && exists d :: Names(k.mediaType, files[k.digest].blob, d) && KeyOf(d) == c
  {
    var r := ReadSuccessors(files, k);
    forall d
      ensures r.Ok? ==> (d in r.value <==> Holds(files, k) && Names(k.mediaType, files[k.digest].blob, d))
      ensures Holds(files, k) && Names(k.mediaType, files[k.digest].blob, d) ==> r.Ok?
    {
      SuccessorsAreNamed(files, k, d);
    }
    if r.Ok? {
      assert forall i :: 0 <= i < |r.value| ==> Keys(r.value)[i] == KeyOf(r.value[i]);
      if c in Below(files, k) {
        var i :| 0 <= i < |r.value| && Keys(r.value)[i] == c;
        assert r.value[i] in r.value;
      }
      if d :| d in r.value && KeyOf(d) == c {
        var i :| 0 <= i < |r.value| && r.value[i] == d;
        assert Keys(r.value)[i] == c;
      }
    }
  }

  /** With each node that can be read, `s` holds its successors. */
  ghost predicate Expanded(files: Files, s: set<Key>) {
    forall k {:trigger Below(files, k)} :: k in s ==> Below(files, k) <= s
  }

  /** `s` is part of every expanded set with `start`. */
  ghost predicate Within(files: Files, start: Key, s: set<Key>) {
    forall t {:trigger Expanded(files, t)} :: start in t && Expanded(files, t) ==> s <= t
  }

  /** `s` is what can be reached from `start` through manifests that can be read. */
  ghost predicate Reached(files: Files, start: Key, s: set<Key>) {
    start in s && Expanded(files, s) && Within(files, start, s)
  }

  /** Each node of the chain is a successor of the one before. */
  ghost predicate Chain(files: Files, start: Key, p: seq<Key>, k: Key) {
    |p| > 0 && p[0] == start && p[|p| - 1] == k && forall i :: 0 <= i < |p| - 1 ==> p[i + 1] in Below(files, p[i])
  }

  ghost predicate Linked(files: Files, start: Key, k: Key) {
    exists p :: Chain(files, start, p, k)
  }

  lemma {:induction false} ChainStays(files: Files, s: set<Key>, start: Key, p: seq<Key>, k: Key)
    requires Expanded(files, s) && start in s && Chain(files, start, p, k)
    ensures k in s
    decreases |p|
  {
    if |p| > 1 {
      var q := p[..|p| - 1];
      assert p[|p| - 1] in Below(files, p[|p| - 2]);
      assert Chain(files, start, q, p[|p| - 2]);
      ChainStays(files, s, start, q, p[|p| - 2]);
    }
  }

  /** What is reached is what a chain of successors leads to. */
  lemma ReachedByChains(files: Files, start: Key, s: set<Key>, k: Key)
    requires Reached(files, start, s)
    ensures k in s <==> Linked(files, start, k)
  {
    var u := set x | x in s && Linked(files, start, x);
    assert Chain(files, start, [start], start);
    forall x | x in u
      ensures Below(files, x) <= u
    {
      var p :| Chain(files, start, p, x);
      forall y | y in Below(files, x)
        ensures y in u
      {
        assert Chain(files, start, p + [y], y);
      }
    }
    assert Expanded(files, u);
    if p :| Chain(files, start, p, k) {
      ChainStays(files, s, start, p, k);
    }
  }

  /** The nodes of `s` that get indexed: a manifest that is not stored does not. */
  function Indexed(files: Files, s: set<Key>): set<Key> {
    set k | k in s && ReadSuccessors(files, k).Ok?
  }

  /** The graph holds what the files say about its nodes. */
  ghost predicate Agrees(files: Files, succ: map<Key, set<Key>>) {
    forall k :: k in succ ==> ReadSuccessors(files, k).Ok? && succ[k] == Below(files, k)
  }

  /** The keys under which a stored file can be read as a manifest; there are finitely many. */
  function Readable(files: Files): set<Key> {
    set d, m | d in files && m in {DockerManifest, DockerManifestList, ImageManifest, ImageIndex, ArtifactManifest} ::
      Key(m, d, files[d].size)
  }

  lemma OnlyReadableExpands(files: Files, k: Key)
    ensures k in Readable(files) || (ReadSuccessors(files, k).Ok? ==> ReadSuccessors(files, k).value == [])
  {
  }

  /** The tasks: `claimed` nodes, of them `busy` not yet read, and `waiting` the nodes other tasks have yet to claim. */
  datatype Tasks = Tasks(claimed: set<Key>, busy: set<Key>, waiting: set<Key>)

  /** Every successor of a node that has been read belongs to a task, and no task strays from what `start` reaches. */
  ghost predicate Consistent(files: Files, start: Key, t: Tasks) {
    && t.busy <= t.claimed
    && start in t.claimed + t.waiting
    && Within(files, start, t.claimed + t.waiting)
    && forall k {:trigger Below(files, k)} :: k in t.claimed - t.busy ==> Below(files, k) <= t.claimed + t.waiting
  }

  lemma Claim(files: Files, start: Key, t: Tasks, k: Key, t': Tasks)
    requires Consistent(files, start, t) && t'.claimed == t.claimed + {k} && t'.waiting + {k} == t.waiting
    requires t'.busy == if k in t.claimed then t.busy else t.busy + {k}
    ensures Consistent(files, start, t') && t'.claimed - t'.busy == t.claimed - t.busy
  {
    assert t'.claimed + t'.waiting == t.claimed + t.waiting;
  }

  lemma Spawn(files: Files, start: Key, t: Tasks, k: Key, t': Tasks)
    requires Consistent(files, start, t) && k in t.busy && t'.claimed == t.claimed && t'.busy == t.busy - {k}
    requires t'.waiting == t.waiting + Below(files, k)
    ensures Consistent(files, start, t') && t'.claimed - t'.busy == t.claimed - t.busy + {k}
  {
    forall u | start in u && Expanded(files, u)
      ensures t'.claimed + t'.waiting <= u
    {
      assert t.claimed + t.waiting <= u;
    }
  }

  function WaitingKeys(waiting: multiset<Descriptor>): set<Key> {
    set d | d in waiting :: KeyOf(d)
  }

  lemma TakeWaiting(waiting: multiset<Descriptor>, d: Descriptor)
    requires d in waiting
    ensures WaitingKeys(waiting - multiset{d}) + {KeyOf(d)} == WaitingKeys(waiting)
    ensures |waiting - multiset{d}| < |waiting|
  {
    var rest := waiting - multiset{d};
    assert waiting == rest + multiset{d};
    forall k | k in WaitingKeys(waiting)
      ensures k in WaitingKeys(rest) + {KeyOf(d)}
    {
      var e :| e in waiting && KeyOf(e) == k;
      assert e in rest || e == d;
    }
    assert forall e :: e in rest ==> e in waiting;
  }

  lemma AddWaiting(waiting: multiset<Descriptor>, ds: seq<Descriptor>)
    ensures WaitingKeys(waiting + multiset(ds)) == WaitingKeys(waiting) + SetOf(Keys(ds))
  {
    var all := waiting + multiset(ds);
    assert forall e :: e in all <==> e in waiting || e in ds;
    forall k
      ensures k in WaitingKeys(all) <==> k in WaitingKeys(waiting) + SetOf(Keys(ds))
    {
      if k in SetOf(Keys(ds)) {
        var i :| 0 <= i < |ds| && Keys(ds)[i] == k;
        assert ds[i] in all;
      }
      if e :| e in ds && KeyOf(e) == k {
        var i :| 0 <= i < |ds| && ds[i] == e;
        assert Keys(ds)[i] == k;
      }
    }
  }

  lemma IndexedMore(files: Files, done: set<Key>, k: Key)
    ensures Indexed(files, done + {k}) == Indexed(files, done) + Indexed(files, {k})
    ensures Indexed(files, {k}) == if ReadSuccessors(files, k).Ok? then {k} else {}
  {
  }

  ghost predicate SomeBroken(files: Files, done: set<Key>) {
    exists k :: k in done && Broken(files, k)
  }

  /** The invariant of all tasks together, with the nodes of the graph before and now. */
  ghost predicate Run(files: Files, start: Key, before: set<Key>, nodes: set<Key>, t: Tasks, failed: bool) {
    && Consistent(files, start, t)
    && nodes == before + Indexed(files, t.claimed - t.busy)
    && failed == SomeBroken(files, t.claimed - t.busy)
  }

  /** The manifests that no task has read yet. */
  ghost function Unread(files: Files, t: Tasks): nat {
    |Readable(files) - (t.claimed - t.busy)|
  }

  /** Only reading one of them spawns new tasks. */
  lemma FewerUnread(files: Files, t: Tasks, k: Key, t': Tasks)
    requires k !in t.claimed - t.busy && t'.claimed - t'.busy == t.claimed - t.busy + {k}
    ensures Unread(files, t') <= Unread(files, t)
    ensures Unread(files, t') == Unread(files, t) && ReadSuccessors(files, k).Ok? ==>
      ReadSuccessors(files, k).value == []
  {
    var all, done := Readable(files), t.claimed - t.busy;
    OnlyReadableExpands(files, k);
    assert all - (done + {k}) == (all - done) - {k};
  }

  ghost predicate Sound(graph: Memory, files: Files)
    reads graph
  {
    graph.Valid() && Agrees(files, graph.successors)
  }

  /** One task reads its node and, if it is there, indexes it. */
  method ReadNode(graph: Memory, files: Files, desc: Descriptor) returns (r: Result<seq<Descriptor>>)
    requires Sound(graph, files)
    modifies graph
    ensures Sound(graph, files)
    ensures r == ReadSuccessors(files, KeyOf(desc))
    ensures graph.nodes.Keys == old(graph.nodes.Keys) + Indexed(files, {KeyOf(desc)})
  {
    r := ReadSuccessors(files, KeyOf(desc));
    IndexedMore(files, {}, KeyOf(desc));
    if r.Ok? {
      graph.Index(desc, r.value);
    }
  }

  /** The tasks with their descriptors, and the first error. */
  datatype Pool = Pool(claimed: map<Key, Descriptor>, busy: set<Key>, waiting: multiset<Descriptor>, err: Option<Error>)

  function Claimed(p: Pool, desc: Descriptor): Pool {
    var rest := p.waiting - multiset{desc};
    if KeyOf(desc) in p.claimed then p.(waiting := rest)
    else p.(claimed := p.claimed[KeyOf(desc) := desc], busy := p.busy + {KeyOf(desc)}, waiting := rest)
  }

  function Finished(p: Pool, key: Key, successors: Result<seq<Descriptor>>): Pool {
    match successors
    case Ok(ds) => p.(busy := p.busy - {key}, waiting := p.waiting + multiset(ds))
    case Err(e) => p.(busy := p.busy - {key}, err := if e == NotFound then p.err else Some(e))
  }

  ghost function TasksOf(p: Pool): Tasks {
    Tasks(p.claimed.Keys, p.busy, WaitingKeys(p.waiting))
  }

  ghost predicate PoolRun(files: Files, start: Key, before: set<Key>, nodes: set<Key>, p: Pool) {
    && (forall k :: k in p.claimed ==> KeyOf(p.claimed[k]) == k)
    && Run(files, start, before, nodes, TasksOf(p), p.err.Some?)
  }

  ghost function PoolUnread(files: Files, p: Pool): nat {
    Unread(files, TasksOf(p))
  }

  lemma ClaimPool(files: Files, start: Key, before: set<Key>, nodes: set<Key>, p: Pool, desc: Descriptor)
    requires PoolRun(files, start, before, nodes, p) && desc in p.waiting
    ensures PoolRun(files, start, before, nodes, Claimed(p, desc))
    ensures PoolUnread(files, Claimed(p, desc)) == PoolUnread(files, p) && |Claimed(p, desc).waiting| < |p.waiting|
  {
    var p' := Claimed(p, desc);
    TakeWaiting(p.waiting, desc);
    assert p'.claimed.Keys == p.claimed.Keys + {KeyOf(desc)};
    Claim(files, start, TasksOf(p), KeyOf(desc), TasksOf(p'));
  }

  lemma FinishPool(files: Files, start: Key, before: set<Key>, nodes: set<Key>, p: Pool, key: Key)
    requires PoolRun(files, start, before, nodes, p) && key in p.busy
    ensures PoolRun(files, start, before, nodes + Indexed(files, {key}), Finished(p, key, ReadSuccessors(files, key)))
  {
    var p' := Finished(p, key, ReadSuccessors(files, key));
    FinishWaiting(files, p, key);
    Spawn(files, start, TasksOf(p), key, TasksOf(p'));
    IndexedMore(files, p.claimed.Keys - p.busy, key);
    assert SomeBroken(files, p'.claimed.Keys - p'.busy) <==>
      SomeBroken(files, p.claimed.Keys - p.busy) || Broken(files, key);
  }

  lemma FinishWaiting(files: Files, p: Pool, key: Key)
    ensures var p' := Finished(p, key, ReadSuccessors(files, key));
      WaitingKeys(p'.waiting) == WaitingKeys(p.waiting) + Below(files, key)
  {
    if ReadSuccessors(files, key).Ok? {
      AddWaiting(p.waiting, ReadSuccessors(files, key).value);
    }
  }

  lemma FinishDecreases(files: Files, p: Pool, key: Key)
    requires key in p.busy && p.busy <= p.claimed.Keys
    ensures var p' := Finished(p, key, ReadSuccessors(files, key));
      || PoolUnread(files, p') < PoolUnread(files, p)
      || (PoolUnread(files, p') == PoolUnread(files, p) && p'.waiting == p.waiting && |p'.busy| < |p.busy|)
  {
    var p' := Finished(p, key, ReadSuccessors(files, key));
    FewerUnread(files, TasksOf(p), key, TasksOf(p'));
  }

  lemma StartPool(files: Files, before: set<Key>, node: Descriptor)
    ensures PoolRun(files, KeyOf(node), before, before, Pool(map[], {}, multiset{node}, None))
  {
    assert WaitingKeys(multiset{node}) == {KeyOf(node)};
  }

  /** What the tasks have done, in particular when all of them are finished. */
  ghost predicate Outcome(files: Files, start: Key, before: set<Key>, nodes: set<Key>, reached: set<Key>,
                          failed: bool)
  {
    && Within(files, start, reached)
    && before <= nodes <= before + Indexed(files, reached)
    && (failed ==> SomeBroken(files, reached))
    && (!failed ==>
          && Reached(files, start, reached) && nodes == before + Indexed(files, reached)
          && !SomeBroken(files, reached))
  }

  lemma EndPool(files: Files, start: Key, before: set<Key>, nodes: set<Key>, p: Pool)
    requires PoolRun(files, start, before, nodes, p)
    requires p.err.Some? || (p.busy == {} && p.waiting == multiset{})
    ensures Outcome(files, start, before, nodes, p.claimed.Keys, p.err.Some?)
  {
    var t := TasksOf(p);
    forall u | start in u && Expanded(files, u)
      ensures t.claimed <= u
    {
      assert t.claimed + t.waiting <= u;
    }
    if p.busy == {} && p.waiting == multiset{} {
      assert t.claimed + t.waiting == t.claimed && t.claimed - t.busy == t.claimed;
    }
  }

  /**
   `IndexAll` under every schedule: each pass of the loop is a step of some task, which either claims the node it
   was spawned for or reads the node it has claimed. After an error the other tasks stop at any point.
   */
  method IndexBelow(graph: Memory, files: Files, node: Descriptor) returns (err: Option<Error>, ghost reached: set<Key>)
    requires Sound(graph, files)
    modifies graph
    ensures Sound(graph, files)
    ensures Outcome(files, KeyOf(node), old(graph.nodes.Keys), graph.nodes.Keys, reached, err.Some?)
  {
    ghost var start, before := KeyOf(node), graph.nodes.Keys;
    var pool := Pool(map[], {}, multiset{node}, None);
    StartPool(files, before, node);
    while pool.waiting != multiset{} || pool.busy != {}
      invariant Sound(graph, files)
      invariant PoolRun(files, start, before, graph.nodes.Keys, pool)
      decreases PoolUnread(files, pool), |pool.waiting|, |pool.busy|
    {
      var stops, claims := *, *;
      if pool.err.Some? && stops {
        break;
      }
      if pool.busy == {} || (claims && pool.waiting != multiset{}) {
        var desc :| desc in pool.waiting;
        ClaimPool(files, start, before, graph.nodes.Keys, pool, desc);
        pool := Claimed(pool, desc);
      } else {
        var key :| key in pool.busy;
        FinishPool(files, start, before, graph.nodes.Keys, pool, key);
        FinishDecreases(files, pool, key);
        var successors := ReadNode(graph, files, pool.claimed[key]);
        pool := Finished(pool, key, successors);
      }
    }
    EndPool(files, start, before, graph.nodes.Keys, pool);
    err, reached := pool.err, pool.claimed.Keys;
  }

  // ----- indexing below several nodes -----

  /** All that `start` reaches and that can be indexed is among `nodes`, and nothing it reaches is broken. */
  ghost predicate AllBelow(files: Files, nodes: set<Key>, start: Key) {
    forall s {:trigger Reached(files, start, s)} ::
      Reached(files, start, s) ==> Indexed(files, s) <= nodes && !SomeBroken(files, s)
  }

  ghost predicate IndexedUnder(files: Files, start: Key, k: Key) {
    exists s :: Reached(files, start, s) && k in Indexed(files, s)
  }

  /** One of `starts` reaches `k`, and it can be indexed. */
  ghost predicate UnderSome(files: Files, starts: set<Key>, k: Key) {
    exists start :: start in starts && IndexedUnder(files, start, k)
  }

  /** The nodes are exactly what can be indexed below `starts`. */
  ghost predicate Gathered(files: Files, starts: set<Key>, nodes: set<Key>) {
    && (forall start {:trigger AllBelow(files, nodes, start)} :: start in starts ==> AllBelow(files, nodes, start))
    && (forall k {:trigger UnderSome(files, starts, k)} :: k in nodes ==> UnderSome(files, starts, k))
  }

  /** Something that cannot be read can be reached from `start`. */
  ghost predicate BrokenUnder(files: Files, start: Key) {
    exists u :: Within(files, start, u) && SomeBroken(files, u)
  }

  lemma NothingBroken(files: Files, start: Key, reached: set<Key>)
    requires Reached(files, start, reached) && !SomeBroken(files, reached)
    ensures !BrokenUnder(files, start)
  {
    forall u | Within(files, start, u)
      ensures !SomeBroken(files, u)
    {
      assert u <= reached;
    }
  }

  lemma ReachedUnique(files: Files, start: Key, s: set<Key>, t: set<Key>)
    requires Reached(files, start, s) && Reached(files, start, t)
    ensures s == t
  {
  }

  lemma GatherMore(files: Files, starts: set<Key>, nodes: set<Key>, start: Key, reached: set<Key>, nodes': set<Key>)
    requires Gathered(files, starts, nodes) && Outcome(files, start, nodes, nodes', reached, false)
    ensures Gathered(files, starts + {start}, nodes')
  {
    forall x | x in starts + {start}
      ensures AllBelow(files, nodes', x)
    {
      if x in starts {
        assert AllBelow(files, nodes, x);
      } else {
        forall s | Reached(files, start, s)
          ensures s == reached
        {
          ReachedUnique(files, start, s, reached);
        }
      }
    }
    forall k | k in nodes'
      ensures UnderSome(files, starts + {start}, k)
    {
      if k in nodes {
        assert UnderSome(files, starts, k);
        var x :| x in starts && IndexedUnder(files, x, k);
        assert x in starts + {start};
      } else {
        assert k in Indexed(files, reached);
        assert IndexedUnder(files, start, k);
      }
    }
  }

  lemma GatheredExact(files: Files, starts: set<Key>, nodes: set<Key>, k: Key)
    requires Gathered(files, starts, nodes)
    ensures k in nodes <==> UnderSome(files, starts, k)
  {
    if UnderSome(files, starts, k) {
      var start :| start in starts && IndexedUnder(files, start, k);
      assert AllBelow(files, nodes, start);
    }
  }
}
