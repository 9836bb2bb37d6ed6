/** What the destination holds when a copy has succeeded. */
module CopyResult {
  import opened Content
  import opened Digraph
  import opened CopyMachine
  import opened CopyInvariant
  import opened CopySafety
  import opened CopyEvents
  import opened CopyProgress

  /** The edges that a copy follows: it does not look below a node the destination already holds. */
  function FreshEdges(src: Storage, dst: set<Key>): (g: Graph<Key>)
    ensures forall n :: Out(g, n) == if n in dst then {} else SetOf(Next(src, n))
  {
    var g := map n | n in src && n !in dst :: SetOf(Next(src, n));
    assert forall n :: n !in src ==> Next(src, n) == [];
    g
  }

  /** `k` lies below a node the caller asked for. */
  ghost predicate Requested(cfg: Config, g: Graph<Key>, k: Key) {
    exists i :: 0 <= i < |cfg.jobs| && Reach(g, JobKey(cfg.jobs[i]), k)
  }

  // ----- what was asked for is there -----

  lemma TaskStored(cfg: Config, dst: set<Key>, s: State, t: nat)
    requires Inv(cfg, s) && Safe(cfg, dst, s) && Succeeded(s) && t < |s.tasks| && s.tasks[t].kind.Node?
    ensures s.tasks[t].kind.node in s.dst
  {
    SuccessIsEverywhere(cfg, s, t);
    assert TaskClaim(s, t);
    SuccessIsStored(cfg, dst, s, s.tasks[t].kind.node);
  }

  /** Each job is stored, also the root whose key was claimed by the traversal of another root. */
  lemma JobStored(cfg: Config, dst: set<Key>, s: State, i: nat)
    requires ValidConfig(cfg) && Inv(cfg, s) && Safe(cfg, dst, s) && Succeeded(s) && i < |cfg.jobs|
    ensures JobKey(cfg.jobs[i]) in s.dst
  {
    assert ShapeAt(cfg, s, 0) && ChildAt(cfg, s, 0, i);
    var c := s.tasks[0].children[i];
    if cfg.jobs[i].Node? {
      TaskStored(cfg, dst, s, c);
    } else {
      SuccessIsEverywhere(cfg, s, c);
      assert ShapeAt(cfg, s, c) && ChildAt(cfg, s, c, 0);
      TaskStored(cfg, dst, s, s.tasks[c].children[0]);
    }
  }

  // ----- nothing else is there -----

  /** A node task that has spawned works on a node that was missing at the start. */
  ghost predicate ExpandedAt(dst: set<Key>, s: State, t: nat) {
    t < |s.tasks| && s.tasks[t].kind.Node? && s.tasks[t].children != [] ==> s.tasks[t].kind.node !in dst
  }

  ghost predicate Expanded(dst: set<Key>, s: State) {
    forall t: nat {:trigger ExpandedAt(dst, s, t)} :: ExpandedAt(dst, s, t)
  }

  lemma StepExpanded(cfg: Config, dst: set<Key>, s: State, t: nat, a: Action)
    requires Claims(s) && Logged(dst, s) && Expanded(dst, s) && Enabled(cfg, s, t, a)
    ensures Expanded(dst, Apply(cfg, s, t, a))
  {
    var s' := Apply(cfg, s, t, a);
    StepFramed(cfg, s, t, a);
    if a.SpawnNext? && s.tasks[t].kind.Node? {
      assert TaskClaim(s, t) && KeyLogged(dst, s, s.tasks[t].kind.node);
    }
    forall u: nat
      ensures ExpandedAt(dst, s', u)
    {
      assert ExpandedAt(dst, s, u);
    }
  }

  lemma {:induction false} ExecutionExpanded(cfg: Config, dst: set<Key>, run: seq<State>, n: nat)
    requires ValidConfig(cfg) && Execution(cfg, dst, run) && n < |run|
    ensures Expanded(dst, run[n])
  {
    if n > 0 {
      ExecutionExpanded(cfg, dst, run, n - 1);
      var s := run[n - 1];
      assert Step(cfg, s, run[n - 1 + 1]);
      if t: nat, a: Action :| TaskStep(cfg, s, t, a, run[n]) {
        PrefixExpanded(cfg, dst, run, n - 1, t, a);
      } else {
        CancelExpanded(dst, s);
      }
    }
  }

  lemma CancelExpanded(dst: set<Key>, s: State)
    requires Expanded(dst, s)
    ensures Expanded(dst, s.(external := true))
  {
    forall t: nat
      ensures ExpandedAt(dst, s.(external := true), t)
    {
      assert ExpandedAt(dst, s, t);
    }
  }

  lemma PrefixExpanded(cfg: Config, dst: set<Key>, run: seq<State>, n: nat, t: nat, a: Action)
    requires ValidConfig(cfg) && Execution(cfg, dst, run) && n < |run|
    requires Expanded(dst, run[n]) && Enabled(cfg, run[n], t, a)
    ensures Expanded(dst, Apply(cfg, run[n], t, a))
  {
    ExecutionInv(cfg, dst, run, n);
    ExecutionLogged(cfg, dst, run, n);
    StepExpanded(cfg, dst, run[n], t, a);
  }

  lemma {:induction false} TaskRequested(cfg: Config, dst: set<Key>, s: State, t: nat)
    requires Tree(cfg, s) && Expanded(dst, s) && 0 < t < |s.tasks|
    ensures Requested(cfg, FreshEdges(cfg.src, dst), JobKey(s.tasks[t].kind))
    decreases t
  {
    var g := FreshEdges(cfg.src, dst);
    var k := JobKey(s.tasks[t].kind);
    assert ParentAt(s, t);
    var p := s.tasks[t].parent;
    var i :| 0 <= i < |s.tasks[p].children| && s.tasks[p].children[i] == t;
    assert ChildAt(cfg, s, p, i) && ExpandedAt(dst, s, p);
    match s.tasks[p].kind {
      case Main => ReachSelf(g, k);
      case Root(r) => TaskRequested(cfg, dst, s, p);
      case Node(n) =>
        TaskRequested(cfg, dst, s, p);
        var j :| 0 <= j < |cfg.jobs| && Reach(g, JobKey(cfg.jobs[j]), n);
        assert Next(cfg.src, n)[i] in Out(g, n);
        ReachStep(g, JobKey(cfg.jobs[j]), n, k);
    }
  }

  /**
   The result of a copy that succeeded, exactly: the destination holds what it held before and every node that
   can be reached from a requested node without passing through content that was there already.
   */
  lemma CopyResultExact(cfg: Config, dst: set<Key>, s: State, k: Key)
    requires ValidConfig(cfg) && Reachable(cfg, dst, s) && Succeeded(s)
    ensures k in s.dst <==> k in dst || Requested(cfg, FreshEdges(cfg.src, dst), k)
  {
    var run :| Execution(cfg, dst, run) && run[|run| - 1] == s;
    ExecutionExpanded(cfg, dst, run, |run| - 1);
    ReachableLogged(cfg, dst, s, k);
    var g := FreshEdges(cfg.src, dst);
    if i :| 0 <= i < |cfg.jobs| && Reach(g, JobKey(cfg.jobs[i]), k) {
      JobStored(cfg, dst, s, i);
      FreshClosed(cfg, dst, s);
      ClosedReach(g, s.dst, JobKey(cfg.jobs[i]), k);
    }
    if k in s.dst && k !in dst {
      assert ClaimAt(s, k);
      TaskRequested(cfg, dst, s, s.claimed[k]);
    }
  }

  lemma FreshClosed(cfg: Config, dst: set<Key>, s: State)
    requires NewIsComplete(cfg, dst, s)
    ensures Closed(FreshEdges(cfg.src, dst), s.dst)
  {
    forall k | k in s.dst
      ensures Out(FreshEdges(cfg.src, dst), k) <= s.dst
    {
      assert CompleteAt(cfg, dst, s, k);
    }
  }

  /** Over a closed destination a successful copy leaves exactly the old content and all of the requested graphs. */
  lemma CopyIsComplete(cfg: Config, dst: set<Key>, s: State, k: Key)
    requires ValidConfig(cfg) && Reachable(cfg, dst, s) && Succeeded(s) && Closed(CopyEdges(cfg.src), dst)
    ensures k in s.dst <==> k in dst || Requested(cfg, CopyEdges(cfg.src), k)
  {
    CopyResultExact(cfg, dst, s, k);
    var g, h := CopyEdges(cfg.src), FreshEdges(cfg.src, dst);
    if Requested(cfg, g, k) {
      var i :| 0 <= i < |cfg.jobs| && Reach(g, JobKey(cfg.jobs[i]), k);
      CopyResultExact(cfg, dst, s, JobKey(cfg.jobs[i]));
      ReachSelf(h, JobKey(cfg.jobs[i]));
      ChildrenBeforeParents(cfg, dst, s);
      ClosedReach(g, s.dst, JobKey(cfg.jobs[i]), k);
    }
    if Requested(cfg, h, k) {
      var i :| 0 <= i < |cfg.jobs| && Reach(h, JobKey(cfg.jobs[i]), k);
      var p :| PathBetween(h, p, JobKey(cfg.jobs[i]), k);
      assert PathBetween(g, p, JobKey(cfg.jobs[i]), k);
    }
  }

  lemma {:induction false} ScheduleReachable(cfg: Config, dst: set<Key>, run: nat -> State, n: nat)
    returns (states: seq<State>)
    requires Schedule(cfg, dst, run)
    ensures Execution(cfg, dst, states) && states[|states| - 1] == run(n)
  {
    if n == 0 {
      states := [run(0)];
    } else {
      var before := ScheduleReachable(cfg, dst, run, n - 1);
      var s, s' := run(n - 1), run(n - 1 + 1);
      assert Step(cfg, s, s') || s' == s;
      if s' == s {
        states := before;
      } else {
        states := before + [s'];
        forall i | 0 <= i < |states| - 1
          ensures Step(cfg, states[i], states[i + 1])
        {
          if i < |before| - 1 {
            assert Step(cfg, before[i], before[i + 1]);
          }
        }
      }
    }
  }

  ghost predicate HoldsExactly(cfg: Config, dst: set<Key>, s: State) {
    forall k :: k in s.dst <==> k in dst || Requested(cfg, CopyEdges(cfg.src), k)
  }

  ghost predicate CopiedAt(cfg: Config, dst: set<Key>, run: nat -> State, n: nat) {
    Terminal(run(n)) && Succeeded(run(n)) && HoldsExactly(cfg, dst, run(n))
  }

  /**
   Total correctness: over a closed destination and an acyclic graph, a copy in which nothing fails comes to an end
   under every scheduler, returns no error, and leaves exactly the old content and all of the requested graphs.
   */
  lemma CopyTotallyCorrect(cfg: Config, dst: set<Key>, run: nat -> State, rank: Key -> nat)
    requires ValidConfig(cfg) && CleanSchedule(cfg, dst, run) && Ranked(CopyEdges(cfg.src), rank)
    requires Closed(CopyEdges(cfg.src), dst)
    ensures exists n: nat :: CopiedAt(cfg, dst, run, n)
  {
    CleanRunSucceeds(cfg, dst, run, rank);
    var n: nat :| EndsWell(run, n);
    CleanIsSchedule(cfg, dst, run);
    var states := ScheduleReachable(cfg, dst, run, n);
    var s := run(n);
    assert Reachable(cfg, dst, s);
    forall k
      ensures k in s.dst <==> k in dst || Requested(cfg, CopyEdges(cfg.src), k)
    {
      CopyIsComplete(cfg, dst, s, k);
    }
    assert CopiedAt(cfg, dst, run, n);
  }

  // ----- in terms of the manifests -----

  /** Layers of these four media types are not copied with their manifest. */
  predicate Foreign(m: MediaType) {
    || m == NonDistributableLayer || m == NonDistributableLayerGzip || m == NonDistributableLayerZstd
    || m == DockerForeignLayer
  }

  /** The edges that a copy follows, from the fields of the stored manifests. */
  lemma EdgesAreNamed(src: Storage, n: Key, k: Key)
    ensures k in Out(CopyEdges(src), n) <==>
      n in src && !Foreign(k.mediaType) && exists d :: Names(n.mediaType, src[n], d) && KeyOf(d) == k
  {
    if n in src {
      var r := Successors(src, n);
      forall d
        ensures r.Ok? ==> (d in r.value <==> Names(n.mediaType, src[n], d))
        ensures Names(n.mediaType, src[n], d) ==> r.Ok?
      {
        ChildrenAreNamed(n.mediaType, src[n], d);
      }
      if r.Ok? {
        LocalAre(r.value, k);
      }
    }
  }

  lemma {:induction false} LocalAre(ds: seq<Descriptor>, k: Key)
    ensures k in Keys(Local(ds)) <==> !Foreign(k.mediaType) && exists d :: d in ds && KeyOf(d) == k
  {
    if ds != [] {
      var front, last := ds[..|ds| - 1], ds[|ds| - 1];
      assert ds == front + [last];
      KeysConcat(Local(front), [last]);
      LocalAre(front, k);
      assert last in ds;
    }
  }

  /** The content is in `dst`, unless it is a foreign layer. */
  predicate Arrived(dst: set<Key>, d: Descriptor) {
    Foreign(d.mediaType) || KeyOf(d) in dst
  }

  /**
   After a successful copy over a closed destination, every manifest in it that the source can decode has there all that
   it names: config and layers of an image, the entries of an index, the blobs of an artifact, and its subject.
   */
  lemma CopiedWhole(cfg: Config, dst: set<Key>, s: State, n: Key)
    requires ValidConfig(cfg) && Reachable(cfg, dst, s) && Succeeded(s) && Closed(CopyEdges(cfg.src), dst)
    requires n in s.dst && n in cfg.src && cfg.src[n].Json?
    ensures n.mediaType == ImageManifest || n.mediaType == DockerManifest ==>
      Arrived(s.dst, cfg.src[n].config) && forall d :: d in cfg.src[n].layers ==> Arrived(s.dst, d)
    ensures n.mediaType == ImageIndex || n.mediaType == DockerManifestList ==>
      forall d :: d in cfg.src[n].manifests ==> Arrived(s.dst, d)
    ensures n.mediaType == ArtifactManifest ==> forall d :: d in cfg.src[n].blobs ==> Arrived(s.dst, d)
    ensures n.mediaType == ImageManifest || n.mediaType == ImageIndex || n.mediaType == ArtifactManifest ==>
      cfg.src[n].subject.Some? ==> Arrived(s.dst, cfg.src[n].subject.value)
  {
    ChildrenBeforeParents(cfg, dst, s);
    forall d | Names(n.mediaType, cfg.src[n], d)
      ensures Arrived(s.dst, d)
    {
      EdgesAreNamed(cfg.src, n, KeyOf(d));
    }
  }

  /** And whatever was added was asked for, or a manifest in the destination names it and it is no foreign layer. */
  lemma CopiedForAReason(cfg: Config, dst: set<Key>, s: State, k: Key)
    requires ValidConfig(cfg) && Reachable(cfg, dst, s) && Succeeded(s) && Closed(CopyEdges(cfg.src), dst)
    requires k in s.dst && k !in dst
    ensures (exists i :: 0 <= i < |cfg.jobs| && JobKey(cfg.jobs[i]) == k)
      || (!Foreign(k.mediaType) &&
          exists n, d :: n in s.dst && n in cfg.src && Names(n.mediaType, cfg.src[n], d) && KeyOf(d) == k)
  {
    var g := CopyEdges(cfg.src);
    CopyIsComplete(cfg, dst, s, k);
    var i :| 0 <= i < |cfg.jobs| && Reach(g, JobKey(cfg.jobs[i]), k);
    var p :| PathBetween(g, p, JobKey(cfg.jobs[i]), k);
    if |p| > 1 {
      var n := p[|p| - 2];
      assert PathBetween(g, p[..|p| - 1], JobKey(cfg.jobs[i]), n);
      assert k in Out(g, n);
      CopyIsComplete(cfg, dst, s, n);
      EdgesAreNamed(cfg.src, n, k);
    }
  }
}
