/**
 The concurrent copy of a content graph as a step relation over goroutines.

 One task stands for one goroutine: the caller of `CopyGraph` or `ExtendedCopyGraph` (`Main`), a
 goroutine of the root dispatch of `ExtendedCopyGraph` (`Root`), or a run of the traversal function
 on one descriptor (`Node`). A task that is inside `syncutil.Go` is in `Dispatch`.
 */
module CopyMachine {
  import opened Content
  import opened Digraph

  datatype Kind = Main | Root(root: Key) | Node(node: Key)

  /** How a transferred node got into the destination. */
  datatype How = Copied | HookSkipped | Mounted

  datatype Pc =
    | Start            // the function has been entered, holding a permit
    | Check            // the key is claimed; about to ask the destination
    | Expand           // about to find the successors
    | Dispatch         // inside syncutil.Go: spawning, then waiting for the group
    | Await(next: nat) // waiting for the done channels; past the last one, for a permit
    | Transfer         // about to copy, or (for a root dispatch) about to return
    | Notify(how: How) // the content is in the destination; about to run the last hook
    | Leave(ok: bool)  // the function has returned, the region has not been ended yet
    | Finished(ok: bool)

  /** `ended` is the flag of the task's limited region; `children` are the tasks it spawned. */
  datatype Task = Task(kind: Kind, parent: nat, pc: Pc, ended: bool, children: seq<nat>)

  datatype Event =
    | Checked(key: Key)      // dst.Exists
    | Fetched(key: Key)      // src.Fetch
    | Pushed(key: Key)       // dst.Push
    | DidMount(key: Key)     // dst.Mount, without reading the content
    | PostCopied(key: Key)   // PostCopy
    | CopySkipped(key: Key)  // OnCopySkipped
    | PreSkipped(key: Key)   // PreCopy returned SkipNode
    | WasMounted(key: Key)   // OnMounted

  datatype State = State(
    tasks: seq<Task>,
    claimed: map<Key, nat>,  // the tracker: which task committed a key
    permits: int,            // permits taken from the semaphore
    cancelled: set<nat>,     // tasks whose errgroup context has been cancelled
    external: bool,          // the caller's own context has been cancelled
    cached: set<Key>,        // what the caching proxy holds
    dst: set<Key>,
    log: multiset<Event>)

  /** The source, the concurrency limit, the largest content that is cached, and what the caller dispatches first. */
  datatype Config = Config(src: Storage, limit: nat, cacheLimit: int, jobs: seq<Kind>)

  ghost predicate ValidConfig(cfg: Config) {
    cfg.limit >= 1 && forall i :: 0 <= i < |cfg.jobs| ==> !cfg.jobs[i].Main?
  }

  // ----- the graph that is traversed -----

  /** The descriptors that are not foreign layers, in order. */
  function Local(ds: seq<Descriptor>): seq<Descriptor> {
    if ds == [] then []
    else if IsForeignLayer(ds[|ds| - 1].mediaType) then Local(ds[..|ds| - 1])
    else Local(ds[..|ds| - 1]) + [ds[|ds| - 1]]
  }

  /** The successors that are processed and awaited; none when they cannot be found. */
  function Next(src: Storage, n: Key): seq<Key> {
    var r := Successors(src, n);
    if r.Ok? then Keys(Local(r.value)) else []
  }

  /** The graph of non-foreign edges. A node with a successor is a stored manifest. */
  function CopyEdges(src: Storage): (g: Graph<Key>)
    ensures forall n :: Out(g, n) == SetOf(Next(src, n))
  {
    var g := map n | n in src :: SetOf(Next(src, n));
    assert forall n :: n !in src ==> Next(src, n) == [];
    g
  }

  /** What a task of this kind passes to `syncutil.Go`. */
  function Items(cfg: Config, kind: Kind): seq<Kind> {
    match kind
    case Main => cfg.jobs
    case Root(r) => [Node(r)]
    case Node(n) => seq(|Next(cfg.src, n)|, i requires 0 <= i < |Next(cfg.src, n)| => Node(Next(cfg.src, n)[i]))
  }

  /** The keys whose done channels a task of this kind waits for. */
  function Awaited(cfg: Config, kind: Kind): seq<Key> {
    if kind.Node? then Next(cfg.src, kind.node) else []
  }

  // ----- steps -----

  datatype Action =
    | Begin
    | CheckDestination
    | FindSuccessors
    | SpawnNext
    | Join
    | AwaitNext
    | AwaitUncommitted
    | Acquire
    | Push(how: How)
    | Return
    | Post
    | Exit
    | Fault(fetched: bool, pushed: bool, stored: bool) // an operation or a hook fails, after these effects
    | Interrupt                                        // a wait is broken off because the context is done

  ghost predicate FinishedTask(s: State, t: nat) {
    t < |s.tasks| && s.tasks[t].pc.Finished?
  }

  ghost predicate FinishedOk(s: State, t: nat) {
    t < |s.tasks| && s.tasks[t].pc == Finished(true)
  }

  /** The done channel of `k` is closed: the task that committed `k` returned without an error. */
  ghost predicate DoneClosed(s: State, k: Key) {
    k in s.claimed && s.claimed[k] < |s.tasks| &&
    (s.tasks[s.claimed[k]].pc == Leave(true) || s.tasks[s.claimed[k]].pc == Finished(true))
  }

  /** The context in which task `t` runs is done. */
  ghost predicate ContextDone(s: State, t: nat)
    requires t < |s.tasks|
    decreases t
  {
    var p := s.tasks[t].parent;
    if p < t then p in s.cancelled || ContextDone(s, p) else s.external
  }

  /** The key a node task works on; a placeholder for the others. */
  function WorkKey(kind: Kind): Key {
    if kind.Node? then kind.node else EMPTY_KEY
  }

  /** Reading a manifest through the proxy also caches it, and fails if it is too large for that. */
  predicate Findable(cfg: Config, k: Key) {
    Successors(cfg.src, k).Ok? && (IsManifest(k.mediaType) ==> k.size <= cfg.cacheLimit)
  }

  ghost predicate Enabled(cfg: Config, s: State, t: nat, a: Action) {
    t < |s.tasks| &&
    var x := s.tasks[t];
    var items := Items(cfg, x.kind);
    var awaited := Awaited(cfg, x.kind);
    match a
    case Begin => x.pc.Start? && !x.kind.Main?
    case CheckDestination => x.pc.Check? && x.kind.Node?
    case FindSuccessors => x.pc.Expand? && x.kind.Node? && Findable(cfg, x.kind.node)
    case SpawnNext => x.pc.Dispatch? && |x.children| < |items| && s.permits < cfg.limit
    case Join => x.pc.Dispatch? && |x.children| == |items| && forall c :: c in x.children ==> FinishedTask(s, c)
    case AwaitNext => x.pc.Await? && x.pc.next < |awaited| && DoneClosed(s, awaited[x.pc.next])
    case AwaitUncommitted => x.pc.Await? && x.pc.next < |awaited| && awaited[x.pc.next] !in s.claimed
    case Acquire => x.pc.Await? && x.pc.next == |awaited| && s.permits < cfg.limit
    case Push(how) => x.pc.Transfer? && x.kind.Node? &&
                      (how.Copied? ==> x.kind.node in s.cached || x.kind.node in cfg.src) &&
                      (how.Mounted? ==> x.kind.node !in s.cached && !IsManifest(x.kind.node.mediaType))
    case Return => x.pc.Transfer? && x.kind.Root?
    case Post => x.pc.Notify? && x.kind.Node?
    case Exit => x.pc.Leave?
    case Fault(fetched, pushed, stored) =>
      && x.kind.Node?
      && (x.pc.Check? || x.pc.Expand? || x.pc.Transfer? || x.pc.Notify?)
      && (fetched ==>
            || (x.pc.Expand? && IsManifest(x.kind.node.mediaType))
            || (x.pc.Transfer? && x.kind.node !in s.cached))
      && (pushed ==> x.pc.Transfer? && (fetched || x.kind.node in s.cached))
      && (stored ==>
            // a mount that fails may have taken effect as well
            pushed || (x.pc.Transfer? && x.kind.node !in s.cached && !IsManifest(x.kind.node.mediaType)))
    case Interrupt =>
      || (x.pc.Dispatch? && |x.children| < |items| && (t in s.cancelled || ContextDone(s, t)))
      || (x.pc.Await? && ContextDone(s, t))
  }

  /** Where task `x`, in state `s`, goes next. */
  ghost function NewPc(cfg: Config, s: State, x: Task, a: Action): Pc {
    var k := WorkKey(x.kind);
    match a
    case Begin => if x.kind.Root? then Dispatch else if k in s.claimed then Leave(true) else Check
    case CheckDestination => if k in s.dst then Leave(true) else Expand
    case FindSuccessors => if Next(cfg.src, k) == [] then Transfer else Dispatch
    case SpawnNext => x.pc
    case Join =>
      if exists c :: c in x.children && !FinishedOk(s, c) then Leave(false)
      else if x.kind.Main? then Leave(true)
      else Await(0)
    case AwaitNext => if x.pc.Await? then Await(x.pc.next + 1) else x.pc
    case AwaitUncommitted => Leave(false)
    case Acquire => Transfer
    case Push(how) => Notify(how)
    case Return => Leave(true)
    case Post => Leave(true)
    case Exit => if x.pc.Leave? then Finished(x.pc.ok) else x.pc
    case Fault(_, _, _) => Leave(false)
    case Interrupt => Leave(false)
  }

  /** The region flag: `End` before dispatching and on exit, `Start` after waiting. */
  function NewEnded(cfg: Config, x: Task, a: Action): bool {
    match a
    case Begin => if x.kind.Root? then true else x.ended
    case FindSuccessors => if Next(cfg.src, WorkKey(x.kind)) == [] then x.ended else true
    case Acquire => false
    case Exit => true
    case _ => x.ended
  }

  function When(happened: bool, e: Event): (m: multiset<Event>)
    ensures forall f :: m[f] == if happened && f == e then 1 else 0
  {
    if happened then multiset{e} else multiset{}
  }

  /** The events of a step. What is cached is not fetched from the source again. */
  function Emitted(dst: set<Key>, cached: set<Key>, x: Task, a: Action): multiset<Event> {
    var k := WorkKey(x.kind);
    match a
    case CheckDestination => if k in dst then multiset{Checked(k), CopySkipped(k)} else multiset{Checked(k)}
    case FindSuccessors => if IsManifest(k.mediaType) then multiset{Fetched(k)} else multiset{}
    case Push(how) =>
      if how.Mounted? then multiset{DidMount(k)}
      else if how.HookSkipped? then multiset{}
      else if k in cached then multiset{Pushed(k)}
      else multiset{Fetched(k), Pushed(k)}
    case Post =>
      if !x.pc.Notify? then multiset{}
      else (match x.pc.how
            case Copied => multiset{PostCopied(k)}
            case HookSkipped => multiset{PreSkipped(k)}
            case Mounted => multiset{WasMounted(k)})
    case Fault(fetched, pushed, _) =>
      When(x.pc.Check?, Checked(k)) + When(fetched, Fetched(k)) + When(pushed, Pushed(k))
    case _ => multiset{}
  }

  ghost function NewTask(cfg: Config, s: State, t: nat, a: Action): Task
    requires t < |s.tasks|
  {
    var x := s.tasks[t];
    Task(x.kind, x.parent, NewPc(cfg, s, x, a), NewEnded(cfg, x, a),
         if a.SpawnNext? then x.children + [|s.tasks|] else x.children)
  }

  /** The task that a step starts, holding the permit that was acquired for it. */
  function Spawned(cfg: Config, x: Task, t: nat, a: Action): seq<Task> {
    if a.SpawnNext? && |x.children| < |Items(cfg, x.kind)|
    then [Task(Items(cfg, x.kind)[|x.children|], t, Start, false, [])]
    else []
  }

  function NewClaims(cfg: Config, claimed: map<Key, nat>, x: Task, t: nat, a: Action): map<Key, nat> {
    if a.Begin? && x.kind.Node? && x.kind.node !in claimed then claimed[x.kind.node := t]
    else if a.AwaitUncommitted? && x.pc.Await? && x.pc.next < |Awaited(cfg, x.kind)|
    then claimed[Awaited(cfg, x.kind)[x.pc.next] := t]
    else claimed
  }

  /** The successor state of a step that is enabled. */
  ghost function Apply(cfg: Config, s: State, t: nat, a: Action): State
    requires Enabled(cfg, s, t, a)
  {
    var x := s.tasks[t];
    var y := NewTask(cfg, s, t, a);
    var started := Spawned(cfg, x, t, a);
    State(
      s.tasks[t := y] + started,
      NewClaims(cfg, s.claimed, x, t, a),
      s.permits + |started| + (if x.ended && !y.ended then 1 else if !x.ended && y.ended then -1 else 0),
      if a.Exit? && y.pc == Finished(false) && x.parent < t then s.cancelled + {x.parent} else s.cancelled,
      s.external,
      if a.FindSuccessors? && IsManifest(WorkKey(x.kind).mediaType) then s.cached + {WorkKey(x.kind)} else s.cached,
      if a.Push? || (a.Fault? && a.stored) then s.dst + {WorkKey(x.kind)} else s.dst,
      s.log + Emitted(s.dst, s.cached, x, a))
  }

  ghost predicate TaskStep(cfg: Config, s: State, t: nat, a: Action, s': State) {
    Enabled(cfg, s, t, a) && s' == Apply(cfg, s, t, a)
  }

  /** One step of one goroutine, or the caller's context being cancelled. */
  ghost predicate Step(cfg: Config, s: State, s': State) {
    || (exists t: nat, a: Action :: TaskStep(cfg, s, t, a, s'))
    || (!s.external && s' == s.(external := true))
  }

  function Initial(dst: set<Key>): State {
    State([Task(Main, 0, Dispatch, true, [])], map[], 0, {}, false, {}, dst, multiset{})
  }

  /** `run` is a finite execution from an initial state with destination `dst`. */
  ghost predicate Execution(cfg: Config, dst: set<Key>, run: seq<State>) {
    |run| > 0 && run[0] == Initial(dst) && forall i :: 0 <= i < |run| - 1 ==> Step(cfg, run[i], run[i + 1])
  }

  /** A state that some execution from destination `dst` ends in. */
  ghost predicate Reachable(cfg: Config, dst: set<Key>, s: State) {
    exists run :: Execution(cfg, dst, run) && run[|run| - 1] == s
  }

  /** The caller's function has returned without an error. */
  ghost predicate Succeeded(s: State) {
    FinishedOk(s, 0)
  }

  /** Every goroutine is gone. */
  ghost predicate Terminal(s: State) {
    forall t: nat :: t < |s.tasks| ==> FinishedTask(s, t)
  }
}
