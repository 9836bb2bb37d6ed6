/** The concurrent copy never deadlocks and always terminates, whatever fails or is cancelled. */
module CopyProgress {
  import opened Content
  import opened Digraph
  import opened CopyMachine
  import opened CopyInvariant

  // ----- no deadlock -----

  /** A live task is one whose goroutine is still there. */
  ghost predicate Live(s: State, t: nat) {
    t < |s.tasks| && !s.tasks[t].pc.Finished?
  }

  /** A task that is not blocked on a permit, a group or a done channel. */
  predicate Runnable(x: Task) {
    !x.pc.Dispatch? && !x.pc.Await? && !x.pc.Finished?
  }

  function Level(kind: Kind): nat {
    match kind case Main => 2 case Root(_) => 1 case Node(_) => 0
  }

  /** The second component of the order along which waiting is well founded. */
  function NodeRank(rank: Key -> nat, kind: Kind): nat {
    if kind.Node? then rank(kind.node) else 0
  }

  /** The node is in the source; if it is a manifest, it can be decoded and is small enough to be cached. */
  predicate Available(cfg: Config, k: Key) {
    k in cfg.src && (IsManifest(k.mediaType) ==> cfg.src[k].Json? && k.size <= cfg.cacheLimit)
  }

  lemma AvailableIsFindable(cfg: Config, k: Key)
    ensures Available(cfg, k) <==> k in cfg.src && Findable(cfg, k)
  {
    if k in cfg.src {
      ChildrenAreNamed(k.mediaType, cfg.src[k], Plain(k));
    }
  }

  /** The source has what the task is about to read. */
  ghost predicate SuppliedAt(cfg: Config, s: State, t: nat) {
    t < |s.tasks| && s.tasks[t].kind.Node? && (s.tasks[t].pc.Expand? || s.tasks[t].pc.Transfer?) ==>
      Available(cfg, s.tasks[t].kind.node)
  }

  ghost predicate Supplied(cfg: Config, s: State) {
    forall t: nat {:trigger SuppliedAt(cfg, s, t)} :: SuppliedAt(cfg, s, t)
  }

  /** Nothing fails, and what is transferred is copied: no hook skips it and it is not mounted. */
  predicate Plainly(a: Action) {
    !a.Fault? && (a.Push? ==> a.how.Copied?)
  }

  lemma RunnableMoves(cfg: Config, s: State, t: nat) returns (a: Action)
    requires Shapes(cfg, s) && t < |s.tasks| && Runnable(s.tasks[t])
    ensures Enabled(cfg, s, t, a) && (Supplied(cfg, s) ==> Plainly(a))
  {
    var x := s.tasks[t];
    assert ShapeAt(cfg, s, t) && (Supplied(cfg, s) ==> SuppliedAt(cfg, s, t));
    AvailableIsFindable(cfg, WorkKey(x.kind));
    match x.pc {
      case Start => a := Begin;
      case Check => a := CheckDestination;
      case Expand =>
        a := if Findable(cfg, x.kind.node) then FindSuccessors else Fault(false, false, false);
      case Transfer =>
        a := if x.kind.Root? then Return
             else if x.kind.node in cfg.src then Push(Copied)
             else Fault(false, false, false);
      case Notify(_) => a := Post;
      case Leave(_) => a := Exit;
    }
  }

  lemma {:induction false} SomeHolder(tasks: seq<Task>) returns (t: nat)
    requires Holding(tasks) > 0
    ensures t < |tasks| && !tasks[t].ended
  {
    t := |tasks| - 1;
    if tasks[t].ended {
      t := SomeHolder(tasks[..t]);
    }
  }

  /** When all permits are taken, some task that holds one can move. */
  lemma HolderMoves(cfg: Config, s: State) returns (u: nat, a: Action)
    requires ValidConfig(cfg) && Shapes(cfg, s) && Permits(cfg, s) && s.permits >= cfg.limit
    ensures Enabled(cfg, s, u, a) && !s.tasks[u].ended && (Supplied(cfg, s) ==> Plainly(a))
  {
    u := SomeHolder(s.tasks);
    assert ShapeAt(cfg, s, u);
    a := RunnableMoves(cfg, s, u);
  }

  /** A child's task is below its parent's in the waiting order. */
  lemma ChildBelow(cfg: Config, s: State, rank: Key -> nat, p: nat, c: nat)
    requires ValidConfig(cfg) && Tree(cfg, s) && Ranked(CopyEdges(cfg.src), rank)
    requires p < |s.tasks| && c in s.tasks[p].children
    ensures p < c < |s.tasks| && s.tasks[c].parent == p
    ensures Level(s.tasks[c].kind) < Level(s.tasks[p].kind) ||
            (Level(s.tasks[c].kind) == Level(s.tasks[p].kind) &&
             NodeRank(rank, s.tasks[c].kind) < NodeRank(rank, s.tasks[p].kind))
  {
    var i :| 0 <= i < |s.tasks[p].children| && s.tasks[p].children[i] == c;
    assert ChildAt(cfg, s, p, i);
    var kind := s.tasks[p].kind;
    if kind.Node? {
      assert Next(cfg.src, kind.node)[i] in Out(CopyEdges(cfg.src), kind.node);
    }
  }

  /** Below a cancelled context everything unwinds. */
  lemma {:induction false} CancelledMoves(cfg: Config, s: State, rank: Key -> nat, t: nat) returns (u: nat, a: Action)
    requires ValidConfig(cfg) && Inv(cfg, s) && Ranked(CopyEdges(cfg.src), rank) && Live(s, t)
    requires s.tasks[t].pc.Dispatch? ==> t in s.cancelled || ContextDone(s, t)
    requires s.tasks[t].pc.Await? ==> ContextDone(s, t)
    ensures Enabled(cfg, s, u, a) && (Supplied(cfg, s) ==> Plainly(a))
    decreases Level(s.tasks[t].kind), NodeRank(rank, s.tasks[t].kind)
  {
    var x := s.tasks[t];
    assert ShapeAt(cfg, s, t);
    if Runnable(x) {
      u := t;
      a := RunnableMoves(cfg, s, t);
    } else if x.pc.Await? || |x.children| < |Items(cfg, x.kind)| {
      u, a := t, Interrupt;
    } else if c :| c in x.children && !FinishedTask(s, c) {
      ChildBelow(cfg, s, rank, t, c);
      u, a := CancelledMoves(cfg, s, rank, c);
    } else {
      u, a := t, Join;
    }
  }

  /** A failure travels up until it reaches a goroutine that is still there, or the caller. */
  lemma {:induction false} FailureClimbs(cfg: Config, s: State, c: nat) returns (p: nat)
    requires Inv(cfg, s) && c < |s.tasks| && s.tasks[c].pc == Finished(false)
    ensures p < |s.tasks|
    ensures (Live(s, p) && (s.tasks[p].pc == Leave(false) || (s.tasks[p].pc.Dispatch? && p in s.cancelled)))
            || 0 in s.cancelled || s.external
    decreases c
  {
    p := c;
    if c > 0 {
      p := s.tasks[c].parent;
      assert ParentAt(s, c) && FailureAt(s, c) && Joined(s, p);
      assert c in s.tasks[p].children && !FinishedOk(s, c);
      if s.tasks[p].pc.Finished? {
        p := FailureClimbs(cfg, s, p);
      }
    }
  }

  lemma {:induction false} RootCancelsAll(cfg: Config, s: State, t: nat)
    requires Inv(cfg, s) && 0 < t < |s.tasks| && (0 in s.cancelled || s.external)
    ensures ContextDone(s, t)
    decreases t
  {
    var p := s.tasks[t].parent;
    assert ParentAt(s, t);
    if p > 0 {
      RootCancelsAll(cfg, s, p);
    }
  }

  /** Any live task leads, along what it waits for, to a task that can move. */
  lemma {:induction false} LiveMoves(cfg: Config, s: State, rank: Key -> nat, t: nat) returns (u: nat, a: Action)
    requires ValidConfig(cfg) && Inv(cfg, s) && Ranked(CopyEdges(cfg.src), rank) && Live(s, t)
    ensures Enabled(cfg, s, u, a) && (Supplied(cfg, s) ==> Plainly(a))
    decreases Level(s.tasks[t].kind), NodeRank(rank, s.tasks[t].kind)
  {
    var x := s.tasks[t];
    assert ShapeAt(cfg, s, t);
    if Runnable(x) {
      u := t;
      a := RunnableMoves(cfg, s, t);
    } else if x.pc.Dispatch? {
      if |x.children| < |Items(cfg, x.kind)| {
        if s.permits < cfg.limit {
          u, a := t, SpawnNext;
        } else {
          u, a := HolderMoves(cfg, s);
        }
      } else if c :| c in x.children && !FinishedTask(s, c) {
        ChildBelow(cfg, s, rank, t, c);
        u, a := LiveMoves(cfg, s, rank, c);
      } else {
        u, a := t, Join;
      }
    } else if x.pc.next == |Awaited(cfg, x.kind)| {
      if s.permits < cfg.limit {
        u, a := t, Acquire;
      } else {
        u, a := HolderMoves(cfg, s);
      }
    } else {
      u, a := AwaitMoves(cfg, s, rank, t);
    }
  }

  /** A task that waits for a done channel: its owner is at work, is done, or has failed. */
  lemma {:induction false} AwaitMoves(cfg: Config, s: State, rank: Key -> nat, t: nat) returns (u: nat, a: Action)
    requires ValidConfig(cfg) && Inv(cfg, s) && Ranked(CopyEdges(cfg.src), rank) && Live(s, t)
    requires s.tasks[t].pc.Await? && s.tasks[t].pc.next < |Awaited(cfg, s.tasks[t].kind)|
    ensures Enabled(cfg, s, u, a) && (Supplied(cfg, s) ==> Plainly(a))
    decreases Level(s.tasks[t].kind), NodeRank(rank, s.tasks[t].kind), 0
  {
    var x := s.tasks[t];
    var j := x.pc.next;
    SuccessorsCommitted(cfg, s, t, j);
    var k := Awaited(cfg, x.kind)[j];
    var c := s.claimed[k];
    assert ClaimAt(s, k) && ShapeAt(cfg, s, t);
    assert k in Out(CopyEdges(cfg.src), x.kind.node);
    if DoneClosed(s, k) {
      u, a := t, AwaitNext;
    } else if Live(s, c) {
      u, a := LiveMoves(cfg, s, rank, c);
    } else {
      var p := FailureClimbs(cfg, s, c);
      if 0 in s.cancelled || s.external {
        RootCancelsAll(cfg, s, t);
        u, a := t, Interrupt;
      } else {
        u, a := CancelledMoves(cfg, s, rank, p);
      }
    }
  }

  /**
   No deadlock: on an acyclic graph and with at least one permit, every reachable state in which some goroutine
   is left has an enabled step. This includes runs in which operations failed or the context was cancelled.
   */
  lemma NoDeadlock(cfg: Config, dst: set<Key>, s: State, rank: Key -> nat)
    requires ValidConfig(cfg) && Reachable(cfg, dst, s) && Ranked(CopyEdges(cfg.src), rank)
    ensures Terminal(s) || exists t: nat, a: Action :: Enabled(cfg, s, t, a)
  {
    ReachableInv(cfg, dst, s);
    if t: nat :| t < |s.tasks| && !FinishedTask(s, t) {
      var u, a := LiveMoves(cfg, s, rank, t);
      assert Enabled(cfg, s, u, a);
    }
  }

  // ----- permits -----

  /** A task that is talking to the source or to the destination. */
  predicate Working(x: Task) {
    x.pc.Check? || x.pc.Expand? || x.pc.Transfer? || x.pc.Notify?
  }

  function CountWorking(tasks: seq<Task>): nat {
    if tasks == [] then 0
    else CountWorking(tasks[..|tasks| - 1]) + if Working(tasks[|tasks| - 1]) then 1 else 0
  }

  lemma {:induction false} WorkingHolds(cfg: Config, tasks: seq<Task>)
    requires forall t :: 0 <= t < |tasks| ==> TaskShape(cfg, tasks[t])
    ensures CountWorking(tasks) <= Holding(tasks)
  {
    if tasks != [] {
      var m := |tasks| - 1;
      assert TaskShape(cfg, tasks[m]);
      WorkingHolds(cfg, tasks[..m]);
    }
  }

  lemma {:induction false} NothingHeld(tasks: seq<Task>)
    requires forall t :: 0 <= t < |tasks| ==> tasks[t].ended
    ensures Holding(tasks) == 0
  {
    if tasks != [] {
      NothingHeld(tasks[..|tasks| - 1]);
    }
  }

  /**
   The permits taken are the regions that have not been ended, never more than the limit, so no more than
   `limit` tasks talk to a store at once; when the goroutines are gone all permits have been returned.
   */
  lemma PermitBound(cfg: Config, dst: set<Key>, s: State)
    requires ValidConfig(cfg) && Reachable(cfg, dst, s)
    ensures s.permits == Holding(s.tasks)
    ensures CountWorking(s.tasks) <= s.permits <= cfg.limit
    ensures Terminal(s) ==> s.permits == 0
  {
    ReachableInv(cfg, dst, s);
    AllShapes(cfg, s);
    WorkingHolds(cfg, s.tasks);
    if Terminal(s) {
      forall t | 0 <= t < |s.tasks|
        ensures s.tasks[t].ended
      {
        assert FinishedTask(s, t) && TaskShape(cfg, s.tasks[t]);
      }
      NothingHeld(s.tasks);
    }
  }

  // ----- termination -----

  function JobKey(kind: Kind): Key {
    match kind case Main => EMPTY_KEY case Root(r) => r case Node(n) => n
  }

  /** Every key a run can come across. */
  function Universe(cfg: Config): set<Key> {
    (set i | 0 <= i < |cfg.jobs| :: JobKey(cfg.jobs[i])) + (set n, c | n in cfg.src && c in Next(cfg.src, n) :: c)
  }

  lemma TaskInUniverse(cfg: Config, s: State, t: nat)
    requires Tree(cfg, s) && 0 < t < |s.tasks|
    ensures JobKey(s.tasks[t].kind) in Universe(cfg)
  {
    assert ParentAt(s, t);
    var p := s.tasks[t].parent;
    var i :| 0 <= i < |s.tasks[p].children| && s.tasks[p].children[i] == t;
    assert ChildAt(cfg, s, p, i);
    match s.tasks[p].kind {
      case Main =>
      case Root(r) => TaskInUniverse(cfg, s, p);
      case Node(n) =>
        assert n !in cfg.src ==> Next(cfg.src, n) == [];
        assert Next(cfg.src, n)[i] in Next(cfg.src, n);
    }
  }

  /** The steps a task may still take before it spawns, waits and returns, with room for the tasks it starts. */
  function Budget(cfg: Config, kind: Kind, spawned: nat): int {
    var open := |Items(cfg, kind)| - spawned;
    (if kind.Main? then 30 * open else 3 * open) + |Awaited(cfg, kind)| + 6
  }

  function Work(cfg: Config, x: Task): int {
    match x.pc
    case Start => if x.kind.Node? then 2 else Budget(cfg, x.kind, 0) + 1
    case Check => Budget(cfg, x.kind, 0) + 2
    case Expand => Budget(cfg, x.kind, 0) + 1
    case Dispatch => Budget(cfg, x.kind, |x.children|)
    case Await(j) => |Awaited(cfg, x.kind)| - j + 5
    case Transfer => 4
    case Notify(_) => 3
    case Leave(_) => 1
    case Finished(_) => 0
  }

  function TotalWork(cfg: Config, tasks: seq<Task>): int {
    if tasks == [] then 0 else TotalWork(cfg, tasks[..|tasks| - 1]) + Work(cfg, tasks[|tasks| - 1])
  }

  lemma {:induction false} WorkUpdate(cfg: Config, tasks: seq<Task>, t: nat, y: Task)
    requires t < |tasks|
    ensures TotalWork(cfg, tasks[t := y]) == TotalWork(cfg, tasks) - Work(cfg, tasks[t]) + Work(cfg, y)
  {
    var m := |tasks| - 1;
    if t == m {
      assert tasks[t := y][..m] == tasks[..m];
    } else {
      assert tasks[t := y][..m] == tasks[..m][t := y];
      WorkUpdate(cfg, tasks[..m], t, y);
    }
  }

  lemma WorkAppend(cfg: Config, tasks: seq<Task>, y: Task)
    ensures TotalWork(cfg, tasks + [y]) == TotalWork(cfg, tasks) + Work(cfg, y)
  {
    assert (tasks + [y])[..|tasks|] == tasks;
  }

  lemma {:induction false} WorkNonNegative(cfg: Config, tasks: seq<Task>)
    requires forall t :: 0 <= t < |tasks| ==> TaskShape(cfg, tasks[t])
    ensures TotalWork(cfg, tasks) >= 0
  {
    if tasks != [] {
      var m := |tasks| - 1;
      assert TaskShape(cfg, tasks[m]);
      WorkNonNegative(cfg, tasks[..m]);
    }
  }

  /** The keys not claimed yet. */
  function Unclaimed(cfg: Config, s: State): nat {
    |Universe(cfg) - s.claimed.Keys|
  }

  function Remaining(cfg: Config, s: State): int {
    TotalWork(cfg, s.tasks) + if s.external then 0 else 1
  }

  ghost predicate Decreases(cfg: Config, s: State, s': State) {
    Unclaimed(cfg, s') < Unclaimed(cfg, s) ||
    (Unclaimed(cfg, s') == Unclaimed(cfg, s) && 0 <= Remaining(cfg, s') < Remaining(cfg, s))
  }

  lemma ClaimDecreases(cfg: Config, s: State, t: nat)
    requires Tree(cfg, s) && Enabled(cfg, s, t, Begin)
    requires s.tasks[t].kind.Node? && s.tasks[t].kind.node !in s.claimed
    ensures Unclaimed(cfg, Apply(cfg, s, t, Begin)) < Unclaimed(cfg, s)
  {
    TaskInUniverse(cfg, s, t);
    var k := s.tasks[t].kind.node;
    assert Apply(cfg, s, t, Begin).claimed.Keys == s.claimed.Keys + {k};
    FewerLeft(Universe(cfg), s.claimed.Keys, k);
  }

  lemma FewerLeft(all: set<Key>, taken: set<Key>, k: Key)
    requires k in all && k !in taken
    ensures |all - (taken + {k})| < |all - taken|
  {
    assert all - (taken + {k}) == (all - taken) - {k};
  }

  /** One step of a task, with the work of a task it starts, costs less than what the task had left. */
  lemma WorkDecreases(cfg: Config, s: State, t: nat, a: Action)
    requires ValidConfig(cfg) && Enabled(cfg, s, t, a) && TaskShape(cfg, s.tasks[t])
    requires a.Begin? && s.tasks[t].kind.Node? ==> s.tasks[t].kind.node in s.claimed
    ensures var started := Spawned(cfg, s.tasks[t], t, a);
      Work(cfg, NewTask(cfg, s, t, a)) + (if started == [] then 0 else Work(cfg, started[0])) < Work(cfg, s.tasks[t])
  {
  }

  lemma StepDecreases(cfg: Config, s: State, t: nat, a: Action)
    requires ValidConfig(cfg) && Inv(cfg, s) && Enabled(cfg, s, t, a)
    ensures Decreases(cfg, s, Apply(cfg, s, t, a))
  {
    var s' := Apply(cfg, s, t, a);
    StepInv(cfg, s, t, a);
    var x := s.tasks[t];
    if a.Begin? && x.kind.Node? && x.kind.node !in s.claimed {
      ClaimDecreases(cfg, s, t);
    } else {
      assert ShapeAt(cfg, s, t);
      WorkDecreases(cfg, s, t, a);
      var y := NewTask(cfg, s, t, a);
      var started := Spawned(cfg, x, t, a);
      WorkUpdate(cfg, s.tasks, t, y);
      if started == [] {
        assert s.tasks[t := y] + started == s.tasks[t := y];
      } else {
        WorkAppend(cfg, s.tasks[t := y], started[0]);
      }
      AllShapes(cfg, s');
      WorkNonNegative(cfg, s'.tasks);
    }
  }

  /** An infinite schedule: at each point a step is taken, unless no step is possible. */
  ghost predicate Schedule(cfg: Config, dst: set<Key>, run: nat -> State) {
    run(0) == Initial(dst) &&
    forall i: nat :: Step(cfg, run(i), run(i + 1)) || (Stuck(cfg, run(i)) && run(i + 1) == run(i))
  }

  ghost predicate Stuck(cfg: Config, s: State) {
    forall t: nat, a: Action :: !Enabled(cfg, s, t, a)
  }

  lemma {:induction false} ScheduleInv(cfg: Config, dst: set<Key>, run: nat -> State, n: nat)
    requires ValidConfig(cfg) && Schedule(cfg, dst, run)
    ensures Inv(cfg, run(n))
  {
    if n == 0 {
      InitialInv(cfg, dst);
    } else {
      ScheduleInv(cfg, dst, run, n - 1);
      var s := run(n - 1);
      assert Step(cfg, s, run(n - 1 + 1)) || run(n - 1 + 1) == s;
      if t: nat, a: Action :| TaskStep(cfg, s, t, a, run(n)) {
        StepInv(cfg, s, t, a);
      } else if run(n) != s {
        CancelInv(cfg, s);
      }
    }
  }

  lemma {:induction false} ScheduleEnds(cfg: Config, dst: set<Key>, run: nat -> State, n: nat) returns (m: nat)
    requires ValidConfig(cfg) && Schedule(cfg, dst, run)
    ensures Stuck(cfg, run(m))
    decreases Unclaimed(cfg, run(n)), Remaining(cfg, run(n))
  {
    m := n;
    var s, s' := run(n), run(n + 1);
    if !Stuck(cfg, s) {
      ScheduleInv(cfg, dst, run, n);
      assert Step(cfg, s, s');
      if t: nat, a: Action :| TaskStep(cfg, s, t, a, s') {
        StepDecreases(cfg, s, t, a);
      } else {
        AllShapes(cfg, s);
        WorkNonNegative(cfg, s.tasks);
      }
      m := ScheduleEnds(cfg, dst, run, n + 1);
    }
  }

  /**
   Termination: under every scheduler, and whatever fails, a copy of an acyclic graph reaches a state in which
   every goroutine is gone and every permit has been returned.
   */
  lemma EveryScheduleTerminates(cfg: Config, dst: set<Key>, run: nat -> State, rank: Key -> nat)
    requires ValidConfig(cfg) && Schedule(cfg, dst, run) && Ranked(CopyEdges(cfg.src), rank)
    ensures exists n: nat :: Terminal(run(n))
  {
    var n := ScheduleEnds(cfg, dst, run, 0);
    ScheduleInv(cfg, dst, run, n);
    var s := run(n);
    if t: nat :| t < |s.tasks| && !FinishedTask(s, t) {
      var u, a := LiveMoves(cfg, s, rank, t);
      assert false;
    }
  }

  // ----- a run in which nothing fails -----

  /** A step that is neither the failure of an operation or a hook nor a cancellation by the caller. */
  ghost predicate CleanStep(cfg: Config, s: State, s': State) {
    exists t: nat, a: Action :: TaskStep(cfg, s, t, a, s') && !a.Fault?
  }

  /** A schedule in which no operation and no hook fails and the caller does not cancel. */
  ghost predicate CleanSchedule(cfg: Config, dst: set<Key>, run: nat -> State) {
    run(0) == Initial(dst) &&
    forall i: nat :: CleanStep(cfg, run(i), run(i + 1)) || (Stuck(cfg, run(i)) && run(i + 1) == run(i))
  }

  ghost predicate UnfailedAt(s: State, t: nat) {
    t < |s.tasks| ==> s.tasks[t].pc != Leave(false) && s.tasks[t].pc != Finished(false)
  }

  /** Nothing has failed and no context has been cancelled. */
  ghost predicate Unfailed(s: State) {
    !s.external && s.cancelled == {} && forall t: nat {:trigger UnfailedAt(s, t)} :: UnfailedAt(s, t)
  }

  lemma {:induction false} NothingDone(s: State, t: nat)
    requires !s.external && s.cancelled == {} && t < |s.tasks|
    ensures !ContextDone(s, t)
  {
    var p := s.tasks[t].parent;
    if p < t {
      NothingDone(s, p);
    }
  }

  /** Where the task that moves goes, if nothing has failed. */
  lemma OwnUnfailed(cfg: Config, s: State, t: nat, a: Action)
    requires Inv(cfg, s) && Unfailed(s) && Enabled(cfg, s, t, a) && !a.Fault? && !a.AwaitUncommitted?
    ensures NewPc(cfg, s, s.tasks[t], a) != Leave(false) && NewPc(cfg, s, s.tasks[t], a) != Finished(false)
  {
    assert UnfailedAt(s, t);
    NothingDone(s, t);
    if a.Join? {
      forall c | c in s.tasks[t].children
        ensures FinishedOk(s, c)
      {
        assert FinishedTask(s, c) && UnfailedAt(s, c);
      }
    }
  }

  lemma CleanKeeps(cfg: Config, s: State, s': State)
    requires ValidConfig(cfg) && Inv(cfg, s) && Unfailed(s) && CleanStep(cfg, s, s')
    ensures Unfailed(s')
  {
    var t: nat, a: Action :| TaskStep(cfg, s, t, a, s') && !a.Fault?;
    StepInv(cfg, s, t, a);
    StepFramed(cfg, s, t, a);
    OwnUnfailed(cfg, s, t, a);
    forall u: nat
      ensures UnfailedAt(s', u)
    {
      assert UnfailedAt(s, u);
    }
  }

  lemma CleanIsSchedule(cfg: Config, dst: set<Key>, run: nat -> State)
    requires CleanSchedule(cfg, dst, run)
    ensures Schedule(cfg, dst, run)
  {
    forall i: nat
      ensures Step(cfg, run(i), run(i + 1)) || (Stuck(cfg, run(i)) && run(i + 1) == run(i))
    {
      assert CleanStep(cfg, run(i), run(i + 1)) || (Stuck(cfg, run(i)) && run(i + 1) == run(i));
    }
  }

  lemma {:induction false} CleanUnfailed(cfg: Config, dst: set<Key>, run: nat -> State, n: nat)
    requires ValidConfig(cfg) && CleanSchedule(cfg, dst, run)
    ensures Unfailed(run(n))
  {
    if n == 0 {
      var s := Initial(dst);
      forall t: nat
        ensures UnfailedAt(s, t)
      {
      }
    } else {
      CleanUnfailed(cfg, dst, run, n - 1);
      CleanIsSchedule(cfg, dst, run);
      ScheduleInv(cfg, dst, run, n - 1);
      var s, s' := run(n - 1), run(n - 1 + 1);
      assert CleanStep(cfg, s, s') || s' == s;
      if s' != s {
        CleanKeeps(cfg, s, s');
      }
    }
  }

  ghost predicate EndsWell(run: nat -> State, n: nat) {
    Terminal(run(n)) && Succeeded(run(n))
  }

  /**
   Success: if no operation and no hook fails and the caller does not cancel, a copy of an acyclic graph comes to an
   end under every scheduler, and returns no error.
   */
  lemma CleanRunSucceeds(cfg: Config, dst: set<Key>, run: nat -> State, rank: Key -> nat)
    requires ValidConfig(cfg) && CleanSchedule(cfg, dst, run) && Ranked(CopyEdges(cfg.src), rank)
    ensures exists n: nat :: EndsWell(run, n)
  {
    CleanIsSchedule(cfg, dst, run);
    EveryScheduleTerminates(cfg, dst, run, rank);
    var n: nat :| Terminal(run(n));
    CleanUnfailed(cfg, dst, run, n);
    ScheduleInv(cfg, dst, run, n);
    var s := run(n);
    assert FinishedTask(s, 0) && UnfailedAt(s, 0);
    assert EndsWell(run, n);
  }
}
