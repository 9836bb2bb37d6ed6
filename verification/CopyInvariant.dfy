/** What every step of every interleaving keeps: the task tree, the permits, the claims and the joins. */
module CopyInvariant {
  import opened Content
  import opened CopyMachine

  // ----- the invariant -----

  /** Program counter, region flag and number of spawned children agree. */
  ghost predicate TaskShape(cfg: Config, x: Task) {
    var all := |x.children| == |Items(cfg, x.kind)|;
    && |x.children| <= |Items(cfg, x.kind)|
    && (x.kind.Main? ==> x.ended && (x.pc.Dispatch? || x.pc.Leave? || x.pc.Finished?))
    && (x.kind.Root? ==> !x.pc.Check? && !x.pc.Expand? && !x.pc.Notify?)
    && match x.pc
       case Start => !x.ended && x.children == []
       case Check => !x.ended && x.children == []
       case Expand => !x.ended && x.children == []
       case Dispatch => x.ended
       case Await(j) => x.ended && all && j <= |Awaited(cfg, x.kind)|
       case Transfer => !x.ended && all
       case Notify(_) => !x.ended && all
       case Leave(ok) => ok && !x.kind.Node? ==> all
       case Finished(ok) => x.ended && (ok && !x.kind.Node? ==> all)
  }

  ghost predicate ShapeAt(cfg: Config, s: State, t: nat) {
    t < |s.tasks| ==> TaskShape(cfg, s.tasks[t])
  }

  ghost predicate Shapes(cfg: Config, s: State) {
    forall t: nat {:trigger ShapeAt(cfg, s, t)} :: ShapeAt(cfg, s, t)
  }

  lemma AllShapes(cfg: Config, s: State)
    requires Shapes(cfg, s)
    ensures forall t :: 0 <= t < |s.tasks| ==> TaskShape(cfg, s.tasks[t])
  {
    forall t | 0 <= t < |s.tasks|
      ensures TaskShape(cfg, s.tasks[t])
    {
      assert ShapeAt(cfg, s, t);
    }
  }

  /** The `i`-th child of task `p` is a later task for the `i`-th item of `p`. */
  ghost predicate ChildAt(cfg: Config, s: State, p: nat, i: nat) {
    p < |s.tasks| && i < |s.tasks[p].children| ==>
      var c := s.tasks[p].children[i];
      p < c < |s.tasks| && s.tasks[c].parent == p &&
      i < |Items(cfg, s.tasks[p].kind)| && s.tasks[c].kind == Items(cfg, s.tasks[p].kind)[i]
  }

  /** Every task but the first is the child of an earlier one. */
  ghost predicate ParentAt(s: State, t: nat) {
    0 < t < |s.tasks| ==>
      s.tasks[t].parent < t && !s.tasks[t].kind.Main? && t in s.tasks[s.tasks[t].parent].children
  }

  ghost predicate Tree(cfg: Config, s: State) {
    && |s.tasks| > 0 && s.tasks[0].kind.Main? && s.tasks[0].parent == 0
    && (forall t: nat {:trigger ParentAt(s, t)} :: ParentAt(s, t))
    && (forall p: nat, i: nat {:trigger ChildAt(cfg, s, p, i)} :: ChildAt(cfg, s, p, i))
  }

  /** The number of regions that have not been ended. */
  function Holding(tasks: seq<Task>): nat {
    if tasks == [] then 0
    else Holding(tasks[..|tasks| - 1]) + if tasks[|tasks| - 1].ended then 0 else 1
  }

  ghost predicate Permits(cfg: Config, s: State) {
    s.permits == Holding(s.tasks) <= cfg.limit
  }

  /** A claimed key belongs to one node task; a task past its claim either owns the key or has lost it. */
  ghost predicate Claims(s: State) {
    && (forall k {:trigger ClaimAt(s, k)} :: ClaimAt(s, k))
    && (forall t: nat {:trigger TaskClaim(s, t)} :: TaskClaim(s, t))
  }

  ghost predicate ClaimAt(s: State, k: Key) {
    k in s.claimed ==>
      s.claimed[k] < |s.tasks| && s.tasks[s.claimed[k]].kind == Node(k) && !s.tasks[s.claimed[k]].pc.Start?
  }

  ghost predicate TaskClaim(s: State, t: nat) {
    t < |s.tasks| && s.tasks[t].kind.Node? && !s.tasks[t].pc.Start? ==>
      var x := s.tasks[t];
      x.kind.node in s.claimed && (x.pc != Leave(true) && x.pc != Finished(true) ==> s.claimed[x.kind.node] == t)
  }

  /** The task got past its group without an error. */
  predicate PastGroup(x: Task) {
    !x.pc.Dispatch? && x.pc != Leave(false) && x.pc != Finished(false)
  }

  ghost predicate ChildrenOk(s: State, x: Task) {
    forall c :: c in x.children ==> FinishedOk(s, c)
  }

  /** A task that got past its group without an error has only children that finished without one. */
  ghost predicate Joined(s: State, t: nat) {
    t < |s.tasks| && PastGroup(s.tasks[t]) ==> ChildrenOk(s, s.tasks[t])
  }

  ghost predicate Joins(s: State) {
    forall t: nat {:trigger Joined(s, t)} :: Joined(s, t)
  }

  ghost predicate FailureAt(s: State, t: nat) {
    0 < t < |s.tasks| && s.tasks[t].pc == Finished(false) ==> s.tasks[t].parent in s.cancelled
  }

  /** A failed task has cancelled the context of its group; the caller only fails on a cancelled context. */
  ghost predicate Failures(s: State) {
    && (forall t: nat {:trigger FailureAt(s, t)} :: FailureAt(s, t))
    && (0 < |s.tasks| && (s.tasks[0].pc == Leave(false) || s.tasks[0].pc == Finished(false)) ==>
         0 in s.cancelled || s.external)
  }

  ghost predicate Inv(cfg: Config, s: State) {
    Shapes(cfg, s) && Tree(cfg, s) && Permits(cfg, s) && Claims(s) && Joins(s) && Failures(s)
  }

  // ----- the invariant holds initially and is kept by every step -----

  lemma InitialInv(cfg: Config, dst: set<Key>)
    requires ValidConfig(cfg)
    ensures Inv(cfg, Initial(dst))
  {
    var s := Initial(dst);
    assert s.tasks[..0] == [];
    assert Holding(s.tasks) == 0;
  }

  /** A step changes one task and may add one at the end. */
  ghost predicate Framed(s: State, s': State, t: nat) {
    && t < |s.tasks| <= |s'.tasks|
    && forall u :: 0 <= u < |s.tasks| && u != t ==> s'.tasks[u] == s.tasks[u]
  }

  lemma StepFramed(cfg: Config, s: State, t: nat, a: Action)
    requires Enabled(cfg, s, t, a)
    ensures var s' := Apply(cfg, s, t, a); Framed(s, s', t) && s'.tasks[t] == NewTask(cfg, s, t, a)
    ensures !a.SpawnNext? ==> |Apply(cfg, s, t, a).tasks| == |s.tasks|
    ensures a.SpawnNext? ==> |Apply(cfg, s, t, a).tasks| == |s.tasks| + 1
    ensures a.SpawnNext? ==>
      var item := Items(cfg, s.tasks[t].kind)[|s.tasks[t].children|];
      Apply(cfg, s, t, a).tasks[|s.tasks|] == Task(item, t, Start, false, [])
  {
  }

  lemma OwnShape(cfg: Config, s: State, t: nat, a: Action)
    requires Enabled(cfg, s, t, a) && ShapeAt(cfg, s, t)
    ensures TaskShape(cfg, NewTask(cfg, s, t, a))
  {
  }

  lemma StepShapes(cfg: Config, s: State, t: nat, a: Action)
    requires ValidConfig(cfg) && Shapes(cfg, s) && Tree(cfg, s) && Enabled(cfg, s, t, a)
    ensures Shapes(cfg, Apply(cfg, s, t, a))
  {
    var s' := Apply(cfg, s, t, a);
    StepFramed(cfg, s, t, a);
    OwnShape(cfg, s, t, a);
    ItemsNotMain(cfg, s.tasks[t].kind);
    forall u: nat
      ensures ShapeAt(cfg, s', u)
    {
      assert ShapeAt(cfg, s, u);
    }
  }

  lemma ItemsNotMain(cfg: Config, kind: Kind)
    requires ValidConfig(cfg)
    ensures forall i :: 0 <= i < |Items(cfg, kind)| ==> !Items(cfg, kind)[i].Main?
  {
  }

  /** The tree only depends on kinds, parents and children. */
  lemma SameTree(cfg: Config, s: State, s': State)
    requires Tree(cfg, s) && |s'.tasks| == |s.tasks|
    requires forall u :: 0 <= u < |s.tasks| ==>
      s'.tasks[u].kind == s.tasks[u].kind && s'.tasks[u].parent == s.tasks[u].parent
        && s'.tasks[u].children == s.tasks[u].children
    ensures Tree(cfg, s')
  {
    forall p: nat, i: nat
      ensures ChildAt(cfg, s', p, i)
    {
      assert ChildAt(cfg, s, p, i);
    }
    forall t: nat
      ensures ParentAt(s', t)
    {
      assert ParentAt(s, t);
    }
  }

  /** Adding a task as the next child of `t`. */
  lemma GrowTree(cfg: Config, s: State, s': State, t: nat)
    requires Tree(cfg, s) && Framed(s, s', t) && |s'.tasks| == |s.tasks| + 1
    requires |s.tasks[t].children| < |Items(cfg, s.tasks[t].kind)|
    requires s'.tasks[t].kind == s.tasks[t].kind && s'.tasks[t].parent == s.tasks[t].parent
    requires s'.tasks[t].children == s.tasks[t].children + [|s.tasks|]
    requires var x := s'.tasks[|s.tasks|];
      x.parent == t && x.children == [] && x.kind == Items(cfg, s.tasks[t].kind)[|s.tasks[t].children|] && !x.kind.Main?
    ensures Tree(cfg, s')
  {
    var n := |s.tasks|;
    forall p: nat, i: nat
      ensures ChildAt(cfg, s', p, i)
    {
      assert ChildAt(cfg, s, p, i);
    }
    assert s'.tasks[t].children[|s.tasks[t].children|] == n;
    forall u: nat
      ensures ParentAt(s', u)
    {
      assert ParentAt(s, u);
    }
  }

  lemma StepTree(cfg: Config, s: State, t: nat, a: Action)
    requires ValidConfig(cfg) && Tree(cfg, s) && Enabled(cfg, s, t, a)
    ensures Tree(cfg, Apply(cfg, s, t, a))
  {
    StepFramed(cfg, s, t, a);
    if a.SpawnNext? {
      ItemsNotMain(cfg, s.tasks[t].kind);
      GrowTree(cfg, s, Apply(cfg, s, t, a), t);
    } else {
      SameTree(cfg, s, Apply(cfg, s, t, a));
    }
  }

  /** The first task that reaches a key owns it; a later one finds it claimed. */
  lemma BeginClaims(cfg: Config, s: State, t: nat)
    requires Claims(s) && Enabled(cfg, s, t, Begin)
    ensures Claims(Apply(cfg, s, t, Begin))
  {
    var s' := Apply(cfg, s, t, Begin);
    StepFramed(cfg, s, t, Begin);
    forall u: nat
      ensures TaskClaim(s', u)
    {
      assert TaskClaim(s, u);
    }
    forall k
      ensures ClaimAt(s', k)
    {
      assert ClaimAt(s, k);
    }
  }

  /** A task that has not returned an error free result keeps what it owns. */
  lemma SameClaims(s: State, s': State, t: nat)
    requires Claims(s) && Framed(s, s', t) && s'.claimed == s.claimed
    requires forall u :: |s.tasks| <= u < |s'.tasks| ==> s'.tasks[u].pc.Start?
    requires s'.tasks[t].kind == s.tasks[t].kind && !s'.tasks[t].pc.Start?
    requires !s.tasks[t].pc.Start? || s.tasks[t].kind.Root?
    requires s.tasks[t].pc == Leave(true) ==> s'.tasks[t].pc == Finished(true)
    requires s.tasks[t].pc != Finished(true)
    ensures Claims(s')
  {
    forall u: nat
      ensures TaskClaim(s', u)
    {
      assert TaskClaim(s, u);
    }
    forall k
      ensures ClaimAt(s', k)
    {
      assert ClaimAt(s, k);
    }
  }

  lemma StepClaims(cfg: Config, s: State, t: nat, a: Action)
    requires Claims(s) && Enabled(cfg, s, t, a) && !a.AwaitUncommitted?
    ensures Claims(Apply(cfg, s, t, a))
  {
    if a.Begin? {
      BeginClaims(cfg, s, t);
    } else {
      StepFramed(cfg, s, t, a);
      SameClaims(s, Apply(cfg, s, t, a), t);
    }
  }

  /** A task that has finished does not move. */
  lemma FinishedStays(cfg: Config, s: State, t: nat, a: Action, c: nat)
    requires Enabled(cfg, s, t, a) && FinishedTask(s, c)
    ensures c != t && FinishedTask(Apply(cfg, s, t, a), c) && Apply(cfg, s, t, a).tasks[c] == s.tasks[c]
  {
  }

  /** Only a join, or starting without children, takes a task past its group. */
  lemma OwnJoined(cfg: Config, s: State, t: nat, a: Action)
    requires Enabled(cfg, s, t, a) && ShapeAt(cfg, s, t) && Joined(s, t) && PastGroup(NewTask(cfg, s, t, a))
    ensures NewTask(cfg, s, t, a).children == s.tasks[t].children && ChildrenOk(s, s.tasks[t])
  {
  }

  lemma StepJoins(cfg: Config, s: State, t: nat, a: Action)
    requires ValidConfig(cfg) && Shapes(cfg, s) && Tree(cfg, s) && Joins(s) && Enabled(cfg, s, t, a)
    ensures Joins(Apply(cfg, s, t, a))
  {
    var s' := Apply(cfg, s, t, a);
    StepFramed(cfg, s, t, a);
    assert ShapeAt(cfg, s, t);
    forall u: nat
      ensures Joined(s', u)
    {
      assert Joined(s, u);
      if u < |s.tasks| && PastGroup(s'.tasks[u]) {
        if u == t {
          OwnJoined(cfg, s, t, a);
        }
        forall c | c in s.tasks[u].children
          ensures FinishedOk(s', c)
        {
          assert FinishedOk(s, c);
          FinishedStays(cfg, s, t, a, c);
        }
      }
    }
  }

  /** The caller's own step fails only after one of its goroutines did, or when its context is done. */
  lemma CallerFails(cfg: Config, s: State, a: Action)
    requires ShapeAt(cfg, s, 0) && Tree(cfg, s) && Failures(s) && Enabled(cfg, s, 0, a)
    requires NewPc(cfg, s, s.tasks[0], a) == Leave(false) || NewPc(cfg, s, s.tasks[0], a) == Finished(false)
    ensures 0 in s.cancelled || s.external
  {
    if a.Join? {
      var c :| c in s.tasks[0].children && !FinishedOk(s, c);
      var i :| 0 <= i < |s.tasks[0].children| && s.tasks[0].children[i] == c;
      assert ChildAt(cfg, s, 0, i) && FailureAt(s, c) && FinishedTask(s, c);
    }
  }

  lemma StepFailures(cfg: Config, s: State, t: nat, a: Action)
    requires Shapes(cfg, s) && Tree(cfg, s) && Failures(s) && Enabled(cfg, s, t, a)
    ensures Failures(Apply(cfg, s, t, a))
  {
    var s' := Apply(cfg, s, t, a);
    StepFramed(cfg, s, t, a);
    assert ShapeAt(cfg, s, 0) && ParentAt(s, t);
    forall u: nat
      ensures FailureAt(s', u)
    {
      assert FailureAt(s, u);
    }
    if t == 0 && (s'.tasks[0].pc == Leave(false) || s'.tasks[0].pc == Finished(false)) {
      CallerFails(cfg, s, a);
    }
  }

  // ----- permits -----

  function Held(x: Task): nat {
    if x.ended then 0 else 1
  }

  lemma {:induction false} HoldingUpdate(tasks: seq<Task>, t: nat, y: Task)
    requires t < |tasks|
    ensures Holding(tasks[t := y]) == Holding(tasks) - Held(tasks[t]) + Held(y)
  {
    var m := |tasks| - 1;
    if t == m {
      assert tasks[t := y][..m] == tasks[..m];
    } else {
      assert tasks[t := y][..m] == tasks[..m][t := y];
      HoldingUpdate(tasks[..m], t, y);
    }
  }

  lemma HoldingAppend(tasks: seq<Task>, y: Task)
    ensures Holding(tasks + [y]) == Holding(tasks) + Held(y)
  {
    assert (tasks + [y])[..|tasks|] == tasks;
  }

  lemma HoldingStep(tasks: seq<Task>, t: nat, y: Task, started: seq<Task>)
    requires t < |tasks| && |started| <= 1 && (started != [] ==> !started[0].ended)
    ensures Holding(tasks[t := y] + started) == Holding(tasks) - Held(tasks[t]) + Held(y) + |started|
  {
    HoldingUpdate(tasks, t, y);
    if started == [] {
      assert tasks[t := y] + started == tasks[t := y];
    } else {
      assert started == [started[0]];
      HoldingAppend(tasks[t := y], started[0]);
    }
  }

  /** A step that takes a permit finds one free. */
  lemma TakesFree(cfg: Config, s: State, t: nat, a: Action)
    requires ShapeAt(cfg, s, t) && Enabled(cfg, s, t, a)
    ensures var x, y := s.tasks[t], NewTask(cfg, s, t, a);
      var taken := |Spawned(cfg, x, t, a)| + Held(y) - Held(x);
      taken <= 1 && (taken == 1 ==> s.permits < cfg.limit)
  {
  }

  lemma StepPermits(cfg: Config, s: State, t: nat, a: Action)
    requires Shapes(cfg, s) && Permits(cfg, s) && Enabled(cfg, s, t, a)
    ensures Permits(cfg, Apply(cfg, s, t, a))
  {
    assert ShapeAt(cfg, s, t);
    HoldingStep(s.tasks, t, NewTask(cfg, s, t, a), Spawned(cfg, s.tasks[t], t, a));
    TakesFree(cfg, s, t, a);
  }

  // ----- every awaited successor has been committed -----

  /** A task that waits for done channels has seen each of its successors claimed. */
  lemma SuccessorsCommitted(cfg: Config, s: State, t: nat, j: nat)
    requires Shapes(cfg, s) && Tree(cfg, s) && Claims(s) && Joins(s)
    requires t < |s.tasks| && s.tasks[t].pc.Await? && j < |Awaited(cfg, s.tasks[t].kind)|
    ensures Awaited(cfg, s.tasks[t].kind)[j] in s.claimed
  {
    assert ShapeAt(cfg, s, t) && Joined(s, t);
    assert ChildAt(cfg, s, t, j);
    var c := s.tasks[t].children[j];
    assert TaskClaim(s, c) && FinishedOk(s, c);
  }

  lemma StepInv(cfg: Config, s: State, t: nat, a: Action)
    requires ValidConfig(cfg) && Inv(cfg, s) && Enabled(cfg, s, t, a)
    ensures Inv(cfg, Apply(cfg, s, t, a)) && !a.AwaitUncommitted?
  {
    if a.AwaitUncommitted? {
      SuccessorsCommitted(cfg, s, t, s.tasks[t].pc.next);
    }
    StepShapes(cfg, s, t, a);
    StepTree(cfg, s, t, a);
    StepPermits(cfg, s, t, a);
    StepClaims(cfg, s, t, a);
    StepJoins(cfg, s, t, a);
    StepFailures(cfg, s, t, a);
  }

  lemma CancelInv(cfg: Config, s: State)
    requires Inv(cfg, s)
    ensures Inv(cfg, s.(external := true))
  {
    var s' := s.(external := true);
    SameTree(cfg, s, s');
    forall t: nat
      ensures ShapeAt(cfg, s', t) && TaskClaim(s', t) && Joined(s', t) && FailureAt(s', t)
    {
      assert ShapeAt(cfg, s, t) && TaskClaim(s, t) && Joined(s, t) && FailureAt(s, t);
      assert t < |s.tasks| && ChildrenOk(s, s.tasks[t]) ==>
        forall c :: c in s.tasks[t].children ==> FinishedOk(s, c) && FinishedOk(s', c);
    }
    forall k
      ensures ClaimAt(s', k)
    {
      assert ClaimAt(s, k);
    }
  }

  /** Every state of every execution satisfies the invariant. */
  lemma {:induction false} ExecutionInv(cfg: Config, dst: set<Key>, run: seq<State>, n: nat)
    requires ValidConfig(cfg) && Execution(cfg, dst, run) && n < |run|
    ensures Inv(cfg, run[n])
  {
    if n == 0 {
      InitialInv(cfg, dst);
    } else {
      ExecutionInv(cfg, dst, run, n - 1);
      var s := run[n - 1];
      assert Step(cfg, s, run[n - 1 + 1]);
      if t: nat, a: Action :| TaskStep(cfg, s, t, a, run[n]) {
        StepInv(cfg, s, t, a);
      } else {
        CancelInv(cfg, s);
      }
    }
  }

  lemma ReachableInv(cfg: Config, dst: set<Key>, s: State)
    requires ValidConfig(cfg) && Reachable(cfg, dst, s)
    ensures Inv(cfg, s)
  {
    var run :| Execution(cfg, dst, run) && run[|run| - 1] == s;
    ExecutionInv(cfg, dst, run, |run| - 1);
  }
}
