/** When a copy in which nothing fails is possible: exactly if the source holds all that has to be copied. */
module CopySchedules {
  import opened Content
  import opened Digraph
  import opened CopyMachine
  import opened CopyInvariant
  import opened CopyEvents
  import opened CopyProgress
  import opened CopyResult

  /** A step of a copy without hooks and mounts, in which nothing fails and the caller does not cancel. */
  ghost predicate PlainStep(cfg: Config, s: State, s': State) {
    exists t: nat, a: Action :: TaskStep(cfg, s, t, a, s') && Plainly(a)
  }

  ghost predicate PlainSchedule(cfg: Config, dst: set<Key>, run: nat -> State) {
    run(0) == Initial(dst) &&
    forall i: nat :: PlainStep(cfg, run(i), run(i + 1)) || (Stuck(cfg, run(i)) && run(i + 1) == run(i))
  }

  /** The source has every node that the copy comes to and that is not in the destination. */
  ghost predicate SourceHolds(cfg: Config, dst: set<Key>) {
    forall k {:trigger Available(cfg, k)} ::
      Requested(cfg, FreshEdges(cfg.src, dst), k) ==> k in dst || Available(cfg, k)
  }

  lemma PlainIsClean(cfg: Config, dst: set<Key>, run: nat -> State)
    requires PlainSchedule(cfg, dst, run)
    ensures CleanSchedule(cfg, dst, run)
  {
    forall i: nat
      ensures CleanStep(cfg, run(i), run(i + 1)) || (Stuck(cfg, run(i)) && run(i + 1) == run(i))
    {
      assert PlainStep(cfg, run(i), run(i + 1)) || (Stuck(cfg, run(i)) && run(i + 1) == run(i));
    }
  }

  // ----- if the source holds it, the copy goes on -----

  lemma TaskSupplied(cfg: Config, dst: set<Key>, s: State, t: nat)
    requires ValidConfig(cfg) && Reachable(cfg, dst, s) && SourceHolds(cfg, dst)
    ensures SuppliedAt(cfg, s, t)
  {
    if t < |s.tasks| && s.tasks[t].kind.Node? && (s.tasks[t].pc.Expand? || s.tasks[t].pc.Transfer?) {
      var k := s.tasks[t].kind.node;
      var run :| Execution(cfg, dst, run) && run[|run| - 1] == s;
      ExecutionExpanded(cfg, dst, run, |run| - 1);
      ReachableLogged(cfg, dst, s, k);
      assert ShapeAt(cfg, s, t) && ShapeAt(cfg, s, 0) && TaskClaim(s, t);
      TaskRequested(cfg, dst, s, t);
      assert k in dst || Available(cfg, k);
    }
  }

  /**
   If the source holds what has to be copied, every reachable state with a goroutine left has a step that does not
   fail, and that copies what it transfers.
   */
  lemma SuppliedMoves(cfg: Config, dst: set<Key>, s: State, rank: Key -> nat)
    requires ValidConfig(cfg) && Reachable(cfg, dst, s) && Ranked(CopyEdges(cfg.src), rank) && SourceHolds(cfg, dst)
    ensures Terminal(s) || exists s' :: PlainStep(cfg, s, s')
  {
    forall t: nat
      ensures SuppliedAt(cfg, s, t)
    {
      TaskSupplied(cfg, dst, s, t);
    }
    ReachableInv(cfg, dst, s);
    if t: nat :| t < |s.tasks| && !FinishedTask(s, t) {
      var u, a := LiveMoves(cfg, s, rank, t);
      assert TaskStep(cfg, s, u, a, Apply(cfg, s, u, a));
      assert PlainStep(cfg, s, Apply(cfg, s, u, a));
    }
  }

  lemma TerminalIsStuck(cfg: Config, s: State)
    requires Terminal(s)
    ensures Stuck(cfg, s)
  {
    forall t: nat, a: Action
      ensures !Enabled(cfg, s, t, a)
    {
      assert t < |s.tasks| ==> FinishedTask(s, t);
    }
  }

  /** Some plain step, if there is one. */
  ghost function Onward(cfg: Config, s: State): (r: State)
    ensures PlainStep(cfg, s, r) || (r == s && forall s' :: !PlainStep(cfg, s, s'))
  {
    if exists s' :: PlainStep(cfg, s, s') then var s' :| PlainStep(cfg, s, s'); s' else s
  }

  ghost function PlainRun(cfg: Config, dst: set<Key>, n: nat): State {
    if n == 0 then Initial(dst) else Onward(cfg, PlainRun(cfg, dst, n - 1))
  }

  lemma StepReachable(cfg: Config, dst: set<Key>, s: State, s': State)
    requires Reachable(cfg, dst, s) && Step(cfg, s, s')
    ensures Reachable(cfg, dst, s')
  {
    var run :| Execution(cfg, dst, run) && run[|run| - 1] == s;
    var more := run + [s'];
    forall i | 0 <= i < |more| - 1
      ensures Step(cfg, more[i], more[i + 1])
    {
      if i < |run| - 1 {
        assert Step(cfg, run[i], run[i + 1]);
      }
    }
    assert Execution(cfg, dst, more);
  }

  lemma PlainReachable(cfg: Config, dst: set<Key>, s: State, s': State)
    requires Reachable(cfg, dst, s) && PlainStep(cfg, s, s')
    ensures Reachable(cfg, dst, s')
  {
    assert Step(cfg, s, s');
    StepReachable(cfg, dst, s, s');
  }

  lemma OnwardReachable(cfg: Config, dst: set<Key>, s: State)
    requires Reachable(cfg, dst, s)
    ensures Reachable(cfg, dst, Onward(cfg, s))
  {
    if PlainStep(cfg, s, Onward(cfg, s)) {
      PlainReachable(cfg, dst, s, Onward(cfg, s));
    }
  }

  lemma InitialReachable(cfg: Config, dst: set<Key>)
    ensures Reachable(cfg, dst, Initial(dst))
  {
    assert Execution(cfg, dst, [Initial(dst)]);
  }

  lemma {:induction false} PlainRunReachable(cfg: Config, dst: set<Key>, n: nat)
    ensures Reachable(cfg, dst, PlainRun(cfg, dst, n))
  {
    if n == 0 {
      InitialReachable(cfg, dst);
    } else {
      PlainRunReachable(cfg, dst, n - 1);
      OnwardReachable(cfg, dst, PlainRun(cfg, dst, n - 1));
    }
  }

  lemma PlainRunIsSchedule(cfg: Config, dst: set<Key>, rank: Key -> nat)
    requires ValidConfig(cfg) && Ranked(CopyEdges(cfg.src), rank) && SourceHolds(cfg, dst)
    ensures PlainSchedule(cfg, dst, (n: nat) => PlainRun(cfg, dst, n))
  {
    forall i: nat
      ensures PlainStep(cfg, PlainRun(cfg, dst, i), PlainRun(cfg, dst, i + 1))
        || (Stuck(cfg, PlainRun(cfg, dst, i)) && PlainRun(cfg, dst, i + 1) == PlainRun(cfg, dst, i))
    {
      var s := PlainRun(cfg, dst, i);
      PlainRunReachable(cfg, dst, i);
      SuppliedMoves(cfg, dst, s, rank);
      if !PlainStep(cfg, s, Onward(cfg, s)) {
        TerminalIsStuck(cfg, s);
      }
    }
  }

  // ----- and only then -----

  /** What a task past its search for successors works on could be found. */
  ghost predicate FoundAt(cfg: Config, s: State, t: nat) {
    t < |s.tasks| && s.tasks[t].kind.Node? ==>
      var pc := s.tasks[t].pc;
      pc.Dispatch? || pc.Await? || pc.Transfer? ==> Findable(cfg, s.tasks[t].kind.node)
  }

  /** Whatever has been added to the destination was available. */
  ghost predicate Sourced(cfg: Config, dst: set<Key>, s: State) {
    && (forall t: nat {:trigger FoundAt(cfg, s, t)} :: FoundAt(cfg, s, t))
    && (forall k :: k in s.cached ==> k in cfg.src)
    && (forall k :: k in s.dst ==> k in dst || Available(cfg, k))
  }

  /** The task that moves: where it goes and what it adds. */
  lemma OwnSourced(cfg: Config, dst: set<Key>, s: State, t: nat, a: Action)
    requires Sourced(cfg, dst, s) && Enabled(cfg, s, t, a) && Plainly(a)
    ensures FoundAt(cfg, Apply(cfg, s, t, a), t)
    ensures a.Push? ==> s.tasks[t].kind.Node? && Available(cfg, s.tasks[t].kind.node)
    ensures a.FindSuccessors? && IsManifest(WorkKey(s.tasks[t].kind).mediaType) ==> WorkKey(s.tasks[t].kind) in cfg.src
  {
    assert FoundAt(cfg, s, t);
    AvailableIsFindable(cfg, WorkKey(s.tasks[t].kind));
  }

  lemma StepSourced(cfg: Config, dst: set<Key>, s: State, s': State)
    requires Sourced(cfg, dst, s) && PlainStep(cfg, s, s')
    ensures Sourced(cfg, dst, s')
  {
    var t: nat, a: Action :| TaskStep(cfg, s, t, a, s') && Plainly(a);
    OwnSourced(cfg, dst, s, t, a);
    assert forall u: nat :: FoundAt(cfg, s, u);
    forall u: nat
      ensures FoundAt(cfg, s', u)
    {
      OtherFound(cfg, s, t, a, u);
    }
  }

  lemma OtherFound(cfg: Config, s: State, t: nat, a: Action, u: nat)
    requires Enabled(cfg, s, t, a) && FoundAt(cfg, s, u) && FoundAt(cfg, Apply(cfg, s, t, a), t)
    ensures FoundAt(cfg, Apply(cfg, s, t, a), u)
  {
    StepFramed(cfg, s, t, a);
  }

  lemma {:induction false} ScheduleSourced(cfg: Config, dst: set<Key>, run: nat -> State, n: nat)
    requires PlainSchedule(cfg, dst, run)
    ensures Sourced(cfg, dst, run(n))
  {
    if n == 0 {
      forall t: nat
        ensures FoundAt(cfg, run(0), t)
      {
      }
    } else {
      ScheduleSourced(cfg, dst, run, n - 1);
      var s, s' := run(n - 1), run(n - 1 + 1);
      assert PlainStep(cfg, s, s') || s' == s;
      if s' != s {
        StepSourced(cfg, dst, s, s');
      }
    }
  }

  lemma PlainNeedsSource(cfg: Config, dst: set<Key>, run: nat -> State, rank: Key -> nat)
    requires ValidConfig(cfg) && Ranked(CopyEdges(cfg.src), rank) && PlainSchedule(cfg, dst, run)
    ensures SourceHolds(cfg, dst)
  {
    PlainIsClean(cfg, dst, run);
    CleanRunSucceeds(cfg, dst, run, rank);
    var n: nat :| EndsWell(run, n);
    CleanIsSchedule(cfg, dst, run);
    var states := ScheduleReachable(cfg, dst, run, n);
    assert Reachable(cfg, dst, run(n));
    ScheduleSourced(cfg, dst, run, n);
    forall k | Requested(cfg, FreshEdges(cfg.src, dst), k)
      ensures k in dst || Available(cfg, k)
    {
      CopyResultExact(cfg, dst, run(n), k);
    }
  }

  /**
   A copy without hooks can run without a failure if and only if the source holds, with successors that can be found,
   every node that can be reached from a requested one without passing through content that is in the destination.
   */
  lemma CopyPossible(cfg: Config, dst: set<Key>, rank: Key -> nat)
    requires ValidConfig(cfg) && Ranked(CopyEdges(cfg.src), rank)
    ensures (exists run :: PlainSchedule(cfg, dst, run)) <==> SourceHolds(cfg, dst)
  {
    if SourceHolds(cfg, dst) {
      PlainRunIsSchedule(cfg, dst, rank);
    }
    if run :| PlainSchedule(cfg, dst, run) {
      PlainNeedsSource(cfg, dst, run, rank);
    }
  }
}
