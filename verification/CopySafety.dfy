/** Children before parents in every run of the concurrent copy. */
module CopySafety {
  import opened Content
  import opened Digraph
  import opened CopyMachine
  import opened CopyInvariant

  // ----- children before parents -----

  /** What a node task knows about the destination and about its successors. */
  ghost predicate TaskSafe(cfg: Config, s: State, t: nat) {
    t < |s.tasks| && s.tasks[t].kind.Node? ==>
      var x := s.tasks[t];
      && (x.pc.Notify? ==> x.kind.node in s.dst)
      && (x.pc.Await? ==> AwaitedDone(cfg, s, x.kind.node, x.pc.next))
      && (x.pc.Transfer? || x.pc.Notify? ==> AwaitedDone(cfg, s, x.kind.node, |Next(cfg.src, x.kind.node)|))
  }

  /** The done channels of the first `n` successors of `k` are closed. */
  ghost predicate AwaitedDone(cfg: Config, s: State, k: Key, n: nat) {
    forall i :: 0 <= i < n && i < |Next(cfg.src, k)| ==> DoneClosed(s, Next(cfg.src, k)[i])
  }

  /** Content is done only when it is in the destination. */
  ghost predicate DoneIsStored(s: State) {
    forall k {:trigger DoneClosed(s, k)} :: DoneClosed(s, k) ==> k in s.dst
  }

  /** The destination has only grown, and each node that was added has its successors there. */
  ghost predicate NewIsComplete(cfg: Config, dst: set<Key>, s: State) {
    dst <= s.dst && forall k {:trigger CompleteAt(cfg, dst, s, k)} :: CompleteAt(cfg, dst, s, k)
  }

  ghost predicate CompleteAt(cfg: Config, dst: set<Key>, s: State, k: Key) {
    k in s.dst && k !in dst ==> Out(CopyEdges(cfg.src), k) <= s.dst
  }

  ghost predicate Safe(cfg: Config, dst: set<Key>, s: State) {
    && (forall t: nat {:trigger TaskSafe(cfg, s, t)} :: TaskSafe(cfg, s, t))
    && DoneIsStored(s)
    && NewIsComplete(cfg, dst, s)
  }

  /** The task that claimed a key keeps it. */
  lemma ClaimStays(cfg: Config, s: State, t: nat, a: Action, k: Key)
    requires Enabled(cfg, s, t, a) && !a.AwaitUncommitted? && k in s.claimed
    ensures k in Apply(cfg, s, t, a).claimed && Apply(cfg, s, t, a).claimed[k] == s.claimed[k]
  {
  }

  /** A closed done channel stays closed. */
  lemma DoneIsStable(cfg: Config, s: State, t: nat, a: Action, k: Key)
    requires Enabled(cfg, s, t, a) && !a.AwaitUncommitted? && DoneClosed(s, k)
    ensures DoneClosed(Apply(cfg, s, t, a), k)
  {
    ClaimStays(cfg, s, t, a, k);
    StepFramed(cfg, s, t, a);
  }

  ghost predicate DoneGrows(s: State, s': State) {
    s.dst <= s'.dst && forall k {:trigger DoneClosed(s', k)} :: DoneClosed(s, k) ==> DoneClosed(s', k)
  }

  lemma StepDoneGrows(cfg: Config, s: State, t: nat, a: Action)
    requires Enabled(cfg, s, t, a) && !a.AwaitUncommitted?
    ensures DoneGrows(s, Apply(cfg, s, t, a))
  {
    forall k | DoneClosed(s, k)
      ensures DoneClosed(Apply(cfg, s, t, a), k)
    {
      DoneIsStable(cfg, s, t, a, k);
    }
  }

  lemma AwaitedStays(cfg: Config, s: State, s': State, k: Key, n: nat)
    requires AwaitedDone(cfg, s, k, n) && DoneGrows(s, s')
    ensures AwaitedDone(cfg, s', k, n)
  {
    forall i | 0 <= i < n && i < |Next(cfg.src, k)|
      ensures DoneClosed(s', Next(cfg.src, k)[i])
    {
      assert DoneClosed(s, Next(cfg.src, k)[i]);
    }
  }

  lemma OtherTaskSafe(cfg: Config, s: State, s': State, u: nat)
    requires u < |s.tasks| && u < |s'.tasks| && TaskSafe(cfg, s, u) && s'.tasks[u] == s.tasks[u] && DoneGrows(s, s')
    ensures TaskSafe(cfg, s', u)
  {
    var x := s.tasks[u];
    if x.kind.Node? && (x.pc.Await? || x.pc.Transfer? || x.pc.Notify?) {
      var n := if x.pc.Await? then x.pc.next else |Next(cfg.src, x.kind.node)|;
      AwaitedStays(cfg, s, s', x.kind.node, n);
    }
  }

  /** How far a task has waited when it has taken a step. */
  function Waited(cfg: Config, x: Task): nat {
    if !x.kind.Node? then 0
    else if x.pc.Await? then x.pc.next
    else if x.pc.Transfer? || x.pc.Notify? then |Next(cfg.src, x.kind.node)|
    else 0
  }

  /** Waiting goes forward one closed done channel at a time. */
  lemma WaitsInOrder(cfg: Config, s: State, t: nat, a: Action)
    requires Enabled(cfg, s, t, a) && ShapeAt(cfg, s, t) && s.tasks[t].kind.Node?
    ensures var x := s.tasks[t];
      var n, m := Waited(cfg, x), Waited(cfg, NewTask(cfg, s, t, a));
      m <= n || (m == n + 1 <= |Next(cfg.src, x.kind.node)| && DoneClosed(s, Next(cfg.src, x.kind.node)[n]))
  {
  }

  /** The task that moves waits for its successors one by one before it transfers its own node. */
  lemma OwnTaskSafe(cfg: Config, s: State, t: nat, a: Action, s': State)
    requires TaskStep(cfg, s, t, a, s') && ShapeAt(cfg, s, t) && TaskSafe(cfg, s, t) && DoneGrows(s, s')
    ensures TaskSafe(cfg, s', t)
  {
    StepFramed(cfg, s, t, a);
    var x := s.tasks[t];
    if x.kind.Node? {
      var k, n := x.kind.node, Waited(cfg, x);
      assert AwaitedDone(cfg, s, k, n);
      WaitsInOrder(cfg, s, t, a);
      assert AwaitedDone(cfg, s, k, Waited(cfg, NewTask(cfg, s, t, a)));
      AwaitedStays(cfg, s, s', k, Waited(cfg, NewTask(cfg, s, t, a)));
      assert s'.tasks[t].pc.Notify? ==> k in s'.dst;
    }
  }

  lemma StepTaskSafe(cfg: Config, s: State, t: nat, a: Action, u: nat)
    requires Shapes(cfg, s) && Enabled(cfg, s, t, a) && !a.AwaitUncommitted? && TaskSafe(cfg, s, u)
    ensures TaskSafe(cfg, Apply(cfg, s, t, a), u)
  {
    var s' := Apply(cfg, s, t, a);
    StepDoneGrows(cfg, s, t, a);
    StepFramed(cfg, s, t, a);
    if u == t {
      assert ShapeAt(cfg, s, t);
      OwnTaskSafe(cfg, s, t, a, s');
    } else if u < |s.tasks| {
      OtherTaskSafe(cfg, s, s', u);
    }
  }

  /** A task that returns without an error has found its node in the destination, put it there, or lost it. */
  lemma ReturnsStored(cfg: Config, s: State, t: nat, a: Action)
    requires Enabled(cfg, s, t, a) && ShapeAt(cfg, s, t) && TaskSafe(cfg, s, t) && s.tasks[t].kind.Node?
    requires NewPc(cfg, s, s.tasks[t], a) == Leave(true)
    ensures s.tasks[t].kind.node in s.dst || (a.Begin? && s.tasks[t].kind.node in s.claimed)
  {
  }

  /** A done channel is closed only after the content was found in, or put into, the destination. */
  lemma StepDoneIsStored(cfg: Config, s: State, t: nat, a: Action, k: Key)
    requires Inv(cfg, s) && Enabled(cfg, s, t, a) && !a.AwaitUncommitted?
    requires DoneIsStored(s) && TaskSafe(cfg, s, t) && DoneClosed(Apply(cfg, s, t, a), k)
    ensures k in Apply(cfg, s, t, a).dst
  {
    var s' := Apply(cfg, s, t, a);
    if !DoneClosed(s, k) {
      StepFramed(cfg, s, t, a);
      StepClaims(cfg, s, t, a);
      assert ClaimAt(s, k) && ClaimAt(s', k) && ShapeAt(cfg, s, t);
      assert s'.claimed[k] == t;
      ReturnsStored(cfg, s, t, a);
    }
  }

  lemma StepNewIsComplete(cfg: Config, dst: set<Key>, s: State, t: nat, a: Action)
    requires Enabled(cfg, s, t, a) && DoneIsStored(s) && TaskSafe(cfg, s, t) && NewIsComplete(cfg, dst, s)
    ensures NewIsComplete(cfg, dst, Apply(cfg, s, t, a))
  {
    var s' := Apply(cfg, s, t, a);
    if a.Push? || (a.Fault? && a.stored) {
      TransferComplete(cfg, s, s.tasks[t].kind.node);
    }
    forall k
      ensures CompleteAt(cfg, dst, s', k)
    {
      assert CompleteAt(cfg, dst, s, k);
    }
  }

  /** Once its done channels are closed, the successors of a node are in the destination. */
  lemma TransferComplete(cfg: Config, s: State, k: Key)
    requires DoneIsStored(s) && AwaitedDone(cfg, s, k, |Next(cfg.src, k)|)
    ensures Out(CopyEdges(cfg.src), k) <= s.dst
  {
    var next := Next(cfg.src, k);
    forall c | c in Out(CopyEdges(cfg.src), k)
      ensures c in s.dst
    {
      assert c in SetOf(next);
      var i :| 0 <= i < |next| && next[i] == c;
      assert DoneClosed(s, next[i]);
    }
  }

  lemma StepSafe(cfg: Config, dst: set<Key>, s: State, t: nat, a: Action)
    requires ValidConfig(cfg) && Inv(cfg, s) && Safe(cfg, dst, s) && Enabled(cfg, s, t, a)
    ensures Safe(cfg, dst, Apply(cfg, s, t, a))
  {
    StepInv(cfg, s, t, a);
    var s' := Apply(cfg, s, t, a);
    assert TaskSafe(cfg, s, t);
    forall u: nat
      ensures TaskSafe(cfg, s', u)
    {
      assert TaskSafe(cfg, s, u);
      StepTaskSafe(cfg, s, t, a, u);
    }
    forall k | DoneClosed(s', k)
      ensures k in s'.dst
    {
      StepDoneIsStored(cfg, s, t, a, k);
    }
    StepNewIsComplete(cfg, dst, s, t, a);
  }

  lemma CancelSafe(cfg: Config, dst: set<Key>, s: State)
    requires Safe(cfg, dst, s)
    ensures Safe(cfg, dst, s.(external := true))
  {
    var s' := s.(external := true);
    assert forall k {:trigger DoneClosed(s', k)} :: DoneClosed(s', k) <==> DoneClosed(s, k);
    forall u: nat
      ensures TaskSafe(cfg, s', u)
    {
      assert TaskSafe(cfg, s, u);
      if u < |s.tasks| {
        OtherTaskSafe(cfg, s, s', u);
      }
    }
    forall k
      ensures CompleteAt(cfg, dst, s', k)
    {
      assert CompleteAt(cfg, dst, s, k);
    }
  }

  lemma {:induction false} ExecutionSafe(cfg: Config, dst: set<Key>, run: seq<State>, n: nat)
    requires ValidConfig(cfg) && Execution(cfg, dst, run) && n < |run|
    ensures Safe(cfg, dst, run[n])
  {
    if n > 0 {
      ExecutionSafe(cfg, dst, run, n - 1);
      ExecutionInv(cfg, dst, run, n - 1);
      var s := run[n - 1];
      assert Step(cfg, s, run[n - 1 + 1]);
      if t: nat, a: Action :| TaskStep(cfg, s, t, a, run[n]) {
        StepSafe(cfg, dst, s, t, a);
      } else {
        CancelSafe(cfg, dst, s);
      }
    }
  }

  /**
   Children before parents: at every point of every run, finished, failed, cancelled or still going, each
   node that was added to the destination has all its non-foreign successors there. A destination that
   starts closed therefore stays closed.
   */
  lemma ChildrenBeforeParents(cfg: Config, dst: set<Key>, s: State)
    requires ValidConfig(cfg) && Reachable(cfg, dst, s)
    ensures dst <= s.dst
    ensures forall k :: k in s.dst - dst ==> Out(CopyEdges(cfg.src), k) <= s.dst
    ensures Closed(CopyEdges(cfg.src), dst) ==> Closed(CopyEdges(cfg.src), s.dst)
  {
    var run :| Execution(cfg, dst, run) && run[|run| - 1] == s;
    ExecutionSafe(cfg, dst, run, |run| - 1);
    forall k | k in s.dst - dst
      ensures Out(CopyEdges(cfg.src), k) <= s.dst
    {
      assert CompleteAt(cfg, dst, s, k);
    }
  }
}
