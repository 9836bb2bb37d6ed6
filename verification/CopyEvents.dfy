/** Exactly-once work: how often a key is checked, fetched, pushed and reported over a whole run. */
module CopyEvents {
  import opened Content
  import opened CopyMachine
  import opened CopyInvariant
  import opened CopySafety

  /** How many times a completed node was reported, by whichever hook. */
  function Outcomes(log: multiset<Event>, k: Key): nat {
    log[PostCopied(k)] + log[CopySkipped(k)] + log[PreSkipped(k)] + log[WasMounted(k)]
  }

  /** A manifest is fetched when its successors are looked for, anything else when it is copied. */
  function ManifestFetch(k: Key): nat {
    if IsManifest(k.mediaType) then 1 else 0
  }

  ghost predicate Untouched(log: multiset<Event>, k: Key) {
    && log[Checked(k)] == 0 && log[Fetched(k)] == 0 && log[Pushed(k)] == 0 && log[DidMount(k)] == 0
    && Outcomes(log, k) == 0
  }

  /** The events of `k` so far and whether it is cached, given where the task that claimed `k` is. */
  ghost predicate Accounted(dst: set<Key>, log: multiset<Event>, cached: bool, pc: Pc, k: Key) {
    match pc
    case Start => false
    case Check => Untouched(log, k) && !cached
    case Expand =>
      && !cached && k !in dst && log[Checked(k)] == 1 && log[Fetched(k)] == 0 && log[Pushed(k)] == 0
      && log[DidMount(k)] == 0 && Outcomes(log, k) == 0
    case Notify(how) =>
      && k !in dst && log[Checked(k)] == 1 && Outcomes(log, k) == 0
      && log[Pushed(k)] == (if how.Copied? then 1 else 0)
      && log[DidMount(k)] == (if how.Mounted? then 1 else 0) && (how.Mounted? ==> !IsManifest(k.mediaType))
      && log[Fetched(k)] == (if how.Copied? then 1 else ManifestFetch(k))
    case Leave(ok) => Settled(dst, log, ok, k)
    case Finished(ok) => Settled(dst, log, ok, k)
    case _ =>
      && cached == IsManifest(k.mediaType) && k !in dst && log[Checked(k)] == 1
      && log[Fetched(k)] == ManifestFetch(k) && log[Pushed(k)] == 0 && log[DidMount(k)] == 0 && Outcomes(log, k) == 0
  }

  /** The events of a key whose task has returned. */
  ghost predicate Settled(dst: set<Key>, log: multiset<Event>, ok: bool, k: Key) {
    && log[Checked(k)] == 1
    && log[Fetched(k)] <= 1 && log[Pushed(k)] <= 1 && log[DidMount(k)] <= 1
    && Outcomes(log, k) == (if ok then 1 else 0)
    && (ok ==>
          && log[CopySkipped(k)] == (if k in dst then 1 else 0)
          && log[Pushed(k)] == log[PostCopied(k)]
          && log[DidMount(k)] == log[WasMounted(k)] && (log[WasMounted(k)] == 1 ==> !IsManifest(k.mediaType))
          && log[Fetched(k)] == (if k in dst then 0 else if log[PostCopied(k)] == 1 then 1 else ManifestFetch(k)))
  }

  ghost predicate KeyLog(dst: set<Key>, s: State, k: Key) {
    if k in s.claimed && s.claimed[k] < |s.tasks|
    then Accounted(dst, s.log, k in s.cached, s.tasks[s.claimed[k]].pc, k)
    else Untouched(s.log, k) && k !in s.cached
  }

  /** Content that was not there at the start was put there by the task that claimed it. */
  ghost predicate KeyOrigin(dst: set<Key>, s: State, k: Key) {
    k in s.dst && k !in dst ==>
      k in s.claimed && s.claimed[k] < |s.tasks| &&
      var pc := s.tasks[s.claimed[k]].pc; pc.Notify? || pc.Leave? || pc.Finished?
  }

  ghost predicate KeyLogged(dst: set<Key>, s: State, k: Key) {
    KeyLog(dst, s, k) && KeyOrigin(dst, s, k)
  }

  ghost predicate Logged(dst: set<Key>, s: State) {
    dst <= s.dst && forall k {:trigger KeyLogged(dst, s, k)} :: KeyLogged(dst, s, k)
  }

  /** No event of `k`. */
  ghost predicate NoneOf(m: multiset<Event>, k: Key) {
    && m[Checked(k)] == 0 && m[Fetched(k)] == 0 && m[Pushed(k)] == 0 && m[DidMount(k)] == 0
    && m[PostCopied(k)] == 0 && m[CopySkipped(k)] == 0 && m[PreSkipped(k)] == 0 && m[WasMounted(k)] == 0
  }

  lemma EmitsWorkKey(dst: set<Key>, cached: set<Key>, x: Task, a: Action, e: Event)
    requires WorkKey(x.kind) != e.key
    ensures Emitted(dst, cached, x, a)[e] == 0
  {
    if a.Fault? {
      FaultEmits(dst, cached, x, a, e);
    }
  }

  lemma FaultEmits(dst: set<Key>, cached: set<Key>, x: Task, a: Action, e: Event)
    requires WorkKey(x.kind) != e.key && a.Fault?
    ensures Emitted(dst, cached, x, a)[e] == 0
  {
    var k := WorkKey(x.kind);
    assert When(x.pc.Check?, Checked(k))[e] == 0;
    assert When(a.fetched, Fetched(k))[e] == 0 && When(a.pushed, Pushed(k))[e] == 0;
  }

  lemma OnlyNodesEmit(cfg: Config, s: State, t: nat, a: Action)
    requires Enabled(cfg, s, t, a) && !s.tasks[t].kind.Node?
    ensures Emitted(s.dst, s.cached, s.tasks[t], a) == multiset{}
  {
  }

  /** A step emits events of its own key only. */
  lemma EmitsOwnKey(cfg: Config, s: State, t: nat, a: Action, k: Key)
    requires Enabled(cfg, s, t, a) && s.tasks[t].kind != Node(k)
    ensures NoneOf(Emitted(s.dst, s.cached, s.tasks[t], a), k)
  {
    if s.tasks[t].kind.Node? {
      forall e: Event | e.key == k
        ensures Emitted(s.dst, s.cached, s.tasks[t], a)[e] == 0
      {
        EmitsWorkKey(s.dst, s.cached, s.tasks[t], a, e);
      }
    } else {
      OnlyNodesEmit(cfg, s, t, a);
    }
  }

  ghost predicate SameEvents(log: multiset<Event>, log': multiset<Event>, k: Key) {
    && log'[Checked(k)] == log[Checked(k)] && log'[Fetched(k)] == log[Fetched(k)] && log'[Pushed(k)] == log[Pushed(k)]
    && log'[DidMount(k)] == log[DidMount(k)]
    && log'[PostCopied(k)] == log[PostCopied(k)] && log'[CopySkipped(k)] == log[CopySkipped(k)]
    && log'[PreSkipped(k)] == log[PreSkipped(k)] && log'[WasMounted(k)] == log[WasMounted(k)]
  }

  lemma SameAccount(dst: set<Key>, s: State, s': State, k: Key)
    requires KeyLogged(dst, s, k) && SameEvents(s.log, s'.log, k)
    requires k in s.claimed <==> k in s'.claimed
    requires k in s.claimed ==>
      s.claimed[k] == s'.claimed[k] < |s.tasks| && s.claimed[k] < |s'.tasks|
        && s.tasks[s.claimed[k]] == s'.tasks[s.claimed[k]]
    requires (k in s.dst <==> k in s'.dst) && (k in s.cached <==> k in s'.cached)
    ensures KeyLogged(dst, s', k)
  {
  }

  /** A step leaves the account of every key but its own alone. */
  lemma OtherKey(cfg: Config, dst: set<Key>, s: State, t: nat, a: Action, k: Key)
    requires Claims(s) && Enabled(cfg, s, t, a) && !a.AwaitUncommitted?
    requires KeyLogged(dst, s, k)
    requires s.tasks[t].kind != Node(k)
    ensures KeyLogged(dst, Apply(cfg, s, t, a), k)
  {
    EmitsOwnKey(cfg, s, t, a, k);
    StepFramed(cfg, s, t, a);
    assert ClaimAt(s, k);
    SameAccount(dst, s, Apply(cfg, s, t, a), k);
  }

  /** How often the step emits each event of its own key. */
  ghost predicate EmittedCounts(m: multiset<Event>, checked: nat, fetched: nat, pushed: nat, k: Key) {
    m[Checked(k)] == checked && m[Fetched(k)] == fetched && m[Pushed(k)] == pushed && m[DidMount(k)] == 0
  }

  lemma FaultCounts(dst: set<Key>, cached: set<Key>, x: Task, a: Action)
    requires a.Fault?
    ensures var m, k := Emitted(dst, cached, x, a), WorkKey(x.kind);
      && EmittedCounts(m, if x.pc.Check? then 1 else 0, if a.fetched then 1 else 0, if a.pushed then 1 else 0, k)
      && m[PostCopied(k)] == 0 && m[CopySkipped(k)] == 0 && m[PreSkipped(k)] == 0 && m[WasMounted(k)] == 0
  {
  }

  lemma FaultSettles(dst: set<Key>, log: multiset<Event>, m: multiset<Event>, cached: bool, pc: Pc, a: Action, k: Key)
    requires a.Fault? && (pc.Check? || pc.Expand? || pc.Transfer? || pc.Notify?) && Accounted(dst, log, cached, pc, k)
    requires EmittedCounts(m, if pc.Check? then 1 else 0, if a.fetched then 1 else 0, if a.pushed then 1 else 0, k)
    requires m[PostCopied(k)] == 0 && m[CopySkipped(k)] == 0 && m[PreSkipped(k)] == 0 && m[WasMounted(k)] == 0
    requires a.fetched ==> (pc.Expand? && IsManifest(k.mediaType)) || (pc.Transfer? && !cached)
    requires a.pushed ==> pc.Transfer?
    ensures Settled(dst, log + m, false, k)
  {
  }

  /** The events of one step match the change of the program counter. */
  lemma OwnAccount(cfg: Config, dst: set<Key>, s: State, t: nat, a: Action, k: Key)
    requires Enabled(cfg, s, t, a) && s.tasks[t].kind == Node(k) && !a.Begin?
    requires Accounted(dst, s.log, k in s.cached, s.tasks[t].pc, k)
    requires s.tasks[t].pc.Check? ==> (k in s.dst <==> k in dst)
    ensures Accounted(dst, s.log + Emitted(s.dst, s.cached, s.tasks[t], a), k in Apply(cfg, s, t, a).cached,
      NewPc(cfg, s, s.tasks[t], a), k)
  {
    var x := s.tasks[t];
    if a.Fault? {
      FaultCounts(s.dst, s.cached, x, a);
      FaultSettles(dst, s.log, Emitted(s.dst, s.cached, x, a), k in s.cached, x.pc, a, k);
    } else {
      PlainAccount(cfg, dst, s, t, a, k);
    }
  }

  lemma PlainAccount(cfg: Config, dst: set<Key>, s: State, t: nat, a: Action, k: Key)
    requires Enabled(cfg, s, t, a) && s.tasks[t].kind == Node(k) && !a.Begin? && !a.Fault?
    requires Accounted(dst, s.log, k in s.cached, s.tasks[t].pc, k)
    requires s.tasks[t].pc.Check? ==> (k in s.dst <==> k in dst)
    ensures Accounted(dst, s.log + Emitted(s.dst, s.cached, s.tasks[t], a), k in Apply(cfg, s, t, a).cached,
      NewPc(cfg, s, s.tasks[t], a), k)
  {
    if a.Push? {
      TransferAccount(cfg, dst, s, t, a, k);
    } else if a.Post? {
      PostAccount(cfg, dst, s, t, a, k);
    } else if a.CheckDestination? || a.FindSuccessors? {
      ReadAccount(cfg, dst, s, t, a, k);
    } else {
      assert Emitted(s.dst, s.cached, s.tasks[t], a) == multiset{};
    }
  }

  lemma TransferAccount(cfg: Config, dst: set<Key>, s: State, t: nat, a: Action, k: Key)
    requires Enabled(cfg, s, t, a) && s.tasks[t].kind == Node(k) && a.Push?
    requires Accounted(dst, s.log, k in s.cached, s.tasks[t].pc, k)
    ensures Accounted(dst, s.log + Emitted(s.dst, s.cached, s.tasks[t], a), k in Apply(cfg, s, t, a).cached,
      NewPc(cfg, s, s.tasks[t], a), k)
  {
  }

  lemma PostAccount(cfg: Config, dst: set<Key>, s: State, t: nat, a: Action, k: Key)
    requires Enabled(cfg, s, t, a) && s.tasks[t].kind == Node(k) && a.Post?
    requires Accounted(dst, s.log, k in s.cached, s.tasks[t].pc, k)
    ensures Accounted(dst, s.log + Emitted(s.dst, s.cached, s.tasks[t], a), k in Apply(cfg, s, t, a).cached,
      NewPc(cfg, s, s.tasks[t], a), k)
  {
  }

  lemma ReadAccount(cfg: Config, dst: set<Key>, s: State, t: nat, a: Action, k: Key)
    requires Enabled(cfg, s, t, a) && s.tasks[t].kind == Node(k) && (a.CheckDestination? || a.FindSuccessors?)
    requires Accounted(dst, s.log, k in s.cached, s.tasks[t].pc, k)
    requires s.tasks[t].pc.Check? ==> (k in s.dst <==> k in dst)
    ensures Accounted(dst, s.log + Emitted(s.dst, s.cached, s.tasks[t], a), k in Apply(cfg, s, t, a).cached,
      NewPc(cfg, s, s.tasks[t], a), k)
  {
  }

  /** A task that lost its key to another one only starts and exits. */
  lemma LostKey(cfg: Config, dst: set<Key>, s: State, t: nat, a: Action, k: Key)
    requires Claims(s) && Enabled(cfg, s, t, a) && !a.AwaitUncommitted? && KeyLogged(dst, s, k)
    requires s.tasks[t].kind == Node(k) && k in s.claimed && s.claimed[k] != t
    ensures KeyLogged(dst, Apply(cfg, s, t, a), k)
  {
    StepFramed(cfg, s, t, a);
    assert TaskClaim(s, t) && ClaimAt(s, k);
    assert a.Begin? || a.Exit?;
    SameAccount(dst, s, Apply(cfg, s, t, a), k);
  }

  lemma OwnKey(cfg: Config, dst: set<Key>, s: State, t: nat, a: Action, k: Key)
    requires Claims(s) && Enabled(cfg, s, t, a) && !a.AwaitUncommitted?
    requires dst <= s.dst && KeyLogged(dst, s, k)
    requires s.tasks[t].kind == Node(k)
    ensures KeyLogged(dst, Apply(cfg, s, t, a), k)
  {
    var s' := Apply(cfg, s, t, a);
    StepFramed(cfg, s, t, a);
    assert TaskClaim(s, t) && ClaimAt(s, k);
    if k in s.claimed && s.claimed[k] != t {
      LostKey(cfg, dst, s, t, a, k);
    } else if a.Begin? {
      assert s'.log == s.log;
    } else {
      OwnAccount(cfg, dst, s, t, a, k);
    }
  }

  lemma StepLogged(cfg: Config, dst: set<Key>, s: State, t: nat, a: Action)
    requires Inv(cfg, s) && Logged(dst, s) && Enabled(cfg, s, t, a) && !a.AwaitUncommitted?
    ensures Logged(dst, Apply(cfg, s, t, a))
  {
    var s' := Apply(cfg, s, t, a);
    forall k
      ensures KeyLogged(dst, s', k)
    {
      assert KeyLogged(dst, s, k);
      if s.tasks[t].kind == Node(k) {
        OwnKey(cfg, dst, s, t, a, k);
      } else {
        OtherKey(cfg, dst, s, t, a, k);
      }
    }
  }

  lemma CancelLogged(dst: set<Key>, s: State)
    requires Claims(s) && Logged(dst, s)
    ensures Logged(dst, s.(external := true))
  {
    forall k
      ensures KeyLogged(dst, s.(external := true), k)
    {
      assert KeyLogged(dst, s, k) && ClaimAt(s, k);
      SameAccount(dst, s, s.(external := true), k);
    }
  }

  lemma {:induction false} ExecutionLogged(cfg: Config, dst: set<Key>, run: seq<State>, n: nat)
    requires ValidConfig(cfg) && Execution(cfg, dst, run) && n < |run|
    ensures Logged(dst, run[n])
  {
    if n > 0 {
      ExecutionLogged(cfg, dst, run, n - 1);
      ExecutionInv(cfg, dst, run, n - 1);
      var s := run[n - 1];
      assert Step(cfg, s, run[n - 1 + 1]);
      if t: nat, a: Action :| TaskStep(cfg, s, t, a, run[n]) {
        StepInv(cfg, s, t, a);
        StepLogged(cfg, dst, s, t, a);
      } else {
        CancelLogged(dst, s);
      }
    }
  }

  /** In a run that succeeded every task has finished, and finished without an error. */
  lemma {:induction false} SuccessIsEverywhere(cfg: Config, s: State, t: nat)
    requires Inv(cfg, s) && Succeeded(s) && t < |s.tasks|
    ensures FinishedOk(s, t)
    decreases t
  {
    if t > 0 {
      assert ParentAt(s, t);
      var p := s.tasks[t].parent;
      SuccessIsEverywhere(cfg, s, p);
      assert Joined(s, p);
    }
  }

  /** When its turn to be copied has come, a node is in the cache if and only if it is a manifest. */
  lemma CachedAtTransfer(cfg: Config, dst: set<Key>, s: State, t: nat)
    requires ValidConfig(cfg) && Reachable(cfg, dst, s) && t < |s.tasks| && s.tasks[t].kind.Node?
    requires s.tasks[t].pc.Transfer?
    ensures s.tasks[t].kind.node in s.cached <==> IsManifest(s.tasks[t].kind.node.mediaType)
  {
    var k := s.tasks[t].kind.node;
    ReachableLogged(cfg, dst, s, k);
    assert TaskClaim(s, t) && KeyLogged(dst, s, k);
  }

  lemma AtMostOnce(dst: set<Key>, s: State, k: Key)
    requires KeyLog(dst, s, k)
    ensures s.log[Checked(k)] <= 1 && s.log[Fetched(k)] <= 1 && s.log[Pushed(k)] <= 1 && s.log[DidMount(k)] <= 1
    ensures Outcomes(s.log, k) <= 1
  {
  }

  lemma ReachableLogged(cfg: Config, dst: set<Key>, s: State, k: Key)
    requires ValidConfig(cfg) && Reachable(cfg, dst, s)
    ensures Inv(cfg, s) && dst <= s.dst && KeyLogged(dst, s, k) && Safe(cfg, dst, s)
  {
    var run :| Execution(cfg, dst, run) && run[|run| - 1] == s;
    ExecutionLogged(cfg, dst, run, |run| - 1);
    ExecutionInv(cfg, dst, run, |run| - 1);
    ExecutionSafe(cfg, dst, run, |run| - 1);
  }

  /** In a run that succeeded every claimed key is in the destination. */
  lemma SuccessIsStored(cfg: Config, dst: set<Key>, s: State, k: Key)
    requires Inv(cfg, s) && Safe(cfg, dst, s) && Succeeded(s) && k in s.claimed
    ensures k in s.dst && FinishedOk(s, s.claimed[k])
  {
    assert ClaimAt(s, k);
    SuccessIsEverywhere(cfg, s, s.claimed[k]);
    assert DoneClosed(s, k);
  }

  /**
   Exactly-once work. In every run a key is existence-checked, fetched from the source, pushed and reported at
   most once, and not at all unless it is claimed. In a run that succeeded each claimed key was checked once and
   reported by exactly one hook: as skipped if and only if the destination held it from the start, as copied if and
   only if it was pushed, and as mounted if and only if it was, which no manifest is; each copied key was fetched from
   the source exactly once, and so was each manifest that was not skipped.
   */
  lemma ExactlyOnce(cfg: Config, dst: set<Key>, s: State, k: Key)
    requires ValidConfig(cfg) && Reachable(cfg, dst, s)
    ensures s.log[Checked(k)] <= 1 && s.log[Fetched(k)] <= 1 && s.log[Pushed(k)] <= 1 && s.log[DidMount(k)] <= 1
    ensures Outcomes(s.log, k) <= 1
    ensures k !in s.claimed ==> Untouched(s.log, k) && (k in s.dst <==> k in dst)
    ensures Succeeded(s) && k in s.claimed ==>
      && k in s.dst && s.log[Checked(k)] == 1 && Outcomes(s.log, k) == 1
      && (s.log[CopySkipped(k)] == 1 <==> k in dst)
      && s.log[Pushed(k)] == s.log[PostCopied(k)]
      && s.log[DidMount(k)] == s.log[WasMounted(k)] && (s.log[WasMounted(k)] == 1 ==> !IsManifest(k.mediaType))
      && (s.log[PostCopied(k)] == 1 ==> s.log[Fetched(k)] == 1)
      && (IsManifest(k.mediaType) && k !in dst ==> s.log[Fetched(k)] == 1)
  {
    ReachableLogged(cfg, dst, s, k);
    assert ClaimAt(s, k);
    AtMostOnce(dst, s, k);
    if Succeeded(s) && k in s.claimed {
      SuccessIsStored(cfg, dst, s, k);
    }
  }
}
