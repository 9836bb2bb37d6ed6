/** Superseded referrers indexes: removed when they are superseded, or all kept when garbage collection is skipped. */
module MergeGarbage {
  import opened Content
  import opened Referrers
  import opened MergeMachine
  import opened MergeInvariant
  import opened MergeRegistry

  // ----- which steps are taken -----

  /** With garbage collection skipped nothing is deleted; without, an index that became empty is not pushed. */
  ghost predicate AllowedAt(skipGC: bool, s: State, c: int) {
    0 <= c < |s.callers| ==>
      && (s.callers[c].pc.Deleting? ==> !skipGC)
      && (s.callers[c].pc.Pushing? && s.callers[c].pc.list == [] ==> skipGC)
  }

  ghost predicate Allowed(skipGC: bool, s: State) {
    forall c {:trigger AllowedAt(skipGC, s, c)} :: AllowedAt(skipGC, s, c)
  }

  lemma StepAllowed(skipGC: bool, s: State, c: nat, a: Action)
    requires Allowed(skipGC, s) && Enabled(s, c, a)
    ensures Allowed(skipGC, Apply(skipGC, s, c, a))
  {
    var s' := Apply(skipGC, s, c, a);
    forall d
      ensures AllowedAt(skipGC, s', d)
    {
      assert AllowedAt(skipGC, s, d);
    }
  }

  lemma EnterAllowed(skipGC: bool, s: State, change: Change)
    requires Allowed(skipGC, s)
    ensures Allowed(skipGC, Enter(s, change))
  {
    forall d
      ensures AllowedAt(skipGC, Enter(s, change), d)
    {
      assert AllowedAt(skipGC, s, d);
    }
  }

  lemma {:induction false} ExecutionAllowed(skipGC: bool, tag: Option<Index>, run: seq<State>, n: nat)
    requires Execution(skipGC, tag, run) && n < |run|
    ensures Allowed(skipGC, run[n])
  {
    if n > 0 {
      ExecutionAllowed(skipGC, tag, run, n - 1);
      var s := run[n - 1];
      assert Step(skipGC, s, run[n - 1 + 1]);
      if c: nat, a: Action :| CallerStep(skipGC, s, c, a, run[n]) {
        StepAllowed(skipGC, s, c, a);
      } else {
        var change :| Arrival(s, change, run[n]);
        EnterAllowed(skipGC, s, change);
      }
    }
  }

  /** With garbage collection skipped no caller is ever about to delete an index. */
  lemma SkippedNeverDeletes(tag: Option<Index>, s: State, c: nat)
    requires Reachable(true, tag, s) && c < |s.callers|
    ensures !s.callers[c].pc.Deleting?
  {
    var run :| Execution(true, tag, run) && run[|run| - 1] == s;
    ExecutionAllowed(true, tag, run, |run| - 1);
    assert AllowedAt(true, s, c);
  }

  // ----- what is stored -----

  /** The caller carries no failure. */
  predicate Unharmed(pc: Pc) {
    (pc.Committing? || pc.Resolving? || pc.Notifying? || pc.Staging? || pc.Releasing? || pc.Gone?) ==> pc.err.None?
  }

  ghost predicate NoFailure(s: State) {
    forall c :: 0 <= c < |s.callers| ==> Unharmed(s.callers[c].pc)
  }

  /** `x` has been superseded, and some caller is about to delete it. */
  ghost predicate Doomed(s: State, x: Index) {
    exists c :: 0 <= c < |s.callers| && s.callers[c].pc == Deleting(x, true)
  }

  ghost predicate SweptAt(s: State, x: Index) {
    x in s.stored <==> s.tag == Some(x) || Doomed(s, x)
  }

  /**
   What the tag points to is stored. As long as nothing failed, nothing else is, except what is about to be deleted.
   */
  ghost predicate Swept(skipGC: bool, s: State) {
    && (s.tag.Some? ==> s.tag.value in s.stored)
    && (!skipGC && NoFailure(s) ==> forall x {:trigger SweptAt(s, x)} :: SweptAt(s, x))
  }

  /** A failure is never forgotten. */
  lemma FailureLasts(skipGC: bool, s: State, c: nat, a: Action)
    requires Enabled(s, c, a) && NoFailure(Apply(skipGC, s, c, a))
    ensures NoFailure(s)
  {
    var s' := Apply(skipGC, s, c, a);
    forall d | 0 <= d < |s.callers|
      ensures Unharmed(s.callers[d].pc)
    {
      assert Unharmed(s'.callers[d].pc);
    }
  }

  /** The step of a caller that is neither at the push nor at the deletion of an index. */
  lemma PlainDoomed(skipGC: bool, s: State, c: nat, a: Action, x: Index)
    requires Enabled(s, c, a) && !a.PushIndex? && !a.DeleteIndex?
    ensures Doomed(Apply(skipGC, s, c, a), x) <==> Doomed(s, x)
  {
    var s' := Apply(skipGC, s, c, a);
    assert !s.callers[c].pc.Deleting? && s'.callers[c].pc != Deleting(x, true);
    if d :| 0 <= d < |s.callers| && s.callers[d].pc == Deleting(x, true) {
      assert s'.callers[d].pc == Deleting(x, true);
    }
    if d :| 0 <= d < |s'.callers| && s'.callers[d].pc == Deleting(x, true) {
      assert s.callers[d].pc == Deleting(x, true);
    }
  }

  /** While the only main caller is at another step, no index is about to be deleted. */
  lemma OnlyMainDooms(s: State, c: nat, x: Index)
    requires MainInv(s) && MainAt(s, c) && s.callers[c].pc != Deleting(x, true)
    ensures !Doomed(s, x)
  {
    if d :| 0 <= d < |s.callers| && s.callers[d].pc == Deleting(x, true) {
      assert MainAt(s, d);
    }
  }

  lemma MainAfter(skipGC: bool, s: State, c: nat, a: Action, x: Index)
    requires MainInv(s) && MainAt(s, c) && Enabled(s, c, a)
    ensures Doomed(Apply(skipGC, s, c, a), x) <==> NewPc(skipGC, s, c, a) == Deleting(x, true)
  {
    var s' := Apply(skipGC, s, c, a);
    forall d | 0 <= d < |s'.callers| && d != c
      ensures s'.callers[d].pc != Deleting(x, true)
    {
      assert !MainAt(s, d);
    }
    assert s'.callers[c].pc == NewPc(skipGC, s, c, a);
  }

  lemma PushSwept(skipGC: bool, s: State, c: nat, a: Action, x: Index)
    requires Inv(s) && Views(s) && Enabled(s, c, a) && a.PushIndex? && !skipGC && NoFailure(Apply(skipGC, s, c, a))
    requires SweptAt(s, x)
    ensures SweptAt(Apply(skipGC, s, c, a), x)
  {
    assert MainAt(s, c) && ViewOk(s, c);
    assert Apply(skipGC, s, c, a).callers[c].pc == NewPc(skipGC, s, c, a);
    OnlyMainDooms(s, c, x);
    MainAfter(skipGC, s, c, a, x);
  }

  lemma DeleteSwept(skipGC: bool, s: State, c: nat, a: Action, x: Index)
    requires Inv(s) && Views(s) && Enabled(s, c, a) && a.DeleteIndex? && !skipGC && NoFailure(Apply(skipGC, s, c, a))
    requires SweptAt(s, x)
    ensures SweptAt(Apply(skipGC, s, c, a), x)
  {
    assert MainAt(s, c) && ViewOk(s, c);
    assert Apply(skipGC, s, c, a).callers[c].pc == NewPc(skipGC, s, c, a);
    if s.callers[c].pc != Deleting(x, true) {
      OnlyMainDooms(s, c, x);
    }
    MainAfter(skipGC, s, c, a, x);
  }

  lemma StepSwept(skipGC: bool, s: State, c: nat, a: Action)
    requires Inv(s) && Views(s) && Enabled(s, c, a) && Swept(skipGC, s)
    ensures Swept(skipGC, Apply(skipGC, s, c, a))
  {
    var s' := Apply(skipGC, s, c, a);
    if a.DeleteIndex? {
      assert MainAt(s, c) && ViewOk(s, c);
    }
    if !skipGC && NoFailure(s') {
      FailureLasts(skipGC, s, c, a);
      forall x
        ensures SweptAt(s', x)
      {
        assert SweptAt(s, x);
        if a.PushIndex? {
          PushSwept(skipGC, s, c, a, x);
        } else if a.DeleteIndex? {
          DeleteSwept(skipGC, s, c, a, x);
        } else {
          PlainDoomed(skipGC, s, c, a, x);
        }
      }
    }
  }

  lemma EnterSwept(skipGC: bool, s: State, change: Change)
    requires Swept(skipGC, s)
    ensures Swept(skipGC, Enter(s, change))
  {
    var s' := Enter(s, change);
    assert forall d :: 0 <= d < |s.callers| ==> s'.callers[d] == s.callers[d];
    forall x
      ensures NoFailure(s') ==> NoFailure(s)
      ensures Doomed(s', x) <==> Doomed(s, x)
    {
      if d :| 0 <= d < |s.callers| && s.callers[d].pc == Deleting(x, true) {
        assert s'.callers[d].pc == Deleting(x, true);
      }
    }
    forall x
      ensures SweptAt(s, x) ==> SweptAt(s', x)
    {
    }
  }

  lemma StartSwept(skipGC: bool, tag: Option<Index>)
    ensures Swept(skipGC, Initial(tag))
  {
    forall x
      ensures SweptAt(Initial(tag), x)
    {
    }
  }

  lemma NextSwept(skipGC: bool, s: State, s': State)
    requires Inv(s) && Views(s) && Swept(skipGC, s) && Step(skipGC, s, s')
    ensures Swept(skipGC, s')
  {
    if c: nat, a: Action :| CallerStep(skipGC, s, c, a, s') {
      StepSwept(skipGC, s, c, a);
    } else {
      var change :| Arrival(s, change, s');
      EnterSwept(skipGC, s, change);
    }
  }

  lemma {:induction false} ExecutionSwept(skipGC: bool, tag: Option<Index>, run: seq<State>, n: nat)
    requires Execution(skipGC, tag, run) && n < |run|
    ensures Swept(skipGC, run[n])
  {
    if n == 0 {
      StartSwept(skipGC, tag);
    } else {
      ExecutionSwept(skipGC, tag, run, n - 1);
      ExecutionInv(skipGC, tag, run, n - 1);
      ExecutionRegistered(skipGC, tag, run, n - 1);
      assert Step(skipGC, run[n - 1], run[n - 1 + 1]);
      NextSwept(skipGC, run[n - 1], run[n]);
    }
  }

  /** When every call has returned without an error, only the index under the tag is stored: the others are gone. */
  lemma SupersededIsGone(tag: Option<Index>, s: State)
    requires Reachable(false, tag, s) && forall c :: 0 <= c < |s.callers| ==> s.callers[c].pc == Gone(None)
    ensures s.stored == if s.tag.Some? then {s.tag.value} else {}
  {
    var run :| Execution(false, tag, run) && run[|run| - 1] == s;
    ExecutionSwept(false, tag, run, |run| - 1);
    forall x
      ensures x in s.stored <==> s.tag == Some(x)
    {
      assert SweptAt(s, x);
    }
  }

  // ----- garbage collection skipped -----

  /** The tag points, or pointed, to `x` at one of the first `n + 1` states. */
  ghost predicate WasTagged(run: seq<State>, n: nat, x: Index) {
    exists i :: 0 <= i <= n && i < |run| && run[i].tag == Some(x)
  }

  /** With garbage collection skipped everything that the tag ever pointed to stays, and nothing else is stored. */
  lemma {:induction false} SkippedKeepsAll(tag: Option<Index>, run: seq<State>, n: nat, x: Index)
    requires Execution(true, tag, run) && n < |run|
    ensures x in run[n].stored <==> WasTagged(run, n, x)
  {
    if n > 0 {
      SkippedKeepsAll(tag, run, n - 1, x);
      ExecutionAllowed(true, tag, run, n - 1);
      ExecutionSwept(true, tag, run, n);
      var s, s' := run[n - 1], run[n];
      assert Step(true, s, run[n - 1 + 1]);
      if c: nat, a: Action :| CallerStep(true, s, c, a, s') {
        assert AllowedAt(true, s, c);
        assert s'.stored == s.stored || s'.stored == s.stored + (if s'.tag.Some? then {s'.tag.value} else {});
      }
      if WasTagged(run, n, x) && !WasTagged(run, n - 1, x) {
        assert run[n].tag == Some(x);
      }
      if WasTagged(run, n - 1, x) {
        var i :| 0 <= i <= n - 1 && i < |run| && run[i].tag == Some(x);
        assert i <= n;
      }
    }
  }

  /** The empty index: it is pushed only if the old one is not deleted, and then the tag never goes away. */
  ghost predicate TagShape(skipGC: bool, tag0: Option<Index>, tag: Option<Index>) {
    && (!skipGC && tag.Some? && tag.value.list == [] ==> tag == tag0)
    && (skipGC && tag0.Some? ==> tag.Some?)
  }

  lemma {:induction false} EmptyIndex(skipGC: bool, tag: Option<Index>, run: seq<State>, n: nat)
    requires Execution(skipGC, tag, run) && n < |run|
    ensures TagShape(skipGC, tag, run[n].tag)
  {
    if n > 0 {
      EmptyIndex(skipGC, tag, run, n - 1);
      ExecutionAllowed(skipGC, tag, run, n - 1);
      var s := run[n - 1];
      assert Step(skipGC, s, run[n - 1 + 1]);
      if c: nat, a: Action :| CallerStep(skipGC, s, c, a, run[n]) {
        assert AllowedAt(skipGC, s, c);
      }
    }
  }
}
