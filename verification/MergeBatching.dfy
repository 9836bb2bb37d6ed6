/** Leader and follower batching: who belongs to a batch, who resolves it, and what everybody is told. */
module MergeBatching {
  import opened Content
  import opened MergeMachine
  import opened MergeInvariant

  /** The assignment window of batch `b` is closed. */
  ghost predicate WindowClosed(s: State, b: nat) {
    b < |s.channels| && (s.channels[b].result.Some? || (Cur(s).status == Some(b) && Cur(s).committed))
  }

  lemma WindowStaysClosed(skipGC: bool, s: State, c: nat, a: Action, b: nat)
    requires Inv(s) && Enabled(s, c, a) && WindowClosed(s, b)
    ensures WindowClosed(Apply(skipGC, s, c, a), b)
    ensures Apply(skipGC, s, c, a).channels[b].members == s.channels[b].members
  {
    StepFramed(skipGC, s, c, a);
    StepCur(skipGC, s, c, a);
    assert ChannelOk(s, b);
    if a.Stage? && Cur(s).status == Some(b) {
      assert MainAt(s, c);
      assert MainOk(s, b, c);
    }
    if s.channels[b].result.Some? {
      ResultStable(skipGC, s, c, a, b);
      if d :| MainAt(s, d) {
        assert Cur(s).status == Some(b) ==> MainOk(s, b, d);
      }
    }
  }

  /** After the commit nobody joins a batch any more, for the rest of the run. */
  lemma {:induction false} CommitIsFinal(skipGC: bool, tag: Option<Index>, run: seq<State>, i: nat, j: nat, b: nat)
    requires Execution(skipGC, tag, run) && i <= j < |run| && WindowClosed(run[i], b)
    ensures WindowClosed(run[j], b) && run[j].channels[b].members == run[i].channels[b].members
    decreases j - i
  {
    if i < j {
      CommitIsFinal(skipGC, tag, run, i, j - 1, b);
      ExecutionInv(skipGC, tag, run, j - 1);
      var s := run[j - 1];
      assert Step(skipGC, s, run[j - 1 + 1]);
      if c: nat, a: Action :| CallerStep(skipGC, s, c, a, run[j]) {
        WindowStaysClosed(skipGC, s, c, a, b);
      } else {
        var change :| Arrival(s, change, run[j]);
        assert Cur(Enter(s, change)) == Cur(s);
      }
    }
  }

  /**
   Batching. At every point of every run: a call that has been assigned belongs to exactly one batch; at most one
   caller is the main one; each batch hands out at most one main token, and exactly one if it has a result; what the
   main caller passes to `resolve` is its whole batch; every caller returns the result of its own batch; and when an
   error is being sent out, the messages sent and still to be sent are exactly as many as there are callers waiting.
   */
  lemma Batching(skipGC: bool, tag: Option<Index>, s: State)
    requires Reachable(skipGC, tag, s)
    ensures forall b: nat, c: nat :: b < |s.channels| ==>
      (c in s.channels[b].members <==> c < |s.callers| && !s.callers[c].pc.Entered? && s.callers[c].ch == b)
    ensures forall b :: 0 <= b < |s.channels| ==>
      && NoRepeats(s.channels[b].members) && s.channels[b].mains <= 1
      && (s.channels[b].result.Some? ==> s.channels[b].mains == 1)
    ensures forall c, d :: MainAt(s, c) && MainAt(s, d) ==> c == d
    ensures forall c :: MainAt(s, c) && s.callers[c].pc.Resolving? ==>
      s.callers[c].ch < |s.channels| && WindowClosed(s, s.callers[c].ch) && s.callers[c].inst < |s.merges| &&
      s.merges[s.callers[c].inst].items == s.channels[s.callers[c].ch].members
    ensures forall c :: 0 <= c < |s.callers| && s.callers[c].pc.Gone? ==>
      s.callers[c].ch < |s.channels| && s.channels[s.callers[c].ch].result == Some(s.callers[c].pc.err)
    ensures forall c :: MainAt(s, c) && s.callers[c].pc.Notifying? && s.callers[c].pc.err.Some? ==>
      s.callers[c].ch < |s.channels| &&
      |Waiters(s, s.callers[c].ch)| == s.callers[c].pc.left + |s.channels[s.callers[c].ch].buffer|
  {
    var run :| Execution(skipGC, tag, run) && run[|run| - 1] == s;
    ExecutionInv(skipGC, tag, run, |run| - 1);
    forall b: nat, c: nat | b < |s.channels|
      ensures c in s.channels[b].members <==> c < |s.callers| && !s.callers[c].pc.Entered? && s.callers[c].ch == b
    {
      assert Placed(s, c);
      if c in s.channels[b].members {
        MemberBelongs(s, b, c);
      }
    }
    forall b | 0 <= b < |s.channels|
      ensures s.channels[b].mains <= 1 && (s.channels[b].result.Some? ==> s.channels[b].mains == 1)
    {
      TokenCount(s, b);
    }
    forall c | MainAt(s, c)
      ensures s.callers[c].ch < |s.channels| && MainOk(s, s.callers[c].ch, c)
    {
      assert ChannelOk(s, s.callers[c].ch);
    }
    forall c | 0 <= c < |s.callers|
      ensures s.callers[c].pc.Gone? ==>
        s.callers[c].ch < |s.channels| && s.channels[s.callers[c].ch].result == Some(s.callers[c].pc.err)
    {
      assert Informed(s, c);
    }
  }

  lemma TokenCount(s: State, b: nat)
    requires Inv(s) && b < |s.channels|
    ensures s.channels[b].mains <= 1 && (s.channels[b].result.Some? ==> s.channels[b].mains == 1)
  {
    assert ChannelOk(s, b);
    if c :| MainAt(s, c) {
      assert Cur(s).status == Some(b) ==> MainOk(s, b, c);
    } else {
      assert NoMain(s);
    }
  }
}
