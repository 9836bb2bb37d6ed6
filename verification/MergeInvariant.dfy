/** What every step of the merge protocol keeps. */
module MergeInvariant {
  import opened Content
  import opened Referrers
  import opened MergeMachine

  // ----- the pool -----

  function Active(callers: seq<Caller>): nat {
    if callers == [] then 0
    else Active(callers[..|callers| - 1]) + if callers[|callers| - 1].pc.Gone? then 0 else 1
  }

  /** The pool counts the callers that use the merge object, and they all use the same one. */
  ghost predicate PoolInv(s: State) {
    && (forall c :: 0 <= c < |s.callers| ==> s.callers[c].inst < |s.merges|)
    && (s.pool.None? ==> Active(s.callers) == 0)
    && (s.pool.Some? ==>
          && s.pool.value.inst < |s.merges|
          && s.pool.value.refs == Active(s.callers) >= 1
          && forall c :: 0 <= c < |s.callers| && !s.callers[c].pc.Gone? ==> s.callers[c].inst == s.pool.value.inst)
  }

  /** The merge object in use. */
  function Cur(s: State): Merge {
    if s.pool.Some? && s.pool.value.inst < |s.merges| then s.merges[s.pool.value.inst] else FRESH
  }

  // ----- batches and their main caller -----

  ghost predicate MainAt(s: State, c: int) {
    0 <= c < |s.callers| && IsMain(s.callers[c].pc)
  }

  ghost predicate NoMain(s: State) {
    forall c :: !MainAt(s, c)
  }

  /** At most one main caller, working on the open batch; the batch is committed exactly while it is past commit. */
  ghost predicate MainInv(s: State) {
    var m := Cur(s);
    && (forall c, d :: MainAt(s, c) && MainAt(s, d) ==> c == d)
    && (forall c :: MainAt(s, c) ==>
          m.status == Some(s.callers[c].ch) && (m.committed <==> PastCommit(s.callers[c].pc)))
    && (m.committed ==> !NoMain(s))
  }

  ghost predicate BatchInv(s: State) {
    var m := Cur(s);
    && (m.status.None? ==> m == FRESH)
    && (m.status.Some? ==>
          m.items != [] && m.status.value < |s.channels| && m.items == s.channels[m.status.value].members)
    && (m.pendingStatus.None? ==> m.pending == [])
    && (m.pendingStatus.Some? ==>
          m.committed && m.pendingStatus != m.status && m.pending != [] &&
          m.pendingStatus.value < |s.channels| && m.pending == s.channels[m.pendingStatus.value].members)
  }

  /** A caller that has been assigned is a member of its batch. */
  ghost predicate Placed(s: State, c: int) {
    0 <= c < |s.callers| && !s.callers[c].pc.Entered? ==>
      s.callers[c].ch < |s.channels| && c in s.channels[s.callers[c].ch].members
  }

  /** The `i`-th member of batch `b` is a caller assigned to it. */
  ghost predicate MemberOk(s: State, b: int, i: int) {
    0 <= b < |s.channels| && 0 <= i < |s.channels[b].members| ==>
      var c := s.channels[b].members[i];
      c < |s.callers| && s.callers[c].ch == b && !s.callers[c].pc.Entered?
  }

  ghost predicate MemberInv(s: State) {
    && (forall c :: Placed(s, c))
    && (forall b, i :: MemberOk(s, b, i))
    && (forall b :: 0 <= b < |s.channels| ==> NoRepeats(s.channels[b].members))
  }

  // ----- channels -----

  /** The members of batch `b` that still wait. */
  ghost function Waiters(s: State, b: nat): set<nat>
    requires b < |s.channels|
  {
    set c | c in s.channels[b].members && c < |s.callers| && s.callers[c].pc.Waiting?
  }

  ghost predicate AllWaitBut(s: State, b: nat, main: int)
    requires b < |s.channels|
  {
    forall c :: c in s.channels[b].members && c < |s.callers| && c != main ==> s.callers[c].pc.Waiting?
  }

  ghost predicate OnlyErrors(buffer: seq<Status>, err: Option<nat>) {
    |buffer| <= 1 && forall i :: 0 <= i < |buffer| ==> buffer[i] == Status(false, err)
  }

  /** A batch that is over: its channel is closed, or holds exactly the messages that are still waited for. */
  ghost predicate Settled(s: State, b: nat, err: Option<nat>)
    requires b < |s.channels|
  {
    var ch := s.channels[b];
    && ch.result == Some(err) && ch.mains == 1
    && if err.None? then ch.closed && ch.buffer == []
       else !ch.closed && OnlyErrors(ch.buffer, err) && |Waiters(s, b)| == |ch.buffer|
  }

  /** A batch that gathers: nobody has been told anything yet, except perhaps the main caller. */
  ghost predicate Gathering(s: State, b: nat, token: bool, main: int)
    requires b < |s.channels|
  {
    var ch := s.channels[b];
    && !ch.closed && ch.result == None && ch.mains == (if main >= 0 then 1 else 0)
    && ch.buffer == (if token then [Status(true, None)] else []) && AllWaitBut(s, b, main)
  }

  /** The channel of the open batch, whose main caller is `c`. */
  ghost predicate MainOk(s: State, b: nat, c: int)
    requires b < |s.channels| && MainAt(s, c)
  {
    var ch := s.channels[b];
    match s.callers[c].pc
    case Notifying(err, left) =>
      && ch.result == Some(err) && !ch.closed && ch.mains == 1
      && if err.None? then ch.buffer == []
         else OnlyErrors(ch.buffer, err) && |Waiters(s, b)| == left + |ch.buffer|
    case Staging(err) => Settled(s, b, err)
    case _ => Gathering(s, b, false, c)
  }

  ghost predicate ChannelOk(s: State, b: int) {
    0 <= b < |s.channels| ==>
      var m := Cur(s);
      if m.status == Some(b) then
        (NoMain(s) ==> Gathering(s, b, true, -1)) && (forall c :: MainAt(s, c) ==> MainOk(s, b, c))
      else if m.pendingStatus == Some(b) then Gathering(s, b, false, -1)
      else s.channels[b].result.Some? && Settled(s, b, s.channels[b].result.value)
  }

  /** A caller that is on its way out carries the result of its own batch. */
  ghost predicate Informed(s: State, c: int) {
    0 <= c < |s.callers| && (s.callers[c].pc.Releasing? || s.callers[c].pc.Gone?) ==>
      s.callers[c].ch < |s.channels| && s.channels[s.callers[c].ch].result == Some(s.callers[c].pc.err)
  }

  ghost predicate Inv(s: State) {
    && PoolInv(s) && MainInv(s) && BatchInv(s) && MemberInv(s)
    && (forall b :: ChannelOk(s, b)) && (forall c :: Informed(s, c))
  }

  // ----- pool steps -----

  lemma {:induction false} ActiveUpdate(callers: seq<Caller>, c: nat, x: Caller)
    requires c < |callers|
    ensures Active(callers[c := x]) ==
            Active(callers) - (if callers[c].pc.Gone? then 0 else 1) + (if x.pc.Gone? then 0 else 1)
  {
    var m := |callers| - 1;
    if c == m {
      assert callers[c := x][..m] == callers[..m];
    } else {
      assert callers[c := x][..m] == callers[..m][c := x];
      ActiveUpdate(callers[..m], c, x);
    }
  }

  lemma ActiveAppend(callers: seq<Caller>, x: Caller)
    ensures Active(callers + [x]) == Active(callers) + if x.pc.Gone? then 0 else 1
  {
    assert (callers + [x])[..|callers|] == callers;
  }

  lemma {:induction false} NoneActive(callers: seq<Caller>, c: nat)
    requires Active(callers) == 0 && c < |callers|
    ensures callers[c].pc.Gone?
  {
    var m := |callers| - 1;
    if c < m {
      NoneActive(callers[..m], c);
    }
  }

  lemma EnterPool(s: State, change: Change)
    requires PoolInv(s)
    ensures PoolInv(Enter(s, change))
  {
    ActiveAppend(s.callers, Enter(s, change).callers[|s.callers|]);
    if s.pool.None? {
      forall c | 0 <= c < |s.callers|
        ensures s.callers[c].pc.Gone?
      {
        NoneActive(s.callers, c);
      }
    }
  }

  lemma StepPool(skipGC: bool, s: State, c: nat, a: Action)
    requires PoolInv(s) && Enabled(s, c, a)
    ensures PoolInv(Apply(skipGC, s, c, a))
    ensures s.pool.Some? && s.callers[c].inst == s.pool.value.inst
  {
    var s' := Apply(skipGC, s, c, a);
    if s.pool.None? {
      NoneActive(s.callers, c);
    }
    ActiveUpdate(s.callers, c, s'.callers[c]);
    if s'.pool.Some? {
      assert s'.pool.value.inst == s.pool.value.inst;
    }
  }

  /** When the last caller leaves, the merge object is as good as new. */
  lemma QuiescentIsFresh(s: State)
    requires Inv(s) && forall c :: 0 <= c < |s.callers| ==> s.callers[c].pc.Releasing? || s.callers[c].pc.Gone?
    ensures Cur(s) == FRESH
  {
    var m := Cur(s);
    if m.status.Some? {
      var b := m.status.value;
      assert ChannelOk(s, b) && MemberOk(s, b, 0);
      assert NoMain(s);
    }
  }

  lemma StepCur(skipGC: bool, s: State, c: nat, a: Action)
    requires Inv(s) && Enabled(s, c, a)
    ensures Cur(Apply(skipGC, s, c, a)) == NewMerge(s, Cur(s), c, a)
    ensures Cur(s) == s.merges[s.callers[c].inst]
  {
    StepPool(skipGC, s, c, a);
    var s' := Apply(skipGC, s, c, a);
    if s'.pool.None? {
      forall d | 0 <= d < |s.callers|
        ensures s.callers[d].pc.Releasing? || s.callers[d].pc.Gone?
      {
        NoneActive(s'.callers, d);
      }
      QuiescentIsFresh(s);
    }
  }

  // ----- the main caller and the batches -----

  /** Before the token of the open batch is taken there is no main caller. */
  lemma TokenMeansNoMain(s: State, c: nat)
    requires Inv(s) && c < |s.callers| && s.callers[c].pc.Waiting?
    requires s.callers[c].ch < |s.channels| && s.channels[s.callers[c].ch].buffer != []
    requires s.channels[s.callers[c].ch].buffer[0].main
    ensures NoMain(s) && Cur(s).status == Some(s.callers[c].ch)
  {
    var b := s.callers[c].ch;
    assert ChannelOk(s, b);
  }

  /** A caller is main after its step if it was before and has not staged, or if it has taken the token. */
  lemma OwnMain(skipGC: bool, s: State, c: nat, a: Action)
    requires Inv(s) && Enabled(s, c, a) && IsMain(NewPc(skipGC, s, c, a))
    ensures MainAt(s, c) || NoMain(s)
    ensures var m := NewMerge(s, Cur(s), c, a);
      m.status == Some(s.callers[c].ch) && (m.committed <==> PastCommit(NewPc(skipGC, s, c, a)))
  {
    if a.Receive? {
      TokenMeansNoMain(s, c);
    } else {
      assert MainAt(s, c);
    }
  }

  lemma StepMain(skipGC: bool, s: State, c: nat, a: Action)
    requires Inv(s) && Enabled(s, c, a)
    ensures MainInv(Apply(skipGC, s, c, a))
  {
    StepCur(skipGC, s, c, a);
    var s' := Apply(skipGC, s, c, a);
    assert forall d {:trigger MainAt(s', d)} :: d != c ==> (MainAt(s', d) <==> MainAt(s, d));
    if MainAt(s', c) {
      OwnMain(skipGC, s, c, a);
    } else if a.Stage? {
      assert MainAt(s, c);
    } else if !NoMain(s) {
      var d :| MainAt(s, d);
      assert MainAt(s', d);
    }
  }

  lemma StepBatch(skipGC: bool, s: State, c: nat, a: Action)
    requires Inv(s) && Enabled(s, c, a)
    ensures BatchInv(Apply(skipGC, s, c, a))
  {
    StepCur(skipGC, s, c, a);
    if a.Commit? || a.Stage? {
      assert MainAt(s, c);
    }
  }

  /** A step moves one caller; only `assign` changes who belongs to a batch. */
  ghost predicate Framed(s: State, c: nat, a: Action, s': State) {
    && c < |s.callers| == |s'.callers| && |s.channels| <= |s'.channels|
    && (forall d :: 0 <= d < |s.callers| && d != c ==> s'.callers[d] == s.callers[d])
    && !s'.callers[c].pc.Entered? && (s.callers[c].pc.Entered? <==> a.Assign?)
    && s'.callers[c].change == s.callers[c].change
    && (if a.Assign? then s'.callers[c].ch < |s'.channels|
        else s'.callers[c].ch == s.callers[c].ch && |s'.channels| == |s.channels|)
    && (forall b :: 0 <= b < |s.channels| ==>
          s'.channels[b].members ==
            if a.Assign? && b == s'.callers[c].ch then s.channels[b].members + [c] else s.channels[b].members)
    && (forall b :: |s.channels| <= b < |s'.channels| ==> b == s'.callers[c].ch && s'.channels[b].members == [c])
  }

  lemma StepFramed(skipGC: bool, s: State, c: nat, a: Action)
    requires Inv(s) && Enabled(s, c, a)
    ensures Framed(s, c, a, Apply(skipGC, s, c, a))
  {
    StepCur(skipGC, s, c, a);
  }

  lemma StepMembers(s: State, c: nat, a: Action, s': State)
    requires MemberInv(s) && Framed(s, c, a, s')
    ensures MemberInv(s')
  {
    forall d
      ensures Placed(s', d)
    {
      assert Placed(s, d);
    }
    forall b, i
      ensures MemberOk(s', b, i)
    {
      assert MemberOk(s, b, i);
    }
    forall b | 0 <= b < |s'.channels|
      ensures NoRepeats(s'.channels[b].members)
    {
      if b < |s.channels| {
        forall i | 0 <= i < |s.channels[b].members| && a.Assign?
          ensures s.channels[b].members[i] != c
        {
          assert MemberOk(s, b, i);
        }
      }
    }
  }

  // ----- channels -----

  /** Batch `b` looks the same from both states. */
  ghost predicate SameView(s: State, s': State, b: nat) {
    && b < |s.channels| && b < |s'.channels| && s'.channels[b] == s.channels[b]
    && (Cur(s).status == Some(b) <==> Cur(s').status == Some(b))
    && (Cur(s).pendingStatus == Some(b) <==> Cur(s').pendingStatus == Some(b))
    && (forall d :: d in s.channels[b].members ==>
          d < |s.callers| && d < |s'.callers| && (s.callers[d].pc.Waiting? <==> s'.callers[d].pc.Waiting?))
    && (Cur(s).status == Some(b) ==>
          forall d :: (MainAt(s, d) <==> MainAt(s', d)) && (MainAt(s, d) ==> s.callers[d].pc == s'.callers[d].pc))
  }

  lemma ViewKept(s: State, s': State, b: nat)
    requires ChannelOk(s, b) && SameView(s, s', b)
    ensures ChannelOk(s', b)
  {
    assert Waiters(s', b) == Waiters(s, b);
    if Cur(s).status == Some(b) {
      assert NoMain(s') ==> NoMain(s);
      forall d | MainAt(s', d)
        ensures MainOk(s', b, d)
      {
        assert MainAt(s, d) && MainOk(s, b, d);
      }
    }
  }

  lemma MemberBelongs(s: State, b: nat, d: nat)
    requires MemberInv(s) && b < |s.channels| && d in s.channels[b].members
    ensures d < |s.callers| && s.callers[d].ch == b && !s.callers[d].pc.Entered?
  {
    var i :| 0 <= i < |s.channels[b].members| && s.channels[b].members[i] == d;
    assert MemberOk(s, b, i);
  }

  /** A step of a main caller is that of the only one. */
  lemma OnlyMain(s: State, c: nat, a: Action, s': State)
    requires MainInv(s) && MainAt(s, c) && Framed(s, c, a, s')
    ensures forall d {:trigger MainAt(s', d)} :: MainAt(s', d) ==> d == c
  {
    forall d | MainAt(s', d)
      ensures d == c
    {
      assert d == c || MainAt(s, d);
    }
  }

  /** Only assigning, staging and one's own channel are touched by a step. */
  lemma OtherChannelSame(skipGC: bool, s: State, c: nat, a: Action, b: nat)
    requires Enabled(s, c, a) && b < |s.channels| && b != Apply(skipGC, s, c, a).callers[c].ch
    requires a.Stage? ==> s.merges[s.callers[c].inst].pendingStatus != Some(b)
    ensures b < |Apply(skipGC, s, c, a).channels| && Apply(skipGC, s, c, a).channels[b] == s.channels[b]
  {
  }

  lemma OtherStatusSame(s: State, m: Merge, c: nat, a: Action, b: nat, own: nat)
    requires b != own && (a.Assign? ==> own == AssignedChannel(s, m))
    requires a.Stage? ==> m.status == Some(own) && m.pendingStatus != Some(b)
    ensures m.status == Some(b) <==> NewMerge(s, m, c, a).status == Some(b)
    ensures m.pendingStatus == Some(b) <==> NewMerge(s, m, c, a).pendingStatus == Some(b)
  {
  }

  /** A step of caller `c` does not show on the main caller of a batch it does not belong to. */
  lemma OtherMainSame(skipGC: bool, s: State, c: nat, a: Action, b: nat, d: int)
    requires Inv(s) && Enabled(s, c, a) && Cur(s).status == Some(b) && Framed(s, c, a, Apply(skipGC, s, c, a))
    requires b != Apply(skipGC, s, c, a).callers[c].ch
    ensures MainAt(s, d) <==> MainAt(Apply(skipGC, s, c, a), d)
    ensures MainAt(s, d) ==> s.callers[d].pc == Apply(skipGC, s, c, a).callers[d].pc
  {
    if d == c {
      assert !MainAt(s, c);
      if a.Receive? && MainAt(Apply(skipGC, s, c, a), c) {
        TokenMeansNoMain(s, c);
      }
    }
  }

  /** A step of caller `c` does not show on the batches it does not belong to. */
  lemma OtherBatch(skipGC: bool, s: State, c: nat, a: Action, b: nat)
    requires Inv(s) && Enabled(s, c, a) && b < |s.channels| && ChannelOk(s, b)
    requires b != Apply(skipGC, s, c, a).callers[c].ch
    requires a.Stage? ==> Cur(s).pendingStatus != Some(b)
    ensures ChannelOk(Apply(skipGC, s, c, a), b)
  {
    var s' := Apply(skipGC, s, c, a);
    StepCur(skipGC, s, c, a);
    StepFramed(skipGC, s, c, a);
    OtherChannelSame(skipGC, s, c, a, b);
    assert a.Stage? ==> MainAt(s, c);
    OtherStatusSame(s, Cur(s), c, a, b, s'.callers[c].ch);
    forall d | d in s.channels[b].members
      ensures d < |s.callers| && s.callers[d].pc.Waiting? == s'.callers[d].pc.Waiting?
    {
      MemberBelongs(s, b, d);
    }
    if Cur(s).status == Some(b) {
      forall d
        ensures MainAt(s, d) <==> MainAt(s', d)
        ensures MainAt(s, d) ==> s.callers[d].pc == s'.callers[d].pc
      {
        OtherMainSame(skipGC, s, c, a, b, d);
      }
    }
    ViewKept(s, s', b);
  }

  /** What assigning a caller does to its batch: it joins an open one, or opens one. */
  lemma AssignEffect(skipGC: bool, s: State, c: nat)
    requires Enabled(s, c, Assign)
    ensures var m := s.merges[s.callers[c].inst];
      var b, s' := AssignedChannel(s, m), Apply(skipGC, s, c, Assign);
      && s'.callers == s.callers[c := s.callers[c].(ch := b, pc := Waiting)]
      && (if b < |s.channels| then
            s'.channels == s.channels[b := s.channels[b].(members := s.channels[b].members + [c])]
          else
            var buffer := if m.committed then [] else [Status(true, None)];
            s'.channels == s.channels + [Channel(buffer, false, [c], 0, None)])
  {
  }

  /** A batch that gathers goes on gathering when a waiting member joins. */
  lemma JoinGathers(s: State, s': State, b: nat, c: nat, token: bool, main: int)
    requires b < |s.channels| && b < |s'.channels| && Gathering(s, b, token, main) && c < |s.callers| == |s'.callers|
    requires c != main
    requires s'.channels[b] == s.channels[b].(members := s.channels[b].members + [c])
    requires s'.callers[c].pc.Waiting? && forall d :: 0 <= d < |s.callers| && d != c ==> s'.callers[d] == s.callers[d]
    ensures Gathering(s', b, token, main)
  {
    assert forall d :: d in s'.channels[b].members ==> d in s.channels[b].members || d == c;
  }

  /** A batch is joined only while it is open: before its commit, or while it waits for its turn. */
  lemma AssignJoins(skipGC: bool, s: State, c: nat)
    requires Inv(s) && Enabled(s, c, Assign) && AssignedChannel(s, Cur(s)) < |s.channels|
    requires Cur(s) == s.merges[s.callers[c].inst]
    requires Cur(Apply(skipGC, s, c, Assign)) == NewMerge(s, Cur(s), c, Assign)
    ensures ChannelOk(Apply(skipGC, s, c, Assign), AssignedChannel(s, Cur(s)))
  {
    var s' := Apply(skipGC, s, c, Assign);
    var b := AssignedChannel(s, Cur(s));
    AssignEffect(skipGC, s, c);
    assert ChannelOk(s, b);
    assert forall d {:trigger MainAt(s', d)} :: MainAt(s', d) <==> MainAt(s, d);
    if Cur(s).committed {
      JoinGathers(s, s', b, c, false, -1);
    } else {
      if NoMain(s) {
        JoinGathers(s, s', b, c, true, -1);
        assert NoMain(s');
      } else {
        var d :| MainAt(s, d);
        assert MainOk(s, b, d);
        JoinGathers(s, s', b, c, false, d);
        assert MainAt(s', d);
      }
    }
  }

  lemma AssignBatch(skipGC: bool, s: State, c: nat)
    requires Inv(s) && Enabled(s, c, Assign)
    ensures var s' := Apply(skipGC, s, c, Assign); ChannelOk(s', s'.callers[c].ch)
  {
    var s' := Apply(skipGC, s, c, Assign);
    StepCur(skipGC, s, c, Assign);
    if AssignedChannel(s, Cur(s)) < |s.channels| {
      AssignJoins(skipGC, s, c);
    } else {
      AssignEffect(skipGC, s, c);
      assert forall d {:trigger MainAt(s', d)} :: MainAt(s', d) <==> MainAt(s, d);
      assert NoMain(s') || Cur(s).committed;
    }
  }

  lemma ReceiveToken(skipGC: bool, s: State, c: nat)
    requires Inv(s) && Enabled(s, c, Receive)
    requires s.channels[s.callers[c].ch].buffer != [] && s.channels[s.callers[c].ch].buffer[0].main
    ensures ChannelOk(Apply(skipGC, s, c, Receive), s.callers[c].ch)
  {
    var s' := Apply(skipGC, s, c, Receive);
    var b := s.callers[c].ch;
    TokenMeansNoMain(s, c);
    StepCur(skipGC, s, c, Receive);
    assert ChannelOk(s, b) && Gathering(s, b, true, -1);
    assert forall d :: MainAt(s', d) ==> d == c by {
      forall d | MainAt(s', d) && d != c
        ensures MainAt(s, d)
      {
      }
    }
    assert MainAt(s', c);
    assert Gathering(s', b, false, c);
  }

  /** A follower takes its message: one waiter and one message less, or a closed channel. */
  lemma ReceiveResult(skipGC: bool, s: State, c: nat)
    requires Inv(s) && Enabled(s, c, Receive)
    requires s.channels[s.callers[c].ch].buffer != [] ==> !s.channels[s.callers[c].ch].buffer[0].main
    ensures ChannelOk(Apply(skipGC, s, c, Receive), s.callers[c].ch)
    ensures Informed(Apply(skipGC, s, c, Receive), c)
  {
    var s' := Apply(skipGC, s, c, Receive);
    var b := s.callers[c].ch;
    StepCur(skipGC, s, c, Receive);
    assert ChannelOk(s, b) && Placed(s, c);
    assert Waiters(s', b) == Waiters(s, b) - {c};
    assert c in Waiters(s, b);
    assert forall d :: MainAt(s', d) <==> MainAt(s, d);
    assert NoMain(s') ==> NoMain(s);
    forall d | MainAt(s', d) && Cur(s).status == Some(b)
      ensures MainOk(s', b, d)
    {
      assert MainAt(s, d) && MainOk(s, b, d) && s'.callers[d] == s.callers[d];
    }
  }

  /** When the result is known, everybody else in the batch still waits for it. */
  lemma OthersWait(s: State, b: nat, c: nat)
    requires MemberInv(s) && b < |s.channels| && AllWaitBut(s, b, c)
    requires c in s.channels[b].members && c < |s.callers| && !s.callers[c].pc.Waiting?
    ensures |Waiters(s, b)| == |s.channels[b].members| - 1
  {
    var members := s.channels[b].members;
    forall d | d in members
      ensures d < |s.callers|
    {
      MemberBelongs(s, b, d);
    }
    DistinctCount<nat>(members);
    assert SetOf<nat>(members) == Waiters(s, b) + {c};
  }

  /** What a step of the main caller before its `complete` does to its channel and its program counter. */
  lemma WorkEffect(skipGC: bool, s: State, c: nat, a: Action)
    requires Enabled(s, c, a) && (a.Prepare? || a.Commit? || a.Resolve? || a.PushIndex? || a.DeleteIndex?)
    requires s.callers[c].ch < |s.channels|
    requires s.merges[s.callers[c].inst].items == s.channels[s.callers[c].ch].members != []
    ensures var b, s' := s.callers[c].ch, Apply(skipGC, s, c, a);
      var pc := s'.callers[c].pc;
      && IsMain(s.callers[c].pc) && IsMain(pc) && !pc.Staging?
      && !s.callers[c].pc.Notifying? && !s.callers[c].pc.Staging?
      && (if pc.Notifying? then s'.channels == s.channels[b := s.channels[b].(result := Some(pc.err))]
           else s'.channels == s.channels)
      && (pc.Notifying? ==> pc.left == |s.channels[b].members| - 1)
  {
  }

  /** The batch of the main caller while it gathers, and when its result becomes known. */
  lemma WorkSettles(s: State, s': State, b: nat, c: nat)
    requires b < |s.channels| == |s'.channels| && c < |s.callers| == |s'.callers| && MainAt(s', c)
    requires Gathering(s, b, false, c) && |Waiters(s, b)| == |s.channels[b].members| - 1
    requires forall d :: 0 <= d < |s.callers| && d != c ==> s'.callers[d] == s.callers[d]
    requires !s.callers[c].pc.Waiting? && !s'.callers[c].pc.Waiting?
    requires var pc := s'.callers[c].pc;
      && !pc.Staging? && (pc.Notifying? ==> pc.left == |s.channels[b].members| - 1)
      && s'.channels[b] == if pc.Notifying? then s.channels[b].(result := Some(pc.err)) else s.channels[b]
    ensures MainOk(s', b, c)
  {
    assert Waiters(s', b) == Waiters(s, b);
  }

  /** The steps of the main caller up to its `complete`. */
  lemma WorkBatch(skipGC: bool, s: State, c: nat, a: Action)
    requires Inv(s) && Enabled(s, c, a)
    requires a.Prepare? || a.Commit? || a.Resolve? || a.PushIndex? || a.DeleteIndex?
    ensures ChannelOk(Apply(skipGC, s, c, a), s.callers[c].ch)
  {
    var s' := Apply(skipGC, s, c, a);
    var b := s.callers[c].ch;
    StepCur(skipGC, s, c, a);
    StepFramed(skipGC, s, c, a);
    assert MainAt(s, c) && Placed(s, c);
    assert ChannelOk(s, b) && MainOk(s, b, c);
    WorkEffect(skipGC, s, c, a);
    OthersWait(s, b, c);
    WorkSettles(s, s', b, c);
    OnlyMain(s, c, a, s');
    assert MainAt(s', c);
  }

  lemma NotifyBatch(skipGC: bool, s: State, c: nat)
    requires Inv(s) && Enabled(s, c, Notify)
    ensures ChannelOk(Apply(skipGC, s, c, Notify), s.callers[c].ch)
  {
    var s' := Apply(skipGC, s, c, Notify);
    var b := s.callers[c].ch;
    StepCur(skipGC, s, c, Notify);
    assert MainAt(s, c) && ChannelOk(s, b) && MainOk(s, b, c);
    assert Waiters(s', b) == Waiters(s, b);
    assert MainAt(s', c);
    StepFramed(skipGC, s, c, Notify);
    OnlyMain(s, c, Notify, s');
  }

  /** The finished batch is settled, and the waiting one gets its token. */
  lemma StageBatches(skipGC: bool, s: State, c: nat, b: nat)
    requires Inv(s) && Enabled(s, c, Stage)
    requires b == s.callers[c].ch || Cur(s).pendingStatus == Some(b)
    ensures ChannelOk(Apply(skipGC, s, c, Stage), b)
  {
    var s' := Apply(skipGC, s, c, Stage);
    StepCur(skipGC, s, c, Stage);
    assert MainAt(s, c) && ChannelOk(s, b);
    StepFramed(skipGC, s, c, Stage);
    OnlyMain(s, c, Stage, s');
    assert !MainAt(s', c);
    if b == s.callers[c].ch {
      assert MainOk(s, b, c);
      assert b < |s.channels| && Waiters(s', b) == Waiters(s, b);
    } else {
      assert b < |s.channels| && Gathering(s, b, false, -1);
      assert Gathering(s', b, true, -1);
    }
  }

  /** Nobody waits on the channel of a release. */
  lemma ReleaseBatch(skipGC: bool, s: State, c: nat)
    requires Inv(s) && Enabled(s, c, Release)
    ensures s.callers[c].ch < |s.channels| && ChannelOk(Apply(skipGC, s, c, Release), s.callers[c].ch)
  {
    var s' := Apply(skipGC, s, c, Release);
    var b := s.callers[c].ch;
    StepCur(skipGC, s, c, Release);
    assert Placed(s, c) && ChannelOk(s, b);
    forall d | d in s.channels[b].members
      ensures d < |s.callers|
    {
      MemberBelongs(s, b, d);
    }
    assert SameView(s, s', b);
    ViewKept(s, s', b);
  }

  lemma StepChannel(skipGC: bool, s: State, c: nat, a: Action, b: int)
    requires Inv(s) && Enabled(s, c, a)
    ensures ChannelOk(Apply(skipGC, s, c, a), b)
  {
    var s' := Apply(skipGC, s, c, a);
    StepFramed(skipGC, s, c, a);
    if 0 <= b < |s'.channels| {
      if b == s'.callers[c].ch {
        OwnBatch(skipGC, s, c, a);
      } else if a.Stage? && Cur(s).pendingStatus == Some(b) {
        StageBatches(skipGC, s, c, b);
      } else {
        assert ChannelOk(s, b);
        OtherBatch(skipGC, s, c, a, b);
      }
    }
  }

  lemma OwnBatch(skipGC: bool, s: State, c: nat, a: Action)
    requires Inv(s) && Enabled(s, c, a)
    ensures ChannelOk(Apply(skipGC, s, c, a), Apply(skipGC, s, c, a).callers[c].ch)
  {
    match a {
      case Assign => AssignBatch(skipGC, s, c);
      case Receive =>
        var buffer := s.channels[s.callers[c].ch].buffer;
        if buffer != [] && buffer[0].main {
          ReceiveToken(skipGC, s, c);
        } else {
          ReceiveResult(skipGC, s, c);
        }
      case Notify => NotifyBatch(skipGC, s, c);
      case Stage => StageBatches(skipGC, s, c, s.callers[c].ch);
      case Release => ReleaseBatch(skipGC, s, c);
      case _ => WorkBatch(skipGC, s, c, a);
    }
  }

  // ----- results reach their callers -----

  /** A result that has been settled does not change. */
  lemma ResultStable(skipGC: bool, s: State, c: nat, a: Action, b: nat)
    requires Inv(s) && Enabled(s, c, a) && b < |s.channels| && s.channels[b].result.Some?
    ensures b < |Apply(skipGC, s, c, a).channels| && Apply(skipGC, s, c, a).channels[b].result == s.channels[b].result
  {
    StepFramed(skipGC, s, c, a);
    StepCur(skipGC, s, c, a);
    if MainAt(s, c) && s.callers[c].ch == b {
      assert ChannelOk(s, b) && MainOk(s, b, c);
    }
  }

  lemma StepInformed(skipGC: bool, s: State, c: nat, a: Action, d: int)
    requires Inv(s) && Enabled(s, c, a)
    ensures Informed(Apply(skipGC, s, c, a), d)
  {
    var s' := Apply(skipGC, s, c, a);
    StepFramed(skipGC, s, c, a);
    if d != c {
      assert Informed(s, d);
      if 0 <= d < |s.callers| && (s.callers[d].pc.Releasing? || s.callers[d].pc.Gone?) {
        ResultStable(skipGC, s, c, a, s.callers[d].ch);
      }
    } else if a.Receive? {
      var buffer := s.channels[s.callers[c].ch].buffer;
      if buffer == [] || !buffer[0].main {
        ReceiveResult(skipGC, s, c);
      }
    } else if a.Stage? {
      StepCur(skipGC, s, c, a);
      assert MainAt(s, c) && ChannelOk(s, s.callers[c].ch) && MainOk(s, s.callers[c].ch, c);
    } else if a.Release? {
      assert Informed(s, c);
    }
  }

  lemma StepInv(skipGC: bool, s: State, c: nat, a: Action)
    requires Inv(s) && Enabled(s, c, a)
    ensures Inv(Apply(skipGC, s, c, a))
  {
    var s' := Apply(skipGC, s, c, a);
    StepPool(skipGC, s, c, a);
    StepMain(skipGC, s, c, a);
    StepBatch(skipGC, s, c, a);
    StepFramed(skipGC, s, c, a);
    StepMembers(s, c, a, s');
    forall b
      ensures ChannelOk(s', b)
    {
      StepChannel(skipGC, s, c, a, b);
    }
    forall d
      ensures Informed(s', d)
    {
      StepInformed(skipGC, s, c, a, d);
    }
  }

  lemma EnterInv(s: State, change: Change)
    requires Inv(s)
    ensures Inv(Enter(s, change))
  {
    var s' := Enter(s, change);
    EnterPool(s, change);
    assert Cur(s') == Cur(s);
    forall d
      ensures MainAt(s', d) <==> MainAt(s, d)
    {
    }
    assert NoMain(s') <==> NoMain(s);
    forall d
      ensures Placed(s', d) && Informed(s', d)
    {
      assert Placed(s, d) && Informed(s, d);
    }
    forall b, i
      ensures MemberOk(s', b, i)
    {
      assert MemberOk(s, b, i);
    }
    forall b
      ensures ChannelOk(s', b)
    {
      assert ChannelOk(s, b);
      if 0 <= b < |s.channels| {
        forall d | d in s.channels[b].members
          ensures d < |s.callers|
        {
          MemberBelongs(s, b, d);
        }
        ViewKept(s, s', b);
      }
    }
  }

  lemma {:induction false} ExecutionInv(skipGC: bool, tag: Option<Index>, run: seq<State>, n: nat)
    requires Execution(skipGC, tag, run) && n < |run|
    ensures Inv(run[n])
  {
    if n > 0 {
      ExecutionInv(skipGC, tag, run, n - 1);
      var s := run[n - 1];
      assert Step(skipGC, s, run[n - 1 + 1]);
      if c: nat, a: Action :| CallerStep(skipGC, s, c, a, run[n]) {
        StepInv(skipGC, s, c, a);
      } else {
        var change :| Arrival(s, change, run[n]);
        EnterInv(s, change);
      }
    }
  }
}
