/** No referrer update is lost: the stored index is the fold of all effective batches, each applied once. */
module MergeRegistry {
  import opened Content
  import opened Referrers
  import opened MergeMachine
  import opened MergeInvariant

  /** The callers of the batches in `order`, batch after batch, each batch in the order of assignment. */
  function Flatten(channels: seq<Channel>, order: seq<nat>): seq<nat> {
    if order == [] then []
    else
      var front := Flatten(channels, order[..|order| - 1]);
      var b := order[|order| - 1];
      if b < |channels| then front + channels[b].members else front
  }

  /** The changes that have taken effect so far, in order. */
  function Effects(s: State): seq<Change> {
    ChangesOf(s.callers, Flatten(s.channels, s.order))
  }

  function StoredKeys(tag: Option<Index>): set<Key> {
    KeySet(ListOf(tag)) - {EMPTY_KEY}
  }

  /** The index holds what the changes made of the initial index. */
  ghost predicate KeysOk(tag0: Option<Index>, s: State) {
    StoredKeys(s.tag) == FoldKeys(StoredKeys(tag0), Effects(s)) - {EMPTY_KEY}
  }

  /** A batch counted as effective has been resolved at least up to the push of its index. */
  ghost predicate Effective(s: State, b: nat) {
    b < |s.channels| &&
    (s.channels[b].result.Some? ||
     exists c :: MainAt(s, c) && s.callers[c].ch == b && s.callers[c].pc.Deleting? && s.callers[c].pc.pushed)
  }

  ghost predicate OrderOk(s: State) {
    && NoRepeats(s.order)
    && (forall i :: 0 <= i < |s.order| ==> Effective(s, s.order[i]))
    && (forall b :: 0 <= b < |s.channels| && s.channels[b].result == Some(None) ==> b in s.order)
  }

  /** Nobody has touched the tag behind the back of the main caller. */
  ghost predicate ViewOk(s: State, c: int)
    requires MainAt(s, c)
  {
    var changes := ChangesOf(s.callers, Cur(s).items);
    match s.callers[c].pc
    case Committing(err, view) => err.None? ==> view == s.tag
    case Resolving(err, view) => err.None? ==> view == s.tag
    case Pushing(view, list) => view == s.tag && Updated(ListOf(view), changes) == Some(list)
    case Deleting(stale, pushed) =>
      if pushed then s.tag.Some? && s.tag != Some(stale) && s.callers[c].ch in s.order
      else s.tag == Some(stale) && Updated(stale.list, changes) == Some([])
    case _ => true
  }

  ghost predicate Proper(s: State) {
    forall c :: 0 <= c < |s.callers| ==> Indexable(s.callers[c].change)
  }

  ghost predicate Registered(tag0: Option<Index>, s: State) {
    Proper(s) && OrderOk(s) && KeysOk(tag0, s) && Views(s)
  }

  ghost predicate Views(s: State) {
    forall c :: MainAt(s, c) ==> ViewOk(s, c)
  }

  // ----- sequences of changes -----

  lemma {:induction false} ChangesConcat(callers: seq<Caller>, a: seq<nat>, b: seq<nat>)
    ensures ChangesOf(callers, a + b) == ChangesOf(callers, a) + ChangesOf(callers, b)
  {
    if b == [] {
      assert a + b == a;
    } else {
      assert (a + b)[..|a + b| - 1] == a + b[..|b| - 1];
      ChangesConcat(callers, a, b[..|b| - 1]);
    }
  }

  lemma {:induction false} ChangesSame(callers: seq<Caller>, callers': seq<Caller>, ids: seq<nat>)
    requires forall i :: 0 <= i < |ids| ==>
      ids[i] < |callers| && ids[i] < |callers'| && callers[ids[i]].change == callers'[ids[i]].change
    ensures ChangesOf(callers', ids) == ChangesOf(callers, ids)
  {
    if ids != [] {
      ChangesSame(callers, callers', ids[..|ids| - 1]);
    }
  }

  lemma {:induction false} ChangesProper(s: State, ids: seq<nat>)
    requires Proper(s)
    ensures Referrers.Proper(ChangesOf(s.callers, ids))
  {
    if ids != [] {
      ChangesProper(s, ids[..|ids| - 1]);
    }
  }

  lemma {:induction false} FlattenSame(channels: seq<Channel>, channels': seq<Channel>, order: seq<nat>)
    requires forall i :: 0 <= i < |order| ==>
      order[i] < |channels| && order[i] < |channels'| && channels[order[i]].members == channels'[order[i]].members
    ensures Flatten(channels', order) == Flatten(channels, order)
  {
    if order != [] {
      FlattenSame(channels, channels', order[..|order| - 1]);
    }
  }

  lemma {:induction false} FlattenValid(s: State, order: seq<nat>, i: nat)
    requires MemberInv(s) && i < |Flatten(s.channels, order)|
    ensures Flatten(s.channels, order)[i] < |s.callers|
    ensures s.callers[Flatten(s.channels, order)[i]].ch in order
  {
    var front := Flatten(s.channels, order[..|order| - 1]);
    var b := order[|order| - 1];
    if i < |front| {
      FlattenValid(s, order[..|order| - 1], i);
    } else {
      assert MemberOk(s, b, i - |front|);
    }
  }

  // ----- a batch takes effect -----

  /** Applying a batch to what is stored extends the fold by that batch. */
  lemma EffectKeys(keys0: set<Key>, past: seq<Change>, changes: seq<Change>, list: seq<Descriptor>,
                   list': seq<Descriptor>)
    requires KeySet(list) - {EMPTY_KEY} == FoldKeys(keys0, past) - {EMPTY_KEY}
    requires KeySet(list') - {EMPTY_KEY} == FoldKeys(KeySet(list), changes) - {EMPTY_KEY}
    ensures KeySet(list') - {EMPTY_KEY} == FoldKeys(keys0, past + changes) - {EMPTY_KEY}
  {
    FoldConcat(keys0, past, changes);
    FoldIgnoresEmpty(FoldKeys(keys0, past), changes);
    FoldIgnoresEmpty(KeySet(list), changes);
  }

  /** Committed members stay: a batch that is effective gets no new members. */
  lemma EffectiveClosed(skipGC: bool, s: State, c: nat, a: Action, b: nat)
    requires Inv(s) && Enabled(s, c, a) && Effective(s, b)
    ensures b < |Apply(skipGC, s, c, a).channels| && Apply(skipGC, s, c, a).channels[b].members == s.channels[b].members
  {
    StepFramed(skipGC, s, c, a);
    StepCur(skipGC, s, c, a);
    assert ChannelOk(s, b);
    if d :| MainAt(s, d) && s.callers[d].ch == b {
      assert MainOk(s, b, d);
    }
  }

  lemma EffectiveStays(skipGC: bool, s: State, c: nat, a: Action, b: nat)
    requires Inv(s) && Enabled(s, c, a) && Effective(s, b)
    ensures Effective(Apply(skipGC, s, c, a), b)
  {
    var s' := Apply(skipGC, s, c, a);
    StepFramed(skipGC, s, c, a);
    if s.channels[b].result.Some? {
      ResultStable(skipGC, s, c, a, b);
    } else {
      var d :| MainAt(s, d) && s.callers[d].ch == b && s.callers[d].pc.Deleting? && s.callers[d].pc.pushed;
      if d != c {
        assert MainAt(s', d);
      } else {
        assert a.DeleteIndex? && s'.callers[c].pc.Notifying?;
        assert s'.channels[b].result.Some?;
      }
    }
  }

  /** The past effects are not changed by a step. */
  lemma PastKept(skipGC: bool, s: State, c: nat, a: Action)
    requires Inv(s) && OrderOk(s) && Enabled(s, c, a)
    ensures var s' := Apply(skipGC, s, c, a); ChangesOf(s'.callers, Flatten(s'.channels, s.order)) == Effects(s)
  {
    var s' := Apply(skipGC, s, c, a);
    StepFramed(skipGC, s, c, a);
    forall i | 0 <= i < |s.order|
      ensures s.order[i] < |s.channels| && s.order[i] < |s'.channels|
      ensures s.channels[s.order[i]].members == s'.channels[s.order[i]].members
    {
      assert Effective(s, s.order[i]);
      EffectiveClosed(skipGC, s, c, a, s.order[i]);
    }
    FlattenSame(s.channels, s'.channels, s.order);
    var ids := Flatten(s.channels, s.order);
    forall i | 0 <= i < |ids|
      ensures ids[i] < |s.callers| && s.callers[ids[i]].change == s'.callers[ids[i]].change
    {
      FlattenValid(s, s.order, i);
    }
    ChangesSame(s.callers, s'.callers, ids);
  }

  lemma TagAfter(skipGC: bool, s: State, c: nat, a: Action)
    requires Enabled(s, c, a) && MainAt(s, c) && ViewOk(s, c) && Cur(s) == s.merges[s.callers[c].inst]
    requires TakesEffect(s.callers[c], a, NewPc(skipGC, s, c, a))
    ensures StoredKeys(Apply(skipGC, s, c, a).tag) ==
            FoldKeys(KeySet(ListOf(s.tag)), ChangesOf(s.callers, Cur(s).items)) - {EMPTY_KEY}
  {
    UpdatedMeaning(ListOf(s.tag), ChangesOf(s.callers, Cur(s).items));
  }

  /** What the tag holds after a step in which the batch takes effect, against the changes of the batch. */
  lemma EffectOnTag(skipGC: bool, s: State, c: nat, a: Action)
    requires Inv(s) && Enabled(s, c, a) && MainAt(s, c) && ViewOk(s, c)
    requires TakesEffect(s.callers[c], a, NewPc(skipGC, s, c, a))
    ensures StoredKeys(Apply(skipGC, s, c, a).tag) ==
            FoldKeys(KeySet(ListOf(s.tag)), ChangesOf(s.callers, Cur(s).items)) - {EMPTY_KEY}
  {
    StepCur(skipGC, s, c, a);
    TagAfter(skipGC, s, c, a);
  }

  lemma StepKeys(skipGC: bool, tag0: Option<Index>, s: State, c: nat, a: Action)
    requires Inv(s) && Registered(tag0, s) && Enabled(s, c, a)
    ensures KeysOk(tag0, Apply(skipGC, s, c, a))
  {
    var s' := Apply(skipGC, s, c, a);
    PastKept(skipGC, s, c, a);
    if TakesEffect(s.callers[c], a, NewPc(skipGC, s, c, a)) {
      assert MainAt(s, c);
      EffectOnTag(skipGC, s, c, a);
      TakenIn(skipGC, s, c, a);
      EffectKeys(StoredKeys(tag0), Effects(s), ChangesOf(s.callers, Cur(s).items), ListOf(s.tag), ListOf(s'.tag));
    } else {
      if a.DeleteIndex? {
        assert MainAt(s, c) && ViewOk(s, c);
      }
      assert s'.tag == s.tag;
    }
  }

  /** The batch is appended to the effects as a whole. */
  lemma TakenIn(skipGC: bool, s: State, c: nat, a: Action)
    requires Inv(s) && OrderOk(s) && Enabled(s, c, a) && MainAt(s, c)
    requires TakesEffect(s.callers[c], a, NewPc(skipGC, s, c, a))
    ensures Effects(Apply(skipGC, s, c, a)) == Effects(s) + ChangesOf(s.callers, Cur(s).items)
  {
    var s' := Apply(skipGC, s, c, a);
    var b := s.callers[c].ch;
    var items := Cur(s).items;
    StepFramed(skipGC, s, c, a);
    PastKept(skipGC, s, c, a);
    assert s'.order == s.order + [b] && s'.channels[b].members == items;
    assert (s.order + [b])[..|s.order|] == s.order;
    var past := Flatten(s'.channels, s.order);
    assert Flatten(s'.channels, s'.order) == past + items;
    ChangesConcat(s'.callers, past, items);
    forall i | 0 <= i < |items|
      ensures items[i] < |s.callers| && s.callers[items[i]].change == s'.callers[items[i]].change
    {
      assert MemberOk(s, b, i);
    }
    ChangesSame(s.callers, s'.callers, items);
  }

  lemma StepOrder(skipGC: bool, s: State, c: nat, a: Action)
    requires Inv(s) && OrderOk(s) && Enabled(s, c, a)
    requires MainAt(s, c) ==> ViewOk(s, c)
    ensures OrderOk(Apply(skipGC, s, c, a))
  {
    var s' := Apply(skipGC, s, c, a);
    var b := s.callers[c].ch;
    StepFramed(skipGC, s, c, a);
    var effect := TakesEffect(s.callers[c], a, NewPc(skipGC, s, c, a));
    if effect {
      assert MainAt(s, c) && ChannelOk(s, b) && MainOk(s, b, c);
      assert !Effective(s, b) by {
        forall d | MainAt(s, d)
          ensures d == c
        {
        }
      }
      assert b !in s.order;
      assert Effective(s', b) by {
        if !s'.channels[b].result.Some? {
          assert MainAt(s', c);
        }
      }
    }
    forall i | 0 <= i < |s'.order|
      ensures Effective(s', s'.order[i])
    {
      if i < |s.order| {
        EffectiveStays(skipGC, s, c, a, s.order[i]);
      }
    }
    forall d | 0 <= d < |s'.channels| && s'.channels[d].result == Some(None)
      ensures d in s'.order
    {
      ResultInOrder(skipGC, s, c, a, d);
    }
  }

  /** A batch gets the result `nil` only in, or after, the step in which it takes effect. */
  lemma ResultInOrder(skipGC: bool, s: State, c: nat, a: Action, d: nat)
    requires Inv(s) && OrderOk(s) && Enabled(s, c, a)
    requires MainAt(s, c) ==> ViewOk(s, c)
    requires d < |Apply(skipGC, s, c, a).channels| && Apply(skipGC, s, c, a).channels[d].result == Some(None)
    ensures d in Apply(skipGC, s, c, a).order
  {
    var s' := Apply(skipGC, s, c, a);
    if d < |s.channels| && s.channels[d].result == Some(None) {
      assert d in s.order;
    } else {
      assert d == s.callers[c].ch && s'.callers[c].pc.Notifying? && s'.callers[c].pc.err.None?;
      assert MainAt(s, c);
    }
  }

  /** The list of changes of the committed batch does not change under its main caller. */
  lemma ItemsKept(skipGC: bool, s: State, c: nat, a: Action)
    requires Inv(s) && Enabled(s, c, a) && Cur(s).committed && !a.Stage?
    ensures var s' := Apply(skipGC, s, c, a);
      ChangesOf(s'.callers, Cur(s').items) == ChangesOf(s.callers, Cur(s).items)
  {
    var s' := Apply(skipGC, s, c, a);
    var items := Cur(s).items;
    StepCur(skipGC, s, c, a);
    StepFramed(skipGC, s, c, a);
    assert Cur(s').items == items;
    forall i | 0 <= i < |items|
      ensures items[i] < |s.callers| && s.callers[items[i]].change == s'.callers[items[i]].change
    {
      assert MemberOk(s, Cur(s).status.value, i);
    }
    ChangesSame(s.callers, s'.callers, items);
  }

  lemma OtherView(skipGC: bool, s: State, c: nat, a: Action, d: int)
    requires Inv(s) && Enabled(s, c, a) && d != c
    requires MainAt(s, d) && ViewOk(s, d)
    ensures MainAt(Apply(skipGC, s, c, a), d) && ViewOk(Apply(skipGC, s, c, a), d)
  {
    var s' := Apply(skipGC, s, c, a);
    assert s'.callers[d] == s.callers[d];
    assert !MainAt(s, c);
    assert s'.tag == s.tag && s'.order == s.order;
    if PastCommit(s.callers[d].pc) {
      ItemsKept(skipGC, s, c, a);
    }
  }

  /** The main caller works on what it fetched, and the new index is never the one it then deletes. */
  lemma OwnView(skipGC: bool, s: State, c: nat, a: Action)
    requires Inv(s) && Proper(s) && Enabled(s, c, a)
    requires MainAt(s, c) && ViewOk(s, c) && MainAt(Apply(skipGC, s, c, a), c)
    ensures ViewOk(Apply(skipGC, s, c, a), c)
  {
    var changes := ChangesOf(s.callers, Cur(s).items);
    StepCur(skipGC, s, c, a);
    if PastCommit(s.callers[c].pc) {
      ItemsKept(skipGC, s, c, a);
    }
    if a.PushIndex? {
      ChangesProper(s, Cur(s).items);
      UpdateIsNew(ListOf(s.tag), changes);
    }
  }

  lemma StepViews(skipGC: bool, s: State, c: nat, a: Action)
    requires Inv(s) && Proper(s) && Views(s) && Enabled(s, c, a)
    ensures Views(Apply(skipGC, s, c, a))
  {
    var s' := Apply(skipGC, s, c, a);
    forall d | MainAt(s', d)
      ensures ViewOk(s', d)
    {
      if d != c {
        assert MainAt(s, d);
        OtherView(skipGC, s, c, a, d);
      } else if MainAt(s, c) {
        OwnView(skipGC, s, c, a);
      } else {
        assert s'.callers[c].pc.Preparing?;
      }
    }
  }

  lemma StepRegistered(skipGC: bool, tag0: Option<Index>, s: State, c: nat, a: Action)
    requires Inv(s) && Registered(tag0, s) && Enabled(s, c, a)
    ensures Registered(tag0, Apply(skipGC, s, c, a))
  {
    StepKeys(skipGC, tag0, s, c, a);
    StepOrder(skipGC, s, c, a);
    StepViews(skipGC, s, c, a);
  }

  lemma EnterKeys(tag0: Option<Index>, s: State, change: Change)
    requires MemberInv(s) && KeysOk(tag0, s)
    ensures KeysOk(tag0, Enter(s, change))
  {
    var ids := Flatten(s.channels, s.order);
    forall i | 0 <= i < |ids|
      ensures ids[i] < |s.callers|
    {
      FlattenValid(s, s.order, i);
    }
    ChangesSame(s.callers, Enter(s, change).callers, ids);
  }

  lemma EnterOrder(s: State, change: Change)
    requires OrderOk(s)
    ensures OrderOk(Enter(s, change))
  {
    var s' := Enter(s, change);
    forall i | 0 <= i < |s.order|
      ensures Effective(s', s.order[i])
    {
      var b := s.order[i];
      assert Effective(s, b);
      if !s.channels[b].result.Some? {
        var c :| MainAt(s, c) && s.callers[c].ch == b && s.callers[c].pc.Deleting? && s.callers[c].pc.pushed;
        assert MainAt(s', c) && s'.callers[c] == s.callers[c];
      }
    }
  }

  lemma EnterView(s: State, change: Change, d: int)
    requires BatchInv(s) && MemberInv(s) && MainAt(s, d) && ViewOk(s, d)
    ensures MainAt(Enter(s, change), d) && ViewOk(Enter(s, change), d)
  {
    var s' := Enter(s, change);
    assert Cur(s') == Cur(s);
    var items := Cur(s).items;
    forall i | 0 <= i < |items|
      ensures items[i] < |s.callers|
    {
      assert MemberOk(s, Cur(s).status.value, i);
    }
    ChangesSame(s.callers, s'.callers, items);
  }

  lemma EnterProper(s: State, change: Change)
    requires Proper(s) && Indexable(change)
    ensures Proper(Enter(s, change))
  {
  }

  lemma EnterRegistered(tag0: Option<Index>, s: State, change: Change)
    requires BatchInv(s) && MemberInv(s) && Registered(tag0, s) && Indexable(change)
    ensures Registered(tag0, Enter(s, change))
  {
    EnterProper(s, change);
    EnterKeys(tag0, s, change);
    EnterOrder(s, change);
    EnterViews(s, change);
  }

  lemma EnterViews(s: State, change: Change)
    requires BatchInv(s) && MemberInv(s) && Views(s)
    ensures Views(Enter(s, change))
  {
    forall d | MainAt(Enter(s, change), d)
      ensures ViewOk(Enter(s, change), d)
    {
      assert MainAt(s, d);
      EnterView(s, change, d);
    }
  }

  lemma {:induction false} ExecutionRegistered(skipGC: bool, tag: Option<Index>, run: seq<State>, n: nat)
    requires Execution(skipGC, tag, run) && n < |run|
    ensures Registered(tag, run[n])
  {
    if n == 0 {
      assert Effects(run[0]) == [];
    } else {
      ExecutionRegistered(skipGC, tag, run, n - 1);
      ExecutionInv(skipGC, tag, run, n - 1);
      var s := run[n - 1];
      assert Step(skipGC, s, run[n - 1 + 1]);
      if c: nat, a: Action :| CallerStep(skipGC, s, c, a, run[n]) {
        StepRegistered(skipGC, tag, s, c, a);
      } else {
        var change :| Arrival(s, change, run[n]);
        EnterRegistered(tag, s, change);
      }
    }
  }

  // ----- results -----

  lemma ReachableFacts(skipGC: bool, tag: Option<Index>, s: State)
    requires Reachable(skipGC, tag, s)
    ensures Inv(s) && Registered(tag, s)
  {
    var run :| Execution(skipGC, tag, run) && run[|run| - 1] == s;
    ExecutionInv(skipGC, tag, run, |run| - 1);
    ExecutionRegistered(skipGC, tag, run, |run| - 1);
  }

  lemma ReturnedIsApplied(s: State, c: nat)
    requires Informed(s, c) && OrderOk(s) && c < |s.callers| && s.callers[c].pc == Gone(None)
    ensures s.callers[c].ch in s.order
  {
  }

  /**
   No lost updates. At every point of every run the keys of the stored index are the initial keys with the changes
   of the effective batches applied, batch after batch. No batch is applied twice, a caller that returned without
   an error belongs to an applied batch, and only one caller at a time works between fetch and notification.
   */
  lemma NoLostUpdates(skipGC: bool, tag: Option<Index>, s: State)
    requires Reachable(skipGC, tag, s)
    ensures StoredKeys(s.tag) == FoldKeys(StoredKeys(tag), Effects(s)) - {EMPTY_KEY}
    ensures NoRepeats(s.order)
    ensures forall c :: 0 <= c < |s.callers| && s.callers[c].pc == Gone(None) ==> s.callers[c].ch in s.order
    ensures forall c, d :: MainAt(s, c) && MainAt(s, d) ==> c == d
  {
    ReachableFacts(skipGC, tag, s);
    forall c | 0 <= c < |s.callers| && s.callers[c].pc == Gone(None)
      ensures s.callers[c].ch in s.order
    {
      ReturnedIsApplied(s, c);
    }
  }

  /** Each caller occurs at most once among the effects, and exactly those of the applied batches occur. */
  lemma {:induction false} FlattenOnce(s: State, order: seq<nat>)
    requires MemberInv(s) && NoRepeats(order) && forall i :: 0 <= i < |order| ==> order[i] < |s.channels|
    ensures NoRepeats(Flatten(s.channels, order))
    ensures forall c: nat :: c in Flatten(s.channels, order) <==>
      c < |s.callers| && !s.callers[c].pc.Entered? && s.callers[c].ch in order
  {
    if order != [] {
      var front, b := order[..|order| - 1], order[|order| - 1];
      FlattenOnce(s, front);
      var ids, members := Flatten(s.channels, front), s.channels[b].members;
      forall i, j | 0 <= i < |ids| && 0 <= j < |members|
        ensures ids[i] != members[j]
      {
        FlattenValid(s, front, i);
        assert MemberOk(s, b, j);
      }
      forall c: nat
        ensures c in members <==> c < |s.callers| && !s.callers[c].pc.Entered? && s.callers[c].ch == b
      {
        assert Placed(s, c);
        if c in members {
          MemberBelongs(s, b, c);
        }
      }
      assert order == front + [b];
    }
  }

  /**
   When every call has returned without an error, the changes that made the index are the changes of all callers,
   each exactly once.
   */
  lemma AllApplied(skipGC: bool, tag: Option<Index>, s: State)
    requires Reachable(skipGC, tag, s)
    requires forall c :: 0 <= c < |s.callers| ==> s.callers[c].pc == Gone(None)
    ensures var changes := ChangesOf(s.callers, Flatten(s.channels, s.order));
      StoredKeys(s.tag) == FoldKeys(StoredKeys(tag), changes) - {EMPTY_KEY}
    ensures NoRepeats(Flatten(s.channels, s.order))
    ensures forall c: nat :: c in Flatten(s.channels, s.order) <==> c < |s.callers|
  {
    ReachableFacts(skipGC, tag, s);
    NoLostUpdates(skipGC, tag, s);
    assert forall i :: 0 <= i < |s.order| ==> Effective(s, s.order[i]);
    FlattenOnce(s, s.order);
  }
}
