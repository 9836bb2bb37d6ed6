/** One action for many callers: a channel holding one token, closed once the action has been completed. */
module Once {
  import opened Content

  /** The status channel and, once it is closed, the stored outcome of the action. */
  datatype Flag<R> = Flag(token: bool, done: Option<R>)

  /** A call of `Do`. It has returned `first` and an outcome; without an outcome it was cancelled. */
  datatype Call<R> = Waiting | Running | Returned(first: bool, outcome: Option<R>) | Panicked

  datatype State<R> = State(flag: Flag<R>, calls: seq<Call<R>>)

  datatype Action<R> =
    | Enter                // a new call
    | Take                 // receives the token and starts the action
    | Share                // receives from the closed channel
    | Cancel               // its context is done while it waits
    | Stop                 // the action ends with a cancellation or a missed deadline
    | Panic                // the action panics
    | Finish(outcome: R)   // the action ends in any other way

  predicate Enabled<R>(s: State<R>, t: nat, a: Action<R>) {
    if a.Enter? then t == |s.calls|
    else
      && t < |s.calls|
      && match a
         case Take => s.calls[t].Waiting? && s.flag.token
         case Share => s.calls[t].Waiting? && s.flag.done.Some?
         case Cancel => s.calls[t].Waiting?
         case _ => s.calls[t].Running?
  }

  function NewCall<R>(s: State<R>, a: Action<R>): Call<R>
    requires a.Share? ==> s.flag.done.Some?
  {
    match a
    case Enter => Waiting
    case Take => Running
    case Share => Returned(false, Some(s.flag.done.value))
    case Cancel => Returned(false, None)
    case Stop => Returned(false, None)
    case Panic => Panicked
    case Finish(outcome) => Returned(true, Some(outcome))
  }

  function NewFlag<R>(f: Flag<R>, a: Action<R>): Flag<R> {
    match a
    case Take => f.(token := false)
    case Stop => f.(token := true)
    case Panic => f.(token := true)
    case Finish(outcome) => Flag(f.token, Some(outcome))
    case _ => f
  }

  function Apply<R>(s: State<R>, t: nat, a: Action<R>): State<R>
    requires Enabled(s, t, a)
  {
    State(NewFlag(s.flag, a), if a.Enter? then s.calls + [Waiting] else s.calls[t := NewCall(s, a)])
  }

  ghost predicate Step<R(!new)>(s: State<R>, s': State<R>) {
    exists t, a :: Enabled(s, t, a) && s' == Apply(s, t, a)
  }

  ghost predicate Execution<R(!new)>(run: seq<State<R>>) {
    && |run| > 0 && run[0] == State(Flag(true, None), [])
    && forall i :: 0 <= i < |run| - 1 ==> Step(run[i], run[i + 1])
  }

  /** Call `t` runs the action. */
  predicate RunsAt<R>(s: State<R>, t: nat) {
    t < |s.calls| && s.calls[t].Running?
  }

  /** The token is in the channel, held by exactly one running call, or gone for good. */
  ghost predicate TokenInv<R(!new)>(s: State<R>) {
    && !(s.flag.token && s.flag.done.Some?)
    && (s.flag.token || s.flag.done.Some? ==> forall t {:trigger RunsAt(s, t)} :: !RunsAt(s, t))
    && (!s.flag.token && s.flag.done.None? ==> exists t :: RunsAt(s, t))
    && (forall t, u {:trigger RunsAt(s, t), RunsAt(s, u)} :: RunsAt(s, t) && RunsAt(s, u) ==> t == u)
  }

  predicate ReturnedAt<R>(s: State<R>, t: nat, first: bool) {
    t < |s.calls| && s.calls[t].Returned? && s.calls[t].first == first
  }

  /** One call at most has returned first, and no call has an outcome other than the stored one. */
  ghost predicate ReturnInv<R(!new)>(s: State<R>) {
    && (forall t {:trigger s.calls[t]} :: 0 <= t < |s.calls| && s.calls[t].Returned? && s.calls[t].outcome.Some? ==>
         s.calls[t].outcome == s.flag.done)
    && (forall t {:trigger ReturnedAt(s, t, true)} :: ReturnedAt(s, t, true) ==> s.flag.done.Some?)
    && (s.flag.done.Some? ==> exists t :: ReturnedAt(s, t, true))
    && (forall t, u {:trigger ReturnedAt(s, t, true), ReturnedAt(s, u, true)} ::
          ReturnedAt(s, t, true) && ReturnedAt(s, u, true) ==> t == u)
  }

  lemma OthersSame<R>(s: State<R>, t: nat, a: Action<R>, u: nat)
    requires Enabled(s, t, a) && u != t
    ensures RunsAt(Apply(s, t, a), u) == RunsAt(s, u)
    ensures ReturnedAt(Apply(s, t, a), u, true) == ReturnedAt(s, u, true)
    ensures u < |s.calls| <==> u < |Apply(s, t, a).calls|
    ensures u < |s.calls| ==> Apply(s, t, a).calls[u] == s.calls[u]
  {
  }

  lemma StepToken<R(!new)>(s: State<R>, t: nat, a: Action<R>)
    requires TokenInv(s) && Enabled(s, t, a)
    ensures TokenInv(Apply(s, t, a))
  {
    var s' := Apply(s, t, a);
    forall u: nat | u != t
      ensures RunsAt(s', u) == RunsAt(s, u)
    {
      OthersSame(s, t, a, u);
    }
    assert RunsAt(s', t) == a.Take?;
    assert RunsAt(s, t) == (a.Stop? || a.Panic? || a.Finish?);
  }

  lemma StepReturn<R(!new)>(s: State<R>, t: nat, a: Action<R>)
    requires TokenInv(s) && ReturnInv(s) && Enabled(s, t, a)
    ensures ReturnInv(Apply(s, t, a))
  {
    var s' := Apply(s, t, a);
    forall u: nat | u != t
      ensures ReturnedAt(s', u, true) == ReturnedAt(s, u, true)
      ensures u < |s'.calls| ==> u < |s.calls| && s'.calls[u] == s.calls[u]
    {
      OthersSame(s, t, a, u);
    }
    assert a.Finish? ==> RunsAt(s, t);
    if a.Finish? {
      assert ReturnedAt(s', t, true);
    } else if s.flag.done.Some? {
      var u :| ReturnedAt(s, u, true);
      assert ReturnedAt(s', u, true);
    }
  }

  lemma {:induction false} ExecutionInv<R(!new)>(run: seq<State<R>>, i: nat)
    requires Execution(run) && i < |run|
    ensures TokenInv(run[i]) && ReturnInv(run[i])
  {
    if i > 0 {
      ExecutionInv(run, i - 1);
      assert Step(run[i - 1], run[i - 1 + 1]);
      var t, a :| Enabled(run[i - 1], t, a) && run[i] == Apply(run[i - 1], t, a);
      StepToken(run[i - 1], t, a);
      StepReturn(run[i - 1], t, a);
    }
  }

  /** The action never runs twice at once. */
  lemma NeverTwiceAtOnce<R(!new)>(run: seq<State<R>>, i: nat, t: nat, u: nat)
    requires Execution(run) && i < |run| && RunsAt(run[i], t) && RunsAt(run[i], u)
    ensures t == u
  {
    ExecutionInv(run, i);
  }

  /** After a completion that is not a cancellation the action does not run again, and its outcome stays. */
  lemma {:induction false} CompletedForGood<R(!new)>(run: seq<State<R>>, i: nat, j: nat, t: nat)
    requires Execution(run) && i <= j < |run| && run[i].flag.done.Some?
    ensures run[j].flag.done == run[i].flag.done && !RunsAt(run[j], t)
    decreases j
  {
    ExecutionInv(run, j);
    if i < j {
      CompletedForGood(run, i, j - 1, t);
      ExecutionInv(run, j - 1);
      assert Step(run[j - 1], run[j - 1 + 1]);
      var u, a :| Enabled(run[j - 1], u, a) && run[j] == Apply(run[j - 1], u, a);
      assert a.Finish? ==> RunsAt(run[j - 1], u);
    }
  }

  /** At most one call returns true, and every outcome that is returned is the outcome of that call's action. */
  lemma FirstIsUnique<R(!new)>(run: seq<State<R>>, i: nat, t: nat, u: nat)
    requires Execution(run) && i < |run| && ReturnedAt(run[i], t, true)
    requires u < |run[i].calls| && run[i].calls[u].Returned? && (run[i].calls[u].first || run[i].calls[u].outcome.Some?)
    ensures run[i].calls[u].first ==> u == t
    ensures run[i].calls[u].outcome == run[i].calls[t].outcome == run[i].flag.done
  {
    ExecutionInv(run, i);
    FirstHasOutcome(run, i, t);
    if run[i].calls[u].first {
      assert ReturnedAt(run[i], u, true);
    }
  }

  lemma {:induction false} FirstHasOutcome<R(!new)>(run: seq<State<R>>, i: nat, t: nat)
    requires Execution(run) && i < |run| && ReturnedAt(run[i], t, true)
    ensures run[i].calls[t].outcome.Some?
  {
    if i > 0 {
      assert Step(run[i - 1], run[i - 1 + 1]);
      var u, a :| Enabled(run[i - 1], u, a) && run[i] == Apply(run[i - 1], u, a);
      if u != t {
        OthersSame(run[i - 1], u, a, t);
        FirstHasOutcome(run, i - 1, t);
      }
    }
  }

  /** Once the action has been completed, the call that completed it has returned true with that outcome. */
  lemma CompletionIsFirst<R(!new)>(run: seq<State<R>>, i: nat)
    requires Execution(run) && i < |run| && run[i].flag.done.Some?
    ensures exists t: nat :: ReturnedAt(run[i], t, true) && run[i].calls[t].outcome == run[i].flag.done
  {
    ExecutionInv(run, i);
    var t: nat :| ReturnedAt(run[i], t, true);
    FirstHasOutcome(run, i, t);
  }

  /** A call panics only while it runs the action: waiting, sharing and being cancelled end with a return. */
  lemma {:induction false} PanickedRan<R(!new)>(run: seq<State<R>>, i: nat, t: nat)
    requires Execution(run) && i < |run| && t < |run[i].calls| && run[i].calls[t].Panicked?
    ensures exists j :: 0 <= j < i && RunsAt(run[j], t)
  {
    if i > 0 {
      assert Step(run[i - 1], run[i - 1 + 1]);
      var u, a :| Enabled(run[i - 1], u, a) && run[i] == Apply(run[i - 1], u, a);
      if u == t {
        assert RunsAt(run[i - 1], t);
      } else {
        OthersSame(run[i - 1], u, a, t);
        PanickedRan(run, i - 1, t);
      }
    }
  }

  /** A call whose action is cancelled or panics ends without an outcome, and any call that waits can take its place. */
  lemma FailurePassesOn<R(!new)>(run: seq<State<R>>, i: nat, t: nat, u: nat)
    requires Execution(run) && i < |run| && RunsAt(run[i], t) && u < |run[i].calls| && run[i].calls[u].Waiting?
    ensures Enabled(run[i], t, Panic) && Enabled(run[i], t, Stop)
    ensures var s' := Apply(run[i], t, Panic);
      s'.calls[t].Panicked? && Enabled(s', u, Take) && !Enabled(s', u, Share)
    ensures var s' := Apply(run[i], t, Stop);
      s'.calls[t] == Returned(false, None) && Enabled(s', u, Take) && !Enabled(s', u, Share)
  {
    ExecutionInv(run, i);
  }

  /** The token is never lost: a waiting call can take a step that ends its wait, or another call runs the action. */
  lemma NeverStuck<R(!new)>(run: seq<State<R>>, i: nat, t: nat)
    requires Execution(run) && i < |run| && t < |run[i].calls| && run[i].calls[t].Waiting?
    ensures Enabled(run[i], t, Take) || Enabled(run[i], t, Share) || exists u :: RunsAt(run[i], u)
  {
    ExecutionInv(run, i);
  }
}
