/** Every call of the merge protocol returns. */
module MergeProgress {
  import opened Content
  import opened MergeMachine
  import opened MergeInvariant

  // ----- no caller is left waiting -----

  lemma MainMoves(s: State, c: nat) returns (d: nat, a: Action)
    requires Inv(s) && MainAt(s, c)
    ensures Enabled(s, d, a)
  {
    var x := s.callers[c];
    d := c;
    var b := x.ch;
    assert Placed(s, c) && ChannelOk(s, b) && MainOk(s, b, c);
    match x.pc {
      case Preparing => a := Prepare(None);
      case Committing(_, _) => a := Commit;
      case Resolving(_, _) => a := Resolve;
      case Pushing(_, _) => a := PushIndex(None, false);
      case Deleting(_, _) => a := DeleteIndex(None, false);
      case Notifying(err, left) =>
        if err.Some? && left > 0 && s.channels[b].buffer != [] {
          // the channel is full: someone it is meant for is waiting
          var waiters := Waiters(s, b);
          assert waiters != {};
          d :| d in waiters;
          MemberBelongs(s, b, d);
          a := Receive;
        } else {
          a := Notify;
        }
      case Staging(_) =>
        var next := Cur(s).pendingStatus;
        if next.Some? {
          assert ChannelOk(s, next.value);
        }
        a := Stage;
    }
  }

  lemma WaiterMoves(s: State, c: nat) returns (d: nat, a: Action)
    requires Inv(s) && c < |s.callers| && s.callers[c].pc.Waiting?
    ensures Enabled(s, d, a)
  {
    var b := s.callers[c].ch;
    assert Placed(s, c) && ChannelOk(s, b);
    var m := Cur(s);
    if m.status == Some(b) || m.pendingStatus == Some(b) {
      if main :| MainAt(s, main) {
        d, a := MainMoves(s, main);
      } else {
        assert NoMain(s);
        d, a := c, Receive;
      }
    } else {
      assert c in Waiters(s, b);
      d, a := c, Receive;
    }
  }

  /** Whatever has failed, as long as a call has not returned some step is possible. */
  lemma NobodyIsStranded(skipGC: bool, tag: Option<Index>, s: State)
    requires Reachable(skipGC, tag, s)
    ensures AllGone(s) || exists c: nat, a: Action :: Enabled(s, c, a)
  {
    var run :| Execution(skipGC, tag, run) && run[|run| - 1] == s;
    ExecutionInv(skipGC, tag, run, |run| - 1);
    if c :| 0 <= c < |s.callers| && !s.callers[c].pc.Gone? {
      var d, a := CallerMoves(s, c);
      assert Enabled(s, d, a);
    }
  }

  lemma CallerMoves(s: State, c: nat) returns (d: nat, a: Action)
    requires Inv(s) && c < |s.callers| && !s.callers[c].pc.Gone?
    ensures Enabled(s, d, a)
  {
    var pc := s.callers[c].pc;
    if pc.Entered? {
      d, a := c, Assign;
    } else if pc.Waiting? {
      d, a := WaiterMoves(s, c);
    } else if pc.Releasing? {
      if s.pool.None? {
        NoneActive(s.callers, c);
      }
      d, a := c, Release;
    } else {
      d, a := MainMoves(s, c);
    }
  }

  // ----- and it does not go on forever -----

  /** How far a caller is from returning. */
  function Distance(pc: Pc): nat {
    match pc
    case Entered => 14
    case Waiting => 11
    case Preparing => 10
    case Committing(_, _) => 9
    case Resolving(_, _) => 8
    case Pushing(_, _) => 7
    case Deleting(_, _) => 6
    case Notifying(_, _) => 5
    case Staging(_) => 4
    case Releasing(_) => 1
    case Gone(_) => 0
  }

  function TotalDistance(callers: seq<Caller>): nat {
    if callers == [] then 0 else TotalDistance(callers[..|callers| - 1]) + 2 * Distance(callers[|callers| - 1].pc)
  }

  /** Room that is left in the channels: a message that is sent uses it up, one that is received gives it back. */
  function Room(channels: seq<Channel>): int {
    if channels == [] then 0 else Room(channels[..|channels| - 1]) + 1 - |channels[|channels| - 1].buffer|
  }

  function Measure(s: State): int {
    TotalDistance(s.callers) + Room(s.channels)
  }

  lemma {:induction false} DistanceUpdate(callers: seq<Caller>, c: nat, x: Caller)
    requires c < |callers|
    ensures TotalDistance(callers[c := x]) == TotalDistance(callers) - 2 * Distance(callers[c].pc) + 2 * Distance(x.pc)
  {
    var m := |callers| - 1;
    if c == m {
      assert callers[c := x][..m] == callers[..m];
    } else {
      assert callers[c := x][..m] == callers[..m][c := x];
      DistanceUpdate(callers[..m], c, x);
    }
  }

  lemma {:induction false} RoomUpdate(channels: seq<Channel>, b: nat, y: Channel)
    requires b < |channels|
    ensures Room(channels[b := y]) == Room(channels) + |channels[b].buffer| - |y.buffer|
  {
    var m := |channels| - 1;
    if b == m {
      assert channels[b := y][..m] == channels[..m];
    } else {
      assert channels[b := y][..m] == channels[..m][b := y];
      RoomUpdate(channels[..m], b, y);
    }
  }

  lemma RoomAppend(channels: seq<Channel>, y: Channel)
    ensures Room(channels + [y]) == Room(channels) + 1 - |y.buffer|
  {
    assert (channels + [y])[..|channels|] == channels;
  }

  lemma {:induction false} RoomNonNegative(s: State, n: nat)
    requires Inv(s) && n <= |s.channels|
    ensures Room(s.channels[..n]) >= 0
  {
    if n > 0 {
      assert s.channels[..n][..n - 1] == s.channels[..n - 1];
      RoomNonNegative(s, n - 1);
      ChannelHasRoom(s, n - 1);
    }
  }

  /** A channel never holds more than the one message it has room for. */
  lemma ChannelHasRoom(s: State, b: nat)
    requires Inv(s) && b < |s.channels|
    ensures |s.channels[b].buffer| <= 1
  {
    assert ChannelOk(s, b);
    if c :| MainAt(s, c) {
      if Cur(s).status == Some(b) {
        assert MainOk(s, b, c);
      }
    }
  }

  /** How much a step changes the room in the channels. */
  lemma RoomChange(skipGC: bool, s: State, c: nat, a: Action)
    requires Inv(s) && Enabled(s, c, a)
    ensures var grow := Room(Apply(skipGC, s, c, a).channels) - Room(s.channels);
      if a.Assign? || a.Receive? then grow <= 1
      else if a.Notify? && s.callers[c].pc.err.Some? && s.callers[c].pc.left > 0 then grow == -1
      else grow <= 0
  {
    var s' := Apply(skipGC, s, c, a);
    var x := s.callers[c];
    var m := s.merges[x.inst];
    StepCur(skipGC, s, c, a);
    if |s'.channels| > |s.channels| {
      RoomAppend(s.channels, s'.channels[|s.channels|]);
    } else {
      var b := if a.Assign? then AssignedChannel(s, m)
               else if a.Stage? && m.pendingStatus.Some? then m.pendingStatus.value
               else x.ch;
      assert Placed(s, c);
      if b < |s.channels| {
        assert s'.channels == s.channels[b := s'.channels[b]];
        RoomUpdate(s.channels, b, s'.channels[b]);
      }
    }
  }

  /** A step brings its caller closer to returning, except that the sending of errors is paid for by the room. */
  lemma DistanceDrop(skipGC: bool, s: State, c: nat, a: Action)
    requires Enabled(s, c, a)
    ensures var drop := Distance(s.callers[c].pc) - Distance(NewPc(skipGC, s, c, a));
      if a.Notify? && s.callers[c].pc.err.Some? && s.callers[c].pc.left > 0 then drop == 0 else drop >= 1
  {
  }

  lemma StepMeasure(skipGC: bool, s: State, c: nat, a: Action)
    requires Inv(s) && Enabled(s, c, a)
    ensures Measure(Apply(skipGC, s, c, a)) < Measure(s)
  {
    RoomChange(skipGC, s, c, a);
    DistanceDrop(skipGC, s, c, a);
    DistanceUpdate(s.callers, c, Apply(skipGC, s, c, a).callers[c]);
  }

  lemma MeasureNonNegative(s: State)
    requires Inv(s)
    ensures Measure(s) >= 0
  {
    assert s.channels[..|s.channels|] == s.channels;
    RoomNonNegative(s, |s.channels|);
  }

  ghost predicate Moved(skipGC: bool, s: State, s': State) {
    exists c: nat, a: Action :: CallerStep(skipGC, s, c, a, s')
  }

  ghost predicate Stuck(s: State) {
    forall c: nat, a: Action :: !Enabled(s, c, a)
  }

  ghost predicate AllGone(s: State) {
    forall c :: 0 <= c < |s.callers| ==> s.callers[c].pc.Gone?
  }

  /** From some point on nobody arrives any more; each state is left by a step as long as there is one. */
  ghost predicate Drain(skipGC: bool, run: nat -> State) {
    forall i: nat :: Moved(skipGC, run(i), run(i + 1)) || (Stuck(run(i)) && run(i + 1) == run(i))
  }

  lemma {:induction false} DrainEnds(skipGC: bool, run: nat -> State, n: nat) returns (m: nat)
    requires Inv(run(n)) && Drain(skipGC, run)
    ensures AllGone(run(m))
    decreases Measure(run(n))
  {
    m := n;
    var s, s' := run(n), run(n + 1);
    assert Moved(skipGC, s, s') || Stuck(s);
    if c: nat, a: Action :| CallerStep(skipGC, s, c, a, s') {
      StepInv(skipGC, s, c, a);
      StepMeasure(skipGC, s, c, a);
      MeasureNonNegative(s');
      m := DrainEnds(skipGC, run, n + 1);
    } else {
      forall c: nat | c < |s.callers|
        ensures s.callers[c].pc.Gone?
      {
        if !s.callers[c].pc.Gone? {
          var d, a := CallerMoves(s, c);
        }
      }
    }
  }

  /** Once no new calls arrive, every schedule ends with all calls returned. */
  lemma EveryCallReturns(skipGC: bool, tag: Option<Index>, s: State, run: nat -> State)
    requires Reachable(skipGC, tag, s) && run(0) == s && Drain(skipGC, run)
    ensures exists n: nat :: AllGone(run(n))
  {
    var past :| Execution(skipGC, tag, past) && past[|past| - 1] == s;
    ExecutionInv(skipGC, tag, past, |past| - 1);
    var n := DrainEnds(skipGC, run, 0);
  }
}
