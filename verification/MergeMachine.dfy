/**
 Concurrent updates of one referrers index: the pool that hands out the merge object, the leader/follower
 batching of the merge, and the read-modify-write on the registry tag, as one step relation.

 One caller stands for one call of `updateReferrersIndex`.
 */
module MergeMachine {
  import opened Content
  import opened Referrers

  /** A message on a status channel: you are the main one, or your batch is over. */
  datatype Status = Status(main: bool, err: Option<nat>)

  /**
   A status channel with room for one message. A channel is the identity of a batch: `members` are the callers
   assigned to it, in order, `mains` counts the main tokens received from it, and `result` is what its main caller
   passed to `complete`; no step reads these three.
   */
  datatype Channel = Channel(buffer: seq<Status>, closed: bool, members: seq<nat>, mains: nat,
                             result: Option<Option<nat>>)

  datatype Merge = Merge(committed: bool, items: seq<nat>, status: Option<nat>,
                         pending: seq<nat>, pendingStatus: Option<nat>)

  const FRESH := Merge(false, [], None, [], None)

  /** An index manifest in the registry; `raw` tells apart encodings of one list, 0 is the one generated here. */
  datatype Index = Index(list: seq<Descriptor>, raw: nat)

  datatype Pc =
    | Entered                                                   // holds a reference to the merge object
    | Waiting                                                   // for a message on its status channel
    | Preparing                                                 // main: about to fetch the old index
    | Committing(err: Option<nat>, view: Option<Index>)
    | Resolving(err: Option<nat>, view: Option<Index>)
    | Pushing(view: Option<Index>, list: seq<Descriptor>)
    | Deleting(stale: Index, pushed: bool)
    | Notifying(err: Option<nat>, left: nat)
    | Staging(err: Option<nat>)
    | Releasing(err: Option<nat>)
    | Gone(err: Option<nat>)

  datatype Caller = Caller(change: Change, inst: nat, ch: nat, pc: Pc)

  datatype PoolItem = PoolItem(inst: nat, refs: int)

  datatype State = State(
    callers: seq<Caller>,
    channels: seq<Channel>,
    merges: seq<Merge>,      // the merge objects created so far
    pool: Option<PoolItem>,  // the pool entry of this tag
    tag: Option<Index>,      // what the referrers tag points to
    stored: set<Index>,      // of the indexes it has pointed to, those that are still in the registry
    order: seq<nat>)         // the batches whose changes took effect, in the order in which they did

  datatype Action =
    | Assign
    | Receive
    | Prepare(failure: Option<nat>)
    | Commit
    | Resolve
    // `taken`: the registry has done it although a failure is reported
    | PushIndex(failure: Option<nat>, taken: bool)
    | DeleteIndex(failure: Option<nat>, taken: bool)
    | Notify
    | Stage
    | Release

  // ----- derived notions -----

  predicate IsMain(pc: Pc) {
    !pc.Entered? && !pc.Waiting? && !pc.Releasing? && !pc.Gone?
  }

  /** Between the commit of a batch and the end of its `complete`. */
  predicate PastCommit(pc: Pc) {
    IsMain(pc) && !pc.Preparing? && !pc.Committing?
  }

  function ListOf(tag: Option<Index>): seq<Descriptor> {
    if tag.Some? then tag.value.list else []
  }

  /** The changes of the callers `ids`, in order. */
  function ChangesOf(callers: seq<Caller>, ids: seq<nat>): seq<Change> {
    if ids == [] then []
    else
      var front := ChangesOf(callers, ids[..|ids| - 1]);
      var c := ids[|ids| - 1];
      if c < |callers| then front + [callers[c].change] else front
  }


  // ----- steps -----

  /** Only manifests with a subject reach the index, so a change never names the empty descriptor. */
  predicate Indexable(change: Change) {
    var m := change.referrer.mediaType;
    m.ImageManifest? || m.ImageIndex? || m.ArtifactManifest?
  }

  /** A new call: `Pool.Get` makes a merge object only when none is in use. */
  function Enter(s: State, change: Change): State {
    match s.pool
    case None =>
      s.(callers := s.callers + [Caller(change, |s.merges|, 0, Entered)],
         merges := s.merges + [FRESH], pool := Some(PoolItem(|s.merges|, 1)))
    case Some(p) =>
      s.(callers := s.callers + [Caller(change, p.inst, 0, Entered)], pool := Some(PoolItem(p.inst, p.refs + 1)))
  }

  ghost predicate Enabled(s: State, c: nat, a: Action) {
    c < |s.callers| && s.callers[c].inst < |s.merges| &&
    var x := s.callers[c];
    match a
    case Assign => x.pc.Entered?
    case Receive => x.pc.Waiting? && x.ch < |s.channels| && (s.channels[x.ch].buffer != [] || s.channels[x.ch].closed)
    case Prepare(_) => x.pc.Preparing?
    case Commit => x.pc.Committing?
    case Resolve => x.pc.Resolving?
    case PushIndex(_, _) => x.pc.Pushing?
    case DeleteIndex(_, _) => x.pc.Deleting?
    case Notify =>
      && x.pc.Notifying? && x.ch < |s.channels|
      && (x.pc.err.Some? && x.pc.left > 0 ==> s.channels[x.ch].buffer == [])
    case Stage =>
      // the token of the next batch must fit into its channel
      x.pc.Staging? &&
      var next := s.merges[x.inst].pendingStatus;
      next.Some? ==> next.value < |s.channels| && s.channels[next.value].buffer == []
    case Release => x.pc.Releasing? && s.pool.Some?
  }

  /** The channel that `assign` puts a caller on: the open batch, or the next one when the batch is committed. */
  function AssignedChannel(s: State, m: Merge): nat {
    var open := if m.committed then m.pendingStatus else m.status;
    if open.Some? then open.value else |s.channels|
  }

  /** The end of `update`, or of a failed `prepare`: `complete` is entered with `err`. */
  function Completed(m: Merge, err: Option<nat>): Pc {
    Notifying(err, if |m.items| > 0 then |m.items| - 1 else 0)
  }

  ghost function ResolvePc(skipGC: bool, s: State, x: Caller): Pc
    requires x.pc.Resolving? && x.inst < |s.merges|
  {
    var m := s.merges[x.inst];
    if x.pc.err.Some? then Completed(m, x.pc.err)
    else
      var updated := Updated(ListOf(x.pc.view), ChangesOf(s.callers, m.items));
      if updated.None? then Completed(m, None)
      else if updated.value != [] || skipGC then Pushing(x.pc.view, updated.value)
      else if x.pc.view.None? then Completed(m, None)
      else Deleting(x.pc.view.value, false)
  }

  ghost function NewPc(skipGC: bool, s: State, c: nat, a: Action): Pc
    requires Enabled(s, c, a)
  {
    var x := s.callers[c];
    var m := s.merges[x.inst];
    match a
    case Assign => Waiting
    case Receive =>
      var buffer := s.channels[x.ch].buffer;
      if buffer == [] then Releasing(None) else if buffer[0].main then Preparing else Releasing(buffer[0].err)
    case Prepare(failure) => Committing(failure, if failure.Some? then None else s.tag)
    case Commit => Resolving(x.pc.err, x.pc.view)
    case Resolve => ResolvePc(skipGC, s, x)
    case PushIndex(failure, _) =>
      if failure.Some? then Completed(m, failure)
      else if skipGC || x.pc.view.None? then Completed(m, None)
      else Deleting(x.pc.view.value, true)
    case DeleteIndex(failure, _) => Completed(m, failure)
    case Notify =>
      if x.pc.err.Some? && x.pc.left > 0 then Notifying(x.pc.err, x.pc.left - 1) else Staging(x.pc.err)
    case Stage => Releasing(x.pc.err)
    case Release => Gone(x.pc.err)
  }

  ghost function NewChannels(s: State, c: nat, a: Action, pc: Pc): seq<Channel>
    requires Enabled(s, c, a)
  {
    var x := s.callers[c];
    var m := s.merges[x.inst];
    match a
    case Assign =>
      var b := AssignedChannel(s, m);
      if b < |s.channels| then s.channels[b := s.channels[b].(members := s.channels[b].members + [c])]
      else s.channels + [Channel(if m.committed then [] else [Status(true, None)], false, [c], 0, None)]
    case Receive =>
      var ch := s.channels[x.ch];
      if ch.buffer == [] then s.channels
      else
        var mains := if ch.buffer[0].main then ch.mains + 1 else ch.mains;
        s.channels[x.ch := ch.(buffer := ch.buffer[1..], mains := mains)]
    case Notify =>
      var ch := s.channels[x.ch];
      if x.pc.err.None? then s.channels[x.ch := ch.(closed := true)]
      else if x.pc.left > 0 then s.channels[x.ch := ch.(buffer := ch.buffer + [Status(false, x.pc.err)])]
      else s.channels
    case Stage =>
      if m.pendingStatus.Some?
      then s.channels[m.pendingStatus.value := s.channels[m.pendingStatus.value].(buffer := [Status(true, None)])]
      else s.channels
    case _ =>
      // entering `complete` settles the result of the batch
      if pc.Notifying? && x.ch < |s.channels| then s.channels[x.ch := s.channels[x.ch].(result := Some(pc.err))]
      else s.channels
  }

  function NewMerge(s: State, m: Merge, c: nat, a: Action): Merge {
    match a
    case Assign =>
      if m.committed then m.(pending := m.pending + [c], pendingStatus := Some(AssignedChannel(s, m)))
      else m.(items := m.items + [c], status := Some(AssignedChannel(s, m)))
    case Commit => m.(committed := true)
    case Stage => Merge(false, m.pending, m.pendingStatus, [], None)
    case _ => m
  }

  /**
   The batch takes effect, whether or not a failure is reported: nothing to change, a new index is tagged, or the
   emptied index is gone.
   */
  ghost predicate TakesEffect(x: Caller, a: Action, pc: Pc) {
    match a
    case Resolve => pc.Notifying? && pc.err.None?
    case PushIndex(failure, taken) => failure.None? || taken
    case DeleteIndex(failure, taken) => (failure.None? || taken) && x.pc.Deleting? && !x.pc.pushed
    case _ => false
  }

  function NewTag(s: State, x: Caller, a: Action): Option<Index> {
    match a
    case PushIndex(failure, taken) =>
      if (failure.None? || taken) && x.pc.Pushing? then Some(Index(x.pc.list, 0)) else s.tag
    case DeleteIndex(failure, taken) =>
      if (failure.None? || taken) && x.pc.Deleting? && s.tag == Some(x.pc.stale) then None else s.tag
    case _ => s.tag
  }

  function NewStored(s: State, x: Caller, a: Action): set<Index> {
    match a
    case PushIndex(failure, taken) =>
      if (failure.None? || taken) && x.pc.Pushing? then s.stored + {Index(x.pc.list, 0)} else s.stored
    case DeleteIndex(failure, taken) =>
      if (failure.None? || taken) && x.pc.Deleting? then s.stored - {x.pc.stale} else s.stored
    case _ => s.stored
  }

  ghost function Apply(skipGC: bool, s: State, c: nat, a: Action): State
    requires Enabled(s, c, a)
  {
    var x := s.callers[c];
    var m := s.merges[x.inst];
    var pc := NewPc(skipGC, s, c, a);
    State(
      s.callers[c := Caller(x.change, x.inst, if a.Assign? then AssignedChannel(s, m) else x.ch, pc)],
      NewChannels(s, c, a, pc),
      s.merges[x.inst := NewMerge(s, m, c, a)],
      if !a.Release? then s.pool
      else if s.pool.value.refs <= 1 then None
      else Some(PoolItem(s.pool.value.inst, s.pool.value.refs - 1)),
      NewTag(s, x, a),
      NewStored(s, x, a),
      if TakesEffect(x, a, pc) then s.order + [x.ch] else s.order)
  }

  ghost predicate CallerStep(skipGC: bool, s: State, c: nat, a: Action, s': State) {
    Enabled(s, c, a) && s' == Apply(skipGC, s, c, a)
  }

  ghost predicate Arrival(s: State, change: Change, s': State) {
    Indexable(change) && s' == Enter(s, change)
  }

  ghost predicate Step(skipGC: bool, s: State, s': State) {
    (exists c: nat, a: Action :: CallerStep(skipGC, s, c, a, s')) || (exists change :: Arrival(s, change, s'))
  }

  function Initial(tag: Option<Index>): State {
    State([], [], [], None, tag, if tag.Some? then {tag.value} else {}, [])
  }

  ghost predicate Execution(skipGC: bool, tag: Option<Index>, run: seq<State>) {
    |run| > 0 && run[0] == Initial(tag) && forall i :: 0 <= i < |run| - 1 ==> Step(skipGC, run[i], run[i + 1])
  }

  ghost predicate Reachable(skipGC: bool, tag: Option<Index>, s: State) {
    exists run :: Execution(skipGC, tag, run) && run[|run| - 1] == s
  }
}
