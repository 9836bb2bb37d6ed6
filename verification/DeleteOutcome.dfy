/** When `Store.Delete` succeeds: a condition on the state before the call, and a state in which the order decides. */
module DeleteOutcome {
  import opened Content
  import opened GraphMemory
  import opened Layout
  import opened Resolver
  import opened StoreDelete

  /** Every predecessor of `m` that can carry a subject can be read, from a blob that no other key of `all` has. */
  ghost predicate ReadableBeside(v: View, all: set<Key>, m: Key) {
    forall p :: p in Sources(v.succ, m) && HasSubjectField(p.mediaType) ==>
      FetchJson(v.files, p).Ok? && forall k :: k in all && k.digest == p.digest ==> k == p
  }

  /** What goes in the first `n` rounds, if each round removes all that the rounds before have drawn along. */
  ghost function Round(v: View, target: Key, n: nat): set<Key> {
    if n == 0 then {target}
    else
      var before := Round(v, target, n - 1);
      before + set k | k in Everything(v, target) && Drawn(v, before, k)
  }

  ghost predicate Referred(v: View, gone: set<Key>, k: Key) {
    exists m :: m in gone && Referrer(v, k, m)
  }

  /** `gone` draws `k` along for two reasons: it holds the subject of `k`, and all its predecessors. */
  ghost predicate BothWays(v: View, gone: set<Key>, k: Key) {
    Orphaned(v, gone, k) && Referred(v, gone, k)
  }

  /** When the second reason comes up, `k` has been removed in a round before. */
  ghost predicate ApartAt(v: View, target: Key, k: Key, n: nat) {
    BothWays(v, Round(v, target, n), k) ==> n > 0 && k in Round(v, target, n - 1)
  }

  ghost predicate Apart(v: View, target: Key, k: Key) {
    forall n: nat {:trigger ApartAt(v, target, k, n)} :: ApartAt(v, target, k, n)
  }

  /** Both reasons come up in the same round, and `k` goes in the next. */
  ghost predicate ClashesAt(v: View, target: Key, k: Key, n: nat) {
    BothWays(v, Round(v, target, n), k) && k !in Round(v, target, n)
  }

  ghost predicate Clashes(v: View, target: Key, k: Key) {
    exists n: nat {:trigger ClashesAt(v, target, k, n)} :: ClashesAt(v, target, k, n)
  }

  /** What can be checked before a deletion to know that it succeeds. */
  ghost predicate Clear(v: View, target: Key) {
    var all := Doomed(v, target);
    && OwnBlobs(v, all)
    && (forall m {:trigger ReadableBeside(v, all, m)} :: m in all && IsManifest(m.mediaType) ==>
         ReadableBeside(v, all, m))
    && (forall k {:trigger Sources(v.succ, k)} :: k in all ==> k !in Sources(v.succ, k))
    && (forall k {:trigger Apart(v, target, k)} :: k in all && k != target ==> Apart(v, target, k))
  }

  // ----- a node that is clear can be processed -----

  lemma ClearHead(v: View, w: View, target: Key, gone: set<Key>, head: Key, autoGC: bool)
    requires Clear(v, target) && Taken(v, w, gone) && w.files == v.files - Digests(gone)
    requires gone <= Doomed(v, target) && head in Doomed(v, target) && head !in gone
    ensures !Obstacle(w, head, autoGC)
  {
    var all := Doomed(v, target);
    SourcesLeft(v.succ, gone, head);
    if IsManifest(head.mediaType) {
      assert ReadableBeside(v, all, head);
      forall p | p in Sources(w.succ, head) && HasSubjectField(p.mediaType)
        ensures FetchJson(w.files, p).Ok?
      {
        assert p in Sources(v.succ, head) && p !in gone;
        assert p.digest !in Digests(gone);
      }
    }
  }

  // ----- rounds -----

  lemma {:induction false} RoundsGrow(v: View, target: Key, i: nat, n: nat)
    requires i <= n
    ensures target in Round(v, target, i) && Round(v, target, i) <= Round(v, target, n)
    decreases n
  {
    if i < n {
      RoundsGrow(v, target, i, n - 1);
    } else if i > 0 {
      RoundsGrow(v, target, i - 1, n - 1);
    }
  }

  lemma BothWaysMonotone(v: View, small: set<Key>, large: set<Key>, k: Key)
    requires small <= large && BothWays(v, small, k)
    ensures BothWays(v, large, k)
  {
    var m :| m in small && Referrer(v, k, m);
    assert m in large;
  }

  /** What a round draws along goes in the next one. */
  lemma RoundDraws(v: View, target: Key, n: nat, gone: set<Key>, k: Key)
    requires gone <= Round(v, target, n) && Drawn(v, gone, k)
    ensures k in Round(v, target, n + 1)
  {
    DrawnMonotone(v, gone, Round(v, target, n), k);
    DrawnIsKnown(v, target, gone, k);
  }

  // ----- how often a node is queued -----

  /** For how many reasons `gone` draws `k` along. */
  ghost function Weight(v: View, gone: set<Key>, k: Key): nat {
    (if Referred(v, gone, k) then 1 else 0) + if Orphaned(v, gone, k) then 1 else 0
  }

  ghost predicate CountedAt(v: View, target: Key, gone: set<Key>, queue: seq<Key>, k: Key) {
    k !in gone && k != target ==> multiset(queue)[k] == Weight(v, gone, k)
  }

  /** A node that is still there is in the queue once for each reason. */
  ghost predicate Counted(v: View, target: Key, gone: set<Key>, queue: seq<Key>) {
    forall k {:trigger CountedAt(v, target, gone, queue, k)} :: CountedAt(v, target, gone, queue, k)
  }

  /** What one pass appends, counted. */
  lemma AppendedCount(w: View, w': View, head: Key, added: seq<Key>, k: Key)
    requires Appended(w, w', head, added, true)
    ensures multiset(added)[k] ==
      (if Referrer(w, k, head) then 1 else 0) + if Dangling(w, w', head, k) then 1 else 0
  {
    var n :| 0 <= n <= |added| && ReferrerList(w, head, added[..n]) && DanglingList(w, w', head, added[n..]);
    assert added == added[..n] + added[n..];
    CountOnce(added[..n], k);
    CountOnce(added[n..], k);
  }

  /** Removing `head` newly refers `k` exactly if the pass finds it as a referrer. */
  lemma ReferredMore(v: View, w: View, gone: set<Key>, head: Key, k: Key)
    requires Taken(v, w, gone) && head !in gone && k !in gone && (IsManifest(head.mediaType) ==> Readable(w, head))
    ensures Referrer(w, k, head) <==> Referrer(v, k, head)
    ensures Referrer(v, k, head) ==> !Referred(v, gone, k)
    ensures Referred(v, gone + {head}, k) <==> Referred(v, gone, k) || Referrer(v, k, head)
  {
    SourcesLeft(v.succ, gone, head);
    if Referrer(v, k, head) {
      assert k in Sources(w.succ, head);
      assert FetchJson(w.files, k) == FetchJson(v.files, k);
    }
    if Referrer(w, k, head) {
      SameReferrer(v, w, gone, k, head);
    }
    if Referred(v, gone, k) {
      var m :| m in gone && Referrer(v, k, m);
      assert m in gone + {head};
    }
    if Referrer(v, k, head) {
      assert head in gone + {head};
    }
  }

  /** And it newly orphans `k` exactly if the pass finds it dangling. */
  lemma OrphanedMore(v: View, w: View, w': View, gone: set<Key>, head: Key, k: Key)
    requires Taken(v, w, gone) && Taken(v, w', gone + {head}) && DigestsIdentify(v) && head !in gone && k !in gone
    requires k != head
    ensures Dangling(w, w', head, k) ==> !Orphaned(v, gone, k)
    ensures Orphaned(v, gone + {head}, k) <==> Orphaned(v, gone, k) || Dangling(w, w', head, k)
  {
    SourcesLeft(v.succ, gone, k);
    assert TagsKept(v, w', k);
    assert k in v.nodes ==> k in w'.nodes && k in w.nodes;
    var all, left := Sources(v.succ, k), Sources(w.succ, k);
    assert left == all - gone;
    assert left == {head} ==> head in all && all <= gone + {head};
    assert all <= gone + {head} && !(all <= gone) ==> left == {head};
  }

  lemma StepCounted(v: View, w: View, w': View, target: Key, gone: set<Key>, head: Key, rest: seq<Key>, added: seq<Key>)
    requires Taken(v, w, gone) && Taken(v, w', gone + {head}) && DigestsIdentify(v) && head !in gone
    requires IsManifest(head.mediaType) ==> Readable(w, head)
    requires Appended(w, w', head, added, true) && Counted(v, target, gone, [head] + rest)
    ensures Counted(v, target, gone + {head}, rest + added)
  {
    forall k
      ensures CountedAt(v, target, gone + {head}, rest + added, k)
    {
      if k !in gone + {head} && k != target {
        assert CountedAt(v, target, gone, [head] + rest, k);
        AppendedCount(w, w', head, added, k);
        ReferredMore(v, w, gone, head, k);
        OrphanedMore(v, w, w', gone, head, k);
      }
    }
  }

  // ----- a node in the queue that is there again -----

  /** A node waits twice, or has been removed already: some later pass will find no blob. */
  ghost predicate Repeated(gone: set<Key>, queue: seq<Key>) {
    !NoRepeats(queue) || exists k :: k in queue && k in gone
  }

  lemma SetOfConcat(a: seq<Key>, b: seq<Key>)
    ensures SetOf(a + b) == SetOf(a) + SetOf(b)
  {
  }

  lemma TailOnce(head: Key, rest: seq<Key>)
    requires NoRepeats([head] + rest)
    ensures NoRepeats(rest) && head !in rest
  {
    var all := [head] + rest;
    forall i | 0 <= i < |rest|
      ensures rest[i] == all[i + 1] && rest[i] != head
    {
      assert all[0] != all[i + 1];
    }
  }

  /** As long as no pass finds a blob missing, that does not change. */
  lemma StaysRepeated(gone: set<Key>, head: Key, rest: seq<Key>, added: seq<Key>)
    requires Repeated(gone, [head] + rest) && head !in gone
    ensures Repeated(gone + {head}, rest + added)
  {
    var all, next := [head] + rest, rest + added;
    if !NoRepeats(all) {
      var i, j :| 0 <= i < j < |all| && all[i] == all[j];
      assert next[j - 1] == all[j] && next[j - 1] in next;
      if i > 0 {
        assert next[i - 1] == all[i];
      }
    } else {
      var k :| k in all && k in gone;
      assert k in rest && k in next;
    }
  }

  // ----- the queue goes round by round -----

  /** The first `f` in the queue are what is left of round `n`, the others belong to the next one. */
  ghost predicate Phase(v: View, target: Key, gone: set<Key>, queue: seq<Key>, n: nat, f: nat) {
    && f <= |queue| && !Repeated(gone, queue)
    && gone + SetOf(queue[..f]) == Round(v, target, n)
    && (n > 0 ==> Round(v, target, n - 1) <= gone)
    && SetOf(queue[f..]) <= Round(v, target, n + 1) - Round(v, target, n)
    && (f == 0 ==> queue == [])
  }

  /** Nothing waits twice, each node waits once for each reason, and none of those removed had two in one round. */
  ghost predicate Tidy(v: View, target: Key, gone: set<Key>, queue: seq<Key>) {
    && (exists n: nat, f: nat :: Phase(v, target, gone, queue, n, f))
    && Counted(v, target, gone, queue)
    && (forall k {:trigger Clashes(v, target, k)} :: k in gone && k != target ==> !Clashes(v, target, k))
    && (target in gone || queue == [target])
  }

  lemma StartTidy(v: View, target: Key)
    ensures Tidy(v, target, {}, [target])
  {
    var queue := [target];
    assert queue[..1] == queue && queue[1..] == [];
    assert SetOf(queue) == {target};
    assert Phase(v, target, {}, queue, 0, 1);
    forall k
      ensures CountedAt(v, target, {}, queue, k)
    {
      if k != target {
        assert Sources(v.succ, k) <= {} ==> Sources(v.succ, k) == {};
        assert multiset(queue)[k] == 0;
      }
    }
  }

  /** The head of the queue has one reason to go: with two it would wait twice. */
  lemma HeadOnce(v: View, target: Key, gone: set<Key>, queue: seq<Key>)
    requires Counted(v, target, gone, queue) && !Repeated(gone, queue) && queue != [] && queue[0] != target
    ensures !BothWays(v, gone, queue[0])
  {
    assert queue[0] in queue;
    assert CountedAt(v, target, gone, queue, queue[0]);
    CountOnce(queue, queue[0]);
  }

  lemma NotBothEarlier(v: View, early: set<Key>, gone: set<Key>, k: Key)
    requires early <= gone && !BothWays(v, gone, k)
    ensures !BothWays(v, early, k)
  {
    if BothWays(v, early, k) {
      BothWaysMonotone(v, early, gone, k);
    }
  }

  lemma UnclashedAt(v: View, target: Key, gone: set<Key>, head: Key, n: nat, i: nat)
    requires head in Round(v, target, n) && (n > 0 ==> Round(v, target, n - 1) <= gone) && !BothWays(v, gone, head)
    ensures !ClashesAt(v, target, head, i)
  {
    var early := Round(v, target, i);
    if i >= n {
      RoundsGrow(v, target, n, i);
    } else {
      RoundsGrow(v, target, i, n - 1);
      NotBothEarlier(v, early, gone, head);
    }
  }

  /** So it does not clash. */
  lemma HeadUnclashed(v: View, target: Key, gone: set<Key>, head: Key, n: nat)
    requires head in Round(v, target, n) && (n > 0 ==> Round(v, target, n - 1) <= gone) && !BothWays(v, gone, head)
    ensures !Clashes(v, target, head)
  {
    forall i: nat
      ensures !ClashesAt(v, target, head, i)
    {
      UnclashedAt(v, target, gone, head, n, i);
    }
  }

  /** After a pass without a repetition the queue is in a phase again. */
  lemma StepPhase(v: View, target: Key, gone: set<Key>, head: Key, rest: seq<Key>, added: seq<Key>, n: nat, f: nat)
    requires Phase(v, target, gone, [head] + rest, n, f) && !Repeated(gone + {head}, rest + added)
    requires forall k :: k in added ==> Drawn(v, gone + {head}, k)
    requires Awaited(v, gone + {head}, SetOf(rest + added))
    ensures exists n': nat, f': nat :: Phase(v, target, gone + {head}, rest + added, n', f')
  {
    var queue, next, gone' := [head] + rest, rest + added, gone + {head};
    var front, back := rest[..f - 1], next[f - 1..];
    assert queue[..f] == [head] + front && next[..f - 1] == front && back == queue[f..] + added;
    assert SetOf(queue[..f]) == {head} + SetOf(front);
    assert gone' + SetOf(front) == Round(v, target, n);
    BackIsNext(v, target, gone', front, queue[f..], added, n);
    if f > 1 || next == [] {
      assert Phase(v, target, gone', next, n, f - 1);
    } else {
      NextRound(v, target, gone', next, n);
      assert next[..|next|] == next && next[|next|..] == [];
      assert Phase(v, target, gone', next, n + 1, |next|);
    }
  }

  lemma NoRepeatsApart(a: seq<Key>, b: seq<Key>)
    requires NoRepeats(a + b)
    ensures forall k :: k in b ==> k !in a
  {
    forall i, j | 0 <= i < |a| && 0 <= j < |b|
      ensures a[i] != b[j]
    {
      assert (a + b)[i] == a[i] && (a + b)[|a| + j] == b[j];
    }
  }

  /** What is added behind round `n` belongs to the next one. */
  lemma BackIsNext(v: View, target: Key, gone: set<Key>, front: seq<Key>, back: seq<Key>, added: seq<Key>, n: nat)
    requires gone + SetOf(front) == Round(v, target, n) && !Repeated(gone, front + (back + added))
    requires SetOf(back) <= Round(v, target, n + 1) - Round(v, target, n)
    requires forall k :: k in added ==> Drawn(v, gone, k)
    ensures SetOf(back + added) <= Round(v, target, n + 1) - Round(v, target, n)
  {
    NoRepeatsApart(front, back + added);
    forall k | k in added
      ensures k in Round(v, target, n + 1) && k !in Round(v, target, n)
    {
      RoundDraws(v, target, n, gone, k);
      assert k in back + added && k in front + (back + added);
    }
  }

  /** When a round is over, the queue is the next one. */
  lemma NextRound(v: View, target: Key, gone: set<Key>, queue: seq<Key>, n: nat)
    requires gone == Round(v, target, n) && Awaited(v, gone, SetOf(queue))
    requires SetOf(queue) <= Round(v, target, n + 1) - Round(v, target, n)
    ensures gone + SetOf(queue) == Round(v, target, n + 1)
  {
    forall k | k in Round(v, target, n + 1)
      ensures k in gone + SetOf(queue)
    {
      assert k in gone || Drawn(v, gone, k);
    }
  }

  // ----- one turn -----

  lemma StepInPhase(v: View, w: View, w': View, target: Key, gone: set<Key>, head: Key, rest: seq<Key>, added: seq<Key>,
                    n: nat, f: nat)
    requires DigestsIdentify(v) && Taken(v, w, gone) && Taken(v, w', gone + {head})
    requires Appended(w, w', head, added, true)
    requires Phase(v, target, gone, [head] + rest, n, f) && !Repeated(gone + {head}, rest + added)
    requires Awaited(v, gone + {head}, SetOf(rest + added))
    ensures exists n': nat, f': nat :: Phase(v, target, gone + {head}, rest + added, n', f')
  {
    forall k | k in added
      ensures Drawn(v, gone + {head}, k)
    {
      AddedIsDrawn(v, w, w', gone, head, rest, added, k);
    }
    StepPhase(v, target, gone, head, rest, added, n, f);
  }

  /** One pass keeps the queue tidy, or puts something in it again. */
  lemma StepTidy(v: View, w: View, w': View, target: Key, gone: set<Key>, head: Key, rest: seq<Key>, added: seq<Key>)
    requires DigestsIdentify(v) && Run(v, w, target, gone, SetOf([head] + rest), true)
    requires Passes(w, head, w', added, true)
    requires Run(v, w', target, gone + {head}, SetOf(rest + added), true)
    requires Tidy(v, target, gone, [head] + rest) && !Repeated(gone + {head}, rest + added)
    ensures Tidy(v, target, gone + {head}, rest + added)
  {
    var n: nat, f: nat :| Phase(v, target, gone, [head] + rest, n, f);
    HeadIsThere(gone, head, rest);
    StepInPhase(v, w, w', target, gone, head, rest, added, n, f);
    StepCounted(v, w, w', target, gone, head, rest, added);
    HeadMayGo(v, target, gone, [head] + rest, n, f);
    assert ([head] + rest)[0] == head;
  }

  lemma HeadMayGo(v: View, target: Key, gone: set<Key>, queue: seq<Key>, n: nat, f: nat)
    requires queue != [] && Phase(v, target, gone, queue, n, f) && Counted(v, target, gone, queue)
    ensures queue[0] != target ==> !Clashes(v, target, queue[0])
  {
    assert queue[..f][0] == queue[0];
    if queue[0] != target {
      HeadOnce(v, target, gone, queue);
      HeadUnclashed(v, target, gone, queue[0], n);
    }
  }

  lemma HeadIsThere(gone: set<Key>, head: Key, rest: seq<Key>)
    requires !Repeated(gone, [head] + rest)
    ensures head !in gone
  {
    assert ([head] + rest)[0] == head;
    assert head in [head] + rest;
  }

  lemma AddedIsDrawn(v: View, w: View, w': View, gone: set<Key>, head: Key, rest: seq<Key>, added: seq<Key>, k: Key)
    requires DigestsIdentify(v) && Taken(v, w, gone) && Taken(v, w', gone + {head})
    requires Appended(w, w', head, added, true)
    requires !Repeated(gone + {head}, rest + added) && k in added
    ensures Drawn(v, gone + {head}, k)
  {
    AppendedIsQueued(w, w', head, added, k);
    assert k in rest + added;
    QueuedIsDrawn(v, w, w', gone, head, k);
  }

  /** In a clear state a pass queues nothing that has been removed. */
  lemma NotQueuedAfter(v: View, w: View, w': View, target: Key, gone: set<Key>, head: Key, rest: seq<Key>,
                       added: seq<Key>, k: Key)
    requires Clear(v, target) && v.nodes == v.succ.Keys && Taken(v, w, gone) && Appended(w, w', head, added, true)
    requires head in Doomed(v, target) && !Repeated(gone, [head] + rest) && k in rest + added
    ensures k !in gone + {head}
  {
    TailOnce(head, rest);
    if k in rest {
      assert k in [head] + rest;
    } else {
      AppendedIsQueued(w, w', head, added, k);
      QueuedIsThere(v, w, w', target, gone, head, k);
    }
  }

  /** And nothing that waits. */
  lemma NotQueuedTwice(v: View, w: View, w': View, target: Key, gone: set<Key>, head: Key, rest: seq<Key>,
                       added: seq<Key>)
    requires Clear(v, target) && DigestsIdentify(v) && v.nodes == v.succ.Keys && Tidy(v, target, gone, [head] + rest)
    requires Taken(v, w, gone) && Taken(v, w', gone + {head}) && Passes(w, head, w', added, true)
    requires gone + {head} + SetOf(rest + added) <= Doomed(v, target)
    ensures !Repeated(gone + {head}, rest + added)
  {
    var queue, next := [head] + rest, rest + added;
    var n: nat, f: nat :| Phase(v, target, gone, queue, n, f);
    HeadIsThere(gone, head, rest);
    forall k | k in next
      ensures k !in gone + {head}
    {
      NotQueuedAfter(v, w, w', target, gone, head, rest, added, k);
    }
    if !NoRepeats(next) {
      StepCounted(v, w, w', target, gone, head, rest, added);
      var k := RepeatCounted(next);
      assert k in next && CountedAt(v, target, gone + {head}, next, k);
      assert queue[0] == head;
      TwiceIsApart(v, target, gone, queue, head, k, n, f);
    }
  }

  /** A node that is queued has not been removed. */
  lemma QueuedIsThere(v: View, w: View, w': View, target: Key, gone: set<Key>, head: Key, k: Key)
    requires Clear(v, target) && v.nodes == v.succ.Keys && Taken(v, w, gone) && head in Doomed(v, target)
    requires Queued(w, w', head, k)
    ensures k !in gone && k != head
  {
    SourcesLeft(v.succ, gone, head);
    SourcesLeft(v.succ, gone, k);
    assert head !in Sources(v.succ, head);
  }

  lemma TwiceIsApart(v: View, target: Key, gone: set<Key>, queue: seq<Key>, head: Key, k: Key, n: nat, f: nat)
    requires Clear(v, target) && Phase(v, target, gone, queue, n, f) && |queue| > 0 && queue[0] == head
    requires k !in gone && k in Doomed(v, target) && k != target
    ensures !BothWays(v, gone + {head}, k)
  {
    assert queue[..f][0] == head;
    assert gone + {head} <= Round(v, target, n);
    assert Apart(v, target, k) && ApartAt(v, target, k, n);
    if BothWays(v, gone + {head}, k) {
      BothWaysMonotone(v, gone + {head}, Round(v, target, n), k);
    }
  }

  // ----- the deletion loop -----

  /** The queue: round by round unless something is in it again, which a clear state rules out. */
  ghost predicate Orderly(v: View, target: Key, gone: set<Key>, queue: seq<Key>, autoGC: bool) {
    if autoGC then DigestsIdentify(v) ==>
      && (Repeated(gone, queue) || Tidy(v, target, gone, queue))
      && (Clear(v, target) ==> !Repeated(gone, queue))
    else (gone == {} && queue == [target]) || (gone == {target} && queue == [])
  }

  /** The state of the deletion loop. */
  ghost predicate Going(v: View, w: View, target: Key, gone: set<Key>, queue: seq<Key>, autoGC: bool) {
    v.nodes == v.succ.Keys && Run(v, w, target, gone, SetOf(queue), autoGC) && Orderly(v, target, gone, queue, autoGC)
  }

  /**
   What a deletion of `target` from `v` has done when it returns in state `w`.
   - `gone` has been taken out of references and graph. No blob of any other digest is missing.
   - When it succeeded, the blobs of `gone` are gone as well, each key had one of its own, and nothing else is drawn
     along.
   - Without garbage collection it succeeds, on a sound disk, exactly if the blob is there.
   - Whether or not it succeeded, everything in `gone` had been drawn along by `gone` and was to be removed. When it
     succeeded, that is all that was to be removed, and no node had two reasons to go in the same round. On a sound
     disk it succeeds if the state was clear.
   */
  ghost predicate Deleted(v: View, w: View, target: Key, gone: set<Key>, ok: bool, sound: bool, autoGC: bool) {
    && Taken(v, w, gone)
    && (forall d :: d in v.files && d !in Digests(gone) ==> d in w.files)
    && (ok ==> target in gone && w.files == v.files - Digests(gone) && OwnBlobs(v, gone))
    && (ok && autoGC ==> Complete(v, gone))
    && (!autoGC ==> gone <= {target} && (sound ==> (ok <==> target.digest in v.files)))
    && (DigestsIdentify(v) ==> Reasons(v, target, gone, gone))
    && (DigestsIdentify(v) && autoGC ==>
          && gone <= Doomed(v, target)
          && (ok ==> gone == Doomed(v, target))
          && (ok ==> forall k {:trigger Clashes(v, target, k)} :: k in gone && k != target ==> !Clashes(v, target, k))
          && (sound && Clear(v, target) ==> ok))
  }

  lemma StartGoing(v: View, queue: seq<Descriptor>, target: Descriptor, autoGC: bool)
    requires v.nodes == v.succ.Keys && queue == [target]
    ensures Going(v, v, KeyOf(target), {}, Keys(queue), autoGC)
  {
    assert Keys(queue) == [KeyOf(target)];
    StartRun(v, queue, target, autoGC);
    StartTidy(v, KeyOf(target));
  }

  lemma StepOrderly(v: View, w: View, w': View, target: Key, gone: set<Key>, head: Key, rest: seq<Key>, added: seq<Key>)
    requires DigestsIdentify(v) && v.nodes == v.succ.Keys && Orderly(v, target, gone, [head] + rest, true)
    requires Run(v, w, target, gone, SetOf([head] + rest), true) && Passes(w, head, w', added, true)
    requires Run(v, w', target, gone + {head}, SetOf(rest + added), true)
    ensures Orderly(v, target, gone + {head}, rest + added, true)
  {
    assert head !in gone by {
      StepBlobs(v, gone, head);
    }
    if Repeated(gone, [head] + rest) {
      StaysRepeated(gone, head, rest, added);
    } else {
      if Clear(v, target) {
        NeededIsDoomed(v, target, gone + {head} + SetOf(rest + added), gone + {head} + SetOf(rest + added));
        NotQueuedTwice(v, w, w', target, gone, head, rest, added);
      }
      if !Repeated(gone + {head}, rest + added) {
        StepTidy(v, w, w', target, gone, head, rest, added);
      }
    }
  }

  lemma StepGoing(v: View, w: View, w': View, target: Key, gone: set<Key>, head: Key, rest: seq<Key>, added: seq<Key>,
                  autoGC: bool)
    requires Going(v, w, target, gone, [head] + rest, autoGC) && Passes(w, head, w', added, autoGC)
    ensures Going(v, w', target, gone + {head}, rest + added, autoGC)
  {
    SetOfConcat([head], rest);
    SetOfConcat(rest, added);
    assert SetOf([head]) == {head};
    StepRun(v, w, w', target, gone, head, SetOf(rest), added, autoGC);
    if autoGC && DigestsIdentify(v) {
      StepOrderly(v, w, w', target, gone, head, rest, added);
    }
    if !autoGC {
      assert [head] + rest == [target];
      assert |rest| == |[head] + rest| - 1;
    }
  }

  /** A pass that fails, on a sound disk at an obstacle. A clear state has none. */
  lemma StopGoing(v: View, w: View, w': View, target: Key, gone: set<Key>, head: Key, rest: seq<Key>, part: set<Key>,
                  sound: bool, autoGC: bool)
    requires Going(v, w, target, gone, [head] + rest, autoGC) && (sound ==> Obstacle(w, head, autoGC))
    requires part <= {head} && Taken(w, w', part) && w'.files == w.files
    ensures Deleted(v, w', target, gone + part, false, sound, autoGC)
  {
    SetOfConcat([head], rest);
    assert SetOf([head]) == {head} && ([head] + rest)[0] == head;
    StopRun(v, w, w', target, gone, head, SetOf(rest), autoGC, part);
    if autoGC && DigestsIdentify(v) && Clear(v, target) {
      NeededIsDoomed(v, target, gone + ({head} + SetOf(rest)), gone + ({head} + SetOf(rest)));
      HeadIsThere(gone, head, rest);
      ClearHead(v, w, target, gone, head, autoGC);
    }
    assert Digests({}) == {};
  }

  lemma EndGoing(v: View, w: View, target: Key, gone: set<Key>, sound: bool, autoGC: bool)
    requires Going(v, w, target, gone, [], autoGC)
    ensures Deleted(v, w, target, gone, true, sound, autoGC)
  {
    assert SetOf<Key>([]) == {};
    assert !Repeated(gone, []);
    EndRun(v, w, target, gone, autoGC);
  }

  /**
   A chain of referrers is no obstacle: if `p` refers to `k` and nothing points to `p`, then `p` goes a round after
   `k`, and only then does `k` lose its last predecessor.
   */
  lemma FollowerApart(v: View, target: Key, k: Key, p: Key)
    requires p != target && p in Sources(v.succ, k) && RefersTo(v.files, p, k) && Sources(v.succ, p) == {}
    ensures Apart(v, target, k)
  {
    forall n: nat
      ensures ApartAt(v, target, k, n)
    {
      if BothWays(v, Round(v, target, n), k) {
        assert p in Round(v, target, n);
        FollowsLater(v, target, k, p, n);
      }
    }
  }

  lemma {:induction false} FollowsLater(v: View, target: Key, k: Key, p: Key, n: nat)
    requires p != target && RefersTo(v.files, p, k) && Sources(v.succ, p) == {} && p in Round(v, target, n)
    ensures n > 0 && k in Round(v, target, n - 1)
  {
    if p in Round(v, target, n - 1) {
      FollowsLater(v, target, k, p, n - 1);
      RoundsGrow(v, target, n - 2, n - 1);
    } else {
      assert Drawn(v, Round(v, target, n - 1), p);
    }
  }

  /**
   Nor is a list that goes later: if `k` and `r` refer to the target, and the list `p` that points to `k` refers to `r`,
   then `k` goes in the first round and `p` not before the second.
   */
  lemma ListedLaterApart(v: View, target: Key, k: Key, r: Key, p: Key)
    requires Referrer(v, k, target) && r != target && p != target
    requires p in Sources(v.succ, k) && RefersTo(v.files, p, r) && Sources(v.succ, p) == {}
    ensures Apart(v, target, k)
  {
    forall n: nat
      ensures ApartAt(v, target, k, n)
    {
      ListedLaterAt(v, target, k, r, p, n);
    }
  }

  lemma OrphanLosesAll(v: View, gone: set<Key>, k: Key, p: Key)
    requires BothWays(v, gone, k) && p in Sources(v.succ, k)
    ensures p in gone
  {
  }

  lemma ListedLaterAt(v: View, target: Key, k: Key, r: Key, p: Key, n: nat)
    requires Referrer(v, k, target) && r != target && p != target
    requires p in Sources(v.succ, k) && RefersTo(v.files, p, r) && Sources(v.succ, p) == {}
    ensures ApartAt(v, target, k, n)
  {
    var gone := Round(v, target, n);
    if BothWays(v, gone, k) {
      OrphanLosesAll(v, gone, k, p);
      NotInFirst(v, target, r, p, n);
      FirstRound(v, target, k);
      RoundsGrow(v, target, 1, n - 1);
    }
  }

  lemma FirstRound(v: View, target: Key, k: Key)
    requires Referrer(v, k, target)
    ensures k in Round(v, target, 1)
  {
    var start := Round(v, target, 0);
    assert start == {target};
    assert Drawn(v, start, k);
    RoundDraws(v, target, 0, start, k);
  }

  lemma NotInFirst(v: View, target: Key, r: Key, p: Key, n: nat)
    requires p != target && r != target && RefersTo(v.files, p, r) && Sources(v.succ, p) == {}
    requires p in Round(v, target, n)
    ensures n >= 2
  {
    FollowsLater(v, target, r, p, n);
    assert Round(v, target, 0) == {target};
  }

  // ----- a state in which the order decides -----

  /**
   The graph is the target and two manifests that refer to it, the index `i` and the manifest `r`, of which `i` also
   lists `r`. Nothing is missing, and `r` has no tag.
   */
  ghost predicate Fork(v: View, t: Key, i: Key, r: Key) {
    && t.digest != i.digest && t.digest != r.digest && i.digest != r.digest && IsManifest(t.mediaType)
    && v.nodes == {t, i, r} && v.succ.Keys == v.nodes && t.digest in v.files
    && Sources(v.succ, t) == {i, r} && Sources(v.succ, i) == {} && Sources(v.succ, r) == {i}
    && RefersTo(v.files, i, t) && RefersTo(v.files, r, t)
    && !Tagged(v, r) && DigestsIdentify(v)
  }

  /** A pass that appends nothing, or one key. */
  lemma AppendsOnly(w: View, w': View, head: Key, added: seq<Key>, only: seq<Key>)
    requires Appended(w, w', head, added, true) && |only| <= 1
    requires forall k :: !Referrer(w, k, head) && (Dangling(w, w', head, k) <==> k in only)
    ensures added == only
  {
    forall k
      ensures multiset(added)[k] == multiset(only)[k]
    {
      AppendedCount(w, w', head, added, k);
      CountOnce(only, k);
    }
    assert multiset(added) == multiset(only);
    SameShortList(added, only);
  }

  lemma SameShortList(a: seq<Key>, b: seq<Key>)
    requires multiset(a) == multiset(b) && |b| <= 1
    ensures a == b
  {
    assert |a| == |multiset(a)| == |multiset(b)| == |b|;
    if |b| == 1 {
      assert a[0] in multiset(a);
    }
  }

  /** Deleting the target queues both referrers, in either order. */
  lemma ForkTarget(v: View, t: Key, i: Key, r: Key, w: View)
    requires Fork(v, t, i, r) && Taken(v, w, {t}) && w.files == v.files - {t.digest}
    ensures Passes(v, t, w, [i, r], true) && Passes(v, t, w, [r, i], true)
  {
    forall k
      ensures !Dangling(v, w, t, k) && (Referrer(v, k, t) <==> k == i || k == r)
    {
      assert i in Sources(v.succ, t) && r in Sources(v.succ, t);
      assert k in v.nodes ==> Sources(v.succ, k) != {t};
    }
    assert [i, r][..2] == [i, r] && [i, r][2..] == [];
    assert [r, i][..2] == [r, i] && [r, i][2..] == [];
    assert ReferrerList(v, t, [i, r]) && ReferrerList(v, t, [r, i]) && DanglingList(v, w, t, []);
  }

  /** After the target is gone, only `i` points to `r` and nothing points to `i`. */
  lemma ForkLeft(v: View, t: Key, i: Key, r: Key, w: View)
    requires Fork(v, t, i, r) && Taken(v, w, {t})
    ensures w.nodes == {i, r} && Sources(w.succ, i) == {} && Sources(w.succ, r) == {i} && DigestsIdentify(w)
    ensures !Tagged(w, r)
  {
    SourcesLeft(v.succ, {t}, i);
    SourcesLeft(v.succ, {t}, r);
    assert TagsKept(v, w, r);
  }

  /** With `i` first, `r` is queued again while it still waits, and its second turn finds no blob. */
  lemma ForkFails(v: View, t: Key, i: Key, r: Key, w1: View, w2: View, w3: View, added2: seq<Key>, added3: seq<Key>)
    requires Fork(v, t, i, r) && Passes(v, t, w1, [i, r], true)
    requires Passes(w1, i, w2, added2, true) && Passes(w2, r, w3, added3, true)
    ensures added2 == [r] && added3 == [] && Obstacle(w3, r, true) && Readable(w3, r)
  {
    ForkLeft(v, t, i, r, w1);
    ForkAgain(w1, i, r, w2, added2);
    SourcesLeft(w1.succ, {i}, r);
    assert Sources(w2.succ, r) == {} && w2.nodes == {r};
    AppendsOnly(w2, w3, r, added3, []);
    SourcesLeft(w2.succ, {r}, r);
    assert Sources(w3.succ, r) == {};
  }

  lemma ForkAgain(w1: View, i: Key, r: Key, w2: View, added: seq<Key>)
    requires w1.nodes == {i, r} && i != r && Sources(w1.succ, i) == {} && Sources(w1.succ, r) == {i}
    requires DigestsIdentify(w1) && !Tagged(w1, r) && Passes(w1, i, w2, added, true)
    ensures added == [r]
  {
    assert TagsKept(w1, w2, r);
    AppendsOnly(w1, w2, i, added, [r]);
  }

  /** With `r` first, the same deletion goes through. */
  lemma ForkSucceeds(v: View, t: Key, i: Key, r: Key, w1: View, w2: View, w3: View, added2: seq<Key>, added3: seq<Key>)
    requires Fork(v, t, i, r) && Passes(v, t, w1, [r, i], true)
    requires Passes(w1, r, w2, added2, true) && Passes(w2, i, w3, added3, true)
    ensures added2 == [] && added3 == []
  {
    ForkLeft(v, t, i, r, w1);
    assert RefersTo(w1.files, i, t);
    AppendsOnly(w1, w2, r, added2, []);
    SourcesLeft(w1.succ, {r}, i);
    assert Sources(w2.succ, i) == {} && w2.nodes == {i};
    AppendsOnly(w2, w3, i, added3, []);
  }

  // ----- both runs exist -----

  /** The state after `k` has been removed. */
  function Removed(v: View, k: Key): View {
    View(v.nodes - {k}, v.succ - {k}, v.files - {k.digest}, Without(v.index, {k}), v.tags - {k.digest})
  }

  lemma RemovedIsTaken(v: View, k: Key)
    requires forall n :: n in v.nodes && n.digest == k.digest ==> n == k
    ensures Taken(v, Removed(v, k), {k})
  {
    var w := Removed(v, k);
    forall d
      ensures TagsShrink(v, w, d)
    {
    }
    forall n
      ensures TagsKept(v, w, n)
    {
    }
  }

  /** Removing a node without referrers appends what it alone points to. */
  lemma PassOn(w: View, head: Key, only: seq<Key>)
    requires head.digest in w.files && Readable(w, head) && NoRepeats(only) && forall k :: !Referrer(w, k, head)
    requires forall n :: n in w.nodes && n.digest == head.digest ==> n == head
    requires forall k :: k in only <==> Dangling(w, Removed(w, head), head, k)
    ensures Passes(w, head, Removed(w, head), only, true)
  {
    RemovedIsTaken(w, head);
    assert only[..0] == [] && only[0..] == only;
    assert ReferrerList(w, head, only[..0]) && DanglingList(w, Removed(w, head), head, only[0..]);
  }

  /** In every such state the deletion has a run that ends with the second turn of `r`, which finds no blob. */
  lemma ForkCanFail(v: View, t: Key, i: Key, r: Key) returns (w1: View, w2: View, w3: View)
    requires Fork(v, t, i, r)
    ensures Passes(v, t, w1, [i, r], true) && Passes(w1, i, w2, [r], true) && Passes(w2, r, w3, [], true)
    ensures Obstacle(w3, r, true) && Readable(w3, r)
  {
    w1 := Removed(v, t);
    w2 := Removed(w1, i);
    w3 := Removed(w2, r);
    RemovedIsTaken(v, t);
    ForkTarget(v, t, i, r, w1);
    ForkLeft(v, t, i, r, w1);
    PassOn(w1, i, [r]);
    SourcesLeft(w1.succ, {i}, r);
    assert Sources(w2.succ, r) == {};
    PassOn(w2, r, []);
    ForkFails(v, t, i, r, w1, w2, w3, [r], []);
  }

  /** And it has one in which the queue runs empty. */
  lemma ForkCanSucceed(v: View, t: Key, i: Key, r: Key) returns (w1: View, w2: View, w3: View)
    requires Fork(v, t, i, r)
    ensures Passes(v, t, w1, [r, i], true) && Passes(w1, r, w2, [], true) && Passes(w2, i, w3, [], true)
    ensures w3.nodes == {}
  {
    w1 := Removed(v, t);
    w2 := Removed(w1, r);
    w3 := Removed(w2, i);
    RemovedIsTaken(v, t);
    ForkTarget(v, t, i, r, w1);
    ForkLeft(v, t, i, r, w1);
    ForkReadable(v, t, i, r, w1);
    PassOn(w1, r, []);
    SourcesLeft(w1.succ, {r}, i);
    assert Sources(w2.succ, i) == {};
    PassOn(w2, i, []);
  }

  /** The index refers to the target, so it can be read and does not refer to `r`. */
  lemma ForkReadable(v: View, t: Key, i: Key, r: Key, w1: View)
    requires Fork(v, t, i, r) && w1.files == v.files - {t.digest} && Sources(w1.succ, r) == {i}
    ensures Readable(w1, r) && forall k :: !Referrer(w1, k, r)
  {
    assert RefersTo(w1.files, i, t);
  }

  /** Such a state is not clear: `r` loses its last predecessor in the round in which it goes itself. */
  lemma ForkNotClear(v: View, t: Key, i: Key, r: Key)
    requires Fork(v, t, i, r)
    ensures !Clear(v, t)
  {
    DoomedIsLeast(v, t);
    assert i in Sources(v.succ, t) && r in Sources(v.succ, t);
    assert Referrer(v, i, t) && Referrer(v, r, t);
    assert t in Round(v, t, 0) && t in Round(v, t, 1);
    assert Drawn(v, Round(v, t, 0), i) && Drawn(v, Doomed(v, t), r);
    RoundDraws(v, t, 0, Round(v, t, 0), i);
    assert BothWays(v, Round(v, t, 1), r);
    assert !ApartAt(v, t, r, 1);
    assert r in Doomed(v, t) && !Apart(v, t, r);
  }

  /** There is such a state. */
  lemma ForkExists() returns (v: View, t: Key, i: Key, r: Key)
    ensures Fork(v, t, i, r) && v.succ == map[t := {}, i := {t, r}, r := {t}]
    ensures forall k :: k in v.succ ==>
      ReadSuccessors(v.files, k).Ok? && v.succ[k] == SetOf(Keys(ReadSuccessors(v.files, k).value))
  {
    t, i, r := Key(ArtifactManifest, "t", 1), Key(ImageIndex, "i", 2), Key(ArtifactManifest, "r", 3);
    var dt, di, dr := Content.Plain(t), Content.Plain(i), Content.Plain(r);
    var files := map["t" := File(1, Json(None, dt, [], [], [])),
                     "i" := File(2, Json(Some(dt), dt, [], [dr], [])),
                     "r" := File(3, Json(Some(dt), dt, [], [], []))];
    v := View({t, i, r}, map[t := {}, i := {t, r}, r := {t}], files,
              map["t" := dt, "i" := di, "r" := dr], map["t" := {"t"}, "i" := {"i"}, "r" := {"r"}]);
    assert ReadSuccessors(files, t).value == [];
    assert ReadSuccessors(files, r).value == [dt];
    assert ReadSuccessors(files, i).value == [dt] + [dr];
    assert Keys([dt]) == [t] && Keys([dt] + [dr]) == [t, r] && Keys([]) == [];
  }

  // ----- a state in which every order fails -----

  /** With a node that clashes no deletion succeeds. */
  lemma ClashFails(v: View, w: View, target: Key, gone: set<Key>, ok: bool, sound: bool, k: Key)
    requires DigestsIdentify(v) && Deleted(v, w, target, gone, ok, sound, true)
    requires k in Doomed(v, target) && k != target && Clashes(v, target, k)
    ensures !ok
  {
  }

  const CLASH_TARGET := Key(ArtifactManifest, "t", 1)
  const CLASH_SUBJECT := Key(ArtifactManifest, "m", 2)
  const CLASH_LIST := Key(ImageIndex, "p", 3)
  const CLASH_NODE := Key(ArtifactManifest, "k", 4)

  /**
   Nothing is missing. The manifest "m" and the index "p" refer to the target "t", "k" refers to "m", and "p" lists "k".
   */
  function ClashFiles(): Files {
    var target, node := Content.Plain(CLASH_TARGET), Content.Plain(CLASH_NODE);
    map["t" := File(1, Json(None, target, [], [], [])),
        "m" := File(2, Json(Some(target), target, [], [], [])),
        "p" := File(3, Json(Some(target), target, [], [node], [])),
        "k" := File(4, Json(Some(Content.Plain(CLASH_SUBJECT)), target, [], [], []))]
  }

  function ClashEdges(): map<Key, set<Key>> {
    map[CLASH_TARGET := {}, CLASH_SUBJECT := {CLASH_TARGET}, CLASH_LIST := {CLASH_TARGET, CLASH_NODE},
        CLASH_NODE := {CLASH_SUBJECT}]
  }

  function ClashView(): View {
    View({CLASH_TARGET, CLASH_SUBJECT, CLASH_LIST, CLASH_NODE}, ClashEdges(), ClashFiles(),
         map["t" := Content.Plain(CLASH_TARGET), "m" := Content.Plain(CLASH_SUBJECT), "p" := Content.Plain(CLASH_LIST),
             "k" := Content.Plain(CLASH_NODE)],
         map["t" := {"t"}, "m" := {"m"}, "p" := {"p"}, "k" := {"k"}])
  }

  /** The edges are those that the manifests give. */
  lemma ClashReads()
    ensures forall n :: n in ClashEdges() ==>
      && ReadSuccessors(ClashFiles(), n).Ok?
      && ClashEdges()[n] == SetOf(Keys(ReadSuccessors(ClashFiles(), n).value))
  {
    var target, node := Content.Plain(CLASH_TARGET), Content.Plain(CLASH_NODE);
    var subject := Content.Plain(CLASH_SUBJECT);
    assert ReadSuccessors(ClashFiles(), CLASH_TARGET).value == [];
    assert ReadSuccessors(ClashFiles(), CLASH_SUBJECT).value == [target];
    assert ReadSuccessors(ClashFiles(), CLASH_LIST).value == [target] + [node];
    assert ReadSuccessors(ClashFiles(), CLASH_NODE).value == [subject];
    assert Keys([target]) == [CLASH_TARGET] && Keys([subject]) == [CLASH_SUBJECT] && Keys([]) == [];
    assert Keys([target] + [node]) == [CLASH_TARGET, CLASH_NODE];
  }

  lemma ClashSources()
    ensures CLASH_SUBJECT in Sources(ClashEdges(), CLASH_TARGET) && CLASH_LIST in Sources(ClashEdges(), CLASH_TARGET)
    ensures CLASH_NODE in Sources(ClashEdges(), CLASH_SUBJECT) && Sources(ClashEdges(), CLASH_NODE) == {CLASH_LIST}
  {
  }

  lemma ClashSubjects()
    ensures RefersTo(ClashFiles(), CLASH_SUBJECT, CLASH_TARGET) && RefersTo(ClashFiles(), CLASH_LIST, CLASH_TARGET)
    ensures RefersTo(ClashFiles(), CLASH_NODE, CLASH_SUBJECT)
  {
  }

  lemma ClashBlobs()
    ensures OwnBlobs(ClashView(), ClashView().nodes)
  {
  }

  lemma ClashUntagged()
    ensures !Tagged(ClashView(), CLASH_NODE)
  {
    assert TagsOf(ClashView().tags, "k") == {"k"};
  }

  /** Each reference is the digest of a node. */
  lemma ClashIndex(k: Key, ref: string)
    requires k in ClashView().nodes && ref in ClashView().index && ClashView().index[ref].digest == k.digest
    ensures KeyOf(ClashView().index[ref]) == k
  {
  }

  /** There is a state with a node that clashes. */
  lemma ClashExists()
    ensures ClashView().nodes == ClashView().succ.Keys && DigestsIdentify(ClashView())
    ensures OwnBlobs(ClashView(), ClashView().nodes)
    ensures CLASH_NODE in Doomed(ClashView(), CLASH_TARGET) && Clashes(ClashView(), CLASH_TARGET, CLASH_NODE)
  {
    ClashSources();
    ClashSubjects();
    ClashUntagged();
    ClashBlobs();
    forall k, ref | k in ClashView().nodes && ref in ClashView().index && ClashView().index[ref].digest == k.digest
      ensures KeyOf(ClashView().index[ref]) == k
    {
      ClashIndex(k, ref);
    }
    ClashOf(ClashView(), CLASH_TARGET, CLASH_SUBJECT, CLASH_LIST, CLASH_NODE);
  }

  lemma ClashOf(v: View, t: Key, m: Key, p: Key, k: Key)
    requires k != t && m != t && p != t && k in v.nodes && IsManifest(t.mediaType) && IsManifest(m.mediaType)
    requires m in Sources(v.succ, t) && p in Sources(v.succ, t) && k in Sources(v.succ, m) && Sources(v.succ, k) == {p}
    requires RefersTo(v.files, m, t) && RefersTo(v.files, p, t) && RefersTo(v.files, k, m) && !Tagged(v, k)
    ensures k in Doomed(v, t) && Clashes(v, t, k)
  {
    var first, all := Round(v, t, 1), Doomed(v, t);
    assert Round(v, t, 0) == {t};
    assert Referrer(v, m, t) && Referrer(v, p, t) && Referrer(v, k, m);
    assert Drawn(v, {t}, m) && Drawn(v, {t}, p);
    RoundDraws(v, t, 0, {t}, m);
    RoundDraws(v, t, 0, {t}, p);
    assert !Drawn(v, {t}, k);
    assert ClashesAt(v, t, k, 1);
    DoomedIsLeast(v, t);
    DrawnMonotone(v, {t}, all, m);
    assert Drawn(v, all, k);
  }
}
